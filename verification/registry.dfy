/** Name-keyed registries (`BaseRegistry` and its project flavour). Entries are
    kept in insertion order, so that `All` lists items the way a Python dict
    iterates them. */
module Registry {
  import opened Wrappers
  import opened Projects

  datatype RegistryError = AlreadyExists(name: string) | DoesNotExist(name: string)

  datatype Registry<T> = Registry(entries: seq<(string, T)>)

  function Names<T>(reg: Registry<T>): set<string> {
    set i | 0 <= i < |reg.entries| :: reg.entries[i].0
  }

  /** Every name occurs at most once. */
  predicate Valid<T>(reg: Registry<T>) {
    forall i, j :: 0 <= i < j < |reg.entries| ==> reg.entries[i].0 != reg.entries[j].0
  }

  function Lookup<T>(entries: seq<(string, T)>, name: string): (r: Option<T>)
    ensures r.Some? ==> (name, r.value) in entries
    ensures r.None? ==> forall i :: 0 <= i < |entries| ==> entries[i].0 != name
  {
    if |entries| == 0 then None
    else if entries[|entries| - 1].0 == name then Some(entries[|entries| - 1].1)
    else Lookup(entries[..|entries| - 1], name)
  }

  /** `register(name, item)`: rejects a name that is already taken. */
  function Register<T>(reg: Registry<T>, name: string, item: T): (r: Result<Registry<T>, RegistryError>)
    ensures r.Failure? <==> name in Names(reg)
    ensures r.Failure? ==> r.error == AlreadyExists(name)
    ensures r.Success? ==> Names(r.value) == Names(reg) + {name}
    ensures r.Success? && Valid(reg) ==> Valid(r.value)
  {
    if name in Names(reg) then Failure(AlreadyExists(name))
    else
      var r := Registry(reg.entries + [(name, item)]);
      assert Names(r) == Names(reg) + {name} by {
        assert r.entries[|reg.entries|].0 == name;
        forall n | n in Names(r) ensures n in Names(reg) + {name} {
          var i :| 0 <= i < |r.entries| && r.entries[i].0 == n;
          if i < |reg.entries| { assert r.entries[i] == reg.entries[i]; }
        }
        forall n | n in Names(reg) ensures n in Names(r) {
          var i :| 0 <= i < |reg.entries| && reg.entries[i].0 == n;
          assert r.entries[i] == reg.entries[i];
        }
      }
      Success(r)
  }

  /** `get(name)`: the registered item, or an error for an unknown name. */
  function Get<T>(reg: Registry<T>, name: string): (r: Result<T, RegistryError>)
    ensures r.Failure? <==> name !in Names(reg)
    ensures r.Failure? ==> r.error == DoesNotExist(name)
    ensures r.Success? ==> (name, r.value) in reg.entries
  {
    match Lookup(reg.entries, name)
    case None =>
      assert name !in Names(reg);
      Failure(DoesNotExist(name))
    case Some(item) =>
      assert name in Names(reg) by {
        var i :| 0 <= i < |reg.entries| && reg.entries[i] == (name, item);
      }
      Success(item)
  }

  /** `all()`: the registered items, in registration order. */
  function All<T>(reg: Registry<T>): (r: seq<T>)
    ensures |r| == |reg.entries|
  {
    seq(|reg.entries|, i requires 0 <= i < |reg.entries| => reg.entries[i].1)
  }

  /** A successful registration makes `name` resolve to `item`, leaves every
      other name resolving as before, and appends `item` to `All`. */
  lemma RegisterThenGet<T>(reg: Registry<T>, name: string, item: T, other: string)
    requires Valid(reg)
    requires Register(reg, name, item).Success?
    ensures Get(Register(reg, name, item).value, name) == Success(item)
    ensures other != name ==> Get(Register(reg, name, item).value, other) == Get(reg, other)
    ensures All(Register(reg, name, item).value) == All(reg) + [item]
  {
    var r := Register(reg, name, item).value;
    assert r.entries[..|r.entries| - 1] == reg.entries;
  }

  /** In a valid registry, an item is listed by `All` exactly when some name
      resolves to it. */
  lemma {:induction false} AllIsRegistered<T>(reg: Registry<T>, x: T)
    requires Valid(reg)
    ensures x in All(reg) <==> exists n :: Get(reg, n) == Success(x)
  {
    if x in All(reg) {
      var i :| 0 <= i < |reg.entries| && All(reg)[i] == x;
      var n := reg.entries[i].0;
      LookupUnique(reg.entries, i);
      assert Get(reg, n) == Success(x);
    }
    if exists n :: Get(reg, n) == Success(x) {
      var n :| Get(reg, n) == Success(x);
      var i :| 0 <= i < |reg.entries| && reg.entries[i] == (n, x);
      assert All(reg)[i] == x;
    }
  }

  lemma {:induction false} LookupUnique<T>(entries: seq<(string, T)>, i: int)
    requires 0 <= i < |entries|
    requires forall a, b :: 0 <= a < b < |entries| ==> entries[a].0 != entries[b].0
    ensures Lookup(entries, entries[i].0) == Some(entries[i].1)
    decreases |entries|
  {
    if i < |entries| - 1 {
      LookupUnique(entries[..|entries| - 1], i);
    }
  }

  /** `ProjectRegistry.register(project)`: projects are keyed by their name. */
  function RegisterProject(reg: Registry<Project>, p: Project): (r: Result<Registry<Project>, RegistryError>)
    ensures r.Failure? <==> p.name in Names(reg)
    ensures r.Success? && Valid(reg) ==> Get(r.value, p.name) == Success(p)
  {
    var r := Register(reg, p.name, p);
    if r.Success? && Valid(reg) then RegisterThenGet(reg, p.name, p, p.name); r else r
  }
}
