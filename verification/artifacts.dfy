/** A persisted table ("artifact") is either absent or a sequence of rows.
    Writers either overwrite it, or append to it in the `save_or_append` style:
    create with header when absent, otherwise extend. */
module Artifacts {
  import opened Wrappers
  import opened Seqs

  type Artifact<T> = Option<seq<T>>

  /** `save_or_append`: the first write creates the table, later ones extend it. */
  function SaveOrAppend<T>(dest: Artifact<T>, batch: seq<T>): (r: Artifact<T>)
    ensures r.Some?
    ensures dest.None? ==> r.value == batch
    ensures dest.Some? ==> |r.value| == |dest.value| + |batch|
    ensures dest.Some? ==> r.value[..|dest.value|] == dest.value && r.value[|dest.value|..] == batch
  {
    match dest
    case None => Some(batch)
    case Some(rows) => Some(rows + batch)
  }

  /** Writing a stream of batches one after the other. */
  function AppendAll<T>(dest: Artifact<T>, batches: seq<seq<T>>): (r: Artifact<T>)
    ensures |batches| == 0 ==> r == dest
    ensures |batches| > 0 ==> r.Some?
    ensures dest.Some? ==> r.Some? && |dest.value| <= |r.value| && r.value[..|dest.value|] == dest.value
    ensures r.Some? ==> |r.value| == (if dest.Some? then |dest.value| else 0) + |Concat(batches)|
  {
    if |batches| == 0 then dest
    else SaveOrAppend(AppendAll(dest, batches[..|batches| - 1]), batches[|batches| - 1])
  }

  /** Starting from an absent table, the result is the in-order concatenation
      of the batches; with no batch at all, the table is never created. */
  lemma {:induction false} AppendAllFresh<T>(batches: seq<seq<T>>)
    ensures |batches| == 0 ==> AppendAll(None, batches) == None
    ensures |batches| > 0 ==> AppendAll(None, batches) == Some(Concat(batches))
    decreases |batches|
  {
    if |batches| > 1 {
      AppendAllFresh(batches[..|batches| - 1]);
    } else if |batches| == 1 {
      assert batches[..0] == [];
      assert AppendAll(None, batches) == SaveOrAppend(AppendAll(None, batches[..0]), batches[0]);
      assert Concat(batches) == Concat(batches[..0]) + batches[0];
      assert Concat(batches) == batches[0];
    }
  }

  /** Starting from an existing table, the batches are appended after its rows:
      re-running a build without clearing the table duplicates data. */
  lemma {:induction false} AppendAllExisting<T>(rows: seq<T>, batches: seq<seq<T>>)
    ensures AppendAll(Some(rows), batches) == Some(rows + Concat(batches))
    decreases |batches|
  {
    if |batches| > 0 {
      var init := batches[..|batches| - 1];
      AppendAllExisting(rows, init);
      assert AppendAll(Some(rows), batches) == SaveOrAppend(AppendAll(Some(rows), init), batches[|batches| - 1]);
      var last := batches[|batches| - 1];
      assert SaveOrAppend(Some(rows + Concat(init)), last) == Some(rows + Concat(init) + last);
      assert Concat(batches) == Concat(init) + last;
      assert rows + Concat(init) + last == rows + Concat(batches);
    } else {
      assert rows + Concat(batches) == rows;
    }
  }

  /** Delete the destination, then append every batch: the fresh build. */
  function Rebuild<T>(dest: Artifact<T>, batches: seq<seq<T>>): (r: Artifact<T>)
    ensures |batches| == 0 <==> r.None?
    ensures r.Some? ==> r.value == Concat(batches)
  {
    AppendAllFresh(batches);
    AppendAll(None, batches)
  }
}
