/** Table-shaping operations on sequences of rows: concatenating batches,
    boolean-mask selection (`df[mask]`), element-wise mapping, and
    keep-first de-duplication on a key (`drop_duplicates(subset=...)`). */
module Seqs {

  // ---------------------------------------------------------------------------
  // Concatenation of batches
  // ---------------------------------------------------------------------------

  /** The rows of all batches, batch after batch. */
  function Concat<T>(batches: seq<seq<T>>): (r: seq<T>)
    ensures |batches| == 0 ==> r == []
    ensures |batches| > 0 ==> |r| >= |batches[|batches| - 1]|
  {
    if |batches| == 0 then []
    else Concat(batches[..|batches| - 1]) + batches[|batches| - 1]
  }

  lemma {:induction false} ConcatAppend<T>(a: seq<seq<T>>, b: seq<seq<T>>)
    ensures Concat(a + b) == Concat(a) + Concat(b)
    decreases |b|
  {
    if |b| == 0 {
      assert a + b == a;
    } else {
      var b' := b[..|b| - 1];
      assert (a + b)[..|a + b| - 1] == a + b';
      ConcatAppend(a, b');
    }
  }

  // ---------------------------------------------------------------------------
  // Element-wise mapping
  // ---------------------------------------------------------------------------

  function MapAll<T, U>(f: T -> U, s: seq<T>): (r: seq<U>)
    ensures |r| == |s|
    ensures forall i :: 0 <= i < |s| ==> r[i] == f(s[i])
  {
    seq(|s|, i requires 0 <= i < |s| => f(s[i]))
  }

  /** Mapping each batch and concatenating equals concatenating and mapping:
      batch boundaries are invisible to a row-wise operation. */
  lemma {:induction false} MapConcat<T, U>(f: T -> U, batches: seq<seq<T>>)
    ensures Concat(MapAll(s => MapAll(f, s), batches)) == MapAll(f, Concat(batches))
    decreases |batches|
  {
    if |batches| > 0 {
      var init := batches[..|batches| - 1];
      MapConcat(f, init);
      var g := (s: seq<T>) => MapAll(f, s);
      assert MapAll(g, batches)[..|batches| - 1] == MapAll(g, init);
    }
  }

  // ---------------------------------------------------------------------------
  // Boolean-mask selection
  // ---------------------------------------------------------------------------

  /** The rows whose mask entry is true, in their original order. */
  function MaskSelect<T>(rows: seq<T>, mask: seq<bool>): (r: seq<T>)
    requires |mask| == |rows|
    ensures |r| <= |rows|
    ensures forall x :: x in r ==> x in rows
  {
    if |rows| == 0 then []
    else
      var init := MaskSelect(rows[..|rows| - 1], mask[..|rows| - 1]);
      if mask[|rows| - 1] then init + [rows[|rows| - 1]] else init
  }

  /** An element is selected iff it sits at some position whose mask is set. */
  lemma {:induction false} MaskSelectMembership<T>(rows: seq<T>, mask: seq<bool>, x: T)
    requires |mask| == |rows|
    ensures x in MaskSelect(rows, mask) <==> exists i :: 0 <= i < |rows| && mask[i] && rows[i] == x
    decreases |rows|
  {
    if |rows| > 0 {
      var n := |rows| - 1;
      MaskSelectMembership(rows[..n], mask[..n], x);
      if x in MaskSelect(rows, mask) && x !in MaskSelect(rows[..n], mask[..n]) {
        assert mask[n] && rows[n] == x;
      }
      if exists i :: 0 <= i < |rows| && mask[i] && rows[i] == x {
        var i :| 0 <= i < |rows| && mask[i] && rows[i] == x;
        if i < n {
          assert rows[..n][i] == x && mask[..n][i];
        }
      }
    }
  }

  /** Selection with the all-true mask keeps every row. */
  lemma {:induction false} MaskSelectAll<T>(rows: seq<T>, mask: seq<bool>)
    requires |mask| == |rows|
    requires forall i :: 0 <= i < |mask| ==> mask[i]
    ensures MaskSelect(rows, mask) == rows
    decreases |rows|
  {
    if |rows| > 0 {
      var n := |rows| - 1;
      MaskSelectAll(rows[..n], mask[..n]);
      assert rows[..n] + [rows[n]] == rows;
    }
  }

  /** Selection distributes over concatenation, which is what keeping rows "in
      their original order" means. */
  lemma {:induction false} MaskSelectAppend<T>(a: seq<T>, ma: seq<bool>, b: seq<T>, mb: seq<bool>)
    requires |ma| == |a| && |mb| == |b|
    ensures MaskSelect(a + b, ma + mb) == MaskSelect(a, ma) + MaskSelect(b, mb)
    decreases |b|
  {
    if |b| == 0 {
      assert a + b == a && ma + mb == ma;
    } else {
      var n := |b| - 1;
      assert (a + b)[..|a + b| - 1] == a + b[..n];
      assert (ma + mb)[..|a + b| - 1] == ma + mb[..n];
      MaskSelectAppend(a, ma, b[..n], mb[..n]);
    }
  }

  // ---------------------------------------------------------------------------
  // Keep-first de-duplication
  // ---------------------------------------------------------------------------

  function KeySet<T, K>(s: seq<T>, key: T -> K): set<K> {
    set i | 0 <= i < |s| :: key(s[i])
  }

  /** No earlier row of `s` has the same key as `s[i]`. */
  predicate FirstOccurrence<T, K(==)>(s: seq<T>, key: T -> K, i: int)
    requires 0 <= i < |s|
  {
    forall j :: 0 <= j < i ==> key(s[j]) != key(s[i])
  }

  predicate DistinctKeys<T, K(==)>(s: seq<T>, key: T -> K) {
    forall i, j :: 0 <= i < j < |s| ==> key(s[i]) != key(s[j])
  }

  /** `drop_duplicates(subset=key)` with the default `keep='first'`. */
  function Dedup<T, K(==)>(s: seq<T>, key: T -> K): (r: seq<T>)
    ensures KeySet(r, key) == KeySet(s, key)
    ensures DistinctKeys(r, key)
    ensures |r| <= |s|
    ensures forall x :: x in r ==> x in s
  {
    if |s| == 0 then []
    else
      var n := |s| - 1;
      var init := Dedup(s[..n], key);
      assert s == s[..n] + [s[n]];
      KeySetAppend(s[..n], s[n], key);
      if key(s[n]) in KeySet(s[..n], key) then init
      else
        KeySetAppend(init, s[n], key);
        init + [s[n]]
  }

  /** One more row is kept exactly when its key is new. */
  lemma DedupAppend<T, K>(s: seq<T>, x: T, key: T -> K)
    ensures Dedup(s + [x], key) == if key(x) in KeySet(s, key) then Dedup(s, key) else Dedup(s, key) + [x]
  {
    assert (s + [x])[..|s|] == s;
  }

  lemma KeySetAppend<T, K>(a: seq<T>, x: T, key: T -> K)
    ensures KeySet(a + [x], key) == KeySet(a, key) + {key(x)}
  {
    var r := a + [x];
    forall k | k in KeySet(r, key)
      ensures k in KeySet(a, key) + {key(x)}
    {
      var i :| 0 <= i < |r| && key(r[i]) == k;
      if i < |a| {
        assert r[i] == a[i];
      }
    }
    forall k | k in KeySet(a, key)
      ensures k in KeySet(r, key)
    {
      var i :| 0 <= i < |a| && key(a[i]) == k;
      assert r[i] == a[i];
    }
    assert r[|a|] == x;
  }

  /** The mask that marks each key's first occurrence. */
  function FirstMask<T, K(==)>(s: seq<T>, key: T -> K): (m: seq<bool>)
    ensures |m| == |s|
  {
    seq(|s|, i requires 0 <= i < |s| => FirstOccurrence(s, key, i))
  }

  /** De-duplication keeps exactly the first occurrence of every key, in order. */
  lemma {:induction false} DedupKeepsFirst<T, K>(s: seq<T>, key: T -> K)
    ensures Dedup(s, key) == MaskSelect(s, FirstMask(s, key))
    decreases |s|
  {
    if |s| > 0 {
      var n := |s| - 1;
      var m := FirstMask(s, key);
      DedupKeepsFirst(s[..n], key);
      FirstMaskPrefix(s, key);
      FirstMaskLast(s, key);
      assert MaskSelect(s, m) == (if m[n] then MaskSelect(s[..n], m[..n]) + [s[n]]
                                  else MaskSelect(s[..n], m[..n]));
    }
  }

  lemma FirstMaskPrefix<T, K>(s: seq<T>, key: T -> K)
    requires |s| > 0
    ensures FirstMask(s, key)[..|s| - 1] == FirstMask(s[..|s| - 1], key)
  {
    var n := |s| - 1;
    forall i | 0 <= i < n
      ensures FirstOccurrence(s, key, i) == FirstOccurrence(s[..n], key, i)
    {
      assert forall j :: 0 <= j <= i ==> s[..n][j] == s[j];
    }
  }

  lemma FirstMaskLast<T, K>(s: seq<T>, key: T -> K)
    requires |s| > 0
    ensures FirstMask(s, key)[|s| - 1] <==> key(s[|s| - 1]) !in KeySet(s[..|s| - 1], key)
  {
    var n := |s| - 1;
    if key(s[n]) in KeySet(s[..n], key) {
      var j :| 0 <= j < n && key(s[..n][j]) == key(s[n]);
      assert key(s[j]) == key(s[n]);
    } else {
      forall j | 0 <= j < n
        ensures key(s[j]) != key(s[n])
      {
        assert key(s[..n][j]) in KeySet(s[..n], key);
        assert s[..n][j] == s[j];
      }
    }
  }
}
