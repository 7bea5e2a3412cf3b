/** A project's declarative scope (`Scope.index_filter`) and the case index it
    selects from the global index (`Project.build_case_index`). */
module Projects {
  import opened Wrappers
  import opened Dates
  import opened Seqs
  import opened GlobalIndex

  /** Each field is a constraint; a falsy value (None, "", false, an empty
      list) leaves it unset. */
  datatype Scope = Scope(
    caseType: Option<string>,
    minDate: Option<Date>,
    maxDate: Option<Date>,
    closedOnly: bool,
    excludeCourts: seq<string>,
    excludeNosCodes: seq<nat>)

  /** `Scope()` with every argument left at its default. */
  const DefaultScope: Scope := Scope(None, None, None, false, [], [])

  datatype Project = Project(name: string, scope: Scope)

  /** The case-type constraint is set only by a non-empty string. */
  predicate CaseTypeSet(s: Scope) {
    s.caseType.Some? && s.caseType.value != ""
  }

  // ---------------------------------------------------------------------------
  // The per-row constraints and their conjunction
  // ---------------------------------------------------------------------------

  predicate CaseTypeHolds(s: Scope, r: IndexRow) { r.CaseType() == s.caseType }

  /** A null filing date fails both date bounds. */
  predicate MinDateHolds(s: Scope, r: IndexRow)
    requires s.minDate.Some?
  {
    r.FilingDate().Some? && Le(s.minDate.value, r.FilingDate().value)
  }

  predicate MaxDateHolds(s: Scope, r: IndexRow)
    requires s.maxDate.Some?
  {
    r.FilingDate().Some? && Le(r.FilingDate().value, s.maxDate.value)
  }

  predicate CourtHolds(s: Scope, r: IndexRow) { r.CourtCode() !in s.excludeCourts }

  /** A null code is never in the excluded list. */
  predicate NosHolds(s: Scope, r: IndexRow) {
    !(r.NosCode().Some? && r.NosCode().value in s.excludeNosCodes)
  }

  /** The row satisfies every constraint the scope sets. */
  predicate Matches(s: Scope, r: IndexRow) {
    && (CaseTypeSet(s) ==> CaseTypeHolds(s, r))
    && (s.minDate.Some? ==> MinDateHolds(s, r))
    && (s.maxDate.Some? ==> MaxDateHolds(s, r))
    && (s.closedOnly ==> r.IsClosed())
    && CourtHolds(s, r)
    && NosHolds(s, r)
  }

  // ---------------------------------------------------------------------------
  // The mask, built the way `index_filter` builds it
  // ---------------------------------------------------------------------------

  function AndMask(m: seq<bool>, column: seq<bool>): (r: seq<bool>)
    requires |column| == |m|
    ensures |r| == |m|
    ensures forall i :: 0 <= i < |m| ==> (r[i] <==> m[i] && column[i])
  {
    seq(|m|, i requires 0 <= i < |m| => m[i] && column[i])
  }

  /** Start from an all-true mask and AND in one column per set constraint. */
  function IndexFilter(s: Scope, rows: seq<IndexRow>): (mask: seq<bool>)
    ensures |mask| == |rows|
    ensures forall i :: 0 <= i < |rows| ==> (mask[i] <==> Matches(s, rows[i]))
  {
    var m0 := seq(|rows|, i => true);
    var m1 := if CaseTypeSet(s)
      then AndMask(m0, MapAll((r: IndexRow) => CaseTypeHolds(s, r), rows)) else m0;
    var m2 := if s.minDate.Some?
      then AndMask(m1, MapAll((r: IndexRow) => MinDateHolds(s, r), rows)) else m1;
    var m3 := if s.maxDate.Some?
      then AndMask(m2, MapAll((r: IndexRow) => MaxDateHolds(s, r), rows)) else m2;
    var m4 := if s.closedOnly
      then AndMask(m3, MapAll((r: IndexRow) => r.IsClosed(), rows)) else m3;
    var m5 := if |s.excludeCourts| > 0
      then AndMask(m4, MapAll((r: IndexRow) => CourtHolds(s, r), rows)) else m4;
    if |s.excludeNosCodes| > 0
      then AndMask(m5, MapAll((r: IndexRow) => NosHolds(s, r), rows)) else m5
  }

  // ---------------------------------------------------------------------------
  // The case index
  // ---------------------------------------------------------------------------

  /** `build_case_index`: the global-index rows the scope selects, in their
      original order. */
  function CaseIndex(s: Scope, rows: seq<IndexRow>): (r: seq<IndexRow>)
    ensures |r| <= |rows|
    ensures forall x :: x in r <==> x in rows && Matches(s, x)
  {
    var mask := IndexFilter(s, rows);
    forall x ensures x in MaskSelect(rows, mask) <==> x in rows && Matches(s, x) {
      MaskSelectMembership(rows, mask, x);
    }
    MaskSelect(rows, mask)
  }

  /** The filter mask of a concatenation is the concatenation of the masks. */
  lemma IndexFilterAppend(s: Scope, a: seq<IndexRow>, b: seq<IndexRow>)
    ensures IndexFilter(s, a + b) == IndexFilter(s, a) + IndexFilter(s, b)
  {
    var m, ma, mb := IndexFilter(s, a + b), IndexFilter(s, a), IndexFilter(s, b);
    forall i | 0 <= i < |a + b| ensures m[i] == (ma + mb)[i] {
      if i < |a| {
        assert (a + b)[i] == a[i];
      } else {
        assert (a + b)[i] == b[i - |a|];
      }
    }
  }

  /** Filtering commutes with concatenation: the selected rows keep their
      relative order. */
  lemma CaseIndexAppend(s: Scope, a: seq<IndexRow>, b: seq<IndexRow>)
    ensures CaseIndex(s, a + b) == CaseIndex(s, a) + CaseIndex(s, b)
  {
    IndexFilterAppend(s, a, b);
    MaskSelectAppend(a, IndexFilter(s, a), b, IndexFilter(s, b));
  }

  lemma CaseIndexSingle(s: Scope, x: IndexRow)
    ensures CaseIndex(s, [x]) == if Matches(s, x) then [x] else []
  {
    assert [x][..0] == [];
  }

  /** A scope that sets no constraint. */
  predicate Unrestricted(s: Scope) {
    && !CaseTypeSet(s) && s.minDate.None? && s.maxDate.None? && !s.closedOnly
    && |s.excludeCourts| == 0 && |s.excludeNosCodes| == 0
  }

  /** An unrestricted scope, such as the default one, selects every row. */
  lemma UnrestrictedSelectsAll(s: Scope, rows: seq<IndexRow>)
    requires Unrestricted(s)
    ensures CaseIndex(s, rows) == rows
  {
    MaskSelectAll(rows, IndexFilter(s, rows));
  }

  lemma DefaultScopeSelectsAll(rows: seq<IndexRow>)
    ensures CaseIndex(DefaultScope, rows) == rows
  {
    UnrestrictedSelectsAll(DefaultScope, rows);
  }

  /** Rebuilding the case index from itself changes nothing. */
  lemma {:induction false} CaseIndexIdempotent(s: Scope, rows: seq<IndexRow>)
    ensures CaseIndex(s, CaseIndex(s, rows)) == CaseIndex(s, rows)
    decreases |rows|
  {
    if |rows| > 0 {
      var init, last := rows[..|rows| - 1], rows[|rows| - 1];
      assert rows == init + [last];
      CaseIndexAppend(s, init, [last]);
      CaseIndexSingle(s, last);
      CaseIndexIdempotent(s, init);
      CaseIndexAppend(s, CaseIndex(s, init), CaseIndex(s, [last]));
    }
  }

  // ---------------------------------------------------------------------------
  // Monotonicity: a tighter scope selects a sub-index
  // ---------------------------------------------------------------------------

  /** `strict` sets every constraint `loose` sets, at least as tightly. */
  predicate Refines(strict: Scope, loose: Scope) {
    && (CaseTypeSet(loose) ==> CaseTypeSet(strict) && strict.caseType == loose.caseType)
    && (loose.minDate.Some? ==> strict.minDate.Some? && Le(loose.minDate.value, strict.minDate.value))
    && (loose.maxDate.Some? ==> strict.maxDate.Some? && Le(strict.maxDate.value, loose.maxDate.value))
    && (loose.closedOnly ==> strict.closedOnly)
    && (forall c :: c in loose.excludeCourts ==> c in strict.excludeCourts)
    && (forall n :: n in loose.excludeNosCodes ==> n in strict.excludeNosCodes)
  }

  /** A row the tighter scope selects is selected by the looser one. */
  lemma MatchesMonotone(strict: Scope, loose: Scope, r: IndexRow)
    requires Refines(strict, loose)
    requires Matches(strict, r)
    ensures Matches(loose, r)
  {
    if loose.minDate.Some? {
      LeTransitive(loose.minDate.value, strict.minDate.value, r.FilingDate().value);
    }
    if loose.maxDate.Some? {
      LeTransitive(r.FilingDate().value, strict.maxDate.value, loose.maxDate.value);
    }
  }

  /** The one-row case of `CaseIndexMonotone`. */
  lemma CaseIndexMonotoneRow(strict: Scope, loose: Scope, x: IndexRow)
    requires Refines(strict, loose)
    ensures CaseIndex(strict, [x]) == CaseIndex(strict, CaseIndex(loose, [x]))
  {
  }

  /** Adding constraints never enlarges the index: the tighter index is the
      tighter filter applied to the looser index. */
  lemma {:induction false} CaseIndexMonotone(strict: Scope, loose: Scope, rows: seq<IndexRow>)
    requires Refines(strict, loose)
    ensures CaseIndex(strict, rows) == CaseIndex(strict, CaseIndex(loose, rows))
    decreases |rows|
  {
    if |rows| > 0 {
      var init, last := rows[..|rows| - 1], rows[|rows| - 1];
      assert rows == init + [last];
      var li, ll := CaseIndex(loose, init), CaseIndex(loose, [last]);
      CaseIndexAppend(strict, init, [last]);
      CaseIndexAppend(loose, init, [last]);
      assert CaseIndex(loose, rows) == li + ll;
      CaseIndexMonotone(strict, loose, init);
      CaseIndexMonotoneRow(strict, loose, last);
      CaseIndexAppend(strict, li, ll);
    }
  }

  // ---------------------------------------------------------------------------
  // The two declared projects
  // ---------------------------------------------------------------------------

  const CivilNosExclusions: seq<nat> :=
    [422, 423, 462, 463, 465, 510, 530, 535, 540, 560, 861, 862, 863, 864, 865]

  /** Civil cases filed 2016-2017, minus bankruptcy, immigration, prisoner and
      social-security suits. */
  const Pathways: Project := Project("pathways", Scope(
    Some("cv"), Some(Date(2016, 1, 1)), Some(Date(2017, 12, 31)), false, [],
    CivilNosExclusions))

  /** As `Pathways`, closed cases only, and foreclosures excluded too. */
  const Settlement: Project := Project("settlement", Scope(
    Some("cv"), Some(Date(2016, 1, 1)), Some(Date(2017, 12, 31)), true, [],
    [220] + CivilNosExclusions))

  /** The settlement index is a sub-index of the pathways index. */
  lemma SettlementWithinPathways(rows: seq<IndexRow>)
    ensures CaseIndex(Settlement.scope, rows) == CaseIndex(Settlement.scope, CaseIndex(Pathways.scope, rows))
  {
    CaseIndexMonotone(Settlement.scope, Pathways.scope, rows);
  }
}
