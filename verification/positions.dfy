/** Resolution of a case's assigned judge to one historical position of the
    Federal Judicial Center (FJC) judge table (`get_fjc_position`), and the
    table's column-naming rule (`load_fjc_data`). */
module Positions {
  import opened Wrappers
  import opened Dates
  import opened Text

  type Nid = int

  /** One of the five position groups of an FJC record. The commission date is
      held parsed; None when missing or unparseable. */
  datatype Slot = Slot(
    courtType: Option<string>,
    courtName: Option<string>,
    appointingParty: Option<string>,
    commissionDate: Option<Date>)

  const NumSlots: nat := 5

  /** Slot k (1 <= k <= 5) is element k - 1; slot 5 is the most recent. */
  type SlotTable = s: seq<Slot> | |s| == NumSlots
    witness [Slot(None, None, None, None), Slot(None, None, None, None), Slot(None, None, None, None),
             Slot(None, None, None, None), Slot(None, None, None, None)]

  datatype Bio = Bio(
    firstName: Option<string>,
    middleName: Option<string>,
    lastName: Option<string>,
    suffix: Option<string>,
    birthYear: Option<int>,
    gender: Option<string>,
    raceOrEthnicity: Option<string>)

  /** A row of the FJC judge table. */
  datatype FjcJudge = FjcJudge(nid: Nid, slots: SlotTable, bio: Bio)

  /** An assigned-judge row after the FJC table has been merged on `fjc_nid`;
      `judge` is None when the id is absent or has no FJC record. */
  datatype PositionQuery = PositionQuery(
    ucid: string,
    lastEntryDate: Option<Date>,
    judgeLabel: string,
    fjcNid: Option<Nid>,
    judge: Option<FjcJudge>)

  /** The position fields taken from the winning slot. */
  datatype Position = Position(
    courtType: Option<string>,
    courtName: Option<string>,
    appointingParty: Option<string>,
    commissionDate: Option<Date>,
    positionUsed: nat)

  /** The output row: only the case id, or the case id with the winning
      position, the FJC id and the biographical fields. */
  datatype PositionResult =
    | Unresolved(ucid: string)
    | Resolved(ucid: string, position: Position, nid: Nid, bio: Bio)

  const DistrictCourt := "U.S. District Court"

  const EligibleLabels: seq<string> := ["Nondescript Judge", "Article III Judge", "District Judge"]

  /** Only a linked judge with a district-level label is resolved. */
  predicate Eligible(q: PositionQuery) {
    q.fjcNid.Some? && q.judgeLabel in EligibleLabels
  }

  /** A slot qualifies when it is a district-court position whose commission
      date is known and falls on or before a known reference date. */
  predicate Qualifies(s: Slot, reference: Option<Date>) {
    && s.courtType == Some(DistrictCourt)
    && s.commissionDate.Some?
    && reference.Some?
    && Le(s.commissionDate.value, reference.value)
  }

  /** Slot `k`, counted from 1, qualifies. */
  predicate SlotQualifies(slots: seq<Slot>, k: int, reference: Option<Date>)
    requires 1 <= k <= |slots|
  {
    Qualifies(slots[k - 1], reference)
  }

  /** The highest-numbered qualifying slot among slots 1..k. */
  function LatestQualifying(slots: seq<Slot>, reference: Option<Date>, k: nat): (r: Option<nat>)
    requires k <= |slots|
    ensures r.Some? ==> 1 <= r.value <= k && Qualifies(slots[r.value - 1], reference)
    ensures r.Some? ==> forall j :: r.value < j <= k ==> !SlotQualifies(slots, j, reference)
    ensures r.None? <==> forall j :: 1 <= j <= k ==> !SlotQualifies(slots, j, reference)
  {
    if k == 0 then None
    else if SlotQualifies(slots, k, reference) then Some(k)
    else LatestQualifying(slots, reference, k - 1)
  }

  /** The descending scan with early exit, as a loop over slots 5, 4, ..., 1. */
  method ScanSlots(slots: SlotTable, reference: Option<Date>) returns (selected: Option<nat>)
    ensures selected == LatestQualifying(slots, reference, NumSlots)
    ensures selected.Some? ==> 1 <= selected.value <= NumSlots && Qualifies(slots[selected.value - 1], reference)
    ensures selected.Some? ==> forall j :: selected.value < j <= NumSlots ==> !SlotQualifies(slots, j, reference)
    ensures selected.None? <==> forall j :: 1 <= j <= NumSlots ==> !SlotQualifies(slots, j, reference)
  {
    selected := None;
    var position := NumSlots;
    while position >= 1
      invariant 0 <= position <= NumSlots
      invariant forall j :: position < j <= NumSlots ==> !SlotQualifies(slots, j, reference)
      invariant LatestQualifying(slots, reference, NumSlots) == LatestQualifying(slots, reference, position)
    {
      if Qualifies(slots[position - 1], reference) {
        selected := Some(position);
        break;
      }
      position := position - 1;
    }
  }

  /** `get_fjc_position` for one row. */
  function Resolve(q: PositionQuery): (r: PositionResult)
    ensures r.ucid == q.ucid
    ensures !Eligible(q) || q.judge.None? || q.lastEntryDate.None? ==> r.Unresolved?
    ensures r.Unresolved? && Eligible(q) && q.judge.Some? ==>
      forall j :: 1 <= j <= NumSlots ==> !SlotQualifies(q.judge.value.slots, j, q.lastEntryDate)
    ensures r.Resolved? ==>
      && Eligible(q) && q.judge.Some?
      && var k := r.position.positionUsed;
      && var slots := q.judge.value.slots;
      && 1 <= k <= NumSlots
      && Qualifies(slots[k - 1], q.lastEntryDate)
      && (forall j :: k < j <= NumSlots ==> !SlotQualifies(slots, j, q.lastEntryDate))
      && r.position.courtType == slots[k - 1].courtType
      && r.position.courtName == slots[k - 1].courtName
      && r.position.appointingParty == slots[k - 1].appointingParty
      && r.position.commissionDate == slots[k - 1].commissionDate
      && r.nid == q.fjcNid.value
      && r.bio == q.judge.value.bio
  {
    if !Eligible(q) || q.judge.None? then Unresolved(q.ucid)
    else
      var judge := q.judge.value;
      match LatestQualifying(judge.slots, q.lastEntryDate, NumSlots)
      case None => Unresolved(q.ucid)
      case Some(k) =>
        var s := judge.slots[k - 1];
        Resolved(q.ucid, Position(s.courtType, s.courtName, s.appointingParty, s.commissionDate, k),
                 q.fjcNid.value, judge.bio)
  }

  /** A position is found exactly when the row is eligible, the judge has an
      FJC record, and at least one of its slots qualifies. */
  lemma ResolvedIff(q: PositionQuery)
    ensures Resolve(q).Resolved? <==>
      && Eligible(q) && q.judge.Some?
      && exists j :: 1 <= j <= NumSlots && SlotQualifies(q.judge.value.slots, j, q.lastEntryDate)
  {
    if Eligible(q) && q.judge.Some? && exists j :: 1 <= j <= NumSlots && SlotQualifies(q.judge.value.slots, j, q.lastEntryDate) {
      assert LatestQualifying(q.judge.value.slots, q.lastEntryDate, NumSlots).Some?;
    }
  }

  /** A reference date earlier than every commission date resolves nothing. */
  lemma ReferenceBeforeAllCommissions(q: PositionQuery)
    requires q.judge.Some? && q.lastEntryDate.Some?
    requires forall s :: s in q.judge.value.slots && s.commissionDate.Some? ==>
      !Le(s.commissionDate.value, q.lastEntryDate.value)
    ensures Resolve(q) == Unresolved(q.ucid)
  {
  }

  /** A later reference date never selects an older slot. */
  lemma LaterReferenceNeverOlderSlot(q: PositionQuery, later: Date)
    requires q.lastEntryDate.Some? && Le(q.lastEntryDate.value, later)
    requires Resolve(q).Resolved?
    ensures Resolve(q.(lastEntryDate := Some(later))).Resolved?
    ensures Resolve(q).position.positionUsed <= Resolve(q.(lastEntryDate := Some(later))).position.positionUsed
  {
    var k := Resolve(q).position.positionUsed;
    var slots := q.judge.value.slots;
    LeTransitive(slots[k - 1].commissionDate.value, q.lastEntryDate.value, later);
    assert SlotQualifies(slots, k, Some(later));
    var r := LatestQualifying(slots, Some(later), NumSlots);
    assert r.Some?;
  }

  /** The descending scan prefers slot 4 over slot 2 when both qualify and the
      more recent slot 5 is not a district-court position. */
  lemma PrefersMostRecentQualifying(ucid: string, nid: Nid, bio: Bio, ref: Date, d2: Date, d4: Date)
    requires Le(d2, ref) && Le(d4, ref)
    ensures Resolve(PositionQuery(ucid, Some(ref), "District Judge", Some(nid), Some(FjcJudge(nid, ExampleSlots(d2, d4), bio))))
         == Resolved(ucid, Position(Some(DistrictCourt), Some("D. Mass."), Some("Republican"), Some(d4), 4), nid, bio)
  {
    var slots := ExampleSlots(d2, d4);
    assert !SlotQualifies(slots, 5, Some(ref)) by {
      assert slots[4].courtType.value[5] == 'C' != 'D' == DistrictCourt[5];
    }
    assert SlotQualifies(slots, 4, Some(ref));
    assert LatestQualifying(slots, Some(ref), 5) == Some(4);
  }

  /** Slots 2 and 4 are district-court commissions; slot 5 is an appellate
      commission; slots 1 and 3 are unused. */
  function ExampleSlots(d2: Date, d4: Date): SlotTable {
    [ Slot(None, None, None, None),
      Slot(Some(DistrictCourt), Some("D. Mass."), Some("Democratic"), Some(d2)),
      Slot(None, None, None, None),
      Slot(Some(DistrictCourt), Some("D. Mass."), Some("Republican"), Some(d4)),
      Slot(Some("U.S. Court of Appeals"), Some("First Circuit"), Some("Republican"), Some(d4)) ]
  }

  // ---------------------------------------------------------------------------
  // Column naming of the FJC table
  // ---------------------------------------------------------------------------

  /** `'fjc_' + name.lower().replace(' ', '_')`. */
  function FjcColumn(name: string): (r: string)
    ensures |r| == 4 + |name|
    ensures r[..4] == "fjc_"
    ensures r[4..] == Snake(name)
  {
    ColumnName("fjc_", name)
  }

  /** The renamed slot columns are the `fjc_court_type_(k)` and
      `fjc_commission_date_(k)` names the resolver reads. */
  lemma SlotColumnNames(k: nat)
    ensures FjcColumn("Court Type (" + Decimal(k) + ")") == "fjc_court_type_(" + Decimal(k) + ")"
    ensures FjcColumn("Commission Date (" + Decimal(k) + ")") == "fjc_commission_date_(" + Decimal(k) + ")"
  {
    var d := Decimal(k);
    SnakeFixed(d);
    SnakeCourtType();
    SnakeCommissionDate();
    RenameKeepsSuffix("Court Type (", d, "fjc_court_type_(");
    RenameKeepsSuffix("Commission Date (", d, "fjc_commission_date_(");
  }

  lemma RenameKeepsSuffix(a: string, d: string, column: string)
    requires Snake(d) == d
    requires "fjc_" + Snake(a) == column
    ensures FjcColumn(a + d + ")") == column + d + ")"
  {
    SnakeAppend(a, d);
    SnakeAppend(a + d, ")");
    assert Snake(")") == ")";
    var x := a + d + ")";
    assert Snake(x) == Snake(a) + d + ")";
    assert FjcColumn(x) == "fjc_" + Snake(x);
    assert "fjc_" + (Snake(a) + d + ")") == column + d + ")";
  }

  lemma SnakeCourtType()
    ensures Snake("Court Type (") == "court_type_("
    ensures "fjc_" + Snake("Court Type (") == "fjc_court_type_("
  {
    var a, b := "Court", " Type (";
    assert Snake(a) == "court" by {
      forall i | 0 <= i < |a| ensures Snake(a)[i] == "court"[i] {
      }
    }
    assert Snake(b) == "_type_(" by {
      forall i | 0 <= i < |b| ensures Snake(b)[i] == "_type_("[i] {
      }
    }
    SnakeAppend(a, b);
    assert a + b == "Court Type (";
    assert "court" + "_type_(" == "court_type_(";
  }

  lemma SnakeCommissionDate()
    ensures Snake("Commission Date (") == "commission_date_("
    ensures "fjc_" + Snake("Commission Date (") == "fjc_commission_date_("
  {
    var a, b, c := "Commi", "ssion", " Date (";
    assert Snake(a) == "commi" by {
      forall i | 0 <= i < |a| ensures Snake(a)[i] == "commi"[i] {
      }
    }
    assert Snake(b) == b by {
      SnakeFixed(b);
    }
    assert Snake(c) == "_date_(" by {
      forall i | 0 <= i < |c| ensures Snake(c)[i] == "_date_("[i] {
      }
    }
    SnakeAppend(a, b);
    SnakeAppend(a + b, c);
    assert a + b + c == "Commission Date (";
    assert "commi" + b + "_date_(" == "commission_date_(";
  }
}
