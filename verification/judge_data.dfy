/** Judge observations of a project: collecting them from the judge-entity
    source (`iter_judge_batches`, `init_judge_data`), and reducing them to one
    row per case (`process_judge_data`): the assigned judge with its resolved
    position, and per-label judge counts. */
module JudgeData {
  import opened Wrappers
  import opened Dates
  import opened Text
  import opened Seqs
  import opened Artifacts
  import opened GlobalIndex
  import opened Positions

  /** A row of the judge-entity source table. */
  datatype RawEntity = RawEntity(
    ucid: string,
    judgeLabel: string,
    extractionMethod: string,
    docketSource: string,
    sjid: int)

  /** A judge observation, linked to the FJC id of its judge when the judge
      index knows one. */
  datatype JudgeObs = JudgeObs(
    ucid: string,
    judgeLabel: string,
    extractionMethod: string,
    docketSource: string,
    sjid: int,
    fjcNid: Option<Nid>)

  // ---------------------------------------------------------------------------
  // Collecting the project's observations
  // ---------------------------------------------------------------------------

  /** One chunk of `iter_judge_batches`: left-join the judge index (SJID to
      NID) and keep the observation columns. */
  function LinkBatch(batch: seq<RawEntity>, judgeIndex: map<int, Nid>): (r: seq<JudgeObs>)
    ensures |r| == |batch|
    ensures forall i :: 0 <= i < |r| ==>
      && r[i].ucid == batch[i].ucid && r[i].sjid == batch[i].sjid
      && r[i].judgeLabel == batch[i].judgeLabel
      && r[i].extractionMethod == batch[i].extractionMethod
      && r[i].docketSource == batch[i].docketSource
      && r[i].fjcNid == (if batch[i].sjid in judgeIndex then Some(judgeIndex[batch[i].sjid]) else None)
  {
    MapAll((e: RawEntity) => Link(e, judgeIndex), batch)
  }

  function Link(e: RawEntity, judgeIndex: map<int, Nid>): JudgeObs {
    JudgeObs(e.ucid, e.judgeLabel, e.extractionMethod, e.docketSource, e.sjid,
             if e.sjid in judgeIndex then Some(judgeIndex[e.sjid]) else None)
  }

  function CaseIds(caseIndex: seq<IndexRow>): set<string> {
    set i | 0 <= i < |caseIndex| :: caseIndex[i].Ucid()
  }

  /** `batch[batch['ucid'].isin(ucids)]`. */
  function RestrictToCases(obs: seq<JudgeObs>, ucids: set<string>): (r: seq<JudgeObs>)
    ensures forall o :: o in r <==> o in obs && o.ucid in ucids
  {
    var mask := MapAll((o: JudgeObs) => o.ucid in ucids, obs);
    forall o ensures o in MaskSelect(obs, mask) <==> o in obs && o.ucid in ucids {
      MaskSelectMembership(obs, mask, o);
    }
    MaskSelect(obs, mask)
  }

  lemma RestrictAppend(a: seq<JudgeObs>, b: seq<JudgeObs>, ucids: set<string>)
    ensures RestrictToCases(a + b, ucids) == RestrictToCases(a, ucids) + RestrictToCases(b, ucids)
  {
    var p := (o: JudgeObs) => o.ucid in ucids;
    assert MapAll(p, a + b) == MapAll(p, a) + MapAll(p, b);
    MaskSelectAppend(a, MapAll(p, a), b, MapAll(p, b));
  }

  /** The per-chunk pipeline of `init_judge_data`. */
  function CollectBatch(batch: seq<RawEntity>, judgeIndex: map<int, Nid>, ucids: set<string>): seq<JudgeObs> {
    RestrictToCases(LinkBatch(batch, judgeIndex), ucids)
  }

  /** Chunking does not matter: collecting chunk by chunk equals collecting
      the whole source at once. */
  lemma {:induction false} CollectConcat(batches: seq<seq<RawEntity>>, judgeIndex: map<int, Nid>, ucids: set<string>)
    ensures Concat(MapAll((b: seq<RawEntity>) => CollectBatch(b, judgeIndex, ucids), batches))
         == CollectBatch(Concat(batches), judgeIndex, ucids)
    decreases |batches|
  {
    var g := (b: seq<RawEntity>) => CollectBatch(b, judgeIndex, ucids);
    if |batches| > 0 {
      var init, last := batches[..|batches| - 1], batches[|batches| - 1];
      var mapped := MapAll(g, batches);
      CollectConcat(init, judgeIndex, ucids);
      assert mapped[..|batches| - 1] == MapAll(g, init);
      assert Concat(mapped) == Concat(MapAll(g, init)) + g(last);
      assert Concat(batches) == Concat(init) + last;
      LinkAppend(Concat(init), last, judgeIndex);
      RestrictAppend(LinkBatch(Concat(init), judgeIndex), LinkBatch(last, judgeIndex), ucids);
    }
  }

  lemma LinkAppend(a: seq<RawEntity>, b: seq<RawEntity>, judgeIndex: map<int, Nid>)
    ensures LinkBatch(a + b, judgeIndex) == LinkBatch(a, judgeIndex) + LinkBatch(b, judgeIndex)
  {
  }

  /** `init_judge_data`: delete the project's judge data, then append every
      collected chunk. The result holds exactly the source observations of the
      project's cases, linked, in source order. */
  function InitJudgeData(existing: Artifact<JudgeObs>, caseIndex: seq<IndexRow>,
                         batches: seq<seq<RawEntity>>, judgeIndex: map<int, Nid>): (r: Artifact<JudgeObs>)
    ensures |batches| == 0 <==> r.None?
    ensures r.Some? ==> r.value == CollectBatch(Concat(batches), judgeIndex, CaseIds(caseIndex))
    ensures r.Some? ==> forall o :: o in r.value ==> o.ucid in CaseIds(caseIndex)
  {
    var ucids := CaseIds(caseIndex);
    var collected := MapAll((b: seq<RawEntity>) => CollectBatch(b, judgeIndex, ucids), batches);
    CollectConcat(batches, judgeIndex, ucids);
    Rebuild(existing, collected)
  }

  // ---------------------------------------------------------------------------
  // Assigned judge and its position
  // ---------------------------------------------------------------------------

  /** An assigned-judge row once the method and source columns are dropped. */
  datatype AssignedJudge = AssignedJudge(ucid: string, judgeLabel: string, sjid: int, fjcNid: Option<Nid>)

  predicate IsHeaderAssignment(o: JudgeObs) {
    o.extractionMethod == "assigned_judge" && o.docketSource == "header_metadata"
  }

  function DropMethodColumns(o: JudgeObs): AssignedJudge {
    AssignedJudge(o.ucid, o.judgeLabel, o.sjid, o.fjcNid)
  }

  function AssignedUcid(a: AssignedJudge): string { a.ucid }

  /** The header-metadata assignments, in source order, method and source
      columns dropped. */
  function HeaderAssignments(judges: seq<JudgeObs>): (r: seq<AssignedJudge>)
    ensures forall a :: a in r <==> exists o :: o in judges && IsHeaderAssignment(o) && a == DropMethodColumns(o)
  {
    var mask := MapAll(IsHeaderAssignment, judges);
    var header := MaskSelect(judges, mask);
    forall o ensures o in header <==> o in judges && IsHeaderAssignment(o) {
      MaskSelectMembership(judges, mask, o);
    }
    MapAll(DropMethodColumns, header)
  }

  /** `drop_duplicates(subset=['ucid'])` over the header assignments. */
  function KeptAssignments(judges: seq<JudgeObs>): seq<AssignedJudge> {
    Dedup(HeaderAssignments(judges), AssignedUcid)
  }

  /** One assigned judge per case: the first header-metadata assignment. */
  function AssignedJudges(judges: seq<JudgeObs>): (r: seq<AssignedJudge>)
    ensures DistinctKeys(r, AssignedUcid)
    ensures forall a :: a in r ==> a in HeaderAssignments(judges)
    ensures forall o :: o in judges && IsHeaderAssignment(o) ==> exists a :: a in r && a.ucid == o.ucid
  {
    var h := HeaderAssignments(judges);
    var r := KeptAssignments(judges);
    forall o | o in judges && IsHeaderAssignment(o)
      ensures exists a :: a in r && a.ucid == o.ucid
    {
      var b := DropMethodColumns(o);
      assert b in h;
      var i :| 0 <= i < |h| && h[i] == b;
      assert AssignedUcid(h[i]) in KeySet(h, AssignedUcid);
      var j :| 0 <= j < |r| && AssignedUcid(r[j]) == o.ucid;
      assert r[j] in r;
    }
    r
  }

  /** Duplicated assignments of one case are resolved by keeping the first. */
  lemma AssignedKeepsFirst(judges: seq<JudgeObs>)
    ensures AssignedJudges(judges)
         == MaskSelect(HeaderAssignments(judges), FirstMask(HeaderAssignments(judges), AssignedUcid))
  {
    DedupKeepsFirst(HeaderAssignments(judges), AssignedUcid);
  }

  /** Header assignments keep the order of the judge data: one more
      observation adds its assignment, if it is one, at the end. */
  lemma HeaderAssignmentsAppend(judges: seq<JudgeObs>, o: JudgeObs)
    ensures HeaderAssignments(judges + [o])
         == HeaderAssignments(judges) + if IsHeaderAssignment(o) then [DropMethodColumns(o)] else []
  {
    var all := judges + [o];
    assert all[..|judges|] == judges;
    assert MapAll(IsHeaderAssignment, all)[..|judges|] == MapAll(IsHeaderAssignment, judges);
  }

  /** Observation `i` is a header assignment and no earlier header assignment
      names the same case. */
  predicate FirstAssignment(judges: seq<JudgeObs>, i: int) {
    && 0 <= i < |judges|
    && IsHeaderAssignment(judges[i])
    && forall j :: 0 <= j < i && IsHeaderAssignment(judges[j]) ==> judges[j].ucid != judges[i].ucid
  }

  lemma FirstAssignmentPrefix(init: seq<JudgeObs>, o: JudgeObs, i: int)
    requires 0 <= i < |init|
    ensures FirstAssignment(init + [o], i) <==> FirstAssignment(init, i)
  {
    var judges := init + [o];
    assert forall j :: 0 <= j <= i ==> judges[j] == init[j];
  }

  /** A case that already has a header assignment got it from an earlier
      observation. */
  lemma AssignedHasEarlier(init: seq<JudgeObs>, o: JudgeObs)
    requires IsHeaderAssignment(o)
    requires o.ucid in KeySet(HeaderAssignments(init), AssignedUcid)
    ensures !FirstAssignment(init + [o], |init|)
  {
    var judges := init + [o];
    var h := HeaderAssignments(init);
    var k :| 0 <= k < |h| && AssignedUcid(h[k]) == o.ucid;
    assert h[k] in h;
    var p :| p in init && IsHeaderAssignment(p) && h[k] == DropMethodColumns(p);
    var j :| 0 <= j < |init| && init[j] == p;
    assert judges[j] == p && judges[|init|] == o;
  }

  /** Every header assignment's case has an entry among the assignments. */
  lemma EarlierIsAssigned(init: seq<JudgeObs>, j: int)
    requires 0 <= j < |init| && IsHeaderAssignment(init[j])
    ensures init[j].ucid in KeySet(HeaderAssignments(init), AssignedUcid)
  {
    var h := HeaderAssignments(init);
    assert init[j] in init;
    assert DropMethodColumns(init[j]) in h;
    var k :| 0 <= k < |h| && h[k] == DropMethodColumns(init[j]);
  }

  lemma AssignedBefore(init: seq<JudgeObs>, o: JudgeObs)
    requires IsHeaderAssignment(o)
    ensures o.ucid in KeySet(HeaderAssignments(init), AssignedUcid) <==> !FirstAssignment(init + [o], |init|)
  {
    var judges := init + [o];
    if o.ucid in KeySet(HeaderAssignments(init), AssignedUcid) {
      AssignedHasEarlier(init, o);
    } else if !FirstAssignment(judges, |init|) {
      assert judges[|init|] == o;
      var j :| 0 <= j < |init| && IsHeaderAssignment(judges[j]) && judges[j].ucid == o.ucid;
      assert judges[j] == init[j];
      EarlierIsAssigned(init, j);
    }
  }

  /** The kept assignments grow by the new observation exactly when it is the
      first header assignment of its case. */
  lemma KeptAssignmentsStep(init: seq<JudgeObs>, o: JudgeObs)
    ensures KeptAssignments(init + [o])
         == if FirstAssignment(init + [o], |init|) then KeptAssignments(init) + [DropMethodColumns(o)] else KeptAssignments(init)
  {
    var judges := init + [o];
    HeaderAssignmentsAppend(init, o);
    assert judges[|init|] == o;
    var h := HeaderAssignments(init);
    if IsHeaderAssignment(o) {
      assert HeaderAssignments(judges) == h + [DropMethodColumns(o)];
      DedupAppend(h, DropMethodColumns(o), AssignedUcid);
      AssignedBefore(init, o);
    } else {
      assert HeaderAssignments(judges) == h;
      assert !FirstAssignment(judges, |init|);
    }
  }

  lemma FirstAssignmentStep(init: seq<JudgeObs>, o: JudgeObs, a: AssignedJudge)
    ensures (exists i :: FirstAssignment(init + [o], i) && a == DropMethodColumns((init + [o])[i]))
        <==> (exists i :: FirstAssignment(init, i) && a == DropMethodColumns(init[i]))
             || (FirstAssignment(init + [o], |init|) && a == DropMethodColumns(o))
  {
    var judges := init + [o];
    if exists i :: FirstAssignment(judges, i) && a == DropMethodColumns(judges[i]) {
      var i :| FirstAssignment(judges, i) && a == DropMethodColumns(judges[i]);
      if i < |init| {
        FirstAssignmentPrefix(init, o, i);
        assert judges[i] == init[i];
      }
    }
    if exists i :: FirstAssignment(init, i) && a == DropMethodColumns(init[i]) {
      var i :| FirstAssignment(init, i) && a == DropMethodColumns(init[i]);
      FirstAssignmentPrefix(init, o, i);
      assert judges[i] == init[i];
    }
  }

  lemma {:induction false} KeptAssignmentsFirst(judges: seq<JudgeObs>, a: AssignedJudge)
    ensures a in KeptAssignments(judges) <==> exists i :: FirstAssignment(judges, i) && a == DropMethodColumns(judges[i])
    decreases |judges|
  {
    if |judges| > 0 {
      var n := |judges| - 1;
      var init, o := judges[..n], judges[n];
      assert judges == init + [o];
      KeptAssignmentsFirst(init, a);
      KeptAssignmentsStep(init, o);
      FirstAssignmentStep(init, o, a);
    }
  }

  /** `drop_duplicates(subset=['ucid'])` after the header filter keeps, for
      each case, the first header assignment of that case in the judge data,
      and nothing else. */
  lemma AssignedKeepsFirstInData(judges: seq<JudgeObs>, a: AssignedJudge)
    ensures a in AssignedJudges(judges) <==> exists i :: FirstAssignment(judges, i) && a == DropMethodColumns(judges[i])
  {
    KeptAssignmentsFirst(judges, a);
  }

  /** The case-index row of a case (case ids are unique in the index). */
  function CaseRowOf(caseIndex: seq<IndexRow>, u: string): (r: Option<IndexRow>)
    ensures r.Some? ==> r.value in caseIndex && r.value.Ucid() == u
    ensures r.None? <==> u !in CaseIds(caseIndex)
  {
    if |caseIndex| == 0 then None
    else if caseIndex[0].Ucid() == u then Some(caseIndex[0])
    else
      assert CaseIds(caseIndex) == {caseIndex[0].Ucid()} + CaseIds(caseIndex[1..]) by {
        forall x | x in CaseIds(caseIndex) ensures x in {caseIndex[0].Ucid()} + CaseIds(caseIndex[1..]) {
          var i :| 0 <= i < |caseIndex| && caseIndex[i].Ucid() == x;
          if i > 0 { assert caseIndex[1..][i - 1] == caseIndex[i]; }
        }
        forall x | x in CaseIds(caseIndex[1..]) ensures x in CaseIds(caseIndex) {
          var i :| 0 <= i < |caseIndex[1..]| && caseIndex[1..][i].Ucid() == x;
          assert caseIndex[i + 1] == caseIndex[1..][i];
        }
      }
      CaseRowOf(caseIndex[1..], u)
  }

  /** The reference date merged in from the case index: the case's last
      docket-entry date, null when the case is not in the index. */
  function ReferenceDate(caseIndex: seq<IndexRow>, u: string): (r: Option<Date>)
    ensures u !in CaseIds(caseIndex) ==> r.None?
    ensures u in CaseIds(caseIndex) ==>
      exists i :: 0 <= i < |caseIndex| && caseIndex[i].Ucid() == u && r == caseIndex[i].LastEntryDate()
  {
    match CaseRowOf(caseIndex, u)
    case None => None
    case Some(row) => row.LastEntryDate()
  }

  /** The FJC row merged on `fjc_nid`: null when the judge is unlinked or the
      table has no row for the id. */
  function FjcRecord(fjc: map<Nid, FjcJudge>, nid: Option<Nid>): (r: Option<FjcJudge>)
    ensures r.None? <==> nid.None? || nid.value !in fjc
    ensures r.Some? ==> r.value == fjc[nid.value]
  {
    if nid.Some? && nid.value in fjc then Some(fjc[nid.value]) else None
  }

  /** The row handed to the resolver after both merges. */
  function QueryOf(a: AssignedJudge, caseIndex: seq<IndexRow>, fjc: map<Nid, FjcJudge>): PositionQuery {
    PositionQuery(a.ucid, ReferenceDate(caseIndex, a.ucid), a.judgeLabel, a.fjcNid, FjcRecord(fjc, a.fjcNid))
  }

  /** An assigned judge with the position resolved for its case. */
  datatype ResolvedJudge = ResolvedJudge(judge: AssignedJudge, position: PositionResult)

  function ResolvePositions(assignments: seq<AssignedJudge>, caseIndex: seq<IndexRow>,
                            fjc: map<Nid, FjcJudge>): (r: seq<ResolvedJudge>)
    ensures |r| == |assignments|
    ensures forall i :: 0 <= i < |r| ==>
      && r[i].judge == assignments[i]
      && r[i].position.ucid == assignments[i].ucid
      && r[i].position == Resolve(QueryOf(assignments[i], caseIndex, fjc))
  {
    MapAll((a: AssignedJudge) => ResolvedJudge(a, Resolve(QueryOf(a, caseIndex, fjc))), assignments)
  }

  // ---------------------------------------------------------------------------
  // Judge-type tallies
  // ---------------------------------------------------------------------------

  datatype TallyRow = TallyRow(ucid: string, sjid: int, judgeType: string)

  const ExcludedLabels: seq<string> := ["Ambiguous", "Inconclusive"]

  predicate Counted(o: JudgeObs) {
    o.judgeLabel !in ExcludedLabels
  }

  /** Article III judges are counted as district judges. */
  function Relabel(judgeType: string): (r: string)
    ensures r != "Article III Judge"
    ensures r == "District Judge" <==> judgeType == "Article III Judge" || judgeType == "District Judge"
    ensures judgeType != "Article III Judge" ==> r == judgeType
  {
    if judgeType == "Article III Judge" then "District Judge" else judgeType
  }

  function ToTally(o: JudgeObs): TallyRow {
    TallyRow(o.ucid, o.sjid, Relabel(o.judgeLabel))
  }

  function JudgeKey(t: TallyRow): (string, int) { (t.ucid, t.sjid) }
  function TallyUcid(t: TallyRow): string { t.ucid }
  function TallyLabel(t: TallyRow): string { t.judgeType }

  /** A label that can appear as a judge-count column. */
  predicate CountableLabel(judgeType: string) {
    judgeType !in ExcludedLabels && judgeType != "Article III Judge"
  }

  /** Counted observations, relabelled, as (ucid, sjid, label) rows. */
  function TallyRows(judges: seq<JudgeObs>): (r: seq<TallyRow>)
    ensures forall t :: t in r <==> exists o :: o in judges && Counted(o) && t == ToTally(o)
    ensures forall t :: t in r ==> CountableLabel(t.judgeType)
  {
    var mask := MapAll(Counted, judges);
    var kept := MaskSelect(judges, mask);
    forall o ensures o in kept <==> o in judges && Counted(o) {
      MaskSelectMembership(judges, mask, o);
    }
    MapAll(ToTally, kept)
  }

  /** `drop_duplicates(subset=['ucid', 'sjid'])`: one row per judge per case,
      carrying the label of that judge's first counted observation. */
  function DedupTally(judges: seq<JudgeObs>): (r: seq<TallyRow>)
    ensures DistinctKeys(r, JudgeKey)
    ensures forall t :: t in r ==> t in TallyRows(judges)
    ensures KeySet(r, JudgeKey) == KeySet(TallyRows(judges), JudgeKey)
  {
    var rows := TallyRows(judges);
    Dedup(rows, JudgeKey)
  }

  /** Observation `i` has a counted label and no earlier counted observation
      names the same judge on the same case. */
  predicate FirstCounted(judges: seq<JudgeObs>, i: int) {
    && 0 <= i < |judges|
    && Counted(judges[i])
    && forall j :: 0 <= j < i && Counted(judges[j]) ==> JudgeKey(ToTally(judges[j])) != JudgeKey(ToTally(judges[i]))
  }

  lemma TallyRowsAppend(judges: seq<JudgeObs>, o: JudgeObs)
    ensures TallyRows(judges + [o]) == TallyRows(judges) + if Counted(o) then [ToTally(o)] else []
  {
    var all := judges + [o];
    assert all[..|judges|] == judges;
    assert MapAll(Counted, all)[..|judges|] == MapAll(Counted, judges);
  }

  /** Appending an observation does not change which earlier ones come first. */
  lemma FirstCountedPrefix(init: seq<JudgeObs>, o: JudgeObs, i: int)
    requires 0 <= i < |init|
    ensures FirstCounted(init + [o], i) <==> FirstCounted(init, i)
  {
    var judges := init + [o];
    assert forall j :: 0 <= j <= i ==> judges[j] == init[j];
  }

  /** A tallied (case, judge) pair comes from an earlier counted observation. */
  lemma TalliedHasEarlier(init: seq<JudgeObs>, o: JudgeObs)
    requires Counted(o)
    requires JudgeKey(ToTally(o)) in KeySet(TallyRows(init), JudgeKey)
    ensures !FirstCounted(init + [o], |init|)
  {
    var judges := init + [o];
    var rows := TallyRows(init);
    var k :| 0 <= k < |rows| && JudgeKey(rows[k]) == JudgeKey(ToTally(o));
    assert rows[k] in rows;
    var p :| p in init && Counted(p) && rows[k] == ToTally(p);
    var j :| 0 <= j < |init| && init[j] == p;
    assert judges[j] == p && judges[|init|] == o;
  }

  /** Every counted observation's (case, judge) pair is tallied. */
  lemma EarlierIsTallied(init: seq<JudgeObs>, j: int)
    requires 0 <= j < |init| && Counted(init[j])
    ensures JudgeKey(ToTally(init[j])) in KeySet(TallyRows(init), JudgeKey)
  {
    var rows := TallyRows(init);
    assert init[j] in init;
    assert ToTally(init[j]) in rows;
    var k :| 0 <= k < |rows| && rows[k] == ToTally(init[j]);
  }

  /** A counted observation's (case, judge) pair is already tallied exactly
      when an earlier counted observation names it. */
  lemma TalliedBefore(init: seq<JudgeObs>, o: JudgeObs)
    requires Counted(o)
    ensures JudgeKey(ToTally(o)) in KeySet(TallyRows(init), JudgeKey) <==> !FirstCounted(init + [o], |init|)
  {
    var judges := init + [o];
    if JudgeKey(ToTally(o)) in KeySet(TallyRows(init), JudgeKey) {
      TalliedHasEarlier(init, o);
    } else if !FirstCounted(judges, |init|) {
      assert judges[|init|] == o;
      var j :| 0 <= j < |init| && Counted(judges[j]) && JudgeKey(ToTally(judges[j])) == JudgeKey(ToTally(o));
      assert judges[j] == init[j];
      EarlierIsTallied(init, j);
    }
  }

  /** The de-duplicated tally grows by the new observation exactly when it is
      the first counted one of its judge on its case. */
  lemma DedupTallyStep(init: seq<JudgeObs>, o: JudgeObs)
    ensures DedupTally(init + [o])
         == if FirstCounted(init + [o], |init|) then DedupTally(init) + [ToTally(o)] else DedupTally(init)
  {
    var judges := init + [o];
    TallyRowsAppend(init, o);
    assert judges[|init|] == o;
    var rows := TallyRows(init);
    if Counted(o) {
      assert TallyRows(judges) == rows + [ToTally(o)];
      DedupAppend(rows, ToTally(o), JudgeKey);
      TalliedBefore(init, o);
    } else {
      assert TallyRows(judges) == rows;
      assert !FirstCounted(judges, |init|);
    }
  }

  /** The first counted observations of `init + [o]` are those of `init`,
      plus `o` when it is itself the first of its judge on its case. */
  lemma FirstCountedStep(init: seq<JudgeObs>, o: JudgeObs, t: TallyRow)
    ensures (exists i :: FirstCounted(init + [o], i) && t == ToTally((init + [o])[i]))
        <==> (exists i :: FirstCounted(init, i) && t == ToTally(init[i]))
             || (FirstCounted(init + [o], |init|) && t == ToTally(o))
  {
    var judges := init + [o];
    if exists i :: FirstCounted(judges, i) && t == ToTally(judges[i]) {
      var i :| FirstCounted(judges, i) && t == ToTally(judges[i]);
      if i < |init| {
        FirstCountedPrefix(init, o, i);
        assert judges[i] == init[i];
      }
    }
    if exists i :: FirstCounted(init, i) && t == ToTally(init[i]) {
      var i :| FirstCounted(init, i) && t == ToTally(init[i]);
      FirstCountedPrefix(init, o, i);
      assert judges[i] == init[i];
    }
  }

  /** The tally keeps, for each (case, judge), the relabelled first counted
      observation of that judge on that case, and nothing else. */
  lemma {:induction false} DedupTallyKeepsFirst(judges: seq<JudgeObs>, t: TallyRow)
    ensures t in DedupTally(judges) <==> exists i :: FirstCounted(judges, i) && t == ToTally(judges[i])
    decreases |judges|
  {
    if |judges| > 0 {
      var n := |judges| - 1;
      var init, o := judges[..n], judges[n];
      assert judges == init + [o];
      DedupTallyKeepsFirst(init, t);
      DedupTallyStep(init, o);
      FirstCountedStep(init, o, t);
    }
  }

  /** The size of group (u, label): zero exactly when the group is empty. */
  function CountOf(d: seq<TallyRow>, u: string, judgeType: string): (r: nat)
    ensures r <= |d|
    ensures r == 0 <==> forall i :: 0 <= i < |d| ==> !(d[i].ucid == u && d[i].judgeType == judgeType)
  {
    if |d| == 0 then 0
    else
      var n := |d| - 1;
      assert forall i :: 0 <= i < n ==> d[..n][i] == d[i];
      CountOf(d[..n], u, judgeType) + (if d[n].ucid == u && d[n].judgeType == judgeType then 1 else 0)
  }

  /** The number of rows of case `u`, whatever their label. */
  function CountOfUcid(d: seq<TallyRow>, u: string): nat {
    if |d| == 0 then 0
    else CountOfUcid(d[..|d| - 1], u) + (if d[|d| - 1].ucid == u then 1 else 0)
  }

  /** The distinct labels, in order of first appearance: the pivot columns. */
  function LabelList(d: seq<TallyRow>): (r: seq<string>)
    ensures forall i, j :: 0 <= i < j < |r| ==> r[i] != r[j]
    ensures forall l :: l in r <==> l in KeySet(d, TallyLabel)
  {
    var k := Dedup(d, TallyLabel);
    var r := MapAll(TallyLabel, k);
    forall l ensures l in r <==> l in KeySet(d, TallyLabel) {
      if l in KeySet(k, TallyLabel) {
        var i :| 0 <= i < |k| && TallyLabel(k[i]) == l;
        assert r[i] == l;
      }
    }
    r
  }

  /** The distinct case ids, in order of first appearance: the pivot rows. */
  function UcidList(d: seq<TallyRow>): (r: seq<string>)
    ensures forall i, j :: 0 <= i < j < |r| ==> r[i] != r[j]
    ensures forall u :: u in r <==> u in KeySet(d, TallyUcid)
  {
    var k := Dedup(d, TallyUcid);
    var r := MapAll(TallyUcid, k);
    forall u ensures u in r <==> u in KeySet(d, TallyUcid) {
      if u in KeySet(k, TallyUcid) {
        var i :| 0 <= i < |k| && TallyUcid(k[i]) == u;
        assert r[i] == u;
      }
    }
    r
  }

  /** The judge-count column of a label. */
  function JudgeCountColumn(judgeType: string): (r: string)
    ensures |r| == |"judge_count_"| + |judgeType|
    ensures r[..|"judge_count_"|] == "judge_count_"
    ensures r[|"judge_count_"|..] == Snake(judgeType)
  {
    ColumnName("judge_count_", judgeType)
  }

  // ---------------------------------------------------------------------------
  // What the tallies add up to
  // ---------------------------------------------------------------------------

  /** The counts of case `u` summed over the given labels. */
  function SumCounts(d: seq<TallyRow>, u: string, labels: seq<string>): nat {
    if |labels| == 0 then 0
    else SumCounts(d, u, labels[..|labels| - 1]) + CountOf(d, u, labels[|labels| - 1])
  }

  lemma {:induction false} SumCountsEmpty(u: string, labels: seq<string>)
    ensures SumCounts([], u, labels) == 0
    decreases |labels|
  {
    if |labels| > 0 {
      SumCountsEmpty(u, labels[..|labels| - 1]);
    }
  }

  /** Adding one row adds one to exactly one label's count, if its label is
      listed. */
  lemma {:induction false} SumCountsStep(d: seq<TallyRow>, x: TallyRow, u: string, labels: seq<string>)
    requires forall i, j :: 0 <= i < j < |labels| ==> labels[i] != labels[j]
    ensures SumCounts(d + [x], u, labels)
         == SumCounts(d, u, labels) + (if x.ucid == u && x.judgeType in labels then 1 else 0)
    decreases |labels|
  {
    if |labels| > 0 {
      var init, l := labels[..|labels| - 1], labels[|labels| - 1];
      SumCountsStep(d, x, u, init);
      assert (d + [x])[..|d|] == d;
      assert x.judgeType in labels <==> x.judgeType in init || x.judgeType == l by {
        assert labels == init + [l];
      }
      if x.judgeType == l {
        assert l !in init;
      }
    }
  }

  /** Summed over a list naming every label once, the counts of a case add up
      to its number of rows. */
  lemma {:induction false} SumCountsTotal(d: seq<TallyRow>, u: string, labels: seq<string>)
    requires forall i, j :: 0 <= i < j < |labels| ==> labels[i] != labels[j]
    requires forall i :: 0 <= i < |d| ==> d[i].judgeType in labels
    ensures SumCounts(d, u, labels) == CountOfUcid(d, u)
    decreases |d|
  {
    if |d| == 0 {
      SumCountsEmpty(u, labels);
    } else {
      var n := |d| - 1;
      SumCountsTotal(d[..n], u, labels);
      assert d == d[..n] + [d[n]];
      SumCountsStep(d[..n], d[n], u, labels);
    }
  }

  /** The judges seen on case `u`. */
  function JudgesOf(d: seq<TallyRow>, u: string): set<int> {
    set i | 0 <= i < |d| && d[i].ucid == u :: d[i].sjid
  }

  /** With one row per (case, judge), a case has one row per distinct judge. */
  lemma {:induction false} UcidCountIsJudgeCount(d: seq<TallyRow>, u: string)
    requires DistinctKeys(d, JudgeKey)
    ensures CountOfUcid(d, u) == |JudgesOf(d, u)|
    decreases |d|
  {
    if |d| > 0 {
      var n := |d| - 1;
      var init := d[..n];
      assert forall i :: 0 <= i < n ==> init[i] == d[i];
      UcidCountIsJudgeCount(init, u);
      if d[n].ucid == u {
        assert JudgesOf(d, u) == JudgesOf(init, u) + {d[n].sjid};
        forall i | 0 <= i < n ensures JudgeKey(init[i]) != JudgeKey(d[n]) {
          assert JudgeKey(d[i]) != JudgeKey(d[n]);
        }
      } else {
        assert JudgesOf(d, u) == JudgesOf(init, u);
      }
    }
  }

  /** The distinct judges with a counted label observed on case `u`. */
  function CountedJudges(judges: seq<JudgeObs>, u: string): set<int> {
    set o | o in judges && Counted(o) && o.ucid == u :: o.sjid
  }

  lemma JudgesOfByKey(d: seq<TallyRow>, u: string, s: int)
    ensures s in JudgesOf(d, u) <==> (u, s) in KeySet(d, JudgeKey)
  {
    if (u, s) in KeySet(d, JudgeKey) {
      var i :| 0 <= i < |d| && JudgeKey(d[i]) == (u, s);
    }
  }

  lemma JudgesOfDedupTally(judges: seq<JudgeObs>, u: string)
    ensures JudgesOf(DedupTally(judges), u) == CountedJudges(judges, u)
  {
    var d, rows := DedupTally(judges), TallyRows(judges);
    forall s ensures s in JudgesOf(d, u) <==> s in CountedJudges(judges, u) {
      JudgesOfByKey(d, u, s);
      JudgesOfByKey(rows, u, s);
      if s in JudgesOf(rows, u) {
        var i :| 0 <= i < |rows| && rows[i].ucid == u && rows[i].sjid == s;
        assert rows[i] in rows;
      }
      if s in CountedJudges(judges, u) {
        var o :| o in judges && Counted(o) && o.ucid == u && o.sjid == s;
        assert ToTally(o) in rows;
        var i :| 0 <= i < |rows| && rows[i] == ToTally(o);
        assert s in JudgesOf(rows, u);
      }
    }
  }

  /** The judge counts of a case add up to the number of distinct judges
      observed on it under a counted label. */
  lemma TallyTotal(judges: seq<JudgeObs>, u: string)
    ensures SumCounts(DedupTally(judges), u, LabelList(DedupTally(judges))) == |CountedJudges(judges, u)|
  {
    var d := DedupTally(judges);
    forall i | 0 <= i < |d| ensures d[i].judgeType in LabelList(d) {
      assert TallyLabel(d[i]) in KeySet(d, TallyLabel);
    }
    SumCountsTotal(d, u, LabelList(d));
    UcidCountIsJudgeCount(d, u);
    JudgesOfDedupTally(judges, u);
  }

  /** A case has a tally row exactly when some counted observation names it. */
  lemma TallyCases(judges: seq<JudgeObs>, u: string)
    ensures u in KeySet(DedupTally(judges), TallyUcid) <==> exists o :: o in judges && Counted(o) && o.ucid == u
  {
    var d := DedupTally(judges);
    if u in KeySet(d, TallyUcid) {
      var i :| 0 <= i < |d| && d[i].ucid == u;
      assert d[i].sjid in JudgesOf(d, u);
      JudgesOfDedupTally(judges, u);
    }
    if exists o :: o in judges && Counted(o) && o.ucid == u {
      var o :| o in judges && Counted(o) && o.ucid == u;
      assert o.sjid in CountedJudges(judges, u);
      JudgesOfDedupTally(judges, u);
      var i :| 0 <= i < |d| && d[i].ucid == u && d[i].sjid == o.sjid;
      assert TallyUcid(d[i]) == u;
    }
  }

  // ---------------------------------------------------------------------------
  // The processed judge data
  // ---------------------------------------------------------------------------

  /** One output row: the judge counts of the case, one per label column, and
      the assigned judge with its position when the case has one. */
  datatype ProcessedRow = ProcessedRow(ucid: string, counts: map<string, nat>, assignment: Option<ResolvedJudge>)

  function RowUcid(r: ProcessedRow): string { r.ucid }

  /** The merge partner of case `u` (assigned judges have distinct cases). */
  function ResolvedFor(rs: seq<ResolvedJudge>, u: string): (r: Option<ResolvedJudge>)
    ensures r.Some? ==> r.value in rs && r.value.judge.ucid == u
    ensures r.None? <==> forall i :: 0 <= i < |rs| ==> rs[i].judge.ucid != u
  {
    if |rs| == 0 then None
    else if rs[0].judge.ucid == u then Some(rs[0])
    else
      var r := ResolvedFor(rs[1..], u);
      assert forall i :: 1 <= i < |rs| ==> rs[1..][i - 1] == rs[i];
      r
  }

  /** The pivot row of case `u`: its count under every label, and its
      merge partner among the resolved assignments. */
  function PivotRow(d: seq<TallyRow>, resolved: seq<ResolvedJudge>, u: string): ProcessedRow {
    ProcessedRow(u, map l | l in KeySet(d, TallyLabel) :: CountOf(d, u, l), ResolvedFor(resolved, u))
  }

  predicate HasRow(r: seq<ProcessedRow>, u: string) {
    exists i :: 0 <= i < |r| && r[i].ucid == u
  }

  /** `pivot_table(index='ucid', columns='judge_type', aggfunc='size',
      fill_value=0)` followed by the left merge with the resolved
      assignments. */
  function Pivot(d: seq<TallyRow>, resolved: seq<ResolvedJudge>): (r: seq<ProcessedRow>)
    ensures DistinctKeys(r, RowUcid)
    ensures forall u :: HasRow(r, u) <==> u in KeySet(d, TallyUcid)
    ensures forall i :: 0 <= i < |r| ==> r[i].counts.Keys == KeySet(d, TallyLabel)
    ensures forall i, l :: 0 <= i < |r| && l in r[i].counts ==> r[i].counts[l] == CountOf(d, r[i].ucid, l)
    ensures forall i :: 0 <= i < |r| ==> r[i].assignment == ResolvedFor(resolved, r[i].ucid)
  {
    var ucids := UcidList(d);
    var r := MapAll((u: string) => PivotRow(d, resolved, u), ucids);
    forall u ensures HasRow(r, u) <==> u in KeySet(d, TallyUcid) {
      if u in ucids {
        var i :| 0 <= i < |ucids| && ucids[i] == u;
        assert r[i].ucid == u;
      }
    }
    r
  }

  /** Every pivot label is one the tally keeps. */
  lemma TallyLabelsCountable(judges: seq<JudgeObs>, l: string)
    requires l in KeySet(DedupTally(judges), TallyLabel)
    ensures CountableLabel(l)
  {
    var d := DedupTally(judges);
    var k :| 0 <= k < |d| && TallyLabel(d[k]) == l;
    assert d[k] in TallyRows(judges);
  }

  /** A merge partner found among the resolved assignments is an assigned
      judge of that case with its resolved position; none is found exactly
      when no assigned judge is on the case. */
  lemma ResolvedForAssignments(judges: seq<JudgeObs>, caseIndex: seq<IndexRow>,
                               fjc: map<Nid, FjcJudge>, u: string)
    ensures var r := ResolvedFor(ResolvePositions(AssignedJudges(judges), caseIndex, fjc), u);
      && (r.Some? ==> r.value.judge in AssignedJudges(judges)
                      && r.value.position == Resolve(QueryOf(r.value.judge, caseIndex, fjc)))
      && (r.None? <==> forall a :: a in AssignedJudges(judges) ==> a.ucid != u)
  {
    var assignments := AssignedJudges(judges);
    var resolved := ResolvePositions(assignments, caseIndex, fjc);
    var r := ResolvedFor(resolved, u);
    if r.Some? {
      var k :| 0 <= k < |resolved| && resolved[k] == r.value;
      assert resolved[k].judge == assignments[k];
    } else {
      forall a | a in assignments ensures a.ucid != u {
        var k :| 0 <= k < |assignments| && assignments[k] == a;
        assert resolved[k].judge.ucid != u;
      }
    }
    if forall a :: a in assignments ==> a.ucid != u {
      forall k | 0 <= k < |resolved| ensures resolved[k].judge.ucid != u {
        assert assignments[k] in assignments;
      }
    }
  }

  /** Some counted observation names case `u`. */
  predicate CountedCase(judges: seq<JudgeObs>, u: string) {
    exists o :: o in judges && Counted(o) && o.ucid == u
  }

  /** `process_judge_data`: pivot the tallies into one row per case that has
      a counted observation, and left-join the assigned judge with its
      resolved position. */
  function ProcessJudgeData(caseIndex: seq<IndexRow>, judges: seq<JudgeObs>,
                            fjc: map<Nid, FjcJudge>): (r: seq<ProcessedRow>)
    ensures DistinctKeys(r, RowUcid)
    ensures forall u :: HasRow(r, u) <==> CountedCase(judges, u)
    ensures forall i :: 0 <= i < |r| ==> r[i].counts.Keys == KeySet(DedupTally(judges), TallyLabel)
    ensures forall i, l :: 0 <= i < |r| && l in r[i].counts ==>
      CountableLabel(l) && r[i].counts[l] == CountOf(DedupTally(judges), r[i].ucid, l)
    ensures forall i :: 0 <= i < |r| && r[i].assignment.Some? ==>
      && r[i].assignment.value.judge.ucid == r[i].ucid
      && r[i].assignment.value.judge in AssignedJudges(judges)
      && r[i].assignment.value.position == Resolve(QueryOf(r[i].assignment.value.judge, caseIndex, fjc))
    ensures forall i :: 0 <= i < |r| ==>
      (r[i].assignment.None? <==> forall a :: a in AssignedJudges(judges) ==> a.ucid != r[i].ucid)
  {
    var d := DedupTally(judges);
    var r := Pivot(d, ResolvePositions(AssignedJudges(judges), caseIndex, fjc));
    forall u ensures HasRow(r, u) <==> CountedCase(judges, u) {
      TallyCases(judges, u);
    }
    forall l | l in KeySet(d, TallyLabel) ensures CountableLabel(l) {
      TallyLabelsCountable(judges, l);
    }
    forall i | 0 <= i < |r|
      ensures r[i].assignment.Some? ==>
        && r[i].assignment.value.judge in AssignedJudges(judges)
        && r[i].assignment.value.position == Resolve(QueryOf(r[i].assignment.value.judge, caseIndex, fjc))
      ensures r[i].assignment.None? <==> forall a :: a in AssignedJudges(judges) ==> a.ucid != r[i].ucid
    {
      ResolvedForAssignments(judges, caseIndex, fjc, r[i].ucid);
    }
    r
  }

  // ---------------------------------------------------------------------------
  // Worked example
  // ---------------------------------------------------------------------------

  /** Article III judges land in the district-judge column. */
  lemma DistrictJudgeColumn()
    ensures JudgeCountColumn("District Judge") == "judge_count_district_judge"
    ensures JudgeCountColumn(Relabel("Article III Judge")) == "judge_count_district_judge"
  {
    var s := "District Judge";
    forall i | 0 <= i < |s| ensures Snake(s)[i] == "district_judge"[i] {
    }
    assert "judge_count_" + "district_judge" == "judge_count_district_judge";
  }

  const ExampleJudges: seq<JudgeObs> := [
    JudgeObs("c", "Article III Judge", "m", "s", 1, None),
    JudgeObs("c", "Magistrate Judge", "m", "s", 1, None),
    JudgeObs("c", "Ambiguous", "m", "s", 2, None),
    JudgeObs("c", "District Judge", "m", "s", 3, None)]

  const ExampleTally: seq<TallyRow> := [
    TallyRow("c", 1, "District Judge"), TallyRow("c", 1, "Magistrate Judge"),
    TallyRow("c", 3, "District Judge")]

  lemma ExampleTallyRows()
    ensures TallyRows(ExampleJudges) == ExampleTally
  {
    var j := ExampleJudges;
    var mask := MapAll(Counted, j);
    assert mask == [true, true, false, true];
    assert j[..3][..2][..1] == [j[0]] && [j[0]][..0] == [];
    assert MaskSelect(j[..3][..2], mask[..3][..2]) == [j[0], j[1]];
    assert MaskSelect(j[..3], mask[..3]) == [j[0], j[1]];
    assert MaskSelect(j, mask) == [j[0], j[1], j[3]];
    assert Relabel(j[0].judgeLabel) == "District Judge";
    assert Relabel(j[1].judgeLabel) == "Magistrate Judge";
    assert Relabel(j[3].judgeLabel) == "District Judge";
    assert MapAll(ToTally, [j[0], j[1], j[3]]) == ExampleTally;
  }

  lemma ExampleDedup()
    ensures DedupTally(ExampleJudges) == [ExampleTally[0], ExampleTally[2]]
  {
    var rows := ExampleTally;
    ExampleTallyRows();
    assert rows[..2][..1] == [rows[0]] && rows[..2] == [rows[0], rows[1]];
    assert [rows[0]][..0] == [];
    assert Dedup([rows[0]], JudgeKey) == [rows[0]];
    assert JudgeKey(rows[1]) in KeySet([rows[0]], JudgeKey);
    assert Dedup(rows[..2], JudgeKey) == [rows[0]];
    assert JudgeKey(rows[2]) !in KeySet(rows[..2], JudgeKey);
  }

  lemma ExampleCountedJudges()
    ensures CountedJudges(ExampleJudges, "c") == {1, 3}
  {
    var j := ExampleJudges;
    assert j[0] in j && j[3] in j;
    forall s | s in CountedJudges(j, "c") ensures s in {1, 3} {
      var o :| o in j && Counted(o) && o.ucid == "c" && o.sjid == s;
    }
  }

  lemma ExampleCounts()
    ensures CountOf([ExampleTally[0], ExampleTally[2]], "c", "District Judge") == 2
    ensures CountOf([ExampleTally[0], ExampleTally[2]], "c", "Magistrate Judge") == 0
  {
    var d := [ExampleTally[0], ExampleTally[2]];
    assert d[..1] == [d[0]] && [d[0]][..0] == [];
  }

  /** One case: judge 1 seen first as an Article III judge and then as a
      magistrate judge, judge 2 with an ambiguous label, judge 3 as a district
      judge. Judge 1 keeps its first label and judge 2 is not counted, so the
      case has two district judges, no magistrate judge, and two judges in
      all. */
  lemma TallyExample()
    ensures CountOf(DedupTally(ExampleJudges), "c", "District Judge") == 2
    ensures CountOf(DedupTally(ExampleJudges), "c", "Magistrate Judge") == 0
    ensures |CountedJudges(ExampleJudges, "c")| == 2
  {
    ExampleDedup();
    ExampleCounts();
    ExampleCountedJudges();
  }
}
