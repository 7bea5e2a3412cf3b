/** The global case index: each raw case record is normalised into a flat row
    (`build_global_index`'s loop body), each batch then gets its derived
    columns (`nature_suit_code`, `is_closed`) and the court table joined on,
    and the batches are written fresh-then-append. */
module GlobalIndex {
  import opened Wrappers
  import opened Dates
  import opened Text
  import opened Seqs
  import opened Artifacts
  import opened Parties

  datatype DocketEntry = DocketEntry(dateFiled: Option<Date>)

  /** A raw case record. Dates are held already parsed (None when missing or
      unparseable); `other` carries every scalar field the pipeline passes
      through untouched. The four bookkeeping fields, the docket and the party
      list are always present, so deleting them cannot fail. */
  datatype RawCase = RawCase(
    ucid: string,
    court: string,
    caseType: Option<string>,
    natureSuit: Option<string>,
    filingDate: Option<Date>,
    terminatingDate: Option<Date>,
    caseFlags: seq<string>,
    docket: seq<DocketEntry>,
    parties: seq<Party>,
    isMulti: bool,
    casePacerId: string,
    downloadUrl: string,
    nDocketReports: int,
    other: map<string, string>)

  /** A normalised record: the retained scalar fields plus the docket and party
      features; docket, parties and the bookkeeping fields are gone. */
  datatype CaseRow = CaseRow(
    ucid: string,
    court: string,
    caseType: Option<string>,
    natureSuit: Option<string>,
    filingDate: Option<Date>,
    terminatingDate: Option<Date>,
    caseFlags: seq<string>,
    other: map<string, string>,
    firstEntryDate: Option<Date>,
    lastEntryDate: Option<Date>,
    numEntries: nat,
    hasProSeParty: bool,
    numDefendants: nat,
    numPlaintiffs: nat,
    numParties: nat)

  /** A normalised record with the batch-level derived columns. */
  datatype FeatureRow = FeatureRow(record: CaseRow, natureSuitCode: Option<nat>, isClosed: bool)

  /** Static court metadata joined by court code. */
  datatype CourtInfo = CourtInfo(
    courtName: Option<string>,
    circuit: Option<string>,
    district: Option<string>,
    pendingCasesCivil: Option<int>,
    pendingCasesCriminal: Option<int>)

  /** A row of the global index; `court` is None when the court code has no
      entry in the court table (all court columns null). */
  datatype IndexRow = IndexRow(features: FeatureRow, court: Option<CourtInfo>) {
    function Ucid(): string { features.record.ucid }
    function CourtCode(): string { features.record.court }
    function CaseType(): Option<string> { features.record.caseType }
    function FilingDate(): Option<Date> { features.record.filingDate }
    function LastEntryDate(): Option<Date> { features.record.lastEntryDate }
    function NosCode(): Option<nat> { features.natureSuitCode }
    function IsClosed(): bool { features.isClosed }
  }

  // ---------------------------------------------------------------------------
  // Per-record normaliser
  // ---------------------------------------------------------------------------

  function Normalise(raw: RawCase): (r: CaseRow)
    // docket bounds
    ensures |raw.docket| == 0 ==> r.firstEntryDate.None? && r.lastEntryDate.None?
    ensures |raw.docket| > 0 ==> r.firstEntryDate == raw.docket[0].dateFiled
    ensures |raw.docket| > 0 ==> r.lastEntryDate == raw.docket[|raw.docket| - 1].dateFiled
    // counts
    ensures r.numEntries == |raw.docket| && r.numParties == |raw.parties|
    ensures r.numPlaintiffs == multiset(PartyTypes(raw.parties))[Some("plaintiff")]
    ensures r.numDefendants == multiset(PartyTypes(raw.parties))[Some("defendant")]
    ensures r.numPlaintiffs + r.numDefendants <= r.numParties
    ensures r.hasProSeParty <==> exists i :: 0 <= i < |raw.parties| && RepresentsSelf(raw.parties[i])
    // every field that is not deleted is carried over unchanged
    ensures && r.ucid == raw.ucid && r.court == raw.court && r.caseType == raw.caseType
            && r.natureSuit == raw.natureSuit && r.filingDate == raw.filingDate
            && r.terminatingDate == raw.terminatingDate && r.caseFlags == raw.caseFlags
            && r.other == raw.other
  {
    var first := if |raw.docket| > 0 then raw.docket[0].dateFiled else None;
    var last := if |raw.docket| > 0 then raw.docket[|raw.docket| - 1].dateFiled else None;
    CountTwoTypesBound(raw.parties, "plaintiff", "defendant");
    CaseRow(
      raw.ucid, raw.court, raw.caseType, raw.natureSuit, raw.filingDate,
      raw.terminatingDate, raw.caseFlags, raw.other,
      first, last, |raw.docket|,
      HasProSeParty(raw.parties),
      CountPartyType(raw.parties, "defendant"),
      CountPartyType(raw.parties, "plaintiff"),
      |raw.parties|)
  }

  /** When every docket entry has a parseable date, the docket-bound dates
      are null exactly when the docket is empty. */
  lemma EntryDatesNullIffEmpty(raw: RawCase)
    requires forall k :: 0 <= k < |raw.docket| ==> raw.docket[k].dateFiled.Some?
    ensures Normalise(raw).firstEntryDate.None? <==> |raw.docket| == 0
    ensures Normalise(raw).lastEntryDate.None? <==> |raw.docket| == 0
  {
  }

  // ---------------------------------------------------------------------------
  // Batch-level derived columns
  // ---------------------------------------------------------------------------

  /** The leading whitespace-delimited token of the nature-of-suit text, read
      as an unsigned integer; null when there is no text, no token, or the
      token is not a number. */
  function NatureSuitCode(natureSuit: Option<string>): (r: Option<nat>)
    ensures r.Some? <==>
      && natureSuit.Some?
      && FirstToken(natureSuit.value).Some?
      && AllDigits(FirstToken(natureSuit.value).value)
  {
    match natureSuit
    case None => None
    case Some(text) =>
      match FirstToken(text)
      case None => None
      case Some(token) => ParseNat(token)
  }

  /** Every code printed as a number and followed by any whitespace character
      and a description is read back. */
  lemma NatureSuitCodeRoundTrip(code: nat, sep: char, description: string)
    requires IsSpace(sep)
    ensures NatureSuitCode(Some(Decimal(code) + [sep] + description)) == Some(code)
    ensures NatureSuitCode(Some(Decimal(code))) == Some(code)
  {
    DecimalNoSpace(code);
    FirstTokenOfWord(Decimal(code), sep, description);
    DecimalRoundTrip(code);
  }

  /** A no-break space separates the code from its description as a blank
      does. */
  lemma NatureSuitCodeNoBreakSpace()
    ensures NatureSuitCode(Some("440\U{00A0}Civil Rights")) == Some(440)
    ensures NatureSuitCode(Some("440 Civil Rights")) == Some(440)
  {
    FirstTokenOfWord("440", '\U{00A0}', "Civil Rights");
    FirstTokenOfWord("440", ' ', "Civil Rights");
    assert "440" + ['\U{00A0}'] + "Civil Rights" == "440\U{00A0}Civil Rights";
    assert "440" + [' '] + "Civil Rights" == "440 Civil Rights";
    assert "440"[..2][..1] == "4" && "4"[..0] == [];
    assert DecimalValue("440") == 440;
  }

  /** A case is closed when it has a terminating date or carries the "CLOSED"
      flag. */
  predicate ClosedStatus(terminatingDate: Option<Date>, caseFlags: seq<string>) {
    terminatingDate.Some? || "CLOSED" in caseFlags
  }

  function Derive(c: CaseRow): (r: FeatureRow)
    ensures r.record == c
    ensures r.isClosed <==> ClosedStatus(c.terminatingDate, c.caseFlags)
    ensures r.natureSuitCode == NatureSuitCode(c.natureSuit)
  {
    FeatureRow(c, NatureSuitCode(c.natureSuit), c.terminatingDate.Some? || "CLOSED" in c.caseFlags)
  }

  // ---------------------------------------------------------------------------
  // Court join and batch assembly
  // ---------------------------------------------------------------------------

  function CourtOf(code: string, courts: map<string, CourtInfo>): Option<CourtInfo> {
    if code in courts then Some(courts[code]) else None
  }

  /** `merge(courts, how='left', on='court')` against a table keyed by court
      code. */
  function CourtJoin(rows: seq<FeatureRow>, courts: map<string, CourtInfo>): (r: seq<IndexRow>)
    ensures |r| == |rows|
    ensures forall i :: 0 <= i < |r| ==> r[i].features == rows[i]
    ensures forall i :: 0 <= i < |r| ==> (r[i].court.None? <==> rows[i].record.court !in courts)
    ensures forall i :: 0 <= i < |r| && r[i].court.Some? ==> r[i].court.value == courts[rows[i].record.court]
  {
    MapAll((f: FeatureRow) => IndexRow(f, CourtOf(f.record.court, courts)), rows)
  }

  /** Dropping the joined court columns gives back the left table. */
  lemma CourtJoinIsLeftJoin(rows: seq<FeatureRow>, courts: map<string, CourtInfo>)
    ensures MapAll((r: IndexRow) => r.features, CourtJoin(rows, courts)) == rows
  {
  }

  /** The index row of one raw case: normalise, derive, join its court. */
  function IndexCase(raw: RawCase, courts: map<string, CourtInfo>): IndexRow {
    IndexRow(Derive(Normalise(raw)), CourtOf(raw.court, courts))
  }

  /** One batch of `build_global_index`: normalise every record, derive the
      batch columns, then join the court table. */
  function ProcessBatch(batch: seq<RawCase>, courts: map<string, CourtInfo>): (r: seq<IndexRow>)
    ensures r == MapAll((raw: RawCase) => IndexCase(raw, courts), batch)
  {
    CourtJoin(MapAll(Derive, MapAll(Normalise, batch)), courts)
  }

  /** `build_global_index`: the existing index is deleted, then every
      processed batch is appended. The result is the index rows of all cases in
      traversal order, whatever the batching and whatever existed before; with
      no batch at all no index is written. */
  function BuildGlobalIndex(existing: Artifact<IndexRow>, batches: seq<seq<RawCase>>,
                            courts: map<string, CourtInfo>): (r: Artifact<IndexRow>)
    ensures |batches| == 0 <==> r.None?
    ensures r.Some? ==> r.value == MapAll((raw: RawCase) => IndexCase(raw, courts), Concat(batches))
  {
    var f := (raw: RawCase) => IndexCase(raw, courts);
    var processed := MapAll((b: seq<RawCase>) => ProcessBatch(b, courts), batches);
    assert processed == MapAll((s: seq<RawCase>) => MapAll(f, s), batches);
    MapConcat(f, batches);
    Rebuild(existing, processed)
  }

  /** End to end: row `i` of the built index is the `i`-th raw case in
      traversal order, and it is closed exactly when that raw case has a
      terminating date or carries the "CLOSED" flag. */
  lemma IndexClosedIff(existing: Artifact<IndexRow>, batches: seq<seq<RawCase>>,
                       courts: map<string, CourtInfo>, i: int)
    requires 0 <= i < |Concat(batches)|
    ensures var r := BuildGlobalIndex(existing, batches, courts);
      && r.Some? && |r.value| == |Concat(batches)|
      && r.value[i].Ucid() == Concat(batches)[i].ucid
      && (r.value[i].IsClosed() <==> Concat(batches)[i].terminatingDate.Some? || "CLOSED" in Concat(batches)[i].caseFlags)
  {
  }
}
