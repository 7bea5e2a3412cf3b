# pacer-stats pipeline core, modelled in Dafny

pacer-stats builds analysis datasets per project from a corpus of federal civil
case records. This project models the core of that pipeline:

- **Global index** (`build_global_index`). Each raw case record is normalised
  into a flat row with docket and party features. Each batch then gets its
  `nature_suit_code` and `is_closed` columns, and the court table is
  left-joined on. The index is deleted and then rebuilt batch by batch.
- **Project scopes** (`Scope.index_filter`, `build_case_index`). A scope is a
  set of optional row constraints. The case index is the set of global-index
  rows the scope selects, in their original order.
- **Judge data** (`iter_judge_batches`, `init_judge_data`,
  `process_judge_data`). Judge-entity observations of the project's cases are
  linked to FJC ids. Then, for each case:
  - the first header-metadata assignment is kept and resolved to one
    historical FJC position (`get_fjc_position`);
  - distinct judges are counted per label.
- **Build command** (`build`). It looks the project up in the registry,
  optionally drops the case index, and then runs each stage whose artifact is
  missing.
- **Registries** (`BaseRegistry`, `ProjectRegistry`) and the two project
  configurations (`pathways`, `settlement`).

The model uses the data types of the pipeline:
- a table is a `seq` of datatype rows;
- a file on disk is an `Option` of its rows (`Artifacts.Artifact`);
- a date is an already-parsed `(year, month, day)` compared
  lexicographically (`Dates.Le`), with `None` standing for a null or
  unparseable value;
- the court table, the judge index (SJID to NID) and the FJC table are maps
  keyed by their join column.

Each stage is a pure function of its inputs and the existing files. The
`build` command returns the files it leaves behind and the error it stopped
with, if any.

Files and modules:

| file | module | contents |
|---|---|---|
| wrappers.dfy | Wrappers | `Option`, `Result` |
| dates.dfy | Dates | dates and their order |
| text.dfy | Text | ASCII lower-casing, the column-renaming rule, `str.split()` tokens, decimal numerals |
| seqs.dfy | Seqs | concatenation, boolean-mask selection, keep-first de-duplication |
| artifacts.dfy | Artifacts | `save_or_append` and the delete-then-append pattern |
| parties.dfy | Parties | `has_pro_se_party`, `count_party_type` |
| global_index.dfy | GlobalIndex | the record normaliser, derived columns, court join, index build |
| projects.dfy | Projects | `Scope`, `index_filter`, the case index, the two configured projects |
| registry.dfy | Registry | `register` / `get` / `all` |
| positions.dfy | Positions | `get_fjc_position` and the FJC column naming |
| judge_data.dfy | JudgeData | judge-data collection, assignment, tallies, the processed rows |
| build.dfy | Build | the `build` command over the three project artifacts |

Two behaviours of the code are worth stating up front:

- **The global-index build replaces the index.** It deletes its output first
  (`src/pacer_stats/commands/build_global_index.py:10-11`) and then appends
  batch by batch, so a rebuild never duplicates rows.
  `GlobalIndex.BuildGlobalIndex` proves that the result does not depend on
  what existed before.
- **Tallies are de-duplicated on (`ucid`, `sjid`) only**
  (`src/pacer_stats/project.py:84`), not on the label. A judge seen under two
  counted labels on one case therefore counts once, under the label of its
  first counted observation (`JudgeData.DedupTallyKeepsFirst`).

## Model

| member | source | states |
|---|---|---|
| Text.LowerChar | src/pacer_stats/utils.py:152-154 | an upper-case ASCII letter becomes the letter 32 code points later, its lower-case form; every other character is unchanged |
| Text.Snake | src/pacer_stats/utils.py:89 | `lower().replace(' ', '_')`: same length, each space becomes `_` and every other character is lower-cased |
| Text.ColumnName | src/pacer_stats/utils.py:89 | the renamed column is the prefix followed by the snake form of the name |
| Text.ColumnNameIgnoresCase | src/pacer_stats/utils.py:89 | two names that differ only in letter case get the same column |
| Text.ColumnNameInjective | src/pacer_stats/project.py:87 | names with no underscore get the same column only if they are equal ignoring case |
| Text.ColumnNameCollision | src/pacer_stats/project.py:87 | "Court Type" and "court_type" collide on one column name |
| Text.FirstToken | src/pacer_stats/commands/build_global_index.py:47 | `str.split().str[0]` with Python's whitespace set (ASCII and Unicode spaces): no token iff the text is all whitespace; a token is non-empty, whitespace-free and occurs in the text |
| Text.FirstTokenOfWord | src/pacer_stats/commands/build_global_index.py:47 | a whitespace-free word, alone or followed by any whitespace character and more text, is its own first token |
| Text.ParseNat | src/pacer_stats/commands/build_global_index.py:47 | an integer is read iff the token is a non-empty string of ASCII digits (the wider `int()` syntax is listed under Left out) |
| Text.DecimalRoundTrip | src/pacer_stats/commands/build_global_index.py:47 | parsing the decimal numeral of n gives back n |
| Seqs.MapConcat | src/pacer_stats/commands/build_global_index.py:15-53 | mapping batch by batch and concatenating equals mapping the concatenation |
| Seqs.MaskSelect | src/pacer_stats/project.py:47 | boolean indexing keeps at most the rows it is given, and only those rows |
| Seqs.MaskSelectMembership | src/pacer_stats/project.py:47 | a row is selected iff it sits at a position whose mask is true |
| Seqs.MaskSelectAppend | src/pacer_stats/project.py:59 | selecting from a concatenation is the concatenation of the selections |
| Seqs.Dedup | src/pacer_stats/project.py:75 | `drop_duplicates(subset=key)`: the same key set, distinct keys, no more rows than the input, only input rows |
| Seqs.DedupKeepsFirst | src/pacer_stats/project.py:75 | keep-first de-duplication selects exactly the rows whose key has not occurred earlier |
| Artifacts.SaveOrAppend | src/pacer_stats/utils.py:142-146 | the file exists afterwards; a new file holds the batch; an existing one gets the batch after its old rows |
| Artifacts.AppendAllFresh | src/pacer_stats/utils.py:142-146 | appending batches to a missing file leaves no file if there are no batches, else their concatenation |
| Artifacts.AppendAllExisting | src/pacer_stats/utils.py:142-146 | appending batches to an existing file gives its rows followed by the concatenation |
| Artifacts.AppendAll | src/pacer_stats/project.py:58-60 | writing no batch leaves the file as it was; any batch leaves a file that keeps the old rows as a prefix and grows by the batches' total length |
| Artifacts.Rebuild | src/pacer_stats/project.py:52-60 | delete-then-append leaves no file iff there are no batches, else exactly their concatenation |
| Registry.Register | src/pacer_stats/registry.py:7-10 | fails with "already exists" iff the name is registered; otherwise adds the name and keeps names distinct |
| Registry.Get | src/pacer_stats/registry.py:12-15 | fails with "does not exist" iff the name is absent; otherwise returns the item registered under it |
| Registry.All | src/pacer_stats/registry.py:17-18 | one item per registration |
| Registry.RegisterThenGet | src/pacer_stats/registry.py:7-18 | after registering, the new name yields its item, every other name is unchanged, and `all` gains the item at its end |
| Registry.AllIsRegistered | src/pacer_stats/registry.py:17-18 | every item listed by `all` is found under some registered name |
| Registry.LookupUnique | src/pacer_stats/registry.py:12-15 | with distinct names, looking up an entry's name returns that entry's item |
| Registry.RegisterProject | src/pacer_stats/registry.py:26-27 | projects are registered under their own name, with the same failure rule |
| Parties.CounselMatch | src/pacer_stats/utils.py:153-154 | true iff some counsel has a name equal to the party's name ignoring case |
| Parties.HasProSeParty | src/pacer_stats/utils.py:149-156 | true iff some named party has a counsel with that name ignoring case |
| Parties.CountPartyType | src/pacer_stats/utils.py:159-160 | the number of parties of the type, i.e. its multiplicity among the party types, at most the party count |
| Parties.CountTwoTypesBound | src/pacer_stats/commands/build_global_index.py:31-33 | counts of two different types add up to at most the party count |
| GlobalIndex.Normalise | src/pacer_stats/commands/build_global_index.py:20-41 | first and last entry dates come from the ends of the docket; entry and party counts; pro-se iff; kept fields unchanged |
| GlobalIndex.EntryDatesNullIffEmpty | src/pacer_stats/commands/build_global_index.py:21-25 | with dated entries, the entry-date columns are null iff the docket is empty |
| GlobalIndex.NatureSuitCode | src/pacer_stats/commands/build_global_index.py:47 | a code exists iff there is text whose first token is all ASCII digits (the wider `int()` syntax is listed under Left out) |
| GlobalIndex.NatureSuitCodeRoundTrip | src/pacer_stats/commands/build_global_index.py:47 | "n", and n followed by any whitespace character and a description, both give code n |
| GlobalIndex.NatureSuitCodeNoBreakSpace | src/pacer_stats/commands/build_global_index.py:47 | "440" followed by a no-break space and "Civil Rights" gives code 440, as with a blank |
| GlobalIndex.Derive | src/pacer_stats/commands/build_global_index.py:45-49 | `is_closed` iff a terminating date exists or "CLOSED" is a flag; the code is derived from `nature_suit` |
| GlobalIndex.CourtJoin | src/pacer_stats/commands/build_global_index.py:51 | a left join: same rows in the same order, court fields null iff the court code is unknown, else the table's entry |
| GlobalIndex.CourtJoinIsLeftJoin | src/pacer_stats/commands/build_global_index.py:51 | dropping the joined court columns gives back the left table |
| GlobalIndex.ProcessBatch | src/pacer_stats/commands/build_global_index.py:16-51 | a processed batch is its records each normalised, derived and joined |
| GlobalIndex.BuildGlobalIndex | src/pacer_stats/commands/build_global_index.py:9-53 | no index iff no batch; otherwise the rows of all cases in traversal order, whatever existed before |
| GlobalIndex.IndexClosedIff | src/pacer_stats/commands/build_global_index.py:49 | row i of the built index is raw case i in traversal order, and it is closed iff that case has a terminating date or the "CLOSED" flag |
| Projects.AndMask | src/pacer_stats/project.py:25-35 | `&=` is element-wise conjunction |
| Projects.IndexFilter | src/pacer_stats/project.py:22-36 | the mask is true at a row iff the row meets every constraint the scope sets |
| Projects.CaseIndex | src/pacer_stats/project.py:45-48 | a row is in the case index iff it is a global-index row the scope matches |
| Projects.CaseIndexAppend | src/pacer_stats/project.py:47 | filtering commutes with concatenation, so selected rows keep their order |
| Projects.UnrestrictedSelectsAll | src/pacer_stats/project.py:22-36 | a scope that sets no constraint selects every row |
| Projects.DefaultScopeSelectsAll | src/pacer_stats/project.py:6-20 | `Scope()` with its defaults selects every row |
| Projects.CaseIndexIdempotent | src/pacer_stats/project.py:45-48 | filtering the case index again changes nothing |
| Projects.MatchesMonotone | src/pacer_stats/project.py:22-36 | a row a tighter scope selects is selected by the looser one |
| Projects.CaseIndexMonotone | src/pacer_stats/project.py:45-48 | a tighter scope's index is its filter applied to the looser scope's index |
| Projects.SettlementWithinPathways | projects/settlement/config.py:3-24 | the settlement scope refines the pathways scope, so its index lies within the pathways index |
| Positions.LatestQualifying | src/pacer_stats/utils.py:104-112 | the highest-numbered qualifying slot up to k, and none iff no slot up to k qualifies |
| Positions.ScanSlots | src/pacer_stats/utils.py:104-112 | the loop over slots 5 to 1 with early exit finds the highest qualifying slot, or none iff none qualifies |
| Positions.Resolve | src/pacer_stats/utils.py:93-133 | ineligible, unlinked or undated rows are unresolved; otherwise the latest qualifying slot's fields with `fjc_position_used` and the judge's biography |
| Positions.ResolvedIff | src/pacer_stats/utils.py:93-133 | a position is found iff the row is eligible, linked, dated and some district-court commission is on or before the reference date |
| Positions.ReferenceBeforeAllCommissions | src/pacer_stats/utils.py:109-110 | a reference date earlier than every commission resolves nothing |
| Positions.LaterReferenceNeverOlderSlot | src/pacer_stats/utils.py:105-112 | a later reference date still resolves, to a slot at least as recent |
| Positions.PrefersMostRecentQualifying | src/pacer_stats/utils.py:105-112 | with district commissions in slots 2 and 4 and an appellate slot 5, slot 4 is used |
| Positions.FjcColumn | src/pacer_stats/utils.py:89 | an FJC column is renamed to `fjc_` followed by the snake form of its name |
| Positions.SlotColumnNames | src/pacer_stats/utils.py:89 | the FJC columns "Court Type (k)" and "Commission Date (k)" become `fjc_court_type_(k)` and `fjc_commission_date_(k)` |
| JudgeData.LinkBatch | src/pacer_stats/utils.py:61-66 | one observation per entity carrying its ucid, sjid, label, method and source; the FJC id is the judge index's NID for the sjid, null when the sjid is not indexed |
| JudgeData.RestrictToCases | src/pacer_stats/project.py:59 | an observation is kept iff its case is among the given ones |
| JudgeData.CollectConcat | src/pacer_stats/project.py:58-60 | collecting chunk by chunk equals collecting the whole source at once |
| JudgeData.InitJudgeData | src/pacer_stats/project.py:51-60 | no file iff no chunk; else the linked observations of the project's cases, in source order |
| JudgeData.HeaderAssignments | src/pacer_stats/project.py:70-74 | exactly the header-metadata assigned-judge observations, method and source dropped |
| JudgeData.AssignedJudges | src/pacer_stats/project.py:70-75 | one assignment per case, each a header assignment, and every case with a header assignment covered |
| JudgeData.AssignedKeepsFirst | src/pacer_stats/project.py:75 | each case keeps its first header assignment |
| JudgeData.HeaderAssignmentsAppend | src/pacer_stats/project.py:70-74 | the header filter keeps the order of the judge data: one more observation adds its assignment, if it is one, at the end |
| JudgeData.AssignedKeepsFirstInData | src/pacer_stats/project.py:70-75 | a kept assignment is exactly the first header-metadata assignment of its case in the judge data, method and source dropped |
| JudgeData.CaseRowOf | src/pacer_stats/project.py:77 | the case-index row of a case, absent iff the case is not in the index |
| JudgeData.ReferenceDate | src/pacer_stats/project.py:77 | the merged `last_entry_date`: null when the case is not indexed, else the last entry date of an index row of the case |
| JudgeData.FjcRecord | src/pacer_stats/utils.py:137 | the merged FJC row: null iff the judge is unlinked or its NID is not in the table, else the table's row |
| JudgeData.ResolvePositions | src/pacer_stats/project.py:77-80 | each assignment paired with the position resolved from its case's last entry date and FJC record |
| JudgeData.Relabel | src/pacer_stats/project.py:83 | "Article III Judge" becomes "District Judge", every other label is kept, and no Article III label remains |
| JudgeData.TallyRows | src/pacer_stats/project.py:82-83 | exactly the observations with a counted label, Article III relabelled; no excluded or Article III label remains |
| JudgeData.DedupTally | src/pacer_stats/project.py:84 | one row per (case, judge), each from a counted observation, with the same (case, judge) pairs |
| JudgeData.DedupTallyKeepsFirst | src/pacer_stats/project.py:82-84 | a tally row is exactly the relabelled first counted observation of its judge on its case |
| JudgeData.DedupTallyStep | src/pacer_stats/project.py:84 | one more observation adds a tally row exactly when it is the first counted one of its judge on its case |
| JudgeData.CountOf | src/pacer_stats/project.py:85-86 | a group count is zero iff the (case, label) group is empty |
| JudgeData.LabelList | src/pacer_stats/project.py:86 | the pivot columns: each tallied label exactly once |
| JudgeData.UcidList | src/pacer_stats/project.py:86 | the pivot rows: each tallied case exactly once |
| JudgeData.TallyTotal | src/pacer_stats/project.py:82-86 | the judge counts of a case add up to its number of distinct judges with a counted label |
| JudgeData.TallyCases | src/pacer_stats/project.py:82-86 | a case has tally rows iff some counted observation names it |
| JudgeData.ResolvedFor | src/pacer_stats/project.py:89 | the merge partner of a case is a resolved assignment of that case, absent iff no resolved assignment names the case |
| JudgeData.Pivot | src/pacer_stats/project.py:86-89 | one row per tallied case, a count under every tallied label, and the case's merge partner |
| JudgeData.ProcessJudgeData | src/pacer_stats/project.py:66-91 | one row per case with a counted observation; counts per countable label; an assignment iff the case has one, with its resolved position |
| JudgeData.JudgeCountColumn | src/pacer_stats/project.py:87 | a label's count column is `judge_count_` followed by the snake form of the label |
| JudgeData.DistrictJudgeColumn | src/pacer_stats/project.py:83-87 | Article III judges are counted in `judge_count_district_judge` |
| JudgeData.TallyExample | src/pacer_stats/project.py:82-85 | a judge seen first as Article III and then as magistrate counts once as a district judge; ambiguous judges are not counted |
| Build.BuildCaseIndexStage | src/pacer_stats/project.py:45-48 | fails iff the global index is missing; otherwise writes the scope's rows and touches nothing else |
| Build.InitJudgeStage | src/pacer_stats/project.py:51-64 | rebuilds the judge data and deletes the processed data; fails iff the source had no chunk |
| Build.ProcessStage | src/pacer_stats/project.py:66-91 | writes exactly one processed row per case with a counted observation, each with the tally counts of its case, and leaves the other files alone |
| Build.RunStages | src/pacer_stats/commands/build.py:14-19 | a stage runs only when its file is missing; success leaves all three files |
| Build.Build | src/pacer_stats/commands/build.py:9-19 | unknown project iff the registry lookup fails; success leaves all three files; each error names its missing input |
| Build.ResetRebuildsCaseIndex | src/pacer_stats/commands/build.py:11-15 | with reset, the case index is rebuilt from the global index under the project's scope |
| Build.ResetKeepsJudgeArtifacts | src/pacer_stats/commands/build.py:11-19 | reset leaves existing judge and processed data as they were |
| Build.MissingJudgeDataRebuildsProcessed | src/pacer_stats/commands/build.py:16-19 | missing judge data is collected and the processed data recomputed from it |
| Build.CompleteIsUnchanged | src/pacer_stats/commands/build.py:14-19 | without reset, a project with all three files is unchanged |
| Build.BuildIdempotent | src/pacer_stats/commands/build.py:9-19 | after a successful build, a second build without reset changes nothing |

## Left out

- File I/O, CSV reading and writing, `print`, `tqdm` progress bars and
  `click` argument parsing. Files are values of the model.
- The environment lookups: the corpus directory, the project directory
  discovery in `load_local_projects`, and `load_dotenv`.
- Date parsing (`pd.to_datetime` with or without `format='mixed'`). Dates are
  given already parsed, and an unparseable date is `None`. The
  `download_timestamp` column is not modelled.
- The court table built by `get_court_data` from `scales_nlp` and the
  pending-cases CSV is an input map. The code calls into a library that is
  not part of this model.
- Duplicate keys in the court table, the judge index or the FJC table would
  multiply rows in the pandas merges. The model keys each table by its join
  column, so such duplicates are not modelled.
- The `today` fallback in `get_fjc_position` is left out. After the merge, a
  missing last entry date is NaN rather than `None`, so the comparison at
  `utils.py:109` fails and no position is chosen. The model gives exactly that
  outcome. In the same way, an unlinked judge has null FJC columns and no slot
  qualifies.
- A case whose merged FJC record is missing is unresolved. The model does not
  distinguish `fjc_nid` being `None` from its being NaN.
- Case ids are taken to be unique in the case index, as the pipeline assumes.
  A duplicated `ucid` would duplicate rows in the `last_entry_date` merge
  (`src/pacer_stats/project.py:77`). `JudgeData.CaseRowOf` takes the first
  row of the case instead.
- Renaming `fjc_party_of_appointing_president` to
  `fjc_party_of_appointing_pres` changes only a column name. It is not
  modelled.
- Text.LowerChar: only ASCII letters are lower-cased. Python's Unicode case
  mapping is not modelled.
- Text.ParseNat: only tokens made of the ASCII digits `0`-`9` are read.
  Python's `int()`, which `astype(pd.Int64Dtype())` applies to each string,
  accepts more, and the model makes all of these null:
  - a leading `+` or `-` sign;
  - underscores between digits (`"4_40"` reads as 440);
  - any Unicode decimal digit (`"٤٤٠"` reads as 440).
  A value above 2^63-1 overflows `int64`, while the model reads an unbounded
  natural number. The `astype(..., errors='ignore')` fallback is not modelled
  either: if one token in a batch fails to convert, pandas leaves the whole
  column unconverted, while the model makes only that row's code null.
- GlobalIndex.NatureSuitCode: inherits every gap of `Text.ParseNat` above.
  It reads a code only from an ASCII-digit first token, unsigned and without
  underscores. It reads the code as an unbounded number and decides row by
  row.
- GlobalIndex.Derive: `case_flags` is taken to be a list of flag strings, so
  `'CLOSED' in x` is list membership. Two cases are not modelled:
  - a null (NaN) `case_flags`, where the lambda at
    `build_global_index.py:49` raises `TypeError` and the batch aborts;
  - a string `case_flags`, where the same test would be a substring test.
- JudgeData.Pivot: pandas returns the pivot rows sorted by `ucid` and the
  label columns sorted by name. The model keeps first-appearance order and
  states membership, counts and uniqueness, not order.
- Label values that are NaN and the label-to-column collisions in the pivot
  are not modelled as data. `Text.ColumnNameCollision` exhibits a collision.
- GlobalIndex.BuildGlobalIndex: with no batch at all, the source's final
  `print(utils.load_global_index())` (`build_global_index.py:54`) raises
  because no index was written. The model returns no index without an error.
  The files left behind are the same either way.
- Build.Build: a failing stage is modelled as an error result. The files it
  already wrote or deleted stay in the returned state. The Python exception
  text is not modelled.
- `load_project` on an unknown name raises `ValueError`. This is modelled by
  `Registry.Get`.
- The `test` command, `setup.py` and package initialisation are outside the
  modelled core.
