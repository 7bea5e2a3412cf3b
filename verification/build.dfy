/** The `build` command: look the project up, optionally drop its case index,
    then run each of the three project stages whose artifact is missing. The
    files on disk are an explicit state; a stage that raises leaves behind
    whatever it had already written or deleted. */
module Build {
  import opened Wrappers
  import opened Seqs
  import opened Artifacts
  import opened GlobalIndex
  import opened Positions
  import opened Projects
  import opened Registry
  import opened JudgeData

  /** The three artifacts in a project's data directory. */
  datatype ProjectFiles = ProjectFiles(
    caseIndex: Artifact<IndexRow>,
    judgeData: Artifact<JudgeObs>,
    processed: Artifact<ProcessedRow>)

  /** Shared inputs: the global index artifact, the judge-entity source in
      chunks, the judge index (SJID to NID) and the FJC table by NID. */
  datatype Sources = Sources(
    globalIndex: Artifact<IndexRow>,
    judgeBatches: seq<seq<RawEntity>>,
    judgeIndex: map<int, Nid>,
    fjc: map<Nid, FjcJudge>)

  datatype BuildError =
    | UnknownProject(name: string)   // the registry lookup raises
    | MissingGlobalIndex             // reading the global index raises
    | MissingJudgeData               // no chunk was written, so re-reading the judge data raises

  /** The files after the command, and the error it stopped with, if any. */
  datatype Outcome = Outcome(files: ProjectFiles, error: Option<BuildError>)

  predicate Complete(f: ProjectFiles) {
    f.caseIndex.Some? && f.judgeData.Some? && f.processed.Some?
  }

  // ---------------------------------------------------------------------------
  // Stages
  // ---------------------------------------------------------------------------

  /** `build_case_index`: select the scope's rows of the global index. */
  function BuildCaseIndexStage(p: Project, f: ProjectFiles, src: Sources): (r: Outcome)
    ensures r.error.Some? <==> src.globalIndex.None?
    ensures r.error.Some? ==> r.error == Some(MissingGlobalIndex) && r.files == f
    ensures r.error.None? ==>
      && r.files.caseIndex.Some?
      && (forall x :: x in r.files.caseIndex.value <==> x in src.globalIndex.value && Matches(p.scope, x))
      && r.files.judgeData == f.judgeData && r.files.processed == f.processed
  {
    match src.globalIndex
    case None => Outcome(f, Some(MissingGlobalIndex))
    case Some(rows) => Outcome(f.(caseIndex := Some(CaseIndex(p.scope, rows))), None)
  }

  /** `init_judge_data`: rebuild the judge data of the project's cases and
      delete the processed artifact. */
  function InitJudgeStage(caseIndex: seq<IndexRow>, f: ProjectFiles, src: Sources): (r: Outcome)
    ensures r.files.caseIndex == f.caseIndex
    ensures r.files.processed.None?
    ensures r.error.Some? <==> |src.judgeBatches| == 0
    ensures r.error.Some? ==> r.error == Some(MissingJudgeData) && r.files.judgeData.None?
    ensures r.error.None? ==>
      && r.files.judgeData.Some?
      && forall o :: o in r.files.judgeData.value ==> o.ucid in CaseIds(caseIndex)
  {
    var j := InitJudgeData(f.judgeData, caseIndex, src.judgeBatches, src.judgeIndex);
    Outcome(f.(judgeData := j, processed := None), if j.None? then Some(MissingJudgeData) else None)
  }

  /** `process_judge_data`: write one row per case with counted judges. */
  function ProcessStage(caseIndex: seq<IndexRow>, judges: seq<JudgeObs>, f: ProjectFiles, src: Sources): (r: ProjectFiles)
    ensures r.caseIndex == f.caseIndex && r.judgeData == f.judgeData
    ensures r.processed.Some?
    ensures forall u :: HasRow(r.processed.value, u) <==> CountedCase(judges, u)
    ensures DistinctKeys(r.processed.value, RowUcid)
    ensures forall i, l :: 0 <= i < |r.processed.value| && l in r.processed.value[i].counts ==>
      r.processed.value[i].counts[l] == CountOf(DedupTally(judges), r.processed.value[i].ucid, l)
  {
    f.(processed := Some(ProcessJudgeData(caseIndex, judges, src.fjc)))
  }

  // ---------------------------------------------------------------------------
  // The command
  // ---------------------------------------------------------------------------

  /** The stages after the project lookup and the reset. */
  function RunStages(p: Project, f: ProjectFiles, src: Sources): (r: Outcome)
    ensures r.error.None? ==> Complete(r.files)
    ensures f.caseIndex.Some? ==> r.files.caseIndex == f.caseIndex
    ensures f.caseIndex.Some? && f.judgeData.Some? ==> r.files.judgeData == f.judgeData && r.error.None?
    ensures Complete(f) ==> r == Outcome(f, None)
  {
    var s1 := if f.caseIndex.None? then BuildCaseIndexStage(p, f, src) else Outcome(f, None);
    if s1.error.Some? then s1
    else
      var ci := s1.files.caseIndex.value;
      var s2 := if s1.files.judgeData.None? then InitJudgeStage(ci, s1.files, src) else s1;
      if s2.error.Some? then s2
      else if s2.files.processed.None? then Outcome(ProcessStage(ci, s2.files.judgeData.value, s2.files, src), None)
      else s2
  }

  /** `build PROJECT_NAME [--reset]`. */
  function Build(reg: Registry<Project>, name: string, reset: bool, f: ProjectFiles, src: Sources): (r: Outcome)
    ensures Get(reg, name).Failure? <==> r.error == Some(UnknownProject(name))
    ensures Get(reg, name).Failure? ==> r.files == f
    ensures r.error.None? ==> Complete(r.files)
    ensures r.error == Some(MissingGlobalIndex) ==> src.globalIndex.None? && (reset || f.caseIndex.None?)
    ensures r.error == Some(MissingJudgeData) ==> |src.judgeBatches| == 0 && r.files.processed.None?
  {
    match Get(reg, name)
    case Failure(_) => Outcome(f, Some(UnknownProject(name)))
    case Success(p) =>
      var start := if reset then f.(caseIndex := None) else f;
      RunStages(p, start, src)
  }

  // ---------------------------------------------------------------------------
  // Properties of the command
  // ---------------------------------------------------------------------------

  /** With `--reset`, the case index is rebuilt from the global index under the
      project's scope. */
  lemma ResetRebuildsCaseIndex(reg: Registry<Project>, name: string, f: ProjectFiles, src: Sources)
    requires Get(reg, name).Success? && src.globalIndex.Some?
    ensures Build(reg, name, true, f, src).files.caseIndex
         == Some(CaseIndex(Get(reg, name).value.scope, src.globalIndex.value))
  {
  }

  /** `--reset` removes only the case index: judge data and processed data
      that exist are kept as they were, even though they were computed from
      the previous case index. */
  lemma ResetKeepsJudgeArtifacts(reg: Registry<Project>, name: string, f: ProjectFiles, src: Sources)
    requires Get(reg, name).Success? && src.globalIndex.Some?
    requires f.judgeData.Some? && f.processed.Some?
    ensures Build(reg, name, true, f, src).error.None?
    ensures Build(reg, name, true, f, src).files.judgeData == f.judgeData
    ensures Build(reg, name, true, f, src).files.processed == f.processed
  {
  }

  /** A missing judge-data artifact is rebuilt together with the processed
      artifact, even when a processed artifact existed. */
  lemma MissingJudgeDataRebuildsProcessed(reg: Registry<Project>, name: string, f: ProjectFiles, src: Sources)
    requires Get(reg, name).Success? && f.caseIndex.Some? && f.judgeData.None?
    requires |src.judgeBatches| > 0
    ensures var r := Build(reg, name, false, f, src);
      && r.error.None?
      && r.files.caseIndex == f.caseIndex
      && r.files.judgeData == InitJudgeData(None, f.caseIndex.value, src.judgeBatches, src.judgeIndex)
      && r.files.processed == Some(ProcessJudgeData(f.caseIndex.value, r.files.judgeData.value, src.fjc))
  {
    var ci := f.caseIndex.value;
    var j := InitJudgeData(f.judgeData, ci, src.judgeBatches, src.judgeIndex);
    assert j == InitJudgeData(None, ci, src.judgeBatches, src.judgeIndex);
  }

  /** Without `--reset`, a project whose three artifacts exist is left as it
      is. */
  lemma CompleteIsUnchanged(reg: Registry<Project>, name: string, f: ProjectFiles, src: Sources)
    requires Get(reg, name).Success? && Complete(f)
    ensures Build(reg, name, false, f, src) == Outcome(f, None)
  {
  }

  /** Building twice is building once: a successful build leaves nothing for
      a second one without `--reset` to do. */
  lemma BuildIdempotent(reg: Registry<Project>, name: string, reset: bool, f: ProjectFiles, src: Sources)
    requires Build(reg, name, reset, f, src).error.None?
    ensures var once := Build(reg, name, reset, f, src).files;
      Build(reg, name, false, once, src) == Outcome(once, None)
  {
    CompleteIsUnchanged(reg, name, Build(reg, name, reset, f, src).files, src);
  }
}
