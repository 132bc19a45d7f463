/** The failure list of `audit`, and why an empty one means `AuditPasses`. */
module AuditSpec {
  import opened Text
  import opened Evidence
  import opened Ledger

  datatype AuditFailure =
    | MissingSuccess(stage: Stage)
    | EvidenceBroken(stage: Stage, why: EntryFailure)
    | NoRehearsalTime(stage: Stage)
    | RehearsalAfter(stage: Stage)
    | Stale(event: Entry)
    | WindowShort(before: Stage, after: Stage)

  function Tagged(stage: Stage, why: seq<EntryFailure>): (r: seq<AuditFailure>)
    ensures |r| == |why|
  {
    seq(|why|, i requires 0 <= i < |why| => EvidenceBroken(stage, why[i]))
  }

  function StageProblems(entries: seq<Entry>, files: Files, commit: string, stage: Stage): (r: seq<AuditFailure>)
    ensures r == [] <==> LatestClean(entries, files, commit, stage)
  {
    var latest := LatestSuccess(entries, commit, stage);
    if latest.None? then [MissingSuccess(stage)] else Tagged(stage, EvidenceFailures(files, latest.value.rec))
  }

  function EvidenceProblems(entries: seq<Entry>, files: Files, commit: string, stages: seq<Stage>): seq<AuditFailure> {
    if stages == [] then []
    else
      var n := |stages| - 1;
      EvidenceProblems(entries, files, commit, stages[..n]) + StageProblems(entries, files, commit, stages[n])
  }

  function RehearsalProblem(rehearsed: Time, at: Time, stage: Stage): seq<AuditFailure> {
    if rehearsed.None? then [NoRehearsalTime(stage)]
    else if at.Some? && rehearsed.value > at.value then [RehearsalAfter(stage)]
    else []
  }

  function TimeIn(entries: seq<Entry>, commit: string, required: seq<Stage>, stage: Stage): Time {
    if stage in required then LatestTime(entries, commit, stage) else None
  }

  function OrderProblems(entries: seq<Entry>, commit: string, required: seq<Stage>, stages: seq<Stage>)
    : (r: seq<AuditFailure>)
    requires forall s | s in stages :: s in required
    ensures r == [] <==>
      forall s | s in stages && RequiresRehearsal(s) :: RehearsalOrdered(entries, commit, required, s)
  {
    if stages == [] then []
    else
      var n := |stages| - 1;
      assert stages == stages[..n] + [stages[n]];
      OrderProblems(entries, commit, required, stages[..n])
      + (if RequiresRehearsal(stages[n]) then
           RehearsalProblem(TimeIn(entries, commit, required, RollbackRehearsal),
             TimeIn(entries, commit, required, stages[n]), stages[n])
         else [])
  }

  function StaleProblems(entries: seq<Entry>, commit: string, after: nat): (r: seq<AuditFailure>)
    ensures r == [] <==> forall e | e in entries :: !LaterNegative(e, commit, after)
  {
    if entries == [] then []
    else
      var n := |entries| - 1;
      assert entries == entries[..n] + [entries[n]];
      StaleProblems(entries[..n], commit, after) + FailIf(LaterNegative(entries[n], commit, after), Stale(entries[n]))
  }

  function WindowProblems(entries: seq<Entry>, commit: string, watched: seq<Stage>, wait: nat): seq<AuditFailure> {
    if |watched| < 2 then []
    else
      var n := |watched| - 2;
      WindowProblems(entries, commit, watched[..n + 1], wait)
      + FailIf(!WindowKept(entries, commit, watched[n], watched[n + 1], wait), WindowShort(watched[n], watched[n + 1]))
  }

  function TargetProblems(entries: seq<Entry>, commit: string, target: Stage, requireTarget: bool)
    : (r: seq<AuditFailure>)
    ensures r == [] <==> (requireTarget && target != RollbackInproc ==> NotStale(entries, commit, target))
  {
    var at := LatestTime(entries, commit, target);
    if requireTarget && target != RollbackInproc && at.Some? then StaleProblems(entries, commit, at.value) else []
  }

  function AuditFailures(
    entries: seq<Entry>, files: Files, commit: string, target: Stage, requireTarget: bool, wait: nat): seq<AuditFailure>
    requires RequiredStages(target, requireTarget).Some?
  {
    var required := RequiredStages(target, requireTarget).value;
    EvidenceProblems(entries, files, commit, required)
    + OrderProblems(entries, commit, required, required)
    + TargetProblems(entries, commit, target, requireTarget)
    + WindowProblems(entries, commit, WatchedStages(required), wait)
  }

  /** Exit code and failure list of the `audit` command, which lower-cases and
      strips the commit it is asked about. An unknown target or an unreadable
      waiting time ends it before any finding. */
  function AuditCommand(
    entries: seq<Entry>, files: Files, commitArg: string, target: Stage, requireTarget: bool,
    minObservation: Option<int>): (int, seq<AuditFailure>)
  {
    var commit := Strip(Lower(commitArg));
    if commit == "" || minObservation.None? then (2, [])
    else if RequiredStages(target, requireTarget).None? then (1, [])
    else
      var failures := AuditFailures(entries, files, commit, target, requireTarget, Max0(minObservation.value));
      (if failures == [] then 0 else 1, failures)
  }

  lemma {:induction false} EvidenceProblemsMean(entries: seq<Entry>, files: Files, commit: string, stages: seq<Stage>)
    ensures EvidenceProblems(entries, files, commit, stages) == [] <==>
            forall s | s in stages :: LatestClean(entries, files, commit, s)
  {
    hide LatestClean;
    hide StageProblems;
    if stages != [] {
      var n := |stages| - 1;
      assert stages == stages[..n] + [stages[n]];
      EvidenceProblemsMean(entries, files, commit, stages[..n]);
    }
  }

  lemma {:induction false} WindowProblemsMean(entries: seq<Entry>, commit: string, watched: seq<Stage>, wait: nat)
    ensures WindowProblems(entries, commit, watched, wait) == [] <==>
            forall i | 0 <= i < |watched| - 1 :: WindowKept(entries, commit, watched[i], watched[i + 1], wait)
  {
    hide WindowKept;
    if |watched| >= 2 {
      var n := |watched| - 2;
      var short := watched[..n + 1];
      WindowProblemsMean(entries, commit, short, wait);
      hide WindowProblems;
      forall i | 0 <= i < n
        ensures WindowKept(entries, commit, short[i], short[i + 1], wait)
             == WindowKept(entries, commit, watched[i], watched[i + 1], wait)
      {
        assert short[i] == watched[i] && short[i + 1] == watched[i + 1];
      }
    }
  }

  /** The failure list is empty exactly when the audit's conditions hold. */
  lemma AuditFailuresMean(
    entries: seq<Entry>, files: Files, commit: string, target: Stage, requireTarget: bool, wait: nat)
    requires RequiredStages(target, requireTarget).Some?
    ensures AuditFailures(entries, files, commit, target, requireTarget, wait) == [] <==>
            AuditPasses(entries, files, commit, target, requireTarget, wait)
  {
    hide LatestClean;
    hide WindowKept;
    hide RehearsalOrdered;
    hide NotStale;
    var required := RequiredStages(target, requireTarget).value;
    EvidenceProblemsMean(entries, files, commit, required);
    WindowProblemsMean(entries, commit, WatchedStages(required), wait);
  }

  /** What the audit's comparisons of times find wrong: a window closed too
      early and a rehearsal after its stage only between readable times, a
      rehearsal without a readable time always, and a later negative line only
      behind a readable success. */
  lemma TimesExactly(
    entries: seq<Entry>, commit: string, required: seq<Stage>, before: Stage, after: Stage, wait: nat)
    ensures
      var b, a, r := LatestTime(entries, commit, before), LatestTime(entries, commit, after),
        LatestTime(entries, commit, RollbackRehearsal);
      && (!WindowKept(entries, commit, before, after, wait) <==>
            exists x, y :: b == Some(x) && a == Some(y) && y < x + wait)
      && (!RehearsalOrdered(entries, commit, required, after) <==>
            RollbackRehearsal !in required || r == None || exists x, y :: r == Some(x) && a == Some(y) && y < x)
      && (!NotStale(entries, commit, after) <==>
            exists y, e | e in entries && a == Some(y) ::
              Lower(e.rec.commit) == Lower(commit) && (e.rec.status == Failed || e.rec.status == Rollback)
              && e.recordedAt.Some? && e.recordedAt.value > y)
  {
    hide LatestTime;
    hide Lower;
    var b, a, r := LatestTime(entries, commit, before), LatestTime(entries, commit, after),
      LatestTime(entries, commit, RollbackRehearsal);
    if a.Some? { assert a == Some(a.value); }
    if b.Some? { assert b == Some(b.value); }
    if r.Some? { assert r == Some(r.value); }
  }

  /** The audit command: exit code 2 for a commit that is blank or a waiting
      time that is no number, 0 exactly when the target is known and the audit
      passes, 1 otherwise; failures are listed exactly on 1 for a known target. */
  lemma AuditExitExactly(
    entries: seq<Entry>, files: Files, commitArg: string, target: Stage, requireTarget: bool,
    minObservation: Option<int>)
    ensures
      var (code, failures) := AuditCommand(entries, files, commitArg, target, requireTarget, minObservation);
      var commit, required := Strip(Lower(commitArg)), RequiredStages(target, requireTarget);
      && code in {0, 1, 2}
      && (code == 2 <==> commit == "" || minObservation == None)
      && (code == 0 <==>
            && commit != "" && minObservation.Some? && required.Some?
            && AuditPasses(entries, files, commit, target, requireTarget,
                 if minObservation.value > 0 then minObservation.value else 0))
      && (|failures| > 0 <==> code == 1 && required.Some?)
  {
    hide AuditFailures;
    hide AuditPasses;
    hide RequiredStages;
    hide Strip;
    hide Lower;
    var commit := Strip(Lower(commitArg));
    if minObservation.Some? && RequiredStages(target, requireTarget).Some? {
      AuditFailuresMean(entries, files, commit, target, requireTarget, Max0(minObservation.value));
    }
  }

  lemma FilterMember(stages: seq<Stage>, allowed: seq<Stage>, s: Stage)
    ensures s in Filter(stages, allowed) <==> s in stages && s in allowed
  {
  }

  lemma ObservationMember(stages: seq<Stage>, s: Stage)
    ensures s in ObservationStages(stages) <==> s in stages && s != ConfigAuthorityStage
  {
  }

  lemma WatchedMember(required: seq<Stage>, s: Stage)
    ensures s in WatchedStages(required) ==> s in required
  {
    FilterMember(STAGES, required, s);
    ObservationMember(Filter(STAGES, required), s);
  }
}
