/** What `validate` demands before a stage, over the ledger's lines and the
    failures their evidence shows. */
module ValidateDemands {
  import opened Text
  import opened Evidence
  import opened Ledger
  import opened AuditSpec
  import opened StageOrder
  import opened LedgerRuns

  /** The latest success of a stage exists and its evidence shows no failure. */
  predicate SucceededCleanly(entries: seq<Entry>, files: Files, commit: string, s: Stage) {
    var latest := LatestSuccess(entries, commit, s);
    latest.Some? && |EvidenceFailures(files, latest.value.rec)| == 0
  }

  /** Every stage before `stage`, and the rehearsal. */
  predicate Before(s: Stage, stage: Stage) {
    || s.RollbackRehearsal?
    || (s in STAGES && stage in STAGES && Position(s) < Position(stage))
  }

  lemma PriorAre(s: Stage, stage: Stage)
    requires stage in STAGES
    ensures s in PriorStages(stage) <==> s in STAGES && Position(s) < Position(stage)
  {
    RehearsalSecond();
    var stages := STAGES;
    if s in stages && Position(s) < Position(stage) { assert stages[..Position(stage)][Position(s)] == s; }
    if s in PriorStages(stage) {
      var i :| 0 <= i < Position(stage) && stages[i] == s;
      StageAt(i);
    }
  }

  /** The stage whose latest success `stage` has to wait for: the one before it,
      config authority not counted. */
  function Awaited(stage: Stage): Stage
    requires stage in STAGES && stage != ShadowStart
  {
    match stage
    case ConfigAuthorityStage => ShadowStart
    case CanaryIntentText => ShadowStart
    case CanaryChat => CanaryIntentText
    case CanaryStreaming => CanaryChat
    case CanaryVision => CanaryStreaming
    case CanaryImage => CanaryVision
    case CanaryAsr => CanaryImage
    case CanaryVideoAsr => CanaryAsr
    case HttpFull => CanaryVideoAsr
  }

  lemma AwaitedIs(stage: Stage)
    requires stage in STAGES && stage != ShadowStart
    ensures var watched := ObservationStages(PriorStages(stage));
      watched != [] && watched[|watched| - 1] == Awaited(stage)
  {
    RehearsalSecond();
    var stages, k := STAGES, Position(stage);
    assert stages[0] == ShadowStart && k > 0;
    assert stages[..k] == stages[..k - 1] + [stages[k - 1]];
    ObservationAppend(stages[..k - 1], stages[k - 1]);
    if k == 2 { BeforeAuthority(); StageAt(1); }
  }

  /** A readable success of the awaited stage, all of them at least `wait`
      seconds old. */
  predicate OldEnough(entries: seq<Entry>, commit: string, awaited: Stage, wait: int, now: nat) {
    && (exists i :: 0 <= i < |entries| && SuccessOf(entries[i], commit, awaited) && entries[i].recordedAt.Some?)
    && forall i | 0 <= i < |entries| && SuccessOf(entries[i], commit, awaited) && entries[i].recordedAt.Some? ::
         entries[i].recordedAt.value + wait <= now
  }

  lemma WaitedExactly(entries: seq<Entry>, commit: string, awaited: Stage, wait: nat, now: nat)
    ensures Waited(entries, commit, awaited, wait, now) <==> OldEnough(entries, commit, awaited, wait, now)
  {
    hide SuccessOf;
    if OldEnough(entries, commit, awaited, wait, now) {
      var i :| 0 <= i < |entries| && SuccessOf(entries[i], commit, awaited) && entries[i].recordedAt.Some?;
      assert entries[i] in entries;
    }
    if Waited(entries, commit, awaited, wait, now) {
      var e :| e in entries && SuccessOf(e, commit, awaited) && e.recordedAt.Some?;
      var i :| 0 <= i < |entries| && entries[i] == e;
    }
  }

  /** An ordered exit code 0: the rehearsal and every earlier stage succeeded
      with clean latest evidence, the waiting time can be read, and it has
      passed since the awaited stage. Config authority waits for nothing. */
  lemma OrderedExactly(entries: seq<Entry>, files: Files, v: ValidateArgs, now: nat)
    requires v.stage in STAGES && v.stage != ShadowStart && !v.outOfOrder
    ensures ValidateCode(entries, files, v, now) == 0 <==>
      && Lower(v.commit) != ""
      && (forall s | Before(s, v.stage) :: SucceededCleanly(entries, files, v.commit, s))
      && v.minObservation.Some?
      && (v.minObservation.value > 0 && v.stage != ConfigAuthorityStage ==>
            OldEnough(entries, v.commit, Awaited(v.stage), v.minObservation.value, now))
  {
    hide Lower;
    hide Strip;
    hide Before;
    hide SucceededCleanly;
    hide Successful;
    hide LatestClean;
    hide Waited;
    hide OldEnough;
    hide PriorStages;
    hide Awaited;
    hide ObservationStages;
    hide Position;
    NotFirst(v.stage);
    AwaitedIs(v.stage);
    BeforeIs(entries, files, v);
    if v.minObservation.Some? && v.minObservation.value > 0 {
      WaitedExactly(entries, v.commit, Awaited(v.stage), v.minObservation.value, now);
    }
  }

  lemma NotFirst(stage: Stage)
    requires stage in STAGES && stage != ShadowStart
    ensures PriorStages(stage) != [] && RequiresRehearsal(stage) && stage != RollbackInproc
  {
    RehearsalSecond();
    assert STAGES[0] == ShadowStart;
  }

  /** An override's exit code 0: a reason, a rehearsal success, and clean
      latest evidence of whatever earlier stage has succeeded. */
  lemma OverrideExactly(entries: seq<Entry>, files: Files, v: ValidateArgs, now: nat)
    requires v.stage in STAGES && v.stage != ShadowStart && v.outOfOrder
    ensures ValidateCode(entries, files, v, now) == 0 <==>
      && Lower(v.commit) != "" && Strip(v.outOfOrderReason) != ""
      && LatestSuccess(entries, v.commit, RollbackRehearsal).Some?
      && forall s | Before(s, v.stage) && LatestSuccess(entries, v.commit, s).Some? ::
           SucceededCleanly(entries, files, v.commit, s)
  {
    hide Lower;
    hide Strip;
    hide Before;
    hide SucceededCleanly;
    hide Successful;
    hide LatestClean;
    hide LatestSuccess;
    hide PriorStages;
    hide ObservationStages;
    NotFirst(v.stage);
    ExistingBeforeIs(entries, files, v);
  }

  lemma ExistingBeforeIs(entries: seq<Entry>, files: Files, v: ValidateArgs)
    requires v.stage in STAGES && v.stage != ShadowStart
    ensures LatestSuccess(entries, v.commit, RollbackRehearsal).Some? <==>
              Successful(entries, v.commit, RollbackRehearsal)
    ensures (forall s | Before(s, v.stage) && LatestSuccess(entries, v.commit, s).Some? ::
               SucceededCleanly(entries, files, v.commit, s)) <==>
            forall s | s in [RollbackRehearsal] + PriorStages(v.stage) :: ExistingClean(entries, files, v.commit, s)
  {
    hide EvidenceFailures;
    hide EntryClean;
    hide LatestSuccess;
    forall s ensures s in PriorStages(v.stage) <==> s in STAGES && Position(s) < Position(v.stage) {
      PriorAre(s, v.stage);
    }
    RehearsalSecond();
    forall s ensures Before(s, v.stage) <==> s in [RollbackRehearsal] + PriorStages(v.stage) {}
    forall s
      ensures Successful(entries, v.commit, s) <==> LatestSuccess(entries, v.commit, s).Some?
      ensures SucceededCleanly(entries, files, v.commit, s) <==> LatestClean(entries, files, v.commit, s) {}
    hide Before;
    hide SucceededCleanly;
    hide Successful;
    hide LatestClean;
    hide PriorStages;
  }

  /** The first stage and the rehearsal only need a commit, and a reason when
      overridden; the in-process rollback needs nothing at all. */
  lemma NothingBefore(entries: seq<Entry>, files: Files, v: ValidateArgs, now: nat)
    requires v.stage in {ShadowStart, RollbackRehearsal, RollbackInproc}
    ensures ValidateCode(entries, files, v, now) == 0 <==>
      || v.stage == RollbackInproc
      || (Lower(v.commit) != "" && (v.outOfOrder ==> Strip(v.outOfOrderReason) != ""))
    ensures ValidateCode(entries, files, v, now) in {0, 2}
  {
    hide LatestClean;
    hide Waited;
    hide Lower;
    hide Strip;
    hide ObservationStages;
    RehearsalSecond();
    assert PriorStages(ShadowStart) == [] && PriorStages(RollbackRehearsal) == [];
    assert STAGES[0] == ShadowStart;
    hide PriorStages;
  }

  /** Exit code 2 is for calls that could not be judged: an unknown stage, no
      commit, an override without a reason, or, with everything recorded
      clean, a waiting time that is no number. Everything else is 0 or 1. */
  lemma UsageExactly(entries: seq<Entry>, files: Files, v: ValidateArgs, now: nat)
    ensures ValidateCode(entries, files, v, now) in {0, 1, 2}
    ensures ValidateCode(entries, files, v, now) == 2 <==>
      && v.stage != RollbackInproc
      && (|| (v.stage !in STAGES && v.stage != RollbackRehearsal)
          || Lower(v.commit) == ""
          || (v.outOfOrder && Strip(v.outOfOrderReason) == "")
          || (!v.outOfOrder && v.minObservation.None? && v.stage in STAGES && v.stage != ShadowStart
              && forall s | Before(s, v.stage) :: SucceededCleanly(entries, files, v.commit, s)))
  {
    hide LatestClean;
    hide Waited;
    hide Lower;
    hide Strip;
    hide ObservationStages;
    hide Before;
    hide SucceededCleanly;
    hide PriorStages;
    if v.stage in STAGES && v.stage != ShadowStart {
      NotFirst(v.stage);
      BeforeIs(entries, files, v);
    } else if v.stage in {ShadowStart, RollbackRehearsal} {
      NothingBefore(entries, files, v, now);
    }
  }

  lemma BeforeIs(entries: seq<Entry>, files: Files, v: ValidateArgs)
    requires v.stage in STAGES && v.stage != ShadowStart
    ensures (forall s | Before(s, v.stage) :: SucceededCleanly(entries, files, v.commit, s)) <==>
      && Successful(entries, v.commit, RollbackRehearsal)
      && (forall s | s in PriorStages(v.stage) :: Successful(entries, v.commit, s))
      && forall s | s in [RollbackRehearsal] + PriorStages(v.stage) :: LatestClean(entries, files, v.commit, s)
  {
    hide EvidenceFailures;
    hide EntryClean;
    hide LatestSuccess;
    forall s ensures s in PriorStages(v.stage) <==> s in STAGES && Position(s) < Position(v.stage) {
      PriorAre(s, v.stage);
    }
    RehearsalSecond();
    forall s ensures Before(s, v.stage) <==> s == RollbackRehearsal || s in PriorStages(v.stage) {}
    forall s ensures SucceededCleanly(entries, files, v.commit, s) <==>
                       Successful(entries, v.commit, s) && LatestClean(entries, files, v.commit, s) {}
    hide Before;
    hide SucceededCleanly;
    hide Successful;
    hide LatestClean;
    hide PriorStages;
  }
}
