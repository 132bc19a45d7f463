/** Rollouts that exist: a disciplined run to full http for every commit and
    waiting time, and an override that overlooks a broken older success. */
module RolloutExamples {
  import opened Text
  import opened Evidence
  import opened Ledger
  import opened AuditSpec
  import opened StageOrder
  import opened LedgerRuns
  import opened ThreeGates
  import opened GateExamples

  const AUTHORITY_READY := ConfigReport(true, true, "ready", Some(0), Some(true), Some(0), Some(0), Some(100), [])

  /** One file that serves every stage without optional evidence. */
  function EveryFile(commit: string): Payload {
    OneFile(commit).(
      preflightChecks := [PreflightCheck("gateway_route_self_test", true, Some(SELF_TEST))],
      executed := true,
      after := AUTHORITY_READY,
      backupDir := "b",
      archiveCount := 1,
      sha256Sums := "s")
  }

  function StageArgs(stage: Stage, commit: string): Args {
    PlainArgs(stage, commit).(
      mapFallbackDisabled := true, configAuthorityJson := "e", externalBackupJson := "e", evidenceJson := "out")
  }

  function EvidenceFiles(commit: string): Files {
    map["e" := EveryFile(commit), "out" := ReportPayload(StageArgs(HttpFull, commit), "", [])]
  }

  function StageLine(stage: Stage, commit: string): Args {
    StoredArgs(StageArgs(stage, commit), "")
  }

  // ------------------------------------------------- every stage can be recorded

  lemma EveryFilePasses(commit: string)
    ensures Passing(EvidenceFiles(commit), "e") && EvidenceFiles(commit)["e"] == EveryFile(commit)
  {
    LowerOf("pass");
  }

  lemma StaticPartsOf(files: Files, commit: string)
    requires Passing(files, "e") && files["e"] == EveryFile(commit)
    ensures RouterAudit(files, "e") && ExternalBackup(files, "e") && ConfigAuthorityApply(files, "e")
  {
    LowerOf("ready");
    StripOf("b"); StripOf("s");
    StripOf("static-code-and-document-evidence");
    hide Passing;
    hide Strip;
    hide Lower;
  }

  lemma StaticParts(commit: string)
    ensures var files := EvidenceFiles(commit);
      RouterAudit(files, "e") && ExternalBackup(files, "e") && ConfigAuthorityApply(files, "e")
  {
    EveryFilePasses(commit);
    hide RouterAudit;
    hide ExternalBackup;
    hide ConfigAuthorityApply;
    StaticPartsOf(EvidenceFiles(commit), commit);
  }

  lemma RoutesTested(commit: string)
    ensures PreflightRouteOk(EveryFile(commit).preflightChecks)
  {
    SelfTestValid();
    hide RouteSelfTestValid;
    StripOf("gateway_route_self_test");
    var checks := EveryFile(commit).preflightChecks;
    assert |checks| == 1 && checks[0] == PreflightCheck("gateway_route_self_test", true, Some(SELF_TEST));
  }

  /** What the commit-bound checks read of it. */
  predicate ServesCommit(p: Payload, commit: string) {
    && p.expectedCommit == commit && p.sampleCommits == [] && p.mode == "start"
    && p.routeSelfTest == Some(SELF_TEST) && PreflightRouteOk(p.preflightChecks)
  }

  lemma ProbeServes(files: Files, commit: string)
    requires IsFullSha(commit) && Passing(files, "e") && ServesCommit(files["e"], commit)
    ensures ServingProbe(files, "e", commit)
  {
    FullShaIsSettled(commit);
    SelfTestValid();
    hide Passing;
    hide NormalizeCommit;
    hide Settled;
    hide RouteSelfTestValid;
    hide PreflightRouteOk;
    hide Strip;
    hide Lower;
  }

  lemma PreflightServes(files: Files, commit: string, stage: Stage)
    requires IsFullSha(commit) && Passing(files, "e") && ServesCommit(files["e"], commit)
    ensures ProdPreflight(files, "e", commit, stage)
  {
    hide Passing;
    hide NormalizeCommit;
    hide Settled;
    hide PreflightRouteOk;
    hide Strip;
    hide Lower;
    hide IsFullSha;
    FullShaIsSettled(commit);
    assert commit != "" by { ShaLength(commit); }
    StartIsPlain();
  }

  lemma StartIsPlain()
    ensures Lower(Strip("start")) == "start"
  {
    LowerOf("start");
    StripOf("start");
  }

  lemma CommitParts(commit: string, stage: Stage)
    requires IsFullSha(commit)
    ensures var files := EvidenceFiles(commit);
      ServingProbe(files, "e", commit) && ProdPreflight(files, "e", commit, stage)
  {
    hide ServingProbe;
    hide ProdPreflight;
    hide IsFullSha;
    EveryFilePasses(commit);
    RoutesTested(commit);
    hide PreflightRouteOk;
    ProbeServes(EvidenceFiles(commit), commit);
    PreflightServes(EvidenceFiles(commit), commit, stage);
  }

  lemma EveryFileServes(commit: string, stage: Stage)
    requires IsFullSha(commit)
    ensures var files := EvidenceFiles(commit);
      && RouterAudit(files, "e") && ExternalBackup(files, "e") && ConfigAuthorityApply(files, "e")
      && ServingProbe(files, "e", commit) && ProdPreflight(files, "e", commit, stage)
  {
    hide EvidenceFiles;
    hide IsFullSha;
    hide RouterAudit;
    hide ExternalBackup;
    hide ConfigAuthorityApply;
    hide ServingProbe;
    hide ProdPreflight;
    StaticParts(commit);
    CommitParts(commit, stage);
  }

  lemma StageHolds(commit: string, stage: Stage, k: Check, shadow: string)
    requires IsFullSha(commit) && k in {MapFallbackExit, BackupCheck, ConfigApplyCheck, PreflightGate, ProbeCheck}
    ensures Holds(EvidenceFiles(commit), StageArgs(stage, commit), k, commit, shadow, false)
    ensures Holds(EvidenceFiles(commit), StageLine(stage, commit), k, commit, shadow, false)
  {
    hide RouterAudit;
    hide ExternalBackup;
    hide ConfigAuthorityApply;
    hide ServingProbe;
    hide ProdPreflight;
    hide IsFullSha;
    hide EvidenceFiles;
    hide NormalizeCommit;
    hide Lower;
    hide Strip;
    EveryFileServes(commit, stage);
  }

  lemma DemandedOfStage(stage: Stage, commit: string, c: (Check, bool))
    requires c.1
    ensures c in StageChecks(StageArgs(stage, commit)) ==>
              c.0 in {BackupCheck, ConfigApplyCheck, PreflightGate, ProbeCheck}
    ensures c in RecheckChecks(StageLine(stage, commit)) ==>
              c.0 in {BackupCheck, ConfigApplyCheck, PreflightGate, ProbeCheck}
  {
    hide Lower;
    hide Strip;
    hide NormalizeCommit;
  }

  lemma StageBaseline(stage: Stage, commit: string)
    ensures BaselineOf(EvidenceFiles(commit), StageArgs(stage, commit)) == Some("")
  {
    EmptyNormalizes();
  }

  lemma OutIsEvidence(commit: string)
    requires IsFullSha(commit)
    ensures StageEvidenceForCommit(EvidenceFiles(commit), "out", commit)
  {
    FullShaIsSettled(commit);
    LowerOf("pass");
    hide NormalizeCommit;
    hide Strip;
    hide OneFile;
    hide EveryFile;
  }

  lemma StageAccepted(stage: Stage, commit: string)
    requires IsFullSha(commit)
    ensures AppendAccepts(EvidenceFiles(commit), StageArgs(stage, commit))
  {
    var files, a := EvidenceFiles(commit), StageArgs(stage, commit);
    StageBaseline(stage, commit);
    OutIsEvidence(commit);
    StaticParts(commit);
    StageChecksAllHold(stage, commit);
    StagePaths(stage, commit);
    hide EvidenceFiles;
    hide StageArgs;
    hide RouterAudit;
    hide ValidatedBaseline;
    hide StageEvidenceForCommit;
    hide StageChecksHold;
    hide ExternalBackup;
    hide ConfigAuthorityApply;
  }

  /** What a stage's arguments say besides their switches. */
  lemma StagePaths(stage: Stage, commit: string)
    ensures var a := StageArgs(stage, commit);
      && a.stage == stage && a.status == Success && a.commit == commit && a.mapFallbackDisabled
      && a.evidenceJson == "out" && a.routerAuditJson == "e"
  {
  }

  lemma StageChecksAllHold(stage: Stage, commit: string)
    requires IsFullSha(commit)
    ensures var a := StageArgs(stage, commit);
      StageChecksHold(EvidenceFiles(commit), a, commit, ShadowCommitOf(a), false)
  {
    var files, a := EvidenceFiles(commit), StageArgs(stage, commit);
    hide IsFullSha;
    hide EvidenceFiles;
    hide StageArgs;
    hide StageChecks;
    hide Holds;
    forall c | c in StageChecks(a) && c.1 ensures Holds(files, a, c.0, commit, ShadowCommitOf(a), false) {
      DemandedOfStage(stage, commit, c);
      StageHolds(commit, stage, c.0, ShadowCommitOf(a));
    }
  }

  lemma StageLineClean(stage: Stage, commit: string)
    requires IsFullSha(commit)
    ensures EntryClean(EvidenceFiles(commit), StageLine(stage, commit))
    ensures StageLine(stage, commit).commit == commit
  {
    StageLineFields(stage, commit);
    StageLineCommon(stage, commit);
    StageLineRechecks(stage, commit);
    hide EvidenceFiles;
    hide StageLine;
    hide NormalizeCommit;
    hide CommonClean;
    hide RecheckChecks;
    hide RecheckHolds;
  }

  lemma StageLineFields(stage: Stage, commit: string)
    requires IsFullSha(commit)
    ensures var e := StageLine(stage, commit);
      && e.stage == stage && e.status == Success && e.commit == commit && NormalizeCommit(commit) == commit
      && !e.outOfOrder && e.evidenceJson == "out" && e.routerAuditJson == "e"
      && e.mainRef == "main" && e.mainSha == Lower(MainSha())
      && e.maintenanceBaselineCommit == "" && e.maintenanceBaselineJson == ""
  {
    FullShaIsSettled(commit);
    hide NormalizeCommit;
    hide IsFullSha;
    hide Strip;
  }

  lemma StageLineCommon(stage: Stage, commit: string)
    requires IsFullSha(commit)
    ensures CommonClean(EvidenceFiles(commit), StageLine(stage, commit))
  {
    StageLineFields(stage, commit);
    MainFilled(stage, commit);
    OutIsEvidence(commit);
    OutFields(commit);
    StaticParts(commit);
    hide EvidenceFiles;
    hide StageLine;
    hide NormalizeCommit;
    hide IsFullSha;
    hide Strip;
    hide Lower;
    hide RouterAudit;
    hide ExternalBackup;
    hide ConfigAuthorityApply;
    hide StageEvidenceForCommit;
  }

  lemma OutFields(commit: string)
    ensures "out" in EvidenceFiles(commit)
    ensures var p := EvidenceFiles(commit)["out"];
      && p.releaseMainRef == "main" && p.releaseMainSha == Lower(MainSha())
      && p.maintenanceBaselineCommit == "" && p.maintenanceBaselineJson == ""
  {
  }

  lemma StageLineRechecks(stage: Stage, commit: string)
    requires IsFullSha(commit)
    ensures var e := StageLine(stage, commit);
      forall c | c in RecheckChecks(e) :: c.1 ==> RecheckHolds(EvidenceFiles(commit), e, c.0)
  {
    var files, e := EvidenceFiles(commit), StageLine(stage, commit);
    StageLineFields(stage, commit);
    hide IsFullSha;
    hide EvidenceFiles;
    hide StageLine;
    hide NormalizeCommit;
    hide RecheckChecks;
    hide Holds;
    forall c | c in RecheckChecks(e) && c.1 ensures RecheckHolds(files, e, c.0) {
      DemandedOfStage(stage, commit, c);
      StageHolds(commit, stage, c.0, "");
    }
  }

  lemma MainFilled(stage: Stage, commit: string)
    ensures var e := StageLine(stage, commit);
      Strip(e.mainRef) != "" && IsFullSha(Lower(Strip(e.mainSha)))
  {
    LowerOf(MainSha());
    StripOf(MainSha());
    StripOf("main");
    hide Strip;
    hide Lower;
    hide NormalizeCommit;
  }

  // -------------------------------------------------- a disciplined run exists

  function Asked(stage: Stage, commit: string, wait: nat): ValidateArgs {
    ValidateArgs(stage, commit, Some(wait), false, "")
  }

  /** Validate and record one stage after the other, a waiting time apart. */
  function Rollout(stages: seq<Stage>, commit: string, wait: nat): seq<Step> {
    if stages == [] then []
    else
      var n := |stages| - 1;
      Rollout(stages[..n], commit, wait)
      + [ValidateStep(Asked(stages[n], commit, wait), EvidenceFiles(commit), n * wait),
         AppendStep(StageArgs(stages[n], commit), EvidenceFiles(commit), n * wait)]
  }

  function Lines(stages: seq<Stage>, commit: string, wait: nat): seq<Entry> {
    seq(|stages|, i requires 0 <= i < |stages| => Entry(Some(i * wait), StageLine(stages[i], commit)))
  }

  /** Validating changes no ledger, and an accepted append adds its line. */
  lemma LedgerOfTwoMore(prior: seq<Step>, check: Step, record: Step)
    requires check.ValidateStep? && record.AppendStep?
    ensures LedgerOf(prior + [check, record])
            == LedgerAfterAppend(LedgerOf(prior), record.files, record.a, record.now)
  {
    hide LedgerAfterAppend;
    var all := prior + [check, record];
    assert all[..|all| - 1] == prior + [check];
    assert (prior + [check])[..|prior|] == prior;
  }

  lemma RecordsLine(entries: seq<Entry>, stage: Stage, commit: string, now: nat)
    requires IsFullSha(commit)
    ensures LedgerAfterAppend(entries, EvidenceFiles(commit), StageArgs(stage, commit), now)
            == entries + [Entry(Some(now), StageLine(stage, commit))]
  {
    hide IsFullSha;
    hide EvidenceFiles;
    hide StageArgs;
    hide AppendAccepts;
    hide ValidatedBaseline;
    hide StoredArgs;
    StageAccepted(stage, commit);
    StageBaseline(stage, commit);
  }

  lemma {:induction false} RolloutLedger(stages: seq<Stage>, commit: string, wait: nat)
    requires IsFullSha(commit)
    ensures |Rollout(stages, commit, wait)| == 2 * |stages|
    ensures LedgerOf(Rollout(stages, commit, wait)) == Lines(stages, commit, wait)
  {
    hide IsFullSha;
    hide EvidenceFiles;
    hide StageArgs;
    hide StageLine;
    hide LedgerAfterAppend;
    if stages != [] {
      hide LedgerOf;
      var n := |stages| - 1;
      RolloutLedger(stages[..n], commit, wait);
      LedgerOfTwoMore(Rollout(stages[..n], commit, wait),
        ValidateStep(Asked(stages[n], commit, wait), EvidenceFiles(commit), n * wait),
        AppendStep(StageArgs(stages[n], commit), EvidenceFiles(commit), n * wait));
      RecordsLine(Lines(stages[..n], commit, wait), stages[n], commit, n * wait);
      assert Lines(stages, commit, wait)
        == Lines(stages[..n], commit, wait) + [Entry(Some(n * wait), StageLine(stages[n], commit))];
    }
  }

  lemma LineAt(stages: seq<Stage>, commit: string, wait: nat, i: nat, s: Stage)
    requires IsFullSha(commit) && i < |stages|
    ensures SuccessOf(Lines(stages, commit, wait)[i], commit, s) <==> stages[i] == s
    ensures EntryClean(EvidenceFiles(commit), Lines(stages, commit, wait)[i].rec)
  {
    StageLineFields(stages[i], commit);
    StageLineClean(stages[i], commit);
    hide EvidenceFiles;
    hide StageLine;
    hide EntryClean;
    hide NormalizeCommit;
    hide IsFullSha;
  }

  lemma RecordedClean(stages: seq<Stage>, commit: string, wait: nat, s: Stage)
    requires IsFullSha(commit) && s in stages
    ensures LatestClean(Lines(stages, commit, wait), EvidenceFiles(commit), commit, s)
    ensures Successful(Lines(stages, commit, wait), commit, s)
  {
    hide IsFullSha;
    hide EvidenceFiles;
    hide EntryClean;
    hide SuccessOf;
    var entries := Lines(stages, commit, wait);
    var i :| 0 <= i < |stages| && stages[i] == s;
    LineAt(stages, commit, wait, i, s);
    assert entries[i] in entries;
    var latest := LatestSuccess(entries, commit, s).value;
    var k :| 0 <= k < |entries| && entries[k] == latest;
    LineAt(stages, commit, wait, k, s);
  }

  lemma NextWaited(stages: seq<Stage>, commit: string, wait: nat, s: Stage)
    requires IsFullSha(commit) && s in stages
    ensures Waited(Lines(stages, commit, wait), commit, s, wait, |stages| * wait)
  {
    hide IsFullSha;
    hide StageLine;
    hide SuccessOf;
    var entries := Lines(stages, commit, wait);
    RecordedClean(stages, commit, wait, s);
    hide LatestClean;
    forall e | e in entries ensures e.recordedAt.Some? && |stages| * wait - e.recordedAt.value >= wait {
      var i :| 0 <= i < |entries| && entries[i] == e;
      Spaced(i, |stages|, wait);
    }
  }

  lemma Spaced(i: nat, k: nat, wait: nat)
    requires i < k
    ensures 0 <= i * wait <= i * wait + wait <= k * wait
  {
    var d: nat := k - 1 - i;
    assert d * wait >= 0;
    assert (d + (i + 1)) * wait == d * wait + (i + 1) * wait;
  }

  /** `stages` holds all that a validation of `next` asks about. */
  predicate NextIsReady(stages: seq<Stage>, next: Stage) {
    && (next in STAGES || next == RollbackRehearsal)
    && (forall p | p in PriorStages(next) :: p in stages)
    && (RequiresRehearsal(next) ==> RollbackRehearsal in stages)
  }

  /** The stages before `SEQUENCE[k]` are all that its validation asks about. */
  lemma PriorRecorded(k: nat)
    requires k < |ROLLOUT_SEQUENCE|
    ensures NextIsReady(ROLLOUT_SEQUENCE[..k], ROLLOUT_SEQUENCE[k])
  {
    hide Position;
    hide PriorStages;
    RehearsalSecond();
    var stages, sequence := STAGES, ROLLOUT_SEQUENCE;
    var s := sequence[k];
    assert stages[0] == ShadowStart && sequence[1] == RollbackRehearsal;
    if k >= 2 {
      assert s == stages[k - 1];
      StageAt(k - 1);
      forall p | p in stages[..k - 1] ensures p in sequence[..k] {
        var j :| 0 <= j < k - 1 && stages[j] == p;
        assert sequence[..k][if j == 0 then 0 else j + 1] == p;
      }
      assert sequence[..k][1] == RollbackRehearsal;
    } else if k == 0 {
      StageAt(0);
    } else {
      NothingBeforeRehearsal();
    }
  }

  lemma NothingBeforeRehearsal()
    ensures PriorStages(RollbackRehearsal) == []
  {
  }

  lemma ShaLength(commit: string)
    requires IsFullSha(commit)
    ensures |commit| == 40
  {
  }

  lemma NextValidates(stages: seq<Stage>, next: Stage, commit: string, wait: nat)
    requires IsFullSha(commit) && NextIsReady(stages, next)
    ensures ValidateCode(
              Lines(stages, commit, wait), EvidenceFiles(commit), Asked(next, commit, wait), |stages| * wait) == 0
  {
    hide IsFullSha;
    hide PriorStages;
    hide EvidenceFiles;
    hide Lines;
    hide ValidateCode;
    hide LatestClean;
    hide Successful;
    hide Waited;
    hide Lower;
    var entries := Lines(stages, commit, wait);
    assert |Lower(commit)| == 40 by { ShaLength(commit); }
    forall s | s in stages
      ensures LatestClean(entries, EvidenceFiles(commit), commit, s) && Successful(entries, commit, s)
      ensures Waited(entries, commit, s, wait, |stages| * wait)
    {
      RecordedClean(stages, commit, wait, s);
      NextWaited(stages, commit, wait, s);
    }
    AllInOrder(entries, EvidenceFiles(commit), Asked(next, commit, wait), stages, |stages| * wait);
  }

  /** `validate` passes once every stage it may ask about is recorded, clean
      and old enough. */
  lemma AllInOrder(entries: seq<Entry>, files: Files, v: ValidateArgs, stages: seq<Stage>, now: nat)
    requires v.stage in STAGES || v.stage == RollbackRehearsal
    requires Lower(v.commit) != "" && !v.outOfOrder && v.minObservation.Some? && v.minObservation.value >= 0
    requires forall p | p in PriorStages(v.stage) :: p in stages
    requires RequiresRehearsal(v.stage) ==> RollbackRehearsal in stages
    requires forall s | s in stages ::
      && LatestClean(entries, files, v.commit, s) && Successful(entries, v.commit, s)
      && Waited(entries, v.commit, s, v.minObservation.value, now)
    ensures ValidateCode(entries, files, v, now) == 0
  {
    hide LatestClean;
    hide Successful;
    hide Waited;
    hide PriorStages;
    hide ObservationStages;
    hide Lower;
    var watched := ObservationStages(PriorStages(v.stage));
    if watched != [] { ObservationMember(PriorStages(v.stage), watched[|watched| - 1]); }
  }

  /** `run` is disciplined and took at most `until` seconds. */
  ghost predicate OnTime(run: seq<Step>, wait: nat, until: nat) {
    Disciplined(run, wait) && ClockForward(run) && forall step | step in run :: step.now <= until
  }

  /** Every stage comes when its validation has what it asks about. */
  ghost predicate InSequence(stages: seq<Stage>) {
    forall k | 0 <= k < |stages| :: NextIsReady(stages[..k], stages[k])
  }

  lemma {:induction false} RolloutDisciplined(stages: seq<Stage>, commit: string, wait: nat)
    requires IsFullSha(commit) && InSequence(stages)
    ensures OnTime(Rollout(stages, commit, wait), wait, |stages| * wait)
  {
    hide IsFullSha;
    hide NextIsReady;
    if stages != [] {
      var n := |stages| - 1;
      var init := stages[..n];
      hide OnTime;
      hide Rollout;
      assert InSequence(init) by {
        forall k | 0 <= k < n ensures NextIsReady(init[..k], init[k]) {
          assert init[..k] == stages[..k] && init[k] == stages[k];
          assert NextIsReady(stages[..k], stages[k]);
        }
      }
      RolloutDisciplined(init, commit, wait);
      assert NextIsReady(stages[..n], stages[n]);
      StageOnTime(stages, commit, wait);
    }
  }

  lemma StageOnTime(stages: seq<Stage>, commit: string, wait: nat)
    requires IsFullSha(commit) && stages != []
    requires OnTime(Rollout(stages[..|stages| - 1], commit, wait), wait, (|stages| - 1) * wait)
    requires NextIsReady(stages[..|stages| - 1], stages[|stages| - 1])
    ensures OnTime(Rollout(stages, commit, wait), wait, |stages| * wait)
  {
    hide IsFullSha;
    hide EvidenceFiles;
    hide StageArgs;
    hide ValidateCode;
    hide OnTime;
    hide NextIsReady;
    hide LedgerOf;
    hide Lines;
    var n := |stages| - 1;
    Spaced(n, |stages|, wait);
    var now: nat, until: nat := n * wait, |stages| * wait;
    assert ValidateCode(LedgerOf(Rollout(stages[..n], commit, wait)), EvidenceFiles(commit),
      Asked(stages[n], commit, wait), now) == 0
    by {
      RolloutLedger(stages[..n], commit, wait);
      NextValidates(stages[..n], stages[n], commit, wait);
    }
    StagePaths(stages[n], commit);
    var prior := Rollout(stages[..n], commit, wait);
    var check := ValidateStep(Asked(stages[n], commit, wait), EvidenceFiles(commit), now);
    var record := AppendStep(StageArgs(stages[n], commit), EvidenceFiles(commit), now);
    OneMoreStage(prior, wait, check, record, until);
    assert Rollout(stages, commit, wait) == prior + [check, record];
  }

  /** A validated and recorded stage at the end keeps a run disciplined. */
  lemma OneMoreStage(run: seq<Step>, wait: nat, check: Step, record: Step, until: nat)
    requires OnTime(run, wait, check.now)
    requires check.ValidateStep? && record.AppendStep? && InOrder(check, wait)
    requires check.v.stage == record.a.stage && Lower(check.v.commit) == Lower(record.a.commit)
    requires ValidateCode(LedgerOf(run), check.files, check.v, check.now) == 0
    requires check.now <= record.now <= until
    ensures OnTime(run + [check, record], wait, until)
  {
    hide ValidateCode;
    hide AppendAccepts;
    hide LedgerOf;
    var all, n := run + [check, record], |run|;
    forall i | 0 <= i < |all| && Records(all[i]) && all[i].a.status == Success
      ensures exists j :: 0 <= j < i && ValidatedBy(all, i, j) && InOrder(all[j], wait)
    {
      if i < n {
        assert all[i] == run[i];
        var j :| 0 <= j < i && ValidatedBy(run, i, j) && InOrder(run[j], wait);
        assert all[..j] == run[..j] && all[j] == run[j];
        assert ValidatedBy(all, i, j);
      } else {
        assert i == n + 1 && all[..n] == run && all[n] == check;
        assert ValidatedBy(all, i, n);
      }
    }
  }

  /** For every complete commit and every waiting time there is a disciplined
      run that reaches full http, and its audit passes. */
  lemma DisciplinedRunExists(commit: string, wait: nat) returns (run: seq<Step>)
    requires IsFullSha(commit)
    ensures ClockForward(run) && Disciplined(run, wait)
    ensures Auditable(LedgerOf(run), EvidenceFiles(commit), commit, HttpFull)
    ensures RequiredStages(HttpFull, true).Some?
    ensures AuditFailures(LedgerOf(run), EvidenceFiles(commit), commit, HttpFull, true, wait) == []
  {
    hide IsFullSha;
    hide EvidenceFiles;
    hide AuditFailures;
    hide RequiredStages;
    hide Disciplined;
    hide ClockForward;
    hide NextIsReady;
    var stages := ROLLOUT_SEQUENCE;
    forall k | 0 <= k < |stages| ensures NextIsReady(stages[..k], stages[k]) { PriorRecorded(k); }
    RolloutDisciplined(stages, commit, wait);
    RolloutLedger(stages, commit, wait);
    run := Rollout(stages, commit, wait);
    SequenceDistinct();
    assert stages[10] == HttpFull;
    LinesAuditable(stages, commit, wait, HttpFull);
    DisciplinedRunPassesAudit(run, wait, EvidenceFiles(commit), commit, HttpFull);
  }

  lemma SequenceDistinct()
    ensures Distinct(ROLLOUT_SEQUENCE) && HttpFull in STAGES
  {
  }

  lemma LinesAuditable(stages: seq<Stage>, commit: string, wait: nat, target: Stage)
    requires IsFullSha(commit) && Distinct(stages) && target in stages && target in STAGES
    ensures Auditable(Lines(stages, commit, wait), EvidenceFiles(commit), commit, target)
  {
    hide IsFullSha;
    hide EvidenceFiles;
    hide StageLine;
    hide EntryClean;
    hide EvidenceFailures;
    var entries := Lines(stages, commit, wait);
    RecordedClean(stages, commit, wait, target);
    hide LatestClean;
    forall i: nat, s | i < |stages| ensures SuccessOf(entries[i], commit, s) <==> stages[i] == s {
      LineAt(stages, commit, wait, i, s);
    }
    forall e | e in entries ensures EvidenceFailures(EvidenceFiles(commit), e.rec) == [] && e.rec.status == Success {
      var i :| 0 <= i < |entries| && entries[i] == e;
      LineAt(stages, commit, wait, i, stages[i]);
      assert SuccessOf(entries[i], commit, stages[i]);
    }
    hide Lines;
    hide SuccessOf;
  }

  // ------------------------------------------------ an override looks at the latest

  /** An older shadow start whose evidence file is gone, a newer clean one, and
      the rehearsal. */
  function Overlooked(commit: string): seq<Entry> {
    [Entry(Some(0), StageLine(ShadowStart, commit).(evidenceJson := "gone")),
     Entry(Some(1), StageLine(ShadowStart, commit)),
     Entry(Some(2), StageLine(RollbackRehearsal, commit))]
  }

  /** An override for the next stage passes on that ledger: it looks at the
      latest success of each stage, and an older one may be broken. */
  lemma OverrideOverlooksOlder(commit: string, now: nat)
    requires IsFullSha(commit)
    ensures
      var entries, files := Overlooked(commit), EvidenceFiles(commit);
      && ValidateCode(entries, files,
           ValidateArgs(ConfigAuthorityStage, commit, Some(0), true, "hotfix"), now) == 0
      && SuccessOf(entries[0], commit, ShadowStart)
      && EvidenceFailures(files, entries[0].rec) != []
  {
    hide IsFullSha;
    hide EvidenceFiles;
    hide StageLine;
    hide EntryClean;
    hide EvidenceFailures;
    hide ValidateCode;
    hide LatestClean;
    hide Lower;
    hide Strip;
    var entries, files := Overlooked(commit), EvidenceFiles(commit);
    assert |Lower(commit)| == 40 by { ShaLength(commit); }
    assert Strip("hotfix") != "" by { StripOf("hotfix"); }
    ThreeLines(commit);
    NothingAtGone(commit);
    GoneIsBroken(files, entries[0].rec);
    LatestOfThree(entries, files, commit);
    hide SuccessOf;
    assert entries[0] in entries;
    OverridePasses(entries, files, ValidateArgs(ConfigAuthorityStage, commit, Some(0), true, "hotfix"), now);
  }

  lemma OverridePasses(entries: seq<Entry>, files: Files, v: ValidateArgs, now: nat)
    requires v.stage == ConfigAuthorityStage && v.outOfOrder
    requires Lower(v.commit) != "" && Strip(v.outOfOrderReason) != ""
    requires forall s | s in {ShadowStart, RollbackRehearsal} ::
               Successful(entries, v.commit, s) && LatestClean(entries, files, v.commit, s)
    ensures ValidateCode(entries, files, v, now) == 0
  {
    hide LatestClean;
    hide Successful;
    hide Waited;
    hide Lower;
    hide Strip;
    assert PriorStages(ConfigAuthorityStage) == [ShadowStart];
    hide PriorStages;
  }

  lemma ThreeLines(commit: string)
    requires IsFullSha(commit)
    ensures forall e, s | e in Overlooked(commit) :: SuccessOf(e, commit, s) <==> e.rec.stage == s
    ensures Overlooked(commit)[0].rec.stage == Overlooked(commit)[1].rec.stage == ShadowStart
    ensures Overlooked(commit)[2].rec.stage == RollbackRehearsal
    ensures forall i | 1 <= i < 3 :: EntryClean(EvidenceFiles(commit), Overlooked(commit)[i].rec)
  {
    hide IsFullSha;
    hide EvidenceFiles;
    hide StageLine;
    hide EntryClean;
    hide NormalizeCommit;
    hide Lower;
    StageLineFields(ShadowStart, commit);
    StageLineFields(RollbackRehearsal, commit);
    StageLineClean(ShadowStart, commit);
    StageLineClean(RollbackRehearsal, commit);
    var entries := Overlooked(commit);
    forall e | e in entries ensures e.rec.commit == commit && e.rec.status == Success {
      var i :| 0 <= i < 3 && entries[i] == e;
    }
    hide Overlooked;
  }

  lemma NothingAtGone(commit: string)
    ensures "gone" !in EvidenceFiles(commit)
  {
  }

  lemma GoneIsBroken(files: Files, rec: Args)
    requires rec.evidenceJson == "gone" && "gone" !in files
    ensures EvidenceFailures(files, rec) != []
  {
    hide RecheckChecks;
    hide RecheckHolds;
    hide RouterAudit;
    hide IsFullSha;
    hide Strip;
    hide Lower;
  }

  lemma LatestOfThree(entries: seq<Entry>, files: Files, commit: string)
    requires |entries| == 3 && forall i | 0 <= i < 3 :: entries[i].recordedAt == Some(i)
    requires forall e, s | e in entries :: SuccessOf(e, commit, s) <==> e.rec.stage == s
    requires entries[0].rec.stage == entries[1].rec.stage == ShadowStart && entries[2].rec.stage == RollbackRehearsal
    requires EntryClean(files, entries[1].rec) && EntryClean(files, entries[2].rec)
    ensures forall s | s in {ShadowStart, RollbackRehearsal} ::
              Successful(entries, commit, s) && LatestClean(entries, files, commit, s)
  {
    hide EntryClean;
    hide SuccessOf;
    assert entries[1] in entries && entries[2] in entries;
    forall s | s in {ShadowStart, RollbackRehearsal}
      ensures Successful(entries, commit, s) && LatestClean(entries, files, commit, s)
    {
      var i := LatestIndex(entries, commit, s);
      assert i == Some(if s == ShadowStart then 1 else 2);
    }
  }

  // ------------------------------------------------ the audit strips its commit

  function FirstFiles(commit: string): Files {
    map["e" := OneFile(commit)]
  }

  /** Validate, report and record the first stage for any commit at all. */
  function FirstStage(commit: string): seq<Step>
    requires BaselineOf(FirstFiles(commit), PlainArgs(ShadowStart, commit)).Some?
  {
    var a, files := PlainArgs(ShadowStart, commit), FirstFiles(commit);
    [ValidateStep(Asked(ShadowStart, commit, 0), Reported(files, a, "out"), 0),
     AppendStep(WithEvidence(a, "out"), Reported(files, a, "out"), 0)]
  }

  lemma FirstStageRecorded(commit: string) returns (run: seq<Step>, files: Files)
    requires NormalizeCommit(commit) != "" && Settled(NormalizeCommit(commit)) && Lower(commit) != ""
    ensures ClockForward(run) && Disciplined(run, 0)
    ensures Auditable(LedgerOf(run), files, commit, ShadowStart)
    ensures forall e | e in LedgerOf(run) :: Lower(e.rec.commit) == Lower(commit)
  {
    hide NormalizeCommit;
    hide Settled;
    hide EvidenceFailures;
    hide EntryClean;
    hide StageReportFailures;
    hide ValidatedBaseline;
    hide AppendAccepts;
    hide IsFullSha;
    hide LedgerOf;
    hide Reported;
    hide Lower;
    hide Line;
    hide Disciplined;
    hide ClockForward;
    hide Auditable;
    var a, before := PlainArgs(ShadowStart, commit), FirstFiles(commit);
    FirstReportPasses(commit);
    AppendTakesPassingReport(before, a, "out");
    StoredLineRechecksClean(before, a, "out");
    run, files := FirstStage(commit), Reported(before, a, "out");
    var line := Entry(Some(0), Line(before, a, "out"));
    FirstStageLine(commit);
    FirstStageDisciplined(run, commit);
    OneLineAuditable(line, files, commit, ShadowStart);
  }

  lemma FirstReportPasses(commit: string)
    requires NormalizeCommit(commit) != "" && Settled(NormalizeCommit(commit))
    ensures var files, a := FirstFiles(commit), PlainArgs(ShadowStart, commit);
      ReportPassed(files, a, "out") && MainFieldsFilled(a) && CommitsSettled(a) && BaselineOf(files, a) == Some("")
  {
    hide NormalizeCommit;
    hide Settled;
    hide StageReportFailures;
    hide ValidatedBaseline;
    hide MainFieldsFilled;
    PlainBaseline(ShadowStart, commit, FirstFiles(commit));
    PlainReportPasses(commit);
    MainFilledPlain(commit);
  }

  lemma FirstStageLine(commit: string)
    requires BaselineOf(FirstFiles(commit), PlainArgs(ShadowStart, commit)) == Some("")
    requires var a, files := PlainArgs(ShadowStart, commit), FirstFiles(commit);
      AppendAccepts(Reported(files, a, "out"), WithEvidence(a, "out"))
    ensures var a, files, run := PlainArgs(ShadowStart, commit), FirstFiles(commit), FirstStage(commit);
      && LedgerOf(run) == [Entry(Some(0), Line(files, a, "out"))]
      && SuccessOf(LedgerOf(run)[0], commit, ShadowStart)
  {
    hide NormalizeCommit;
    hide ValidatedBaseline;
    hide AppendAccepts;
    hide Strip;
    hide Reported;
    var a, files, run := PlainArgs(ShadowStart, commit), FirstFiles(commit), FirstStage(commit);
    assert BaselineOf(Reported(files, a, "out"), WithEvidence(a, "out")) == Some("") by {
      PlainBaseline(ShadowStart, commit, Reported(files, a, "out"));
    }
    LowerIdempotent(commit);
    hide Lower;
    LedgerOfTwoMore([], run[0], run[1]);
    assert [] + [run[0], run[1]] == run;
    assert LedgerOf([]) == [];
    hide LedgerOf;
  }

  lemma MainFilledPlain(commit: string)
    ensures MainFieldsFilled(PlainArgs(ShadowStart, commit))
  {
    LowerOf(MainSha());
    StripOf(MainSha());
    StripOf("main");
  }

  lemma FirstStageDisciplined(run: seq<Step>, commit: string)
    requires |run| == 2 && run[0].ValidateStep? && run[1].AppendStep?
    requires run[0].v == Asked(ShadowStart, commit, 0) && run[0].now == run[1].now
    requires run[1].a.stage == ShadowStart && run[1].a.commit == commit && Lower(commit) != ""
    ensures ClockForward(run) && Disciplined(run, 0)
  {
    hide ValidateCode;
    hide Lower;
    hide AppendAccepts;
    assert OnTime([], 0, run[0].now);
    hide OnTime;
    FirstValidates(LedgerOf([]), run[0].files, run[0].v, run[0].now);
    hide LedgerOf;
    OneMoreStage([], 0, run[0], run[1], run[1].now);
    assert run == [] + [run[0], run[1]];
    OnTimeIsDisciplined(run, 0, run[1].now);
  }

  lemma OnTimeIsDisciplined(run: seq<Step>, wait: nat, until: nat)
    requires OnTime(run, wait, until)
    ensures ClockForward(run) && Disciplined(run, wait)
  {
    hide Disciplined;
    hide ClockForward;
  }

  lemma OneLineAuditable(line: Entry, files: Files, commit: string, target: Stage)
    requires SuccessOf(line, commit, target) && target in STAGES
    requires EvidenceFailures(files, line.rec) == []
    ensures Auditable([line], files, commit, target)
  {
    hide EvidenceFailures;
    hide Lower;
    assert [line][0] in [line];
  }

  lemma FirstValidates(entries: seq<Entry>, files: Files, v: ValidateArgs, now: nat)
    requires v.stage == ShadowStart && Lower(v.commit) != "" && !v.outOfOrder
    ensures ValidateCode(entries, files, v, now) == 0 && v.stage in STAGES
  {
    hide Lower;
    hide Strip;
    hide LatestClean;
    hide Waited;
    assert PriorStages(ShadowStart) == [];
    hide PriorStages;
  }

  /** A commit with a trailing blank: a disciplined run whose audit fails as
      the command asks, and would pass for the commit as given. */
  lemma TrailingBlankFailsAudit() returns (run: seq<Step>, files: Files)
    ensures ClockForward(run) && Disciplined(run, 0)
    ensures Auditable(LedgerOf(run), files, "x ", ShadowStart)
    ensures RequiredStages(ShadowStart, true).Some?
    ensures AuditFailures(LedgerOf(run), files, "x ", ShadowStart, true, 0) == []
    ensures AuditCommand(LedgerOf(run), files, "x ", ShadowStart, true, Some(0)).0 != 0
  {
    BlankStripped();
    hide NormalizeCommit;
    hide Strip;
    hide Lower;
    hide AuditFailures;
    hide AuditCommand;
    hide Disciplined;
    hide Auditable;
    hide LedgerOf;
    hide RequiredStages;
    run, files := FirstStageRecorded("x ");
    DisciplinedRunPassesAudit(run, 0, files, "x ", ShadowStart);
    DisciplinedAuditExactly(run, 0, files, "x ", ShadowStart);
  }

  lemma BlankStripped()
    ensures Lower("x ") == "x " && Strip("x ") == "x"
    ensures NormalizeCommit("x ") == "x" && Settled("x")
  {
    LowerOf("x ");
    LowerOf("x");
    assert StripRight("x ") == "x" by { assert "x "[..1] == "x"; StripRightShape("x"); }
    assert StripLeft("x ") == "x ";
  }
}
