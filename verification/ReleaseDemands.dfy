/** What the three ledger operations demand of a release, over the fields of
    the files its arguments name: `stage-report` names exactly the checks that
    have a flaw, `append` refuses exactly a flawed success, and the re-check
    names exactly what is wrong with a stored line. */
module ReleaseDemands {
  import opened Text
  import opened Evidence
  import opened Ledger
  import opened EvidenceFlaws

  datatype Flaw =
    | FallbackKept
    | RouterAuditFlaw(router: RouterFlaw)
    | ExternalBackupFlaw(backup: BackupFlaw)
    | AuthorityFlaw(apply: ApplyFlaw)
    | StartPreflightFlaw(preflight: PreflightFlaw)
    | HealthCheckFlaw(health: HealthFlaw)
    | ServingProbeFlaw(probe: ProbeFlaw)
    | SmokeRunFlaw(smoke: SmokeFlaw)
    | ReleaseGateFlaw(gate: GateFlaw)
    | ProtocolCanaryFlaw(protocol: ProtocolFlaw)
    | UpstreamUnusable
    | ProviderAuditFlaw(provider: ProviderFlaw)
    | VideoUnusable
    | AsrUnusable

  function CheckOf(x: Flaw): Check {
    match x
    case FallbackKept => MapFallbackExit
    case RouterAuditFlaw(_) => RouterAuditCheck
    case ExternalBackupFlaw(_) => BackupCheck
    case AuthorityFlaw(_) => ConfigApplyCheck
    case StartPreflightFlaw(_) => PreflightGate
    case HealthCheckFlaw(_) => HealthGate
    case ServingProbeFlaw(_) => ProbeCheck
    case SmokeRunFlaw(_) => SmokeCheck
    case ReleaseGateFlaw(_) => ReleaseGateCheck
    case ProtocolCanaryFlaw(_) => ProtocolCheck
    case UpstreamUnusable => UpstreamCheck
    case ProviderAuditFlaw(_) => ProviderCheck
    case VideoUnusable => VideoCheck
    case AsrUnusable => AsrCheck
  }

  /** The flaw is there in the file that the arguments name for its check. */
  predicate Flawed(files: Files, a: Args, commit: string, shadow: string, excused: bool, x: Flaw) {
    match x
    case FallbackKept => a.stage == HttpFull && a.status == Success && !a.mapFallbackDisabled
    case RouterAuditFlaw(y) => RouterFlawed(files, a.routerAuditJson, y)
    case ExternalBackupFlaw(y) => BackupFlawed(files, a.externalBackupJson, y)
    case AuthorityFlaw(y) => ApplyFlawed(files, a.configAuthorityJson, y)
    case StartPreflightFlaw(y) => PreflightFlawed(files, a.prodPreflightJson, commit, a.stage, y)
    case HealthCheckFlaw(y) => HealthFlawed(files, a.prodHealthJson, commit, y)
    case ServingProbeFlaw(y) => ProbeFlawed(files, a.servingProbeJson, commit, y)
    case SmokeRunFlaw(y) => SmokeFlawed(files, a.smokeJson, commit, a.smokeMatrixRequired, y)
    case ReleaseGateFlaw(y) => GateFlawed(files, a.releaseGateJson, shadow, a.stage == HttpFull, excused, y)
    case ProtocolCanaryFlaw(y) => ProtocolFlawed(files, a.protocolCanaryJson, commit, y)
    case UpstreamUnusable => Unusable(files, a.upstreamJson)
    case ProviderAuditFlaw(y) => ProviderFlawed(files, a.providerAuditJson, y)
    case VideoUnusable => Unusable(files, a.videoCanaryJson)
    case AsrUnusable => Unusable(files, a.asrCanaryJson)
  }

  /** Some flaw concerns check `k`. */
  ghost predicate HasFlaw(files: Files, a: Args, commit: string, shadow: string, excused: bool, k: Check) {
    exists x: Flaw :: CheckOf(x) == k && Flawed(files, a, commit, shadow, excused, x)
  }

  lemma AsFlaw(files: Files, a: Args, commit: string, shadow: string, excused: bool, x: Flaw)
    requires Flawed(files, a, commit, shadow, excused, x)
    ensures HasFlaw(files, a, commit, shadow, excused, CheckOf(x))
  {
    hide Flawed;
  }

  /** A check of a file fails exactly when the file has a flaw it is about. */
  lemma HoldsExactly(files: Files, a: Args, k: Check, commit: string, shadow: string, excused: bool)
    ensures Holds(files, a, k, commit, shadow, excused) <==> !HasFlaw(files, a, commit, shadow, excused, k)
  {
    if k in {PreflightGate, HealthGate, ProbeCheck, SmokeCheck, ReleaseGateCheck, ProtocolCheck} {
      CommitBoundExactly(files, a, k, commit, shadow, excused);
    } else {
      PlainExactly(files, a, k, commit, shadow, excused);
    }
  }

  lemma PlainExactly(files: Files, a: Args, k: Check, commit: string, shadow: string, excused: bool)
    requires k !in {PreflightGate, HealthGate, ProbeCheck, SmokeCheck, ReleaseGateCheck, ProtocolCheck}
    ensures Holds(files, a, k, commit, shadow, excused) <==> !HasFlaw(files, a, commit, shadow, excused, k)
  {
    hide RouterAudit;
    hide ExternalBackup;
    hide ConfigAuthorityApply;
    hide ProviderAudit;
    hide Passing;
    hide Unusable;
    hide RouterFlawed;
    hide BackupFlawed;
    hide ApplyFlawed;
    hide ProviderFlawed;
    hide HasFlaw;
    RouterExactly(files, a.routerAuditJson);
    BackupExactly(files, a.externalBackupJson);
    ApplyExactly(files, a.configAuthorityJson);
    ProviderExactly(files, a.providerAuditJson);
    UsableIsPassing(files, a.upstreamJson);
    UsableIsPassing(files, a.videoCanaryJson);
    UsableIsPassing(files, a.asrCanaryJson);
    if HasFlaw(files, a, commit, shadow, excused, k) {
      var x := TheFlaw(files, a, commit, shadow, excused, k);
    } else {
      forall x: Flaw | CheckOf(x) == k ensures !Flawed(files, a, commit, shadow, excused, x) {
        if Flawed(files, a, commit, shadow, excused, x) { AsFlaw(files, a, commit, shadow, excused, x); }
      }
      NoPlainFlaw(files, a, k, commit, shadow, excused);
    }
  }

  lemma TheFlaw(files: Files, a: Args, commit: string, shadow: string, excused: bool, k: Check) returns (x: Flaw)
    requires HasFlaw(files, a, commit, shadow, excused, k)
    ensures CheckOf(x) == k && Flawed(files, a, commit, shadow, excused, x)
  {
    hide Flawed;
    x :| CheckOf(x) == k && Flawed(files, a, commit, shadow, excused, x);
  }

  lemma NoPlainFlaw(files: Files, a: Args, k: Check, commit: string, shadow: string, excused: bool)
    requires k !in {PreflightGate, HealthGate, ProbeCheck, SmokeCheck, ReleaseGateCheck, ProtocolCheck}
    requires forall x: Flaw | CheckOf(x) == k :: !Flawed(files, a, commit, shadow, excused, x)
    ensures Holds(files, a, k, commit, shadow, excused)
  {
    hide RouterAudit;
    hide ExternalBackup;
    hide ConfigAuthorityApply;
    hide ProviderAudit;
    hide Passing;
    hide Unusable;
    hide RouterFlawed;
    hide BackupFlawed;
    hide ApplyFlawed;
    hide ProviderFlawed;
    RouterExactly(files, a.routerAuditJson);
    BackupExactly(files, a.externalBackupJson);
    ApplyExactly(files, a.configAuthorityJson);
    ProviderExactly(files, a.providerAuditJson);
    UsableIsPassing(files, a.upstreamJson);
    UsableIsPassing(files, a.videoCanaryJson);
    UsableIsPassing(files, a.asrCanaryJson);
    match k
    case MapFallbackExit => assert !Flawed(files, a, commit, shadow, excused, FallbackKept);
    case UpstreamCheck => assert !Flawed(files, a, commit, shadow, excused, UpstreamUnusable);
    case VideoCheck => assert !Flawed(files, a, commit, shadow, excused, VideoUnusable);
    case AsrCheck => assert !Flawed(files, a, commit, shadow, excused, AsrUnusable);
    case RouterAuditCheck =>
      forall y: RouterFlaw ensures !RouterFlawed(files, a.routerAuditJson, y) {
        assert !Flawed(files, a, commit, shadow, excused, RouterAuditFlaw(y));
      }
    case BackupCheck =>
      forall y: BackupFlaw ensures !BackupFlawed(files, a.externalBackupJson, y) {
        assert !Flawed(files, a, commit, shadow, excused, ExternalBackupFlaw(y));
      }
    case ConfigApplyCheck =>
      forall y: ApplyFlaw ensures !ApplyFlawed(files, a.configAuthorityJson, y) {
        assert !Flawed(files, a, commit, shadow, excused, AuthorityFlaw(y));
      }
    case ProviderCheck =>
      forall y: ProviderFlaw ensures !ProviderFlawed(files, a.providerAuditJson, y) {
        assert !Flawed(files, a, commit, shadow, excused, ProviderAuditFlaw(y));
      }
  }

  lemma CommitBoundExactly(files: Files, a: Args, k: Check, commit: string, shadow: string, excused: bool)
    requires k in {PreflightGate, HealthGate, ProbeCheck, SmokeCheck, ReleaseGateCheck, ProtocolCheck}
    ensures Holds(files, a, k, commit, shadow, excused) <==> !HasFlaw(files, a, commit, shadow, excused, k)
  {
    hide ProdPreflight;
    hide HealthPreflight;
    hide ServingProbe;
    hide Smoke;
    hide SmokeRouteMatrix;
    hide ReleaseGate;
    hide ProtocolCanary;
    hide PreflightFlawed;
    hide HealthFlawed;
    hide ProbeFlawed;
    hide SmokeFlawed;
    hide GateFlawed;
    hide ProtocolFlawed;
    hide HasFlaw;
    PreflightExactly(files, a.prodPreflightJson, commit, a.stage);
    HealthExactly(files, a.prodHealthJson, commit);
    ProbeExactly(files, a.servingProbeJson, commit);
    SmokeExactly(files, a.smokeJson, commit, a.smokeMatrixRequired);
    GateExactly(files, a.releaseGateJson, shadow, a.stage == HttpFull, excused);
    ProtocolExactly(files, a.protocolCanaryJson, commit);
    if HasFlaw(files, a, commit, shadow, excused, k) {
      var x := TheFlaw(files, a, commit, shadow, excused, k);
    } else {
      forall x: Flaw | CheckOf(x) == k ensures !Flawed(files, a, commit, shadow, excused, x) {
        if Flawed(files, a, commit, shadow, excused, x) { AsFlaw(files, a, commit, shadow, excused, x); }
      }
      NoCommitBoundFlaw(files, a, k, commit, shadow, excused);
    }
  }

  lemma NoCommitBoundFlaw(files: Files, a: Args, k: Check, commit: string, shadow: string, excused: bool)
    requires k in {PreflightGate, HealthGate, ProbeCheck, SmokeCheck, ReleaseGateCheck, ProtocolCheck}
    requires forall x: Flaw | CheckOf(x) == k :: !Flawed(files, a, commit, shadow, excused, x)
    ensures Holds(files, a, k, commit, shadow, excused)
  {
    hide ProdPreflight;
    hide HealthPreflight;
    hide ServingProbe;
    hide Smoke;
    hide SmokeRouteMatrix;
    hide ReleaseGate;
    hide ProtocolCanary;
    hide PreflightFlawed;
    hide HealthFlawed;
    hide ProbeFlawed;
    hide SmokeFlawed;
    hide GateFlawed;
    hide ProtocolFlawed;
    PreflightExactly(files, a.prodPreflightJson, commit, a.stage);
    HealthExactly(files, a.prodHealthJson, commit);
    ProbeExactly(files, a.servingProbeJson, commit);
    SmokeExactly(files, a.smokeJson, commit, a.smokeMatrixRequired);
    GateExactly(files, a.releaseGateJson, shadow, a.stage == HttpFull, excused);
    ProtocolExactly(files, a.protocolCanaryJson, commit);
    match k
    case PreflightGate =>
      forall y: PreflightFlaw ensures !PreflightFlawed(files, a.prodPreflightJson, commit, a.stage, y) {
        assert !Flawed(files, a, commit, shadow, excused, StartPreflightFlaw(y));
      }
    case HealthGate =>
      forall y: HealthFlaw ensures !HealthFlawed(files, a.prodHealthJson, commit, y) {
        assert !Flawed(files, a, commit, shadow, excused, HealthCheckFlaw(y));
      }
    case ProbeCheck =>
      forall y: ProbeFlaw ensures !ProbeFlawed(files, a.servingProbeJson, commit, y) {
        assert !Flawed(files, a, commit, shadow, excused, ServingProbeFlaw(y));
      }
    case SmokeCheck =>
      forall y: SmokeFlaw ensures !SmokeFlawed(files, a.smokeJson, commit, a.smokeMatrixRequired, y) {
        assert !Flawed(files, a, commit, shadow, excused, SmokeRunFlaw(y));
      }
    case ReleaseGateCheck =>
      var path, full := a.releaseGateJson, a.stage == HttpFull;
      forall y: GateFlaw ensures !GateFlawed(files, path, shadow, full, excused, y) {
        assert !Flawed(files, a, commit, shadow, excused, ReleaseGateFlaw(y));
      }
    case ProtocolCheck =>
      forall y: ProtocolFlaw ensures !ProtocolFlawed(files, a.protocolCanaryJson, commit, y) {
        assert !Flawed(files, a, commit, shadow, excused, ProtocolCanaryFlaw(y));
      }
  }

  // --------------------------------------------------------- what is demanded

  /** A stage that is released to production, neither rehearsed nor configured. */
  predicate Rolled(stage: Stage) {
    !stage.RollbackRehearsal? && !stage.ConfigAuthorityStage?
  }

  /** The release must bring evidence for check `k`. */
  predicate Demands(a: Args, k: Check) {
    match k
    case MapFallbackExit => true
    case RouterAuditCheck => true
    case BackupCheck => a.stage.ConfigAuthorityStage?
    case ConfigApplyCheck => a.stage.ConfigAuthorityStage?
    case PreflightGate => Rolled(a.stage)
    case ProbeCheck => Rolled(a.stage)
    case HealthGate => Rolled(a.stage) && a.prodHealthRequired
    case SmokeCheck => Rolled(a.stage) && a.smokeRequired
    case ReleaseGateCheck => Rolled(a.stage) && a.releaseGateRequired
    case ProtocolCheck => Rolled(a.stage) && a.protocolCanaryRequired
    case UpstreamCheck => Rolled(a.stage) && a.upstreamRequired
    case ProviderCheck => Rolled(a.stage) && a.providerAuditRequired
    case VideoCheck => Rolled(a.stage) && a.videoCanaryRequired
    case AsrCheck => Rolled(a.stage) && a.asrCanaryRequired
  }

  lemma StageDemands(a: Args, k: Check)
    ensures (k, true) in StageChecks(a) <==> Demands(a, k) && k != MapFallbackExit && k != RouterAuditCheck
    ensures (k, true) in RecheckChecks(a) <==> Demands(a, k) && k != MapFallbackExit && k != RouterAuditCheck
  {
    hide ChecksFor;
    hide RecheckOrder;
    var on := SwitchesOf(a);
    if Rolled(a.stage) {
      RolledLists(a.stage, on);
      TenChecks(ChecksFor(a.stage, on), false, on, k);
      TenChecks(RecheckOrder(a.stage, on), true, on, k);
      hide TenListed;
    } else {
      UnrolledLists(a.stage, on);
      TwoChecks(k);
    }
  }

  lemma UnrolledLists(stage: Stage, on: Switches)
    requires !Rolled(stage)
    ensures ChecksFor(stage, on) == RecheckOrder(stage, on)
              == if stage == RollbackRehearsal then [] else [(BackupCheck, true), (ConfigApplyCheck, true)]
  {
  }

  lemma TwoChecks(k: Check)
    ensures (k, true) in [(BackupCheck, true), (ConfigApplyCheck, true)] <==> k in {BackupCheck, ConfigApplyCheck}
  {
    var s := [(BackupCheck, true), (ConfigApplyCheck, true)];
    assert s[0] in s && s[1] in s;
  }

  lemma RolledLists(stage: Stage, on: Switches)
    requires Rolled(stage)
    ensures TenListed(ChecksFor(stage, on), false, on) && TenListed(RecheckOrder(stage, on), true, on)
  {
  }

  predicate TenListed(s: seq<(Check, bool)>, swapped: bool, on: Switches) {
    && |s| == 10 && s[0] == (PreflightGate, true) && s[1] == (HealthGate, on.health) && s[2] == (ProbeCheck, true)
    && s[3] == (SmokeCheck, on.smoke)
    && s[if swapped then 5 else 4] == (ReleaseGateCheck, on.gate)
    && s[if swapped then 4 else 5] == (ProtocolCheck, on.protocol)
    && s[6] == (UpstreamCheck, on.upstream) && s[7] == (ProviderCheck, on.provider)
    && s[8] == (VideoCheck, on.video) && s[9] == (AsrCheck, on.asr)
  }

  lemma TenChecks(s: seq<(Check, bool)>, swapped: bool, on: Switches, k: Check)
    requires TenListed(s, swapped, on)
    ensures (k, true) in s <==>
      || k in {PreflightGate, ProbeCheck}
      || (k == HealthGate && on.health) || (k == SmokeCheck && on.smoke) || (k == ReleaseGateCheck && on.gate)
      || (k == ProtocolCheck && on.protocol) || (k == UpstreamCheck && on.upstream)
      || (k == ProviderCheck && on.provider) || (k == VideoCheck && on.video) || (k == AsrCheck && on.asr)
  {
    assert forall i | 0 <= i < 10 :: s[i] in s;
  }

  // ------------------------------------------------------------- stage report

  lemma {:induction false} FailingMembers(files: Files, a: Args, excused: bool, checks: seq<(Check, bool)>, k: Check)
    ensures k in FailingChecks(files, a, excused, checks) <==>
              (k, true) in checks && !Holds(files, a, k, a.commit, ShadowCommitOf(a), excused)
  {
    hide Holds;
    hide ShadowCommitOf;
    if checks != [] {
      var n := |checks| - 1;
      assert checks == checks[..n] + [checks[n]];
      FailingMembers(files, a, excused, checks[..n], k);
    }
  }

  lemma ReportDemands(a: Args, k: Check)
    ensures (k, true) in ReportChecks(a) <==> Demands(a, k)
  {
    StageDemands(a, k);
    hide StageChecks;
    hide RecheckChecks;
    var two := [(MapFallbackExit, true), (RouterAuditCheck, true)];
    assert ReportChecks(a) == two + StageChecks(a);
    assert two[0] in two && two[1] in two;
  }

  /** The commit a release says its shadow samples were taken for. */
  function GivenShadow(a: Args): string {
    if |a.shadowEvidenceCommit| > 0 then a.shadowEvidenceCommit else a.commit
  }

  /** `stage-report` names a check exactly when the stage demands it and the
      file it is about has a flaw. */
  lemma ReportNamesExactly(files: Files, a: Args, k: Check)
    requires BaselineOf(files, a).Some?
    ensures k in StageReportFailures(files, a) <==>
              Demands(a, k) && HasFlaw(files, a, a.commit, GivenShadow(a), BaselineOf(files, a) != Some(""), k)
  {
    hide Holds;
    hide HasFlaw;
    hide Demands;
    hide ReportChecks;
    hide FailingChecks;
    hide ValidatedBaseline;
    var excused := BaselineOf(files, a).value != "";
    FailingMembers(files, a, excused, ReportChecks(a), k);
    ReportDemands(a, k);
    HoldsExactly(files, a, k, a.commit, GivenShadow(a), excused);
    assert ShadowCommitOf(a) == GivenShadow(a);
  }

  // ------------------------------------------------------------------- append

  datatype ReportFlaw = ReportUnusable | ReportNoCommit | ReportOtherCommit

  /** What is wrong with the stage report a release brings. */
  predicate ReportFlawedFor(files: Files, path: string, commit: string, x: ReportFlaw) {
    match x
    case ReportUnusable => Unusable(files, path)
    case ReportNoCommit => NormalizeCommit(commit) == ""
    case ReportOtherCommit => path in files && NormalizeCommit(files[path].commit) != NormalizeCommit(commit)
  }

  lemma StageEvidenceExactly(files: Files, path: string, commit: string)
    ensures StageEvidenceForCommit(files, path, commit) <==>
              forall x: ReportFlaw :: !ReportFlawedFor(files, path, commit, x)
  {
    hide NormalizeCommit;
    hide Lower;
    if forall x: ReportFlaw :: !ReportFlawedFor(files, path, commit, x) {
      assert !ReportFlawedFor(files, path, commit, ReportUnusable);
      assert !ReportFlawedFor(files, path, commit, ReportNoCommit);
      assert !ReportFlawedFor(files, path, commit, ReportOtherCommit);
    }
  }

  /** `append` takes a success exactly when its baseline claim is valid and
      neither its stage report nor any file the stage demands has a flaw. */
  lemma AppendTakesExactly(files: Files, a: Args)
    requires a.status == Success
    ensures AppendAccepts(files, a) <==>
      && BaselineOf(files, a).Some?
      && (forall x: ReportFlaw :: !ReportFlawedFor(files, a.evidenceJson, a.commit, x))
      && forall k: Check | Demands(a, k) ::
           !HasFlaw(files, a, a.commit, GivenShadow(a), BaselineOf(files, a) != Some(""), k)
  {
    hide Holds;
    hide HasFlaw;
    hide Demands;
    hide StageChecks;
    hide RecheckChecks;
    hide ValidatedBaseline;
    hide StageEvidenceForCommit;
    hide ReportFlawedFor;
    hide RouterAudit;
    hide ShadowCommitOf;
    hide FallbackExitOk;
    StageEvidenceExactly(files, a.evidenceJson, a.commit);
    if BaselineOf(files, a).Some? {
      var excused := BaselineOf(files, a).value != "";
      GivenShadowIs(a);
      forall k: Check
        ensures Holds(files, a, k, a.commit, ShadowCommitOf(a), excused) <==>
                  !HasFlaw(files, a, a.commit, GivenShadow(a), excused, k)
        ensures (k, true) in StageChecks(a) <==> Demands(a, k) && k != MapFallbackExit && k != RouterAuditCheck
      {
        HoldsExactly(files, a, k, a.commit, GivenShadow(a), excused);
        StageDemands(a, k);
      }
      AlwaysDemanded(files, a, excused);
      assert StageChecksHold(files, a, a.commit, ShadowCommitOf(a), excused) <==>
        forall k: Check | (k, true) in StageChecks(a) :: Holds(files, a, k, a.commit, ShadowCommitOf(a), excused);
    }
  }

  lemma GivenShadowIs(a: Args)
    ensures GivenShadow(a) == ShadowCommitOf(a)
  {
  }

  lemma AlwaysDemanded(files: Files, a: Args, excused: bool)
    ensures Demands(a, MapFallbackExit) && Demands(a, RouterAuditCheck)
    ensures Holds(files, a, MapFallbackExit, a.commit, ShadowCommitOf(a), excused) <==> FallbackExitOk(a)
    ensures Holds(files, a, RouterAuditCheck, a.commit, ShadowCommitOf(a), excused) <==>
              RouterAudit(files, a.routerAuditJson)
  {
    hide RouterAudit;
    hide FallbackExitOk;
    hide ShadowCommitOf;
  }

  /** Every other status is recorded whatever the files say: the call adds one
      line with its stage, status, lower-cased commit and time, and is refused
      only for a baseline claim that does not hold. */
  lemma OtherStatusIsRecorded(entries: seq<Entry>, files: Files, a: Args, now: nat)
    requires a.status != Success
    ensures
      var after := LedgerAfterAppend(entries, files, a, now);
      if BaselineOf(files, a).Some? then
        && |after| == |entries| + 1 && after[..|entries|] == entries
        && var e := after[|entries|];
        && e.recordedAt == Some(now) && e.rec.stage == a.stage && e.rec.status == a.status
        && e.rec.commit == Lower(a.commit)
      else after == entries
  {
    hide ValidatedBaseline;
    hide SuccessEvidence;
    hide NormalizeCommit;
    hide Lower;
    hide Strip;
  }

  /** The commit the samples of a release count for, as it is stored. */
  function StoredShadow(a: Args): string {
    if NormalizeCommit(a.shadowEvidenceCommit) == "" then Lower(a.commit) else NormalizeCommit(a.shadowEvidenceCommit)
  }

  /** What an accepted call writes: its arguments, with the commit and the main
      sha lower-cased, the override reason stripped, and the shadow and baseline
      commits normalised. */
  lemma LineKeeps(entries: seq<Entry>, files: Files, a: Args, now: nat)
    requires AppendAccepts(files, a)
    ensures
      var after := LedgerAfterAppend(entries, files, a, now);
      && |after| == |entries| + 1 && after[..|entries|] == entries && after[|entries|].recordedAt == Some(now)
      && var rec := after[|entries|].rec;
      && rec.commit == Lower(a.commit) && rec.mainSha == Lower(a.mainSha)
      && rec.outOfOrderReason == Strip(a.outOfOrderReason)
      && rec.shadowEvidenceCommit == StoredShadow(a)
      && rec.maintenanceBaselineCommit == NormalizeCommit(a.maintenanceBaselineCommit)
      && a == rec.(commit := a.commit, mainSha := a.mainSha, outOfOrderReason := a.outOfOrderReason,
                   shadowEvidenceCommit := a.shadowEvidenceCommit,
                   maintenanceBaselineCommit := a.maintenanceBaselineCommit)
  {
    ClaimExactly(files, a);
    hide BaselineOf;
    hide SuccessEvidence;
    hide NormalizeCommit;
    hide Lower;
    hide Strip;
  }

  /** What a stage report says of a release. */
  lemma ReportSays(files: Files, a: Args)
    requires BaselineOf(files, a).Some?
    ensures
      var p := ReportPayload(a, BaselineOf(files, a).value, StageReportFailures(files, a));
      && p.verdict == (if exists k :: k in StageReportFailures(files, a) then "fail" else "pass")
      && (p.clean <==> p.verdict == "pass")
      && p.stage == a.stage && p.status == a.status && p.mode == a.mode && p.commit == Lower(a.commit)
      && p.releaseMainRef == a.mainRef && p.releaseMainSha == Lower(a.mainSha)
      && p.shadowEvidenceCommit == StoredShadow(a)
      && p.maintenanceBaselineCommit == NormalizeCommit(a.maintenanceBaselineCommit)
      && p.maintenanceBaselineJson == a.maintenanceBaselineJson && p.mapFallbackDisabled == a.mapFallbackDisabled
  {
    ClaimExactly(files, a);
    var failures := StageReportFailures(files, a);
    assert failures == [] || failures[0] in failures;
    hide StageReportFailures;
    hide BaselineOf;
    hide NormalizeCommit;
    hide Lower;
    hide Strip;
  }

  /** A call that claims no baseline has nothing to validate. */
  lemma NoClaimIsValid(files: Files, a: Args)
    requires NormalizeCommit(a.maintenanceBaselineCommit) == "" && a.maintenanceBaselineJson == ""
    ensures BaselineOf(files, a) == Some("")
  {
    hide NormalizeCommit;
  }

  datatype ClaimFlaw =
    | ClaimWithoutCommit | ClaimIncomplete | ClaimAtOtherStage | ClaimOnItself | ClaimUnusable
    | ClaimOfOther | ClaimWithoutShadow | ClaimOtherShadow

  /** What is wrong with the claim of a maintenance baseline. */
  predicate ClaimFlawed(files: Files, a: Args, x: ClaimFlaw) {
    var claimed, path := NormalizeCommit(a.maintenanceBaselineCommit), a.maintenanceBaselineJson;
    match x
    case ClaimWithoutCommit => claimed == "" && path != ""
    case ClaimIncomplete => claimed != "" && !IsFullSha(claimed)
    case ClaimAtOtherStage => claimed != "" && a.stage != HttpFull
    case ClaimOnItself => claimed != "" && claimed == NormalizeCommit(a.commit)
    case ClaimUnusable => claimed != "" && Unusable(files, path)
    case ClaimOfOther => claimed != "" && path in files && NormalizeCommit(files[path].commit) != claimed
    case ClaimWithoutShadow => claimed != "" && NormalizeCommit(a.shadowEvidenceCommit) == ""
    case ClaimOtherShadow =>
      && claimed != "" && path in files && files[path].shadowEvidenceCommit != ""
      && NormalizeCommit(files[path].shadowEvidenceCommit) != NormalizeCommit(a.shadowEvidenceCommit)
  }

  /** A claim holds exactly when nothing is wrong with it; then its value is
      the claimed commit. An audit report without a shadow commit stands for
      its own commit. */
  lemma ClaimExactly(files: Files, a: Args)
    ensures BaselineOf(files, a).Some? <==>
      && (forall x: ClaimFlaw :: !ClaimFlawed(files, a, x))
      && (NormalizeCommit(a.maintenanceBaselineCommit) != "" && a.maintenanceBaselineJson in files
          && files[a.maintenanceBaselineJson].shadowEvidenceCommit == "" ==>
            NormalizeCommit(NormalizeCommit(files[a.maintenanceBaselineJson].commit))
            == NormalizeCommit(a.shadowEvidenceCommit))
    ensures BaselineOf(files, a).Some? ==> BaselineOf(files, a).value == NormalizeCommit(a.maintenanceBaselineCommit)
  {
    hide NormalizeCommit;
    hide IsFullSha;
    hide Lower;
    if forall x: ClaimFlaw :: !ClaimFlawed(files, a, x) {
      assert !ClaimFlawed(files, a, ClaimWithoutCommit) && !ClaimFlawed(files, a, ClaimIncomplete);
      assert !ClaimFlawed(files, a, ClaimAtOtherStage) && !ClaimFlawed(files, a, ClaimOnItself);
      assert !ClaimFlawed(files, a, ClaimUnusable) && !ClaimFlawed(files, a, ClaimOfOther);
      assert !ClaimFlawed(files, a, ClaimWithoutShadow) && !ClaimFlawed(files, a, ClaimOtherShadow);
    }
  }

  // ----------------------------------------------------------------- re-check

  lemma {:induction false} StageFailureMembers(files: Files, e: Args, checks: seq<(Check, bool)>, x: EntryFailure)
    ensures x in StageFailures(files, e, checks) <==>
              x.EvidenceInvalid? && (x.check, true) in checks && !RecheckHolds(files, e, x.check)
  {
    hide RecheckHolds;
    if checks != [] {
      assert checks == [checks[0]] + checks[1..];
      StageFailureMembers(files, e, checks[1..], x);
    }
  }

  /** What a stored line says its baseline and shadow commit are, as the
      re-check reads them. */
  function ReadShadow(e: Args): string {
    if NormalizeCommit(e.shadowEvidenceCommit) == "" then NormalizeCommit(e.commit)
    else NormalizeCommit(e.shadowEvidenceCommit)
  }

  function AsRead(e: Args): Args {
    e.(shadowEvidenceCommit := ReadShadow(e), commit := NormalizeCommit(e.commit))
  }

  ghost predicate StageFlaw(files: Files, e: Args, k: Check) {
    var baseline := BaselineOf(files, AsRead(e));
    && Demands(e, k) && k != MapFallbackExit && k != RouterAuditCheck
    && ((k == ReleaseGateCheck && baseline == None)
        || HasFlaw(files, e, NormalizeCommit(e.commit), ReadShadow(e), baseline != Some(""), k))
  }

  /** The re-check names exactly what is wrong with a stored line: an empty or
      incomplete main field, an override without a reason, a stage report that
      does not match, a static audit that is named and flawed, and every
      demanded check whose file has a flaw or whose baseline claim fails. */
  ghost predicate WrongWith(files: Files, e: Args, x: EntryFailure) {
    match x
    case MissingMainRef => Strip(e.mainRef) == ""
    case InvalidMainSha => !IsFullSha(Lower(Strip(e.mainSha)))
    case MissingOverrideReason => e.outOfOrder && Strip(e.outOfOrderReason) == ""
    case StageEvidenceMismatch => exists y: MatchFlaw :: MatchFlawed(files, e, y)
    case EvidenceInvalid(k) =>
      if k == RouterAuditCheck then
        e.routerAuditJson != "" && exists y: RouterFlaw :: RouterFlawed(files, e.routerAuditJson, y)
      else StageFlaw(files, e, k)
  }

  datatype MatchFlaw = BadReport(report: ReportFlaw) | OtherMainRef | OtherMainSha | OtherBaseline | OtherBaselineFile

  predicate MatchFlawed(files: Files, e: Args, x: MatchFlaw) {
    match x
    case BadReport(y) => ReportFlawedFor(files, e.evidenceJson, e.commit, y)
    case OtherMainRef =>
      e.evidenceJson in files && Lower(Strip(files[e.evidenceJson].releaseMainRef)) != Lower(Strip(e.mainRef))
    case OtherMainSha =>
      e.evidenceJson in files && Lower(Strip(files[e.evidenceJson].releaseMainSha)) != Lower(Strip(e.mainSha))
    case OtherBaseline =>
      && e.evidenceJson in files
      && NormalizeCommit(files[e.evidenceJson].maintenanceBaselineCommit)
         != NormalizeCommit(e.maintenanceBaselineCommit)
    case OtherBaselineFile =>
      && e.evidenceJson in files
      && Strip(files[e.evidenceJson].maintenanceBaselineJson) != Strip(e.maintenanceBaselineJson)
  }

  lemma MatchExactly(files: Files, e: Args)
    ensures StageEvidenceMatches(files, e) <==> forall x: MatchFlaw :: !MatchFlawed(files, e, x)
  {
    hide NormalizeCommit;
    hide Lower;
    hide Strip;
    hide ReportFlawedFor;
    StageEvidenceExactly(files, e.evidenceJson, e.commit);
    if StageEvidenceMatches(files, e) {
      forall x: MatchFlaw ensures !MatchFlawed(files, e, x) {}
    }
    if forall x: MatchFlaw :: !MatchFlawed(files, e, x) {
      forall y: ReportFlaw ensures !ReportFlawedFor(files, e.evidenceJson, e.commit, y) {
        assert !MatchFlawed(files, e, BadReport(y));
      }
      assert !MatchFlawed(files, e, OtherMainRef) && !MatchFlawed(files, e, OtherMainSha);
      assert !MatchFlawed(files, e, OtherBaseline) && !MatchFlawed(files, e, OtherBaselineFile);
    }
  }

  lemma RecheckReadsSo(files: Files, e: Args)
    ensures RecheckShadow(e) == ReadShadow(e) && RecheckBaseline(files, e) == BaselineOf(files, AsRead(e))
  {
    hide NormalizeCommit;
    hide ValidatedBaseline;
  }

  lemma ShadowMatters(files: Files, e: Args, k: Check, commit: string, shadow: string, excused: bool)
    requires k != ReleaseGateCheck
    ensures Holds(files, e, k, commit, shadow, excused) == Holds(files, e, k, commit, "", false)
  {
    hide RouterAudit;
    hide ExternalBackup;
    hide ConfigAuthorityApply;
    hide ProdPreflight;
    hide HealthPreflight;
    hide ServingProbe;
    hide Smoke;
    hide SmokeRouteMatrix;
    hide ProtocolCanary;
    hide ProviderAudit;
    hide Passing;
    hide FallbackExitOk;
  }

  lemma RecheckFailsExactly(files: Files, e: Args, k: Check)
    requires k != MapFallbackExit && k != RouterAuditCheck && Demands(e, k)
    ensures !RecheckHolds(files, e, k) <==> StageFlaw(files, e, k)
  {
    hide Holds;
    hide HasFlaw;
    hide NormalizeCommit;
    hide RecheckShadow;
    hide ReadShadow;
    hide RecheckBaseline;
    hide AsRead;
    hide BaselineOf;
    RecheckReadsSo(files, e);
    var baseline := BaselineOf(files, AsRead(e));
    var commit := NormalizeCommit(e.commit);
    HoldsExactly(files, e, k, commit, ReadShadow(e), baseline != Some(""));
    if k != ReleaseGateCheck { ShadowMatters(files, e, k, commit, ReadShadow(e), baseline != Some("")); }
  }

  lemma RecheckNamesExactly(files: Files, e: Args, x: EntryFailure)
    ensures x in EvidenceFailures(files, e) <==> WrongWith(files, e, x)
  {
    hide RecheckHolds;
    hide StageFlaw;
    hide StageFailures;
    hide RecheckChecks;
    hide CommonFailures;
    hide Demands;
    hide WrongWith;
    StageFailureMembers(files, e, RecheckChecks(e), x);
    CommonMembers(files, e, x);
    if x.EvidenceInvalid? && x.check != RouterAuditCheck {
      CheckNamed(files, e, x.check);
    } else if x.EvidenceInvalid? {
      RecheckListed(e, x.check);
    }
  }

  lemma RecheckListed(e: Args, k: Check)
    ensures (k, true) in RecheckChecks(e) <==> Demands(e, k) && k != MapFallbackExit && k != RouterAuditCheck
  {
    hide Demands;
    StageDemands(e, k);
  }

  lemma CheckNamed(files: Files, e: Args, k: Check)
    requires k != RouterAuditCheck
    ensures WrongWith(files, e, EvidenceInvalid(k)) <==> (k, true) in RecheckChecks(e) && !RecheckHolds(files, e, k)
  {
    hide RecheckHolds;
    hide StageFlaw;
    hide RecheckChecks;
    hide Demands;
    RecheckListed(e, k);
    FlawIsDemanded(files, e, k);
    if Demands(e, k) && k != MapFallbackExit { RecheckFailsExactly(files, e, k); }
  }

  lemma CommonMembers(files: Files, e: Args, x: EntryFailure)
    ensures x in CommonFailures(files, e) <==>
              (x.EvidenceInvalid? ==> x.check == RouterAuditCheck) && WrongWith(files, e, x)
  {
    hide StageFlaw;
    hide IsFullSha;
    hide Strip;
    hide Lower;
    hide StageEvidenceMatches;
    hide MatchFlawed;
    hide RouterAudit;
    hide RouterFlawed;
    MatchExactly(files, e);
    RouterExactly(files, e.routerAuditJson);
    hide FailIf;
    OneOfFive(
      Strip(e.mainRef) == "", !IsFullSha(Lower(Strip(e.mainSha))), e.outOfOrder && Strip(e.outOfOrderReason) == "",
      !StageEvidenceMatches(files, e), e.routerAuditJson != "" && !RouterAudit(files, e.routerAuditJson), x);
  }

  lemma OneOfFive(p: bool, q: bool, r: bool, s: bool, t: bool, x: EntryFailure)
    ensures x in FailIf(p, MissingMainRef) + FailIf(q, InvalidMainSha) + FailIf(r, MissingOverrideReason)
                 + FailIf(s, StageEvidenceMismatch) + FailIf(t, EvidenceInvalid(RouterAuditCheck)) <==>
      || (p && x == MissingMainRef) || (q && x == InvalidMainSha) || (r && x == MissingOverrideReason)
      || (s && x == StageEvidenceMismatch) || (t && x == EvidenceInvalid(RouterAuditCheck))
  {
    var a, b, c := FailIf(p, MissingMainRef), FailIf(q, InvalidMainSha), FailIf(r, MissingOverrideReason);
    var d, e := FailIf(s, StageEvidenceMismatch), FailIf(t, EvidenceInvalid(RouterAuditCheck));
    assert (x in a <==> p && x == MissingMainRef) && (x in b <==> q && x == InvalidMainSha);
    assert (x in c <==> r && x == MissingOverrideReason) && (x in d <==> s && x == StageEvidenceMismatch);
    assert x in e <==> t && x == EvidenceInvalid(RouterAuditCheck);
    hide FailIf;
  }

  lemma FlawIsDemanded(files: Files, e: Args, k: Check)
    ensures StageFlaw(files, e, k) ==> Demands(e, k) && k != MapFallbackExit && k != RouterAuditCheck
  {
    hide HasFlaw;
    hide BaselineOf;
    hide AsRead;
  }
}
