/** The rollout ledger: stages, entries, and the specification of its gates. */
module Ledger {
  import opened Text
  import opened Evidence

  const STAGES: seq<Stage> := [
    ShadowStart, ConfigAuthorityStage, CanaryIntentText, CanaryChat, CanaryStreaming,
    CanaryVision, CanaryImage, CanaryAsr, CanaryVideoAsr, HttpFull]

  const ROLLOUT_SEQUENCE: seq<Stage> := [
    ShadowStart, RollbackRehearsal, ConfigAuthorityStage, CanaryIntentText, CanaryChat, CanaryStreaming,
    CanaryVision, CanaryImage, CanaryAsr, CanaryVideoAsr, HttpFull]

  predicate RequiresRehearsal(s: Stage) {
    s != ShadowStart && s != RollbackRehearsal
  }

  /** `STAGES.index`. */
  function Position(s: Stage): (i: nat)
    requires s in STAGES
    ensures i < |STAGES| && STAGES[i] == s
  {
    match s
    case ShadowStart => 0
    case ConfigAuthorityStage => 1
    case CanaryIntentText => 2
    case CanaryChat => 3
    case CanaryStreaming => 4
    case CanaryVision => 5
    case CanaryImage => 6
    case CanaryAsr => 7
    case CanaryVideoAsr => 8
    case HttpFull => 9
  }

  /** `ROLLOUT_SEQUENCE.index`. */
  function SequencePosition(s: Stage): (i: nat)
    requires s in ROLLOUT_SEQUENCE
    ensures i < |ROLLOUT_SEQUENCE| && ROLLOUT_SEQUENCE[i] == s
  {
    if s == ShadowStart then 0 else if s == RollbackRehearsal then 1 else Position(s) + 1
  }

  /** Seconds since `datetime.min`, or None when the text does not parse. */
  type Time = Option<nat>

  /** `_latest_success` sorts an unreadable time as `datetime.min`. */
  function SortKey(t: Time): nat {
    if t.Some? then t.value else 0
  }

  // ------------------------------------------------------------- entries

  /** The command line of `append` and of `stage-report`. */
  datatype Args = Args(
    stage: Stage,
    status: Status,
    commit: string,
    mode: string,
    mapFallbackDisabled: bool,
    evidenceJson: string,
    releaseGateJson: string,
    releaseGateRequired: bool,
    shadowEvidenceCommit: string,
    maintenanceBaselineCommit: string,
    maintenanceBaselineJson: string,
    prodPreflightJson: string,
    prodHealthJson: string,
    prodHealthRequired: bool,
    upstreamJson: string,
    upstreamRequired: bool,
    providerAuditJson: string,
    providerAuditRequired: bool,
    routerAuditJson: string,
    protocolCanaryJson: string,
    protocolCanaryRequired: bool,
    videoCanaryJson: string,
    videoCanaryRequired: bool,
    asrCanaryJson: string,
    asrCanaryRequired: bool,
    configAuthorityJson: string,
    externalBackupJson: string,
    servingProbeJson: string,
    smokeJson: string,
    smokeRequired: bool,
    smokeMatrixRequired: bool,
    mainRef: string,
    mainSha: string,
    outOfOrder: bool,
    outOfOrderReason: string)

  /** One line of the ledger: the time it was written and the arguments as
      `append` stored them. */
  datatype Entry = Entry(recordedAt: Time, rec: Args)

  predicate SuccessOf(e: Entry, commit: string, stage: Stage) {
    Lower(e.rec.commit) == Lower(commit) && e.rec.status == Success && e.rec.stage == stage
  }

  predicate Successful(entries: seq<Entry>, commit: string, stage: Stage) {
    exists e | e in entries :: SuccessOf(e, commit, stage)
  }

  /** Position of the first success with the greatest time: `max` over the
      filtered list keeps the earliest of equals. */
  function LatestIndex(entries: seq<Entry>, commit: string, stage: Stage): (r: Option<nat>)
    ensures r.None? <==> !Successful(entries, commit, stage)
    ensures r.Some? ==> r.value < |entries| && SuccessOf(entries[r.value], commit, stage)
    ensures r.Some? ==> forall j | 0 <= j < |entries| && SuccessOf(entries[j], commit, stage) ::
              SortKey(entries[j].recordedAt) <= SortKey(entries[r.value].recordedAt)
    ensures r.Some? ==> forall j | 0 <= j < r.value && SuccessOf(entries[j], commit, stage) ::
              SortKey(entries[j].recordedAt) < SortKey(entries[r.value].recordedAt)
  {
    if entries == [] then None
    else
      var n := |entries| - 1;
      var prior := LatestIndex(entries[..n], commit, stage);
      assert entries == entries[..n] + [entries[n]];
      if !SuccessOf(entries[n], commit, stage) then prior
      else if prior.None? || SortKey(entries[prior.value].recordedAt) < SortKey(entries[n].recordedAt) then Some(n)
      else prior
  }

  function LatestSuccess(entries: seq<Entry>, commit: string, stage: Stage): (r: Option<Entry>)
    ensures r.None? <==> !Successful(entries, commit, stage)
    ensures r.Some? ==> r.value in entries && SuccessOf(r.value, commit, stage)
    ensures r.Some? ==> forall e | e in entries && SuccessOf(e, commit, stage) ::
              SortKey(e.recordedAt) <= SortKey(r.value.recordedAt)
  {
    var i := LatestIndex(entries, commit, stage);
    if i.None? then None else Some(entries[i.value])
  }

  /** A readable time past the earliest date always beats an unreadable one. */
  lemma ReadableBeatsUnreadable(entries: seq<Entry>, commit: string, stage: Stage, e: Entry)
    requires e in entries && SuccessOf(e, commit, stage) && e.recordedAt.Some? && e.recordedAt.value > 0
    ensures
      var latest := LatestSuccess(entries, commit, stage);
      latest.Some? && latest.value.recordedAt.Some? && latest.value.recordedAt.value >= e.recordedAt.value
  {
    hide SuccessOf;
  }

  function LatestTime(entries: seq<Entry>, commit: string, stage: Stage): Time {
    var e := LatestSuccess(entries, commit, stage);
    if e.Some? then e.value.recordedAt else None
  }

  predicate LaterNegative(e: Entry, commit: string, after: nat) {
    && Lower(e.rec.commit) == Lower(commit)
    && e.rec.status in {Failed, Rollback}
    && e.recordedAt.Some? && e.recordedAt.value > after
  }

  // ------------------------------------------------- evidence of one entry

  datatype Check =
    | MapFallbackExit | RouterAuditCheck | BackupCheck | ConfigApplyCheck
    | PreflightGate | HealthGate | ProbeCheck | SmokeCheck | ReleaseGateCheck | ProtocolCheck
    | UpstreamCheck | ProviderCheck | VideoCheck | AsrCheck

  /** One line of `_entry_evidence_failures`. */
  datatype EntryFailure =
    | MissingMainRef | InvalidMainSha | MissingOverrideReason | StageEvidenceMismatch
    | EvidenceInvalid(check: Check)

  function AllowAll(yes: bool): Allowances {
    Allowances(yes, yes, yes)
  }

  /** `_require_http_full_map_fallback_exit`. */
  predicate FallbackExitOk(a: Args) {
    a.stage == HttpFull && a.status == Success ==> a.mapFallbackDisabled
  }

  /** One evidence check as `append`, `stage-report` and the re-check of a
      stored entry all run it. `commit` is the release commit each of them
      passes, `shadow` the commit its release gate is read for, `maintenance`
      whether a validated baseline excuses skipped gate parts. */
  predicate Holds(files: Files, a: Args, k: Check, commit: string, shadow: string, maintenance: bool) {
    match k
    case RouterAuditCheck => RouterAudit(files, a.routerAuditJson)
    case BackupCheck => ExternalBackup(files, a.externalBackupJson)
    case ConfigApplyCheck => ConfigAuthorityApply(files, a.configAuthorityJson)
    case PreflightGate => ProdPreflight(files, a.prodPreflightJson, commit, a.stage)
    case HealthGate => HealthPreflight(files, a.prodHealthJson, commit)
    case ProbeCheck => ServingProbe(files, a.servingProbeJson, commit)
    case SmokeCheck =>
      Smoke(files, a.smokeJson, commit) && (a.smokeMatrixRequired ==> SmokeRouteMatrix(files, a.smokeJson))
    case ReleaseGateCheck =>
      ReleaseGate(files, a.releaseGateJson, shadow, a.stage == HttpFull, AllowAll(maintenance))
    case ProtocolCheck => ProtocolCanary(files, a.protocolCanaryJson, commit)
    case UpstreamCheck => Passing(files, a.upstreamJson)
    case ProviderCheck => ProviderAudit(files, a.providerAuditJson)
    case VideoCheck => Passing(files, a.videoCanaryJson)
    case AsrCheck => Passing(files, a.asrCanaryJson)
    case MapFallbackExit => FallbackExitOk(a)
  }

  /** The `...Required` switches of the command line. */
  datatype Switches = Switches(
    health: bool, smoke: bool, gate: bool, protocol: bool,
    upstream: bool, provider: bool, video: bool, asr: bool)

  function SwitchesOf(a: Args): Switches {
    Switches(a.prodHealthRequired, a.smokeRequired, a.releaseGateRequired, a.protocolCanaryRequired,
      a.upstreamRequired, a.providerAuditRequired, a.videoCanaryRequired, a.asrCanaryRequired)
  }

  /** The evidence a stage must bring besides its stage report and its static
      audit, with the switch that makes each piece mandatory. */
  function ChecksFor(stage: Stage, on: Switches): seq<(Check, bool)> {
    match stage
    case RollbackRehearsal => []
    case ConfigAuthorityStage => [(BackupCheck, true), (ConfigApplyCheck, true)]
    case _ =>
      [(PreflightGate, true), (HealthGate, on.health), (ProbeCheck, true), (SmokeCheck, on.smoke),
       (ReleaseGateCheck, on.gate), (ProtocolCheck, on.protocol), (UpstreamCheck, on.upstream),
       (ProviderCheck, on.provider), (VideoCheck, on.video), (AsrCheck, on.asr)]
  }

  function StageChecks(a: Args): seq<(Check, bool)> {
    ChecksFor(a.stage, SwitchesOf(a))
  }

  function ShadowCommitOf(a: Args): string {
    if a.shadowEvidenceCommit != "" then a.shadowEvidenceCommit else a.commit
  }

  function BaselineOf(files: Files, a: Args): Option<string> {
    ValidatedBaseline(files, a.maintenanceBaselineCommit, a.maintenanceBaselineJson,
      a.shadowEvidenceCommit, a.stage, a.commit)
  }

  predicate StageChecksHold(files: Files, a: Args, commit: string, shadow: string, maintenance: bool) {
    forall c | c in StageChecks(a) :: c.1 ==> Holds(files, a, c.0, commit, shadow, maintenance)
  }

  // ------------------------------------------------------------ the entry

  /** `_require_stage_evidence_matches_entry`. */
  predicate StageEvidenceMatches(files: Files, e: Args) {
    && StageEvidenceForCommit(files, e.evidenceJson, e.commit)
    && var p := files[e.evidenceJson];
    && Lower(Strip(e.mainRef)) == Lower(Strip(p.releaseMainRef))
    && Lower(Strip(e.mainSha)) == Lower(Strip(p.releaseMainSha))
    && NormalizeCommit(e.maintenanceBaselineCommit) == NormalizeCommit(p.maintenanceBaselineCommit)
    && Strip(e.maintenanceBaselineJson) == Strip(p.maintenanceBaselineJson)
  }

  /** The commit the re-check reads the release gate for. */
  function RecheckShadow(e: Args): string {
    var own := NormalizeCommit(e.shadowEvidenceCommit);
    if own != "" then own else NormalizeCommit(e.commit)
  }

  function RecheckBaseline(files: Files, e: Args): Option<string> {
    ValidatedBaseline(files, e.maintenanceBaselineCommit, e.maintenanceBaselineJson,
      RecheckShadow(e), e.stage, NormalizeCommit(e.commit))
  }

  predicate RecheckHolds(files: Files, e: Args, k: Check) {
    if k == ReleaseGateCheck then
      var base := RecheckBaseline(files, e);
      base.Some? && Holds(files, e, k, NormalizeCommit(e.commit), RecheckShadow(e), base.value != "")
    else
      Holds(files, e, k, NormalizeCommit(e.commit), "", false)
  }

  function FailIf<T>(bad: bool, k: T): (r: seq<T>)
    ensures r == [] <==> !bad
  {
    if bad then [k] else []
  }

  /** The order in which a stored entry is re-checked: the protocol canary
      comes before the release gate here. */
  function RecheckOrder(stage: Stage, on: Switches): seq<(Check, bool)> {
    match stage
    case RollbackRehearsal => []
    case ConfigAuthorityStage => [(BackupCheck, true), (ConfigApplyCheck, true)]
    case _ =>
      [(PreflightGate, true), (HealthGate, on.health), (ProbeCheck, true), (SmokeCheck, on.smoke),
       (ProtocolCheck, on.protocol), (ReleaseGateCheck, on.gate), (UpstreamCheck, on.upstream),
       (ProviderCheck, on.provider), (VideoCheck, on.video), (AsrCheck, on.asr)]
  }

  function RecheckChecks(e: Args): seq<(Check, bool)> {
    RecheckOrder(e.stage, SwitchesOf(e))
  }

  /** The stage-specific tail of `_entry_evidence_failures`. */
  function StageFailures(files: Files, e: Args, checks: seq<(Check, bool)>): (r: seq<EntryFailure>)
    ensures r == [] <==> forall c | c in checks :: c.1 ==> RecheckHolds(files, e, c.0)
  {
    if checks == [] then []
    else
      assert checks == [checks[0]] + checks[1..];
      FailIf(checks[0].1 && !RecheckHolds(files, e, checks[0].0), EvidenceInvalid(checks[0].0))
      + StageFailures(files, e, checks[1..])
  }

  /** What every stored entry must still show, whatever its stage. */
  predicate CommonClean(files: Files, e: Args) {
    && Strip(e.mainRef) != ""
    && IsFullSha(Lower(Strip(e.mainSha)))
    && (e.outOfOrder ==> Strip(e.outOfOrderReason) != "")
    && StageEvidenceMatches(files, e)
    && (e.routerAuditJson != "" ==> RouterAudit(files, e.routerAuditJson))
  }

  function CommonFailures(files: Files, e: Args): (r: seq<EntryFailure>)
    ensures r == [] <==> CommonClean(files, e)
  {
    FailIf(Strip(e.mainRef) == "", MissingMainRef)
    + FailIf(!IsFullSha(Lower(Strip(e.mainSha))), InvalidMainSha)
    + FailIf(e.outOfOrder && Strip(e.outOfOrderReason) == "", MissingOverrideReason)
    + FailIf(!StageEvidenceMatches(files, e), StageEvidenceMismatch)
    + FailIf(e.routerAuditJson != "" && !RouterAudit(files, e.routerAuditJson), EvidenceInvalid(RouterAuditCheck))
  }

  /** `_entry_evidence_failures`: which checks a stored entry fails now. */
  function EvidenceFailures(files: Files, e: Args): (r: seq<EntryFailure>)
    ensures r == [] <==> EntryClean(files, e)
  {
    CommonFailures(files, e) + StageFailures(files, e, RecheckChecks(e))
  }

  /** A stored entry whose evidence still re-checks without a failure. */
  predicate EntryClean(files: Files, e: Args) {
    && CommonClean(files, e)
    && forall c | c in RecheckChecks(e) :: c.1 ==> RecheckHolds(files, e, c.0)
  }

  // --------------------------------------------------------------- append

  /** The success-only part of `append`. */
  predicate SuccessEvidence(files: Files, a: Args, baseline: string) {
    && FallbackExitOk(a)
    && StageEvidenceForCommit(files, a.evidenceJson, a.commit)
    && RouterAudit(files, a.routerAuditJson)
    && StageChecksHold(files, a, a.commit, ShadowCommitOf(a), baseline != "")
  }

  predicate AppendAccepts(files: Files, a: Args) {
    && BaselineOf(files, a).Some?
    && (a.status == Success ==> SuccessEvidence(files, a, BaselineOf(files, a).value))
  }

  /** The record `append` writes for accepted arguments. */
  function StoredArgs(a: Args, baseline: string): Args {
    var own := NormalizeCommit(a.shadowEvidenceCommit);
    a.(commit := Lower(a.commit),
       shadowEvidenceCommit := if own != "" then own else Lower(a.commit),
       maintenanceBaselineCommit := baseline,
       mainSha := Lower(a.mainSha),
       outOfOrderReason := Strip(a.outOfOrderReason))
  }

  function LedgerAfterAppend(entries: seq<Entry>, files: Files, a: Args, now: nat): seq<Entry> {
    if AppendAccepts(files, a) then
      entries + [Entry(Some(now), StoredArgs(a, BaselineOf(files, a).value))]
    else entries
  }

  // --------------------------------------------------------- stage report

  function ReportChecks(a: Args): seq<(Check, bool)> {
    [(MapFallbackExit, true), (RouterAuditCheck, true)] + StageChecks(a)
  }

  function FailingChecks(files: Files, a: Args, maintenance: bool, checks: seq<(Check, bool)>): (r: seq<Check>)
    ensures r == [] <==>
      forall c | c in checks :: c.1 ==> Holds(files, a, c.0, a.commit, ShadowCommitOf(a), maintenance)
  {
    if checks == [] then []
    else
      var n := |checks| - 1;
      assert checks == checks[..n] + [checks[n]];
      FailingChecks(files, a, maintenance, checks[..n])
      + FailIf(checks[n].1 && !Holds(files, a, checks[n].0, a.commit, ShadowCommitOf(a), maintenance), checks[n].0)
  }

  /** The evidence file `stage-report` writes. */
  function ReportPayload(a: Args, baseline: string, failures: seq<Check>): Payload {
    var stored := StoredArgs(a, baseline);
    EMPTY_PAYLOAD.(
      verdict := if failures == [] then "pass" else "fail",
      stage := a.stage, status := a.status, mode := a.mode,
      commit := stored.commit,
      releaseMainRef := a.mainRef,
      releaseMainSha := stored.mainSha,
      shadowEvidenceCommit := stored.shadowEvidenceCommit,
      maintenanceBaselineCommit := baseline,
      maintenanceBaselineJson := a.maintenanceBaselineJson,
      mapFallbackDisabled := a.mapFallbackDisabled,
      clean := failures == [])
  }

  function StageReportFailures(files: Files, a: Args): seq<Check>
    requires BaselineOf(files, a).Some?
  {
    FailingChecks(files, a, BaselineOf(files, a).value != "", ReportChecks(a))
  }

  // ------------------------------------------------------------- validate

  datatype ValidateArgs = ValidateArgs(
    stage: Stage,
    commit: string,
    minObservation: Option<int>,        // seconds; None when not a number
    outOfOrder: bool,
    outOfOrderReason: string)

  function Max0(v: int): nat {
    if v < 0 then 0 else v
  }

  function ObservationStages(stages: seq<Stage>): seq<Stage> {
    if stages == [] then []
    else (if stages[0] != ConfigAuthorityStage then [stages[0]] else []) + ObservationStages(stages[1..])
  }

  function PriorStages(s: Stage): seq<Stage> {
    if s in STAGES then STAGES[..Position(s)] else []
  }

  predicate LatestClean(entries: seq<Entry>, files: Files, commit: string, stage: Stage) {
    var e := LatestSuccess(entries, commit, stage);
    e.Some? && EntryClean(files, e.value.rec)
  }

  /** An override looks at a stage's evidence only when a success exists. */
  predicate ExistingClean(entries: seq<Entry>, files: Files, commit: string, stage: Stage) {
    Successful(entries, commit, stage) ==> LatestClean(entries, files, commit, stage)
  }

  /** A readable success of `stage`, and `wait` seconds since the latest one. */
  predicate Waited(entries: seq<Entry>, commit: string, stage: Stage, wait: nat, now: nat) {
    && (exists e | e in entries :: SuccessOf(e, commit, stage) && e.recordedAt.Some?)
    && forall e | e in entries && SuccessOf(e, commit, stage) && e.recordedAt.Some? ::
         now - e.recordedAt.value >= wait
  }

  /** Exit code of `validate`. */
  function ValidateCode(entries: seq<Entry>, files: Files, v: ValidateArgs, now: nat): int {
    var prior := PriorStages(v.stage);
    var guarded := (if RequiresRehearsal(v.stage) then [RollbackRehearsal] else []) + prior;
    if v.stage == RollbackInproc then 0
    else if v.stage !in STAGES && v.stage != RollbackRehearsal then 2
    else if Lower(v.commit) == "" then 2
    else if v.outOfOrder && Strip(v.outOfOrderReason) == "" then 2
    else if RequiresRehearsal(v.stage) && !Successful(entries, v.commit, RollbackRehearsal) then 1
    else if v.outOfOrder then
      if forall s | s in guarded :: ExistingClean(entries, files, v.commit, s) then 0 else 1
    else if prior == [] then 0
    else if exists s | s in prior :: !Successful(entries, v.commit, s) then 1
    else if exists s | s in guarded :: !LatestClean(entries, files, v.commit, s) then 1
    else if v.minObservation.None? then 2
    else if v.minObservation.value <= 0 || v.stage == ConfigAuthorityStage || ObservationStages(prior) == [] then 0
    else
      var watched := ObservationStages(prior);
      if Waited(entries, v.commit, watched[|watched| - 1], v.minObservation.value, now) then 0 else 1
  }

  // ---------------------------------------------------------------- audit

  /** `_required_rollout_stages`; None for an unknown target. */
  function RequiredStages(target: Stage, requireTarget: bool): Option<seq<Stage>> {
    if target == RollbackInproc then Some([])
    else if target !in ROLLOUT_SEQUENCE then None
    else
      var end := SequencePosition(target);
      Some(ROLLOUT_SEQUENCE[..if requireTarget then end + 1 else end])
  }

  /** STAGES that are in `required`, in STAGES order, without config authority. */
  function WatchedStages(required: seq<Stage>): seq<Stage> {
    ObservationStages(Filter(STAGES, required))
  }

  function Filter(stages: seq<Stage>, allowed: seq<Stage>): seq<Stage> {
    if stages == [] then []
    else (if stages[0] in allowed then [stages[0]] else []) + Filter(stages[1..], allowed)
  }

  predicate RehearsalOrdered(entries: seq<Entry>, commit: string, required: seq<Stage>, stage: Stage) {
    var rehearsed := if RollbackRehearsal in required then LatestTime(entries, commit, RollbackRehearsal) else None;
    var at := LatestTime(entries, commit, stage);
    rehearsed.Some? && (at.Some? ==> rehearsed.value <= at.value)
  }

  predicate WindowKept(entries: seq<Entry>, commit: string, before: Stage, after: Stage, wait: nat) {
    var b, a := LatestTime(entries, commit, before), LatestTime(entries, commit, after);
    b.Some? && a.Some? ==> a.value - b.value >= wait
  }

  predicate NotStale(entries: seq<Entry>, commit: string, target: Stage) {
    var at := LatestTime(entries, commit, target);
    at.Some? ==> forall e | e in entries :: !LaterNegative(e, commit, at.value)
  }

  /** What a passing `audit` says about a ledger. */
  predicate AuditPasses(
    entries: seq<Entry>, files: Files, commit: string, target: Stage, requireTarget: bool, wait: nat)
    requires RequiredStages(target, requireTarget).Some?
  {
    var required := RequiredStages(target, requireTarget).value;
    var watched := WatchedStages(required);
    && (forall s | s in required :: LatestClean(entries, files, commit, s))
    && (forall s | s in required && RequiresRehearsal(s) :: RehearsalOrdered(entries, commit, required, s))
    && (requireTarget && target != RollbackInproc ==> NotStale(entries, commit, target))
    && forall i | 0 <= i < |watched| - 1 :: WindowKept(entries, commit, watched[i], watched[i + 1], wait)
  }
}
