/** Evidence files and the checks the rollout ledger runs over them.
    A file the ledger can load as a JSON object is a `Payload`; a path that is
    empty, missing, or not a JSON object is simply absent from `Files`. Every
    check below is true exactly when the script's check returns instead of
    raising. Text fields read as "" when absent. */
module Evidence {
  import opened Text

  datatype Stage =
    | ShadowStart
    | RollbackRehearsal
    | ConfigAuthorityStage
    | CanaryIntentText
    | CanaryChat
    | CanaryStreaming
    | CanaryVision
    | CanaryImage
    | CanaryAsr
    | CanaryVideoAsr
    | HttpFull
    | RollbackInproc
    | OtherStage(name: string)

  datatype Status = Success | Failed | Rollback | OtherStatus(name: string)

  datatype RouteSelfTest = RouteSelfTest(
    ok: bool,
    protocols: set<string>,
    selfTestStatus: string,
    mode: string,
    upstreamCalled: Option<bool>,
    total: Option<int>,
    passed: Option<int>)

  datatype PreflightCheck = PreflightCheck(name: string, ok: bool, detail: Option<RouteSelfTest>)

  datatype CanaryCase = CanaryCase(protocol: string, ok: bool)

  datatype SmokeRow = SmokeRow(name: string, status: string, detail: string)

  datatype ShadowCheck = ShadowCheck(
    name: string,
    releaseCommit: string,
    critical: int,
    httpFail: int,
    ok: bool)

  datatype Thresholds = Thresholds(skipGlobalCells: bool, minTotal: Option<int>, minPerApp: Option<int>)

  datatype ConfigReport = ConfigReport(
    required: bool,
    ok: bool,
    status: string,
    mapFallbackObjectsRemaining: Option<int>,
    activeReady: Option<bool>,
    activeMissingPool: Option<int>,
    activeWithoutUsable: Option<int>,
    readinessPercent: Option<int>,
    failures: seq<string>)

  datatype RuntimeReport = RuntimeReport(
    required: bool,
    ok: bool,
    readyForHttpFull: bool,
    remaining: seq<string>,
    allowedPending: seq<string>,
    selfFinalizing: bool,
    counters: Option<Counters>)

  /** The gate counts of a runtime report. */
  datatype Counters = Counters(passed: int, blocked: int, waiting: int, retained: int)

  datatype Payload = Payload(
    verdict: string,
    commit: string,
    mode: string,
    // stage report
    stage: Stage,
    status: Status,
    releaseMainRef: string,
    releaseMainSha: string,
    shadowEvidenceCommit: string,
    maintenanceBaselineCommit: string,
    maintenanceBaselineJson: string,
    mapFallbackDisabled: bool,
    clean: bool,                        // no entry in its `failures`
    // probes, smoke and canaries
    expectedCommit: string,
    actualCommit: string,
    healthCommit: string,
    sampleCommits: seq<string>,
    routeSelfTest: Option<RouteSelfTest>,
    preflightChecks: seq<PreflightCheck>,
    authBoundary: seq<bool>,
    rows: seq<SmokeRow>,
    cases: seq<CanaryCase>,
    externalBlockers: seq<string>,
    // config authority, backup, static audit
    executed: bool,
    after: ConfigReport,
    backupDir: string,
    dryRun: bool,
    archiveCount: int,
    sha256Sums: string,
    scope: string,
    targetComplete: Option<bool>,
    runtimeEvidenceComplete: Option<bool>,
    progressPercent: Option<int>,
    remainingRuntimeGates: seq<string>,
    // release gate
    shadowReleaseCommit: string,
    shadowChecks: seq<ShadowCheck>,
    thresholds: Thresholds,
    config: ConfigReport,
    runtime: RuntimeReport)

  const NO_CONFIG := ConfigReport(false, false, "", None, None, None, None, None, [])
  const NO_RUNTIME := RuntimeReport(false, false, false, [], [], false, None)
  const EMPTY_PAYLOAD := Payload(
    "", "", "", OtherStage(""), OtherStatus(""), "", "", "", "", "", false, true,
    "", "", "", [], None, [], [], [], [], [],
    false, NO_CONFIG, "", false, 0, "", "", None, None, None, [],
    "", [], Thresholds(false, None, None), NO_CONFIG, NO_RUNTIME)

  type Files = map<string, Payload>

  const PROTOCOLS: set<string> := {"gw-native", "openai-compatible", "claude-compatible", "gemini-compatible"}
  const PROVIDER_PREFIXES := ["invoke[chat]", "send-compat[chat]", "stream[chat]", "client-stream[chat]", "canary("]
  const ROUTE_PREFIXES := ["route-auto", "route-pool", "route-pinned"]
  const PENDING_LEDGER := ["full_http_rollout_ledger"]

  function IntOr0(v: Option<int>): int {
    if v.Some? then v.value else 0
  }

  /** `_require_pass_json`. */
  predicate Passing(files: Files, path: string) {
    path != "" && path in files && Lower(files[path].verdict) == "pass"
  }

  predicate StageEvidenceForCommit(files: Files, path: string, commit: string) {
    && Passing(files, path)
    && NormalizeCommit(commit) != ""
    && NormalizeCommit(files[path].commit) == NormalizeCommit(commit)
  }

  predicate RouteSelfTestValid(r: RouteSelfTest) {
    && Lower(Strip(r.selfTestStatus)) == "ok"
    && Lower(Strip(r.mode)) == "dry-run"
    && r.upstreamCalled == Some(false)
    && r.total.Some? && r.total == r.passed
    && PROTOCOLS <= (set p | p in r.protocols :: Strip(p))
  }

  predicate ServingProbe(files: Files, path: string, commit: string) {
    && Passing(files, path)
    && var p, expected := files[path], NormalizeCommit(commit);
    && expected != ""
    && NormalizeCommit(p.expectedCommit) == expected
    && (forall c | c in p.sampleCommits :: NormalizeCommit(c) in {"", expected})
    && p.routeSelfTest.Some? && p.routeSelfTest.value.ok
    && RouteSelfTestValid(p.routeSelfTest.value)
  }

  predicate RowsPass(rows: seq<SmokeRow>, prefix: string) {
    exists r | r in rows :: prefix <= r.name && Lower(r.status) == "pass"
  }

  predicate Smoke(files: Files, path: string, commit: string) {
    && Passing(files, path)
    && var p, expected := files[path], NormalizeCommit(commit);
    && expected != ""
    && NormalizeCommit(p.expectedCommit) == expected
    && NormalizeCommit(p.healthCommit) == expected
    && forall prefix | prefix in PROVIDER_PREFIXES :: RowsPass(p.rows, prefix)
  }

  predicate SmokeRouteMatrix(files: Files, path: string) {
    && Passing(files, path)
    && forall prefix | prefix in ROUTE_PREFIXES ::
      && RowsPass(files[path].rows, prefix)
      && forall r | r in files[path].rows :: prefix <= r.name ==> !Contains(Lower(r.detail), "skipped:")
  }

  predicate ProtocolCanary(files: Files, path: string, commit: string) {
    && Passing(files, path)
    && var p, expected := files[path], NormalizeCommit(commit);
    && expected != ""
    && Lower(Strip(p.mode)) == "execute"
    && NormalizeCommit(p.healthCommit) in {"", expected}
    && PROTOCOLS <= (set c | c in p.cases && c.ok :: Strip(c.protocol))
  }

  predicate PreflightRouteOk(checks: seq<PreflightCheck>) {
    exists i | 0 <= i < |checks| ::
      && Strip(checks[i].name) == "gateway_route_self_test"
      && (forall j | i < j < |checks| :: Strip(checks[j].name) != "gateway_route_self_test")
      && checks[i].ok && checks[i].detail.Some? && RouteSelfTestValid(checks[i].detail.value)
  }

  predicate ProdPreflight(files: Files, path: string, commit: string, stage: Stage) {
    && Passing(files, path)
    && var p, expected := files[path], NormalizeCommit(commit);
    && expected != ""
    && NormalizeCommit(p.expectedCommit) == expected
    && Lower(Strip(p.mode)) == "start"
    && (stage != ShadowStart ==> PreflightRouteOk(p.preflightChecks))
  }

  predicate HealthPreflight(files: Files, path: string, commit: string) {
    && Passing(files, path)
    && var p, expected := files[path], NormalizeCommit(commit);
    && expected != ""
    && NormalizeCommit(p.expectedCommit) in {"", expected}
    && NormalizeCommit(if p.actualCommit != "" then p.actualCommit else p.healthCommit) == expected
    && forall ok | ok in p.authBoundary :: ok
  }

  predicate ProviderAudit(files: Files, path: string) {
    Passing(files, path) && files[path].externalBlockers == []
  }

  predicate ConfigAuthorityApply(files: Files, path: string) {
    && Passing(files, path)
    && files[path].executed
    && var after := files[path].after;
    && Lower(after.status) == "ready"
    && IntOr0(after.mapFallbackObjectsRemaining) == 0
    && after.activeReady == Some(true)
    && IntOr0(after.activeMissingPool) == 0
    && IntOr0(after.activeWithoutUsable) == 0
  }

  predicate ExternalBackup(files: Files, path: string) {
    && Passing(files, path)
    && Strip(files[path].backupDir) != ""
    && !files[path].dryRun
    && files[path].archiveCount > 0
    && Strip(files[path].sha256Sums) != ""
  }

  predicate RouterAudit(files: Files, path: string) {
    && Passing(files, path)
    && var p := files[path];
    && Strip(p.scope) == "static-code-and-document-evidence"
    && p.targetComplete == Some(false)
    && p.runtimeEvidenceComplete == Some(false)
    && (p.progressPercent.Some? ==> p.progressPercent.value < 100)
    && p.remainingRuntimeGates != []
  }

  /** Which skipped parts of a release gate an audited baseline excuses. */
  datatype Allowances = Allowances(runtime: bool, config: bool, shadow: bool)

  predicate ShadowSkipShape(p: Payload) {
    p.shadowChecks == [] && p.thresholds.skipGlobalCells
    && p.thresholds.minTotal == Some(0) && p.thresholds.minPerApp == Some(0)
  }

  predicate ShadowPartOk(p: Payload, expected: string, allowSkip: bool) {
    && (p.shadowChecks == [] ==> allowSkip && ShadowSkipShape(p))
    && forall c | c in p.shadowChecks :: NormalizeCommit(c.releaseCommit) == expected
  }

  predicate ConfigSkipShape(c: ConfigReport) {
    && !c.required && !c.ok
    && Lower(c.status) == "not-required"
    && c.mapFallbackObjectsRemaining.None? && c.activeReady.None? && c.activeWithoutUsable.None?
    && c.activeMissingPool.None? && c.readinessPercent.None?
    && c.failures == []
  }

  predicate ConfigPartOk(c: ConfigReport, allowSkip: bool) {
    || (allowSkip && ConfigSkipShape(c))
    || (&& c.required && c.ok
        && Lower(c.status) == "ready"
        && IntOr0(c.mapFallbackObjectsRemaining) == 0
        && c.activeReady == Some(true)
        && IntOr0(c.activeWithoutUsable) == 0)
  }

  predicate RuntimeSkipShape(r: RuntimeReport) {
    !r.required && !r.ok && !r.readyForHttpFull && r.remaining == [] && r.allowedPending == [] && !r.selfFinalizing
  }

  predicate PendingLedgerOnly(r: RuntimeReport) {
    r.selfFinalizing && r.remaining == PENDING_LEDGER && r.allowedPending == PENDING_LEDGER
  }

  predicate RuntimePartOk(r: RuntimeReport, allowSkip: bool) {
    || (allowSkip && RuntimeSkipShape(r))
    || (r.required && r.ok && (r.readyForHttpFull || PendingLedgerOnly(r)))
  }

  /** What `_require_release_gate_for_commit` demands of a loaded report. */
  predicate GateAccepts(p: Payload, commit: string, requireConfig: bool, allow: Allowances) {
    && Lower(p.verdict) == "pass"
    && var expected := NormalizeCommit(commit);
    && expected != ""
    && NormalizeCommit(p.shadowReleaseCommit) == expected
    && ShadowPartOk(p, expected, allow.shadow)
    && (requireConfig ==> ConfigPartOk(p.config, allow.config) && RuntimePartOk(p.runtime, allow.runtime))
  }

  predicate ReleaseGate(files: Files, path: string, commit: string, requireConfig: bool, allow: Allowances) {
    Passing(files, path) && GateAccepts(files[path], commit, requireConfig, allow)
  }

  /** `_validated_maintenance_baseline_commit`: None when it raises, otherwise
      the normalised baseline commit ("" when no baseline is claimed). */
  function ValidatedBaseline(
    files: Files, baselineCommit: string, baselineJson: string,
    shadowEvidenceCommit: string, stage: Stage, commit: string): Option<string>
  {
    var base := NormalizeCommit(baselineCommit);
    if base == "" then (if baselineJson != "" then None else Some(""))
    else if !IsFullSha(base) || stage != HttpFull || base == NormalizeCommit(commit) then None
    else if !Passing(files, baselineJson) then None
    else
      var p := files[baselineJson];
      var audited := NormalizeCommit(p.commit);
      var auditedShadow := NormalizeCommit(
        if p.shadowEvidenceCommit != "" then p.shadowEvidenceCommit else audited);
      var expectedShadow := NormalizeCommit(shadowEvidenceCommit);
      if audited != base || expectedShadow == "" || auditedShadow != expectedShadow then None
      else Some(base)
  }
}
