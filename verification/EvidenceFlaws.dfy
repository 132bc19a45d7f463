/** What can be wrong with a piece of evidence, flaw by flaw, and that each
    evidence check of the ledger fails exactly on evidence with a flaw. */
module EvidenceFlaws {
  import opened Text
  import opened Evidence
  import opened Ledger

  /** The file cannot be loaded, or does not say it passed. */
  predicate Unusable(files: Files, path: string) {
    path == "" || path !in files || Lower(files[path].verdict) != "pass"
  }

  lemma UsableIsPassing(files: Files, path: string)
    ensures Passing(files, path) <==> !Unusable(files, path)
  {
  }

  // ----------------------------------------------------------- route self test

  datatype TestFlaw = TestNotOk | TestNotDry | TestCalledUpstream | TestUncounted | TestLacks(protocol: string)

  predicate TestFlawed(r: RouteSelfTest, x: TestFlaw) {
    match x
    case TestNotOk => Lower(Strip(r.selfTestStatus)) != "ok"
    case TestNotDry => Lower(Strip(r.mode)) != "dry-run"
    case TestCalledUpstream => r.upstreamCalled != Some(false)
    case TestUncounted => r.total == None || r.passed == None || r.total != r.passed
    case TestLacks(p) =>
      && (p == "gw-native" || p == "openai-compatible" || p == "claude-compatible" || p == "gemini-compatible")
      && forall q | q in r.protocols :: Strip(q) != p
  }

  lemma TestExactly(r: RouteSelfTest)
    ensures RouteSelfTestValid(r) <==> forall x: TestFlaw :: !TestFlawed(r, x)
  {
    hide Strip;
    hide Lower;
    var named := set p | p in r.protocols :: Strip(p);
    if forall x: TestFlaw :: !TestFlawed(r, x) {
      assert !TestFlawed(r, TestNotOk) && !TestFlawed(r, TestNotDry);
      assert !TestFlawed(r, TestCalledUpstream) && !TestFlawed(r, TestUncounted);
      forall p | p in PROTOCOLS ensures p in named { assert !TestFlawed(r, TestLacks(p)); }
    } else {
      var x: TestFlaw :| TestFlawed(r, x);
      if x.TestLacks? { assert x.protocol in PROTOCOLS && x.protocol !in named; }
    }
  }

  // -------------------------------------------------------------- serving probe

  datatype ProbeFlaw =
    | ProbeUnusable | ProbeNoCommit | ProbeExpectsOther | ProbeForeignSample(i: nat)
    | ProbeUntested | ProbeTest(test: TestFlaw)

  predicate ProbeFlawed(files: Files, path: string, commit: string, x: ProbeFlaw) {
    match x
    case ProbeUnusable => Unusable(files, path)
    case ProbeNoCommit => NormalizeCommit(commit) == ""
    case ProbeExpectsOther => path in files && NormalizeCommit(files[path].expectedCommit) != NormalizeCommit(commit)
    case ProbeForeignSample(i) =>
      && path in files && i < |files[path].sampleCommits|
      && NormalizeCommit(files[path].sampleCommits[i]) != ""
      && NormalizeCommit(files[path].sampleCommits[i]) != NormalizeCommit(commit)
    case ProbeUntested => path in files && (files[path].routeSelfTest == None || !files[path].routeSelfTest.value.ok)
    case ProbeTest(t) =>
      path in files && files[path].routeSelfTest.Some? && TestFlawed(files[path].routeSelfTest.value, t)
  }

  lemma ProbeExactly(files: Files, path: string, commit: string)
    ensures ServingProbe(files, path, commit) <==> forall x: ProbeFlaw :: !ProbeFlawed(files, path, commit, x)
  {
    hide NormalizeCommit;
    hide TestFlawed;
    hide RouteSelfTestValid;
    hide Lower;
    if path in files && files[path].routeSelfTest.Some? { TestExactly(files[path].routeSelfTest.value); }
    if forall x: ProbeFlaw :: !ProbeFlawed(files, path, commit, x) {
      assert !ProbeFlawed(files, path, commit, ProbeUnusable) && !ProbeFlawed(files, path, commit, ProbeNoCommit);
      assert !ProbeFlawed(files, path, commit, ProbeExpectsOther) && !ProbeFlawed(files, path, commit, ProbeUntested);
      forall c | c in files[path].sampleCommits ensures NormalizeCommit(c) in {"", NormalizeCommit(commit)} {
        var i :| 0 <= i < |files[path].sampleCommits| && files[path].sampleCommits[i] == c;
        assert !ProbeFlawed(files, path, commit, ProbeForeignSample(i));
      }
      forall t: TestFlaw ensures !TestFlawed(files[path].routeSelfTest.value, t) {
        assert !ProbeFlawed(files, path, commit, ProbeTest(t));
      }
    }
  }

  // ---------------------------------------------------------------------- smoke

  datatype SmokeFlaw =
    | SmokeUnusable | SmokeNoCommit | SmokeExpectsOther | SmokeRanOn
    | NoPassingRow(prefix: string) | NoPassingRoute(prefix: string) | SkippedRoute(prefix: string, i: nat)

  predicate ProviderRow(prefix: string) {
    || prefix == "invoke[chat]" || prefix == "send-compat[chat]" || prefix == "stream[chat]"
    || prefix == "client-stream[chat]" || prefix == "canary("
  }

  predicate RouteRow(prefix: string) {
    prefix == "route-auto" || prefix == "route-pool" || prefix == "route-pinned"
  }

  predicate NonePasses(rows: seq<SmokeRow>, prefix: string) {
    forall i | 0 <= i < |rows| :: prefix <= rows[i].name ==> Lower(rows[i].status) != "pass"
  }

  predicate SmokeFlawed(files: Files, path: string, commit: string, matrix: bool, x: SmokeFlaw) {
    match x
    case SmokeUnusable => Unusable(files, path)
    case SmokeNoCommit => NormalizeCommit(commit) == ""
    case SmokeExpectsOther => path in files && NormalizeCommit(files[path].expectedCommit) != NormalizeCommit(commit)
    case SmokeRanOn => path in files && NormalizeCommit(files[path].healthCommit) != NormalizeCommit(commit)
    case NoPassingRow(prefix) => path in files && ProviderRow(prefix) && NonePasses(files[path].rows, prefix)
    case NoPassingRoute(prefix) => matrix && path in files && RouteRow(prefix) && NonePasses(files[path].rows, prefix)
    case SkippedRoute(prefix, i) =>
      && matrix && path in files && RouteRow(prefix) && i < |files[path].rows|
      && prefix <= files[path].rows[i].name && Mentions(Lower(files[path].rows[i].detail), "skipped:")
  }

  lemma RowsExactly(rows: seq<SmokeRow>, prefix: string)
    ensures RowsPass(rows, prefix) <==> !NonePasses(rows, prefix)
  {
    hide Lower;
    if RowsPass(rows, prefix) {
      var r :| r in rows && prefix <= r.name && Lower(r.status) == "pass";
      var i :| 0 <= i < |rows| && rows[i] == r;
    }
  }

  lemma ProviderPrefixes(prefix: string)
    ensures prefix in PROVIDER_PREFIXES <==> ProviderRow(prefix)
    ensures prefix in ROUTE_PREFIXES <==> RouteRow(prefix)
  {
    var p, r := PROVIDER_PREFIXES, ROUTE_PREFIXES;
    assert p[0] in p && p[1] in p && p[2] in p && p[3] in p && p[4] in p;
    assert r[0] in r && r[1] in r && r[2] in r;
  }

  ghost predicate NoSmokeFlaw(files: Files, path: string, commit: string, matrix: bool) {
    forall x: SmokeFlaw :: !SmokeFlawed(files, path, commit, matrix, x)
  }

  lemma SmokeExactly(files: Files, path: string, commit: string, matrix: bool)
    ensures Smoke(files, path, commit) && (matrix ==> SmokeRouteMatrix(files, path)) <==>
              NoSmokeFlaw(files, path, commit, matrix)
  {
    hide NormalizeCommit;
    hide Lower;
    hide RowsPass;
    hide NonePasses;
    hide Contains;
    hide Mentions;
    hide ProviderRow;
    hide RouteRow;
    forall prefix ensures prefix in PROVIDER_PREFIXES <==> ProviderRow(prefix)
      ensures prefix in ROUTE_PREFIXES <==> RouteRow(prefix) { ProviderPrefixes(prefix); }
    if path in files {
      forall prefix ensures RowsPass(files[path].rows, prefix) <==> !NonePasses(files[path].rows, prefix) {
        RowsExactly(files[path].rows, prefix);
      }
    }
    forall s ensures Contains(s, "skipped:") <==> Mentions(s, "skipped:") { ContainsExactly(s, "skipped:"); }
    if NoSmokeFlaw(files, path, commit, matrix) {
      SmokeWhenFlawless(files, path, commit, matrix);
    } else {
      var x: SmokeFlaw :| SmokeFlawed(files, path, commit, matrix, x);
      if x.SkippedRoute? { assert files[path].rows[x.i] in files[path].rows; }
    }
  }

  lemma SmokeWhenFlawless(files: Files, path: string, commit: string, matrix: bool)
    requires NoSmokeFlaw(files, path, commit, matrix)
    requires forall prefix ::
      (prefix in PROVIDER_PREFIXES <==> ProviderRow(prefix)) && (prefix in ROUTE_PREFIXES <==> RouteRow(prefix))
    requires path in files ==>
      forall prefix :: RowsPass(files[path].rows, prefix) <==> !NonePasses(files[path].rows, prefix)
    requires forall s :: Contains(s, "skipped:") <==> Mentions(s, "skipped:")
    ensures Smoke(files, path, commit) && (matrix ==> SmokeRouteMatrix(files, path))
  {
    hide NormalizeCommit;
    hide Lower;
    hide RowsPass;
    hide NonePasses;
    hide Contains;
    hide Mentions;
    hide ProviderRow;
    hide RouteRow;
    assert !SmokeFlawed(files, path, commit, matrix, SmokeUnusable);
    assert !SmokeFlawed(files, path, commit, matrix, SmokeNoCommit);
    assert !SmokeFlawed(files, path, commit, matrix, SmokeExpectsOther);
    assert !SmokeFlawed(files, path, commit, matrix, SmokeRanOn);
    forall prefix | prefix in PROVIDER_PREFIXES ensures RowsPass(files[path].rows, prefix) {
      assert !SmokeFlawed(files, path, commit, matrix, NoPassingRow(prefix));
    }
    if matrix {
      forall prefix | prefix in ROUTE_PREFIXES
        ensures RowsPass(files[path].rows, prefix)
        ensures forall r | r in files[path].rows :: prefix <= r.name ==> !Contains(Lower(r.detail), "skipped:")
      {
        assert !SmokeFlawed(files, path, commit, matrix, NoPassingRoute(prefix));
        forall r | r in files[path].rows && prefix <= r.name ensures !Contains(Lower(r.detail), "skipped:") {
          var i :| 0 <= i < |files[path].rows| && files[path].rows[i] == r;
          assert !SmokeFlawed(files, path, commit, matrix, SkippedRoute(prefix, i));
        }
      }
    }
  }

  // ------------------------------------------------------------ protocol canary

  datatype ProtocolFlaw =
    | CanaryUnusable | CanaryNoCommit | CanaryNotExecuted | CanaryRanOn | CanaryLacks(protocol: string)

  predicate ProtocolFlawed(files: Files, path: string, commit: string, x: ProtocolFlaw) {
    match x
    case CanaryUnusable => Unusable(files, path)
    case CanaryNoCommit => NormalizeCommit(commit) == ""
    case CanaryNotExecuted => path in files && Lower(Strip(files[path].mode)) != "execute"
    case CanaryRanOn =>
      && path in files && NormalizeCommit(files[path].healthCommit) != ""
      && NormalizeCommit(files[path].healthCommit) != NormalizeCommit(commit)
    case CanaryLacks(p) =>
      && path in files
      && (p == "gw-native" || p == "openai-compatible" || p == "claude-compatible" || p == "gemini-compatible")
      && forall c | c in files[path].cases && Strip(c.protocol) == p :: !c.ok
  }

  lemma ProtocolExactly(files: Files, path: string, commit: string)
    ensures ProtocolCanary(files, path, commit) <==> forall x: ProtocolFlaw :: !ProtocolFlawed(files, path, commit, x)
  {
    hide NormalizeCommit;
    hide Lower;
    hide Strip;
    if forall x: ProtocolFlaw :: !ProtocolFlawed(files, path, commit, x) {
      assert !ProtocolFlawed(files, path, commit, CanaryUnusable);
      assert !ProtocolFlawed(files, path, commit, CanaryNoCommit);
      assert !ProtocolFlawed(files, path, commit, CanaryNotExecuted);
      assert !ProtocolFlawed(files, path, commit, CanaryRanOn);
      forall p | p in PROTOCOLS ensures p in (set c | c in files[path].cases && c.ok :: Strip(c.protocol)) {
        assert !ProtocolFlawed(files, path, commit, CanaryLacks(p));
      }
    } else {
      var x: ProtocolFlaw :| ProtocolFlawed(files, path, commit, x);
      if x.CanaryLacks? {
        assert x.protocol in PROTOCOLS && x.protocol !in (set c | c in files[path].cases && c.ok :: Strip(c.protocol));
      }
    }
  }

  // ------------------------------------------------------------------ preflight

  datatype PreflightFlaw =
    | PreflightUnusable | PreflightNoCommit | PreflightExpectsOther | PreflightNotStart
    | RouteUnchecked | RouteNotOk(i: nat) | RouteUndetailed(i: nat) | RouteTest(i: nat, test: TestFlaw)

  /** Check `i` is the last one under the name of the route self test. */
  predicate LastRouteCheck(checks: seq<PreflightCheck>, i: nat) {
    && i < |checks| && Strip(checks[i].name) == "gateway_route_self_test"
    && forall j | i < j < |checks| :: Strip(checks[j].name) != "gateway_route_self_test"
  }

  predicate PreflightFlawed(files: Files, path: string, commit: string, stage: Stage, x: PreflightFlaw) {
    match x
    case PreflightUnusable => Unusable(files, path)
    case PreflightNoCommit => NormalizeCommit(commit) == ""
    case PreflightExpectsOther =>
      path in files && NormalizeCommit(files[path].expectedCommit) != NormalizeCommit(commit)
    case PreflightNotStart => path in files && Lower(Strip(files[path].mode)) != "start"
    case RouteUnchecked =>
      && path in files && stage != ShadowStart
      && forall c | c in files[path].preflightChecks :: Strip(c.name) != "gateway_route_self_test"
    case RouteNotOk(i) =>
      && path in files && stage != ShadowStart && LastRouteCheck(files[path].preflightChecks, i)
      && !files[path].preflightChecks[i].ok
    case RouteUndetailed(i) =>
      && path in files && stage != ShadowStart && LastRouteCheck(files[path].preflightChecks, i)
      && files[path].preflightChecks[i].detail == None
    case RouteTest(i, t) =>
      && path in files && stage != ShadowStart && LastRouteCheck(files[path].preflightChecks, i)
      && files[path].preflightChecks[i].detail.Some?
      && TestFlawed(files[path].preflightChecks[i].detail.value, t)
  }

  lemma {:induction false} SomeLastCheck(checks: seq<PreflightCheck>, n: nat) returns (i: nat)
    requires n <= |checks| && exists k :: 0 <= k < n && Strip(checks[k].name) == "gateway_route_self_test"
    requires forall j | n <= j < |checks| :: Strip(checks[j].name) != "gateway_route_self_test"
    ensures LastRouteCheck(checks, i)
  {
    hide Strip;
    i := n - 1;
    if Strip(checks[n - 1].name) != "gateway_route_self_test" { i := SomeLastCheck(checks, n - 1); }
  }

  ghost predicate RouteFlawless(checks: seq<PreflightCheck>) {
    && (exists c | c in checks :: Strip(c.name) == "gateway_route_self_test")
    && forall i | 0 <= i < |checks| && LastRouteCheck(checks, i) ::
         checks[i].ok && checks[i].detail.Some? && forall t: TestFlaw :: !TestFlawed(checks[i].detail.value, t)
  }

  lemma RouteExactly(checks: seq<PreflightCheck>)
    ensures PreflightRouteOk(checks) <==> RouteFlawless(checks)
  {
    hide Strip;
    hide TestFlawed;
    hide RouteSelfTestValid;
    forall r: RouteSelfTest ensures RouteSelfTestValid(r) <==> forall t: TestFlaw :: !TestFlawed(r, t) {
      TestExactly(r);
    }
    if RouteFlawless(checks) {
      var c :| c in checks && Strip(c.name) == "gateway_route_self_test";
      var k :| 0 <= k < |checks| && checks[k] == c;
      var i := SomeLastCheck(checks, |checks|);
    }
    if PreflightRouteOk(checks) {
      var i :| 0 <= i < |checks| && Strip(checks[i].name) == "gateway_route_self_test"
        && (forall j | i < j < |checks| :: Strip(checks[j].name) != "gateway_route_self_test")
        && checks[i].ok && checks[i].detail.Some? && RouteSelfTestValid(checks[i].detail.value);
      assert checks[i] in checks;
      forall k | 0 <= k < |checks| && LastRouteCheck(checks, k) ensures k == i {}
    }
  }

  ghost predicate NoPreflightFlaw(files: Files, path: string, commit: string, stage: Stage) {
    forall x: PreflightFlaw :: !PreflightFlawed(files, path, commit, stage, x)
  }

  lemma PreflightExactly(files: Files, path: string, commit: string, stage: Stage)
    ensures ProdPreflight(files, path, commit, stage) <==> NoPreflightFlaw(files, path, commit, stage)
  {
    hide NormalizeCommit;
    hide Lower;
    hide Strip;
    hide TestFlawed;
    hide PreflightRouteOk;
    hide LastRouteCheck;
    if path in files { RouteExactly(files[path].preflightChecks); }
    if NoPreflightFlaw(files, path, commit, stage) {
      assert !PreflightFlawed(files, path, commit, stage, PreflightUnusable);
      assert !PreflightFlawed(files, path, commit, stage, PreflightNoCommit);
      assert !PreflightFlawed(files, path, commit, stage, PreflightExpectsOther);
      assert !PreflightFlawed(files, path, commit, stage, PreflightNotStart);
      hide RouteFlawless;
      if stage != ShadowStart { RouteWhenFlawless(files, path, commit, stage); }
    } else {
      var x: PreflightFlaw :| PreflightFlawed(files, path, commit, stage, x);
      if x.RouteUnchecked? || x.RouteNotOk? || x.RouteUndetailed? || x.RouteTest? {
        FlawedRoute(files, path, commit, stage, x);
      }
    }
  }

  lemma FlawedRoute(files: Files, path: string, commit: string, stage: Stage, x: PreflightFlaw)
    requires PreflightFlawed(files, path, commit, stage, x)
    requires x.RouteUnchecked? || x.RouteNotOk? || x.RouteUndetailed? || x.RouteTest?
    ensures path in files && stage != ShadowStart && !RouteFlawless(files[path].preflightChecks)
  {
    hide NormalizeCommit;
    hide Lower;
    hide Strip;
    hide TestFlawed;
    if !x.RouteUnchecked? {
      var i := x.i;
      assert LastRouteCheck(files[path].preflightChecks, i) && 0 <= i < |files[path].preflightChecks|;
      hide LastRouteCheck;
    }
  }

  lemma RouteWhenFlawless(files: Files, path: string, commit: string, stage: Stage)
    requires NoPreflightFlaw(files, path, commit, stage) && path in files && stage != ShadowStart
    ensures RouteFlawless(files[path].preflightChecks)
  {
    hide NormalizeCommit;
    hide Lower;
    hide Strip;
    hide TestFlawed;
    hide LastRouteCheck;
    var checks := files[path].preflightChecks;
    assert !PreflightFlawed(files, path, commit, stage, RouteUnchecked);
    forall i | 0 <= i < |checks| && LastRouteCheck(checks, i)
      ensures checks[i].ok && checks[i].detail.Some?
      ensures forall t: TestFlaw :: !TestFlawed(checks[i].detail.value, t)
    {
      assert !PreflightFlawed(files, path, commit, stage, RouteNotOk(i));
      assert !PreflightFlawed(files, path, commit, stage, RouteUndetailed(i));
      forall t: TestFlaw ensures !TestFlawed(checks[i].detail.value, t) {
        assert !PreflightFlawed(files, path, commit, stage, RouteTest(i, t));
      }
    }
  }

  // --------------------------------------------------------------------- health

  datatype HealthFlaw = HealthUnusable | HealthNoCommit | HealthExpectsOther | HealthRanOn | BoundaryOpen(i: nat)

  predicate HealthFlawed(files: Files, path: string, commit: string, x: HealthFlaw) {
    match x
    case HealthUnusable => Unusable(files, path)
    case HealthNoCommit => NormalizeCommit(commit) == ""
    case HealthExpectsOther =>
      && path in files && NormalizeCommit(files[path].expectedCommit) != ""
      && NormalizeCommit(files[path].expectedCommit) != NormalizeCommit(commit)
    case HealthRanOn =>
      && path in files
      && if files[path].actualCommit == "" then NormalizeCommit(files[path].healthCommit) != NormalizeCommit(commit)
         else NormalizeCommit(files[path].actualCommit) != NormalizeCommit(commit)
    case BoundaryOpen(i) => path in files && i < |files[path].authBoundary| && !files[path].authBoundary[i]
  }

  lemma HealthExactly(files: Files, path: string, commit: string)
    ensures HealthPreflight(files, path, commit) <==> forall x: HealthFlaw :: !HealthFlawed(files, path, commit, x)
  {
    hide NormalizeCommit;
    hide Lower;
    if forall x: HealthFlaw :: !HealthFlawed(files, path, commit, x) {
      assert !HealthFlawed(files, path, commit, HealthUnusable) && !HealthFlawed(files, path, commit, HealthNoCommit);
      assert !HealthFlawed(files, path, commit, HealthExpectsOther) && !HealthFlawed(files, path, commit, HealthRanOn);
      forall ok | ok in files[path].authBoundary ensures ok {
        var i :| 0 <= i < |files[path].authBoundary| && files[path].authBoundary[i] == ok;
        assert !HealthFlawed(files, path, commit, BoundaryOpen(i));
      }
    } else {
      var x: HealthFlaw :| HealthFlawed(files, path, commit, x);
      if x.BoundaryOpen? { assert files[path].authBoundary[x.i] in files[path].authBoundary; }
    }
  }

  // ------------------------------------------ provider, config apply and backup

  datatype ProviderFlaw = ProviderUnusable | ProviderBlocked

  predicate ProviderFlawed(files: Files, path: string, x: ProviderFlaw) {
    match x
    case ProviderUnusable => Unusable(files, path)
    case ProviderBlocked => path in files && |files[path].externalBlockers| > 0
  }

  lemma ProviderExactly(files: Files, path: string)
    ensures ProviderAudit(files, path) <==> forall x: ProviderFlaw :: !ProviderFlawed(files, path, x)
  {
    hide Lower;
    if forall x: ProviderFlaw :: !ProviderFlawed(files, path, x) {
      assert !ProviderFlawed(files, path, ProviderUnusable) && !ProviderFlawed(files, path, ProviderBlocked);
    }
  }

  datatype ApplyFlaw =
    | ApplyUnusable | ApplyNotExecuted | ApplyNotReady | ApplyFallbackLeft | ApplyInactive
    | ApplyPoolMissing | ApplyPoolUnusable

  /** A counter that is given and not zero. */
  predicate Counts(v: Option<int>) {
    v.Some? && v.value != 0
  }

  predicate ApplyFlawed(files: Files, path: string, x: ApplyFlaw) {
    match x
    case ApplyUnusable => Unusable(files, path)
    case ApplyNotExecuted => path in files && !files[path].executed
    case ApplyNotReady => path in files && Lower(files[path].after.status) != "ready"
    case ApplyFallbackLeft => path in files && Counts(files[path].after.mapFallbackObjectsRemaining)
    case ApplyInactive => path in files && files[path].after.activeReady != Some(true)
    case ApplyPoolMissing => path in files && Counts(files[path].after.activeMissingPool)
    case ApplyPoolUnusable => path in files && Counts(files[path].after.activeWithoutUsable)
  }

  lemma ApplyExactly(files: Files, path: string)
    ensures ConfigAuthorityApply(files, path) <==> forall x: ApplyFlaw :: !ApplyFlawed(files, path, x)
  {
    hide Lower;
    if forall x: ApplyFlaw :: !ApplyFlawed(files, path, x) {
      assert !ApplyFlawed(files, path, ApplyUnusable) && !ApplyFlawed(files, path, ApplyNotExecuted);
      assert !ApplyFlawed(files, path, ApplyNotReady) && !ApplyFlawed(files, path, ApplyFallbackLeft);
      assert !ApplyFlawed(files, path, ApplyInactive) && !ApplyFlawed(files, path, ApplyPoolMissing);
      assert !ApplyFlawed(files, path, ApplyPoolUnusable);
    }
  }

  datatype BackupFlaw = BackupUnusable | BackupNowhere | BackupDryRun | BackupEmpty | BackupUnsummed

  predicate BackupFlawed(files: Files, path: string, x: BackupFlaw) {
    match x
    case BackupUnusable => Unusable(files, path)
    case BackupNowhere => path in files && Strip(files[path].backupDir) == ""
    case BackupDryRun => path in files && files[path].dryRun
    case BackupEmpty => path in files && files[path].archiveCount < 1
    case BackupUnsummed => path in files && Strip(files[path].sha256Sums) == ""
  }

  lemma BackupExactly(files: Files, path: string)
    ensures ExternalBackup(files, path) <==> forall x: BackupFlaw :: !BackupFlawed(files, path, x)
  {
    hide Lower;
    hide Strip;
    if forall x: BackupFlaw :: !BackupFlawed(files, path, x) {
      assert !BackupFlawed(files, path, BackupUnusable) && !BackupFlawed(files, path, BackupNowhere);
      assert !BackupFlawed(files, path, BackupDryRun) && !BackupFlawed(files, path, BackupEmpty);
      assert !BackupFlawed(files, path, BackupUnsummed);
    }
  }

  // --------------------------------------------------------------- static audit

  datatype RouterFlaw =
    | RouterUnusable | RouterOtherScope | RouterClaimsTarget | RouterClaimsRuntime | RouterClaimsAll | RouterNothingLeft

  predicate RouterFlawed(files: Files, path: string, x: RouterFlaw) {
    match x
    case RouterUnusable => Unusable(files, path)
    case RouterOtherScope => path in files && Strip(files[path].scope) != "static-code-and-document-evidence"
    case RouterClaimsTarget => path in files && files[path].targetComplete != Some(false)
    case RouterClaimsRuntime => path in files && files[path].runtimeEvidenceComplete != Some(false)
    case RouterClaimsAll =>
      path in files && files[path].progressPercent.Some? && files[path].progressPercent.value >= 100
    case RouterNothingLeft => path in files && |files[path].remainingRuntimeGates| == 0
  }

  lemma RouterExactly(files: Files, path: string)
    ensures RouterAudit(files, path) <==> forall x: RouterFlaw :: !RouterFlawed(files, path, x)
  {
    hide Lower;
    hide Strip;
    if forall x: RouterFlaw :: !RouterFlawed(files, path, x) {
      assert !RouterFlawed(files, path, RouterUnusable) && !RouterFlawed(files, path, RouterOtherScope);
      assert !RouterFlawed(files, path, RouterClaimsTarget) && !RouterFlawed(files, path, RouterClaimsRuntime);
      assert !RouterFlawed(files, path, RouterClaimsAll) && !RouterFlawed(files, path, RouterNothingLeft);
    }
  }

  // --------------------------------------------------------------- release gate

  datatype GateFlaw =
    | GateUnusable | GateNoCommit | GateOtherCommit | GateNoSamples | GateForeignSample(i: nat)
    | ConfigNotRequired | ConfigNotOk | ConfigNotReady | ConfigFallbackLeft | ConfigInactive | ConfigPoolUnusable
    | RuntimeNotRequired | RuntimeNotOk | RuntimeNotReady

  /** A report without samples that a maintenance baseline may excuse. */
  predicate SamplesLeftOut(p: Payload) {
    p.thresholds.skipGlobalCells && p.thresholds.minTotal == Some(0) && p.thresholds.minPerApp == Some(0)
  }

  /** A config section that says nothing but that it was not asked for. */
  predicate ConfigLeftOut(c: ConfigReport) {
    && c.required == false && c.ok == false && Lower(c.status) == "not-required" && |c.failures| == 0
    && None == c.mapFallbackObjectsRemaining == c.activeMissingPool == c.activeWithoutUsable == c.readinessPercent
    && None == c.activeReady
  }

  predicate RuntimeLeftOut(r: RuntimeReport) {
    && r.required == r.ok == r.readyForHttpFull == r.selfFinalizing == false
    && |r.remaining| == |r.allowedPending| == 0
  }

  /** Only the ledger line that is about to be written is missing. */
  predicate OnlyOwnLine(r: RuntimeReport) {
    r.selfFinalizing && r.remaining == r.allowedPending == ["full_http_rollout_ledger"]
  }

  predicate GateFlawed(files: Files, path: string, commit: string, full: bool, excused: bool, x: GateFlaw) {
    if x == GateUnusable then Unusable(files, path)
    else if x == GateNoCommit then NormalizeCommit(commit) == ""
    else path in files && ReportFlawed(files[path], NormalizeCommit(commit), full, excused, x)
  }

  predicate ReportFlawed(p: Payload, expected: string, full: bool, excused: bool, x: GateFlaw) {
    var asksConfig := full && !(excused && ConfigLeftOut(p.config));
    var asksRuntime := full && !(excused && RuntimeLeftOut(p.runtime));
    match x
    case GateUnusable => false
    case GateNoCommit => false
    case GateOtherCommit => NormalizeCommit(p.shadowReleaseCommit) != expected
    case GateNoSamples => |p.shadowChecks| == 0 && !(excused && SamplesLeftOut(p))
    case GateForeignSample(i) => i < |p.shadowChecks| && NormalizeCommit(p.shadowChecks[i].releaseCommit) != expected
    case ConfigNotRequired => asksConfig && !p.config.required
    case ConfigNotOk => asksConfig && !p.config.ok
    case ConfigNotReady => asksConfig && Lower(p.config.status) != "ready"
    case ConfigFallbackLeft => asksConfig && Counts(p.config.mapFallbackObjectsRemaining)
    case ConfigInactive => asksConfig && p.config.activeReady != Some(true)
    case ConfigPoolUnusable => asksConfig && Counts(p.config.activeWithoutUsable)
    case RuntimeNotRequired => asksRuntime && !p.runtime.required
    case RuntimeNotOk => asksRuntime && !p.runtime.ok
    case RuntimeNotReady => asksRuntime && !p.runtime.readyForHttpFull && !OnlyOwnLine(p.runtime)
  }

  predicate ConfigFlaw(x: GateFlaw) {
    x in {ConfigNotRequired, ConfigNotOk, ConfigNotReady, ConfigFallbackLeft, ConfigInactive, ConfigPoolUnusable}
  }

  predicate RuntimeFlaw(x: GateFlaw) {
    x in {RuntimeNotRequired, RuntimeNotOk, RuntimeNotReady}
  }

  lemma ConfigExactly(p: Payload, expected: string, excused: bool)
    ensures ConfigPartOk(p.config, excused) <==>
              forall x: GateFlaw | ConfigFlaw(x) :: !ReportFlawed(p, expected, true, excused, x)
  {
    hide Lower;
    hide NormalizeCommit;
    if forall x: GateFlaw | ConfigFlaw(x) :: !ReportFlawed(p, expected, true, excused, x) {
      assert !ReportFlawed(p, expected, true, excused, ConfigNotRequired);
      assert !ReportFlawed(p, expected, true, excused, ConfigNotOk);
      assert !ReportFlawed(p, expected, true, excused, ConfigNotReady);
      assert !ReportFlawed(p, expected, true, excused, ConfigFallbackLeft);
      assert !ReportFlawed(p, expected, true, excused, ConfigInactive);
      assert !ReportFlawed(p, expected, true, excused, ConfigPoolUnusable);
    }
  }

  lemma RuntimeExactly(p: Payload, expected: string, excused: bool)
    ensures RuntimePartOk(p.runtime, excused) <==>
              forall x: GateFlaw | RuntimeFlaw(x) :: !ReportFlawed(p, expected, true, excused, x)
  {
    hide Lower;
    hide NormalizeCommit;
    hide ConfigLeftOut;
    if forall x: GateFlaw | RuntimeFlaw(x) :: !ReportFlawed(p, expected, true, excused, x) {
      assert !ReportFlawed(p, expected, true, excused, RuntimeNotRequired);
      assert !ReportFlawed(p, expected, true, excused, RuntimeNotOk);
      assert !ReportFlawed(p, expected, true, excused, RuntimeNotReady);
    }
  }

  ghost predicate NoGateFlaw(files: Files, path: string, commit: string, full: bool, excused: bool) {
    forall x: GateFlaw :: !GateFlawed(files, path, commit, full, excused, x)
  }

  ghost predicate NoReportFlaw(p: Payload, expected: string, full: bool, excused: bool) {
    forall x: GateFlaw :: !ReportFlawed(p, expected, full, excused, x)
  }

  lemma SamplesExactly(p: Payload, expected: string, full: bool, excused: bool)
    ensures ShadowPartOk(p, expected, excused) <==>
              forall x: GateFlaw | x == GateNoSamples || x.GateForeignSample? ::
                !ReportFlawed(p, expected, full, excused, x)
  {
    hide NormalizeCommit;
    hide ConfigLeftOut;
    hide RuntimeLeftOut;
    if forall x: GateFlaw | x == GateNoSamples || x.GateForeignSample? :: !ReportFlawed(p, expected, full, excused, x) {
      assert !ReportFlawed(p, expected, full, excused, GateNoSamples);
      forall c | c in p.shadowChecks ensures NormalizeCommit(c.releaseCommit) == expected {
        var i :| 0 <= i < |p.shadowChecks| && p.shadowChecks[i] == c;
        assert !ReportFlawed(p, expected, full, excused, GateForeignSample(i));
      }
    }
  }

  lemma ReportExactly(p: Payload, expected: string, full: bool, excused: bool)
    ensures
      && NormalizeCommit(p.shadowReleaseCommit) == expected && ShadowPartOk(p, expected, excused)
      && (full ==> ConfigPartOk(p.config, excused) && RuntimePartOk(p.runtime, excused)) <==>
      NoReportFlaw(p, expected, full, excused)
  {
    SamplesExactly(p, expected, full, excused);
    ConfigExactly(p, expected, excused);
    RuntimeExactly(p, expected, excused);
    hide NormalizeCommit;
    hide ShadowPartOk;
    hide ConfigPartOk;
    hide RuntimePartOk;
    hide ConfigLeftOut;
    hide RuntimeLeftOut;
    hide SamplesLeftOut;
    hide OnlyOwnLine;
    hide Lower;
    forall x: GateFlaw ensures ReportFlawed(p, expected, full, excused, x) ==>
      || x == GateOtherCommit || x == GateNoSamples || x.GateForeignSample?
      || (full && (ConfigFlaw(x) || RuntimeFlaw(x))) {}
    assert ReportFlawed(p, expected, full, excused, GateOtherCommit) <==>
      NormalizeCommit(p.shadowReleaseCommit) != expected;
  }

  lemma GateExactly(files: Files, path: string, commit: string, full: bool, excused: bool)
    ensures ReleaseGate(files, path, commit, full, AllowAll(excused)) <==>
              NoGateFlaw(files, path, commit, full, excused)
  {
    hide NormalizeCommit;
    hide ShadowPartOk;
    hide ConfigPartOk;
    hide RuntimePartOk;
    hide ReportFlawed;
    hide Lower;
    if path in files { ReportExactly(files[path], NormalizeCommit(commit), full, excused); }
    if NoGateFlaw(files, path, commit, full, excused) {
      assert !GateFlawed(files, path, commit, full, excused, GateUnusable);
      assert !GateFlawed(files, path, commit, full, excused, GateNoCommit);
      forall x: GateFlaw ensures !ReportFlawed(files[path], NormalizeCommit(commit), full, excused, x) {
        assert !GateFlawed(files, path, commit, full, excused, x);
        NeverOnReport(files[path], NormalizeCommit(commit), full, excused);
      }
    }
  }

  lemma NeverOnReport(p: Payload, expected: string, full: bool, excused: bool)
    ensures !ReportFlawed(p, expected, full, excused, GateUnusable)
    ensures !ReportFlawed(p, expected, full, excused, GateNoCommit)
  {
  }
}
