/** Chains of maintenance releases exist: a first baseline for every complete
    commit, and a further release on every audited baseline. */
module MaintenanceExamples {
  import opened Text
  import opened Evidence
  import opened Ledger
  import opened MaintenanceSpec
  import opened GateExamples
  import opened RolloutExamples
  import ThreeGates
  import GateInLedger

  /** A gate report with one safe sample and every console part skipped. */
  function SafeGate(commit: string): Payload {
    EMPTY_PAYLOAD.(
      verdict := "pass",
      shadowReleaseCommit := commit,
      shadowChecks := [ShadowCheck("global", commit, 0, 0, true)],
      config := NO_CONFIG.(status := "not-required"))
  }

  function HttpArgs(commit: string): Args {
    PlainArgs(HttpFull, commit).(
      mode := "http", mapFallbackDisabled := true, evidenceJson := "out", releaseGateJson := "g")
  }

  /** A ledger with one full-http success, its stage report and its gate. */
  function OneRelease(commit: string, report: Payload, gate: Payload): Audited {
    Audited([Entry(Some(0), HttpArgs(commit))], map["out" := report, "g" := gate], commit)
  }

  lemma OneReleaseTarget(commit: string, report: Payload, gate: Payload)
    requires IsFullSha(commit)
    ensures LatestSuccess(OneRelease(commit, report, gate).entries, commit, HttpFull)
            == Some(Entry(Some(0), HttpArgs(commit)))
    ensures HttpArgs(commit).evidenceJson == "out" && HttpArgs(commit).releaseGateJson == "g"
    ensures HttpArgs(commit).status == Success
  {
    hide IsFullSha;
    hide Lower;
    var entries := OneRelease(commit, report, gate).entries;
    assert entries[0] in entries;
    assert SuccessOf(entries[0], commit, HttpFull);
  }

  /** Such a ledger passes its baseline audit once report and gate are fit. */
  lemma OneReleaseSound(commit: string, report: Payload, gate: Payload, origin: string)
    requires IsFullSha(commit)
    requires var files := OneRelease(commit, report, gate).files;
      && StageEvidenceFit(files, "out", commit) && ShadowOrigin(files, "out", commit) == origin
      && GateFit(files, "g", origin)
    ensures var x := OneRelease(commit, report, gate);
      Sound(x) && ReportOf(x).shadowEvidenceCommit == origin && TargetOf(x) == HttpArgs(commit)
  {
    OneReleaseTarget(commit, report, gate);
    hide StageEvidenceFit;
    hide GateFit;
    hide ShadowOrigin;
    hide LatestSuccess;
    hide HttpArgs;
    hide IsFullSha;
    hide Lower;
  }

  /** The stage report of a full-http release that hands on `origin`. */
  lemma ReportFit(files: Files, a: Args, baseline: string, origin: string)
    requires IsFullSha(a.commit) && a.stage == HttpFull && a.status == Success
    requires a.mode == "http" && a.mapFallbackDisabled
    requires "out" in files && files["out"] == ReportPayload(a, baseline, [])
    requires NormalizeCommit(origin) == origin != ""
    requires origin == if a.shadowEvidenceCommit == "" then a.commit else a.shadowEvidenceCommit
    ensures StageEvidenceFit(files, "out", a.commit)
    ensures ShadowOrigin(files, "out", a.commit) == origin
  {
    hide NormalizeCommit;
    hide IsFullSha;
    hide Lower;
    FullShaIsSettled(a.commit);
    LowerOf("pass"); LowerOf("http");
    ThreeGates.EmptyNormalizes();
  }

  lemma SafeGateFit(files: Files, commit: string)
    requires IsFullSha(commit) && "g" in files && files["g"] == SafeGate(commit)
    ensures GateFit(files, "g", commit)
  {
    FullShaIsSettled(commit);
    LowerOf("pass"); LowerOf("not-required");
    hide NormalizeCommit;
    hide IsFullSha;
    hide Lower;
  }

  /** Every complete commit can be the origin of a chain. */
  lemma FirstBaseline(commit: string) returns (x: Audited)
    requires IsFullSha(commit)
    ensures Sound(x) && x.commit == commit && ReportOf(x).shadowEvidenceCommit == commit
  {
    FullShaIsSettled(commit);
    hide NormalizeCommit;
    hide IsFullSha;
    hide Sound;
    hide ReportOf;
    hide StageEvidenceFit;
    hide GateFit;
    hide ShadowOrigin;
    hide ReportPayload;
    hide SafeGate;
    assert |commit| == 40 by { ShaLength(commit); }
    var report := ReportPayload(HttpArgs(commit), "", []);
    x := OneRelease(commit, report, SafeGate(commit));
    ReportFit(x.files, HttpArgs(commit), "", commit);
    SafeGateFit(x.files, commit);
    OneReleaseSound(commit, report, SafeGate(commit), commit);
  }

  // ------------------------------------------------------------- one more release

  function MaintenanceArgs(x: Audited, commit: string): Args {
    HttpArgs(commit).(
      releaseGateRequired := true,
      shadowEvidenceCommit := ReportOf(x).shadowEvidenceCommit,
      maintenanceBaselineCommit := x.commit,
      maintenanceBaselineJson := "b")
  }

  function MaintenanceFiles(x: Audited, commit: string): Files
    requires Sound(x)
  {
    map["b" := ReportOf(x), "e" := EveryFile(commit), "g" := GateBehind(x)]
  }

  function GateBehind(x: Audited): Payload
    requires Sound(x)
  {
    x.files[TargetOf(x).releaseGateJson]
  }

  /** The gate of an audited baseline is fit wherever it is read from. */
  lemma GateCarriesOver(x: Audited, files: Files, commit: string)
    requires Sound(x) && "g" in files && files["g"] == GateBehind(x)
    ensures GateFit(files, "g", ReportOf(x).shadowEvidenceCommit)
    ensures ReleaseGate(files, "g", ReportOf(x).shadowEvidenceCommit, true, AllowAll(true))
  {
    hide IsFullSha;
    hide StageEvidenceFit;
    hide ShadowOrigin;
    hide LaterNegative;
    hide LatestSuccess;
    hide NormalizeCommit;
    hide ConfigPartOk;
    hide RuntimePartOk;
    hide ShadowCheckSafe;
    hide Lower;
  }

  lemma MaintenanceFields(x: Audited, commit: string)
    requires Sound(x)
    ensures var a, files := MaintenanceArgs(x, commit), MaintenanceFiles(x, commit);
      && a.stage == HttpFull && a.status == Success && a.commit == commit && a.mode == "http" && a.mapFallbackDisabled
      && a.shadowEvidenceCommit == ReportOf(x).shadowEvidenceCommit
      && a.maintenanceBaselineJson == "b" && a.maintenanceBaselineCommit == x.commit
      && a.routerAuditJson == "e" && a.prodPreflightJson == "e" && a.servingProbeJson == "e" && a.releaseGateJson == "g"
      && SwitchesOf(a) == Switches(false, false, true, false, false, false, false, false)
      && "b" in files && files["b"] == ReportOf(x)
      && "e" in files && files["e"] == EveryFile(commit)
      && "g" in files && files["g"] == GateBehind(x)
  {
    hide Sound;
    hide ReportOf;
    hide GateBehind;
    hide EveryFile;
  }

  lemma AuditReport(x: Audited)
    requires Sound(x)
    ensures ReportOf(x).verdict == "pass" && ReportOf(x).commit == x.commit && IsFullSha(x.commit)
  {
    hide BaselinePasses;
    hide IsFullSha;
    hide ShadowOrigin;
  }

  lemma BaselineValidates(files: Files, base: string, origin: string, commit: string)
    requires "b" in files && files["b"].verdict == "pass"
    requires files["b"].commit == base && files["b"].shadowEvidenceCommit == origin
    requires NormalizeCommit(origin) == origin != ""
    requires IsFullSha(base) && IsFullSha(commit) && commit != base
    ensures ValidatedBaseline(files, base, "b", origin, HttpFull, commit) == Some(base)
  {
    FullShaIsSettled(base);
    FullShaIsSettled(commit);
    LowerOf("pass");
    ShaLength(base);
    hide NormalizeCommit;
    hide IsFullSha;
    hide Lower;
  }

  lemma BaselineAccepted(x: Audited, commit: string)
    requires Sound(x) && IsFullSha(commit) && commit != x.commit
    ensures BaselineOf(MaintenanceFiles(x, commit), MaintenanceArgs(x, commit)) == Some(x.commit)
    ensures x.commit != ""
  {
    AuditReport(x);
    OriginSettled(x);
    MaintenanceFields(x, commit);
    ShaLength(x.commit);
    hide NormalizeCommit;
    hide IsFullSha;
    hide Sound;
    hide ReportOf;
    hide MaintenanceFiles;
    hide MaintenanceArgs;
    hide GateBehind;
    hide ValidatedBaseline;
    BaselineValidates(MaintenanceFiles(x, commit), x.commit, ReportOf(x).shadowEvidenceCommit, commit);
  }

  lemma MaintenanceChecks(files: Files, a: Args)
    requires a.stage == HttpFull
    requires SwitchesOf(a) == Switches(false, false, true, false, false, false, false, false)
    requires a.prodPreflightJson == "e" && a.servingProbeJson == "e" && a.releaseGateJson == "g"
    requires ProdPreflight(files, "e", a.commit, HttpFull) && ServingProbe(files, "e", a.commit)
    requires ReleaseGate(files, "g", ShadowCommitOf(a), true, AllowAll(true))
    ensures forall c | c in StageChecks(a) && c.1 :: Holds(files, a, c.0, a.commit, ShadowCommitOf(a), true)
  {
    hide ServingProbe;
    hide ProdPreflight;
    hide ReleaseGate;
    hide ShadowCommitOf;
    forall c | c in StageChecks(a) && c.1 ensures c.0 in {PreflightGate, ProbeCheck, ReleaseGateCheck} {}
    hide StageChecks;
    hide SwitchesOf;
  }

  lemma MaintenanceReportPasses(x: Audited, commit: string)
    requires Sound(x) && IsFullSha(commit) && commit != x.commit
    ensures BaselineOf(MaintenanceFiles(x, commit), MaintenanceArgs(x, commit)) == Some(x.commit)
    ensures StageReportFailures(MaintenanceFiles(x, commit), MaintenanceArgs(x, commit)) == []
  {
    hide Sound;
    hide ReportOf;
    hide GateBehind;
    hide MaintenanceArgs;
    hide MaintenanceFiles;
    hide IsFullSha;
    hide NormalizeCommit;
    hide RouterAudit;
    hide ServingProbe;
    hide ProdPreflight;
    hide ReleaseGate;
    hide GateFit;
    hide FailingChecks;
    hide ValidatedBaseline;
    hide StageChecks;
    hide SwitchesOf;
    hide Holds;
    var files, a := MaintenanceFiles(x, commit), MaintenanceArgs(x, commit);
    BaselineAccepted(x, commit);
    MaintenanceFields(x, commit);
    OriginSettled(x);
    ServedByFiles(files, commit);
    GateCarriesOver(x, files, commit);
    MaintenanceChecks(files, a);
    GateInLedger.NothingFails(files, a, true);
  }

  lemma ServedByFiles(files: Files, commit: string)
    requires IsFullSha(commit) && "e" in files && files["e"] == EveryFile(commit)
    ensures RouterAudit(files, "e") && ServingProbe(files, "e", commit) && ProdPreflight(files, "e", commit, HttpFull)
  {
    LowerOf("pass");
    assert Passing(files, "e");
    RoutesTested(commit);
    hide Passing;
    hide IsFullSha;
    hide PreflightRouteOk;
    hide RouterAudit;
    hide ServingProbe;
    hide ProdPreflight;
    StaticPartsOf(files, commit);
    ProbeServes(files, commit);
    PreflightServes(files, commit, HttpFull);
  }

  /** On every audited baseline another commit can be released and audited. */
  lemma EveryBaselineCarriesOn(x: Audited, commit: string) returns (r: Release, y: Audited)
    requires Sound(x) && IsFullSha(commit) && commit != x.commit
    ensures Sound(y) && y.commit == commit && BasedOn(x, r, y)
  {
    hide Sound;
    hide ReportOf;
    hide GateBehind;
    hide MaintenanceArgs;
    hide MaintenanceFiles;
    hide IsFullSha;
    hide NormalizeCommit;
    hide StageEvidenceFit;
    hide GateFit;
    hide ReleaseGate;
    hide ShadowOrigin;
    hide ReportPayload;
    hide StageReportFailures;
    hide BaselineOf;
    hide TargetOf;
    hide SwitchesOf;
    hide EveryFile;
    var a, files := MaintenanceArgs(x, commit), MaintenanceFiles(x, commit);
    r := Release(a, files);
    MaintenanceReportPasses(x, commit);
    MaintenanceFields(x, commit);
    OriginSettled(x);
    BaselineAccepted(x, commit);
    var report := ReportPayload(a, x.commit, []);
    y := OneRelease(commit, report, GateBehind(x));
    var origin := ReportOf(x).shadowEvidenceCommit;
    GateCarriesOver(x, y.files, commit);
    ReportFit(y.files, a, x.commit, origin);
    OneReleaseSound(commit, report, GateBehind(x), origin);
    OneReleaseTarget(commit, report, GateBehind(x));
    hide HttpArgs;
  }

  /** Hence chains of any length exist, over any commits without an immediate
      repetition. */
  lemma {:induction false} ChainExists(commits: seq<string>) returns (xs: seq<Audited>, rs: seq<Release>)
    requires commits != [] && forall c | c in commits :: IsFullSha(c)
    requires forall i | 0 <= i < |commits| - 1 :: commits[i] != commits[i + 1]
    ensures Chain(xs, rs) && |xs| == |commits|
    ensures forall i | 0 <= i < |xs| :: xs[i].commit == commits[i]
  {
    hide IsFullSha;
    hide Sound;
    hide BasedOn;
    var n := |commits| - 1;
    if n == 0 {
      var x := FirstBaseline(commits[0]);
      xs, rs := [x], [];
    } else {
      xs, rs := ChainExists(commits[..n]);
      var r, y := EveryBaselineCarriesOn(xs[n - 1], commits[n]);
      xs, rs := xs + [y], rs + [r];
    }
  }
}
