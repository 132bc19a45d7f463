/** A gate run and a release that meet everything the composed contract asks
    for, for every complete commit. */
module GateRunExamples {
  import opened Text
  import opened Evidence
  import opened Ledger
  import opened ThreeGates
  import opened GateInLedger
  import opened GateExamples
  import opened RolloutExamples
  import opened MaintenanceExamples
  import opened BaselineFitness
  import MaintenanceSpec
  import AuditBounds
  import Writer = ReleaseGateWriter
  import Contract = GateContract

  /** A full gate: both console parts and the global cell. */
  function FullGate(commit: string): Writer.GateArgs {
    Writer.GateArgs("b", "k", commit, "", 1, 1, [], [], [], false, 0, true, true, false, "c", "t")
  }

  /** A world that answers everything well. */
  function GoodWorld(commit: string): Writer.World {
    Writer.World([], [], Writer.Granted,
      Writer.ConfigSummary("ready", Writer.Number(0), true, Writer.Number(0), Writer.Number(0), Writer.Number(100)),
      Writer.RuntimeRead(Writer.NO_DATA.(releaseCommit := commit, ready := true)),
      (i: nat) => Writer.ShadowSummary(1, 0, 0, 0))
  }

  lemma GoodConsole(commit: string)
    ensures var g, w := FullGate(commit), GoodWorld(commit);
      && Writer.ConsoleReady(g, w)
      && Writer.ConfigCheck(w.config).failures == []
      && Writer.RuntimeOk(w.runtime.data, g.expectCommit, g.allowPendingLedger)
      && !Writer.RuntimeCrash(g, w)
  {
    StripOf("c");
    assert "c"[0] == 'c' && "c"[0] in "c";
    LowerOf("ready");
    hide NormalizeCommit;
    hide Strip;
    hide Lower;
  }

  lemma OneCell(commit: string)
    ensures var g, w := FullGate(commit), GoodWorld(commit);
      && |Writer.Cells(g)| == 1
      && forall i | 0 <= i < |Writer.Cells(g)| ::
           Writer.ShadowOk(Writer.Cells(g)[i], w.shadow(i), g.minCoverage) && !w.shadow(i).ShadowCrash?
  {
    var g := FullGate(commit);
    assert Writer.Cells(g) == [Writer.Cell("global", "", 1)];
  }

  lemma FullGatePasses(commit: string)
    ensures Contract.Passed(FullGate(commit), GoodWorld(commit))
  {
    GoodConsole(commit);
    OneCell(commit);
    hide Writer.ConsoleReady;
    hide Writer.ConfigCheck;
    hide Writer.RuntimeOk;
    hide Writer.RuntimeCrash;
    hide Writer.Cells;
    hide Writer.ShadowOk;
    hide Writer.ConfigSection;
    hide Writer.RuntimeSection;
    hide Writer.ShadowResults;
  }

  /** A full-http release of a commit in the spelling `given`. */
  function GatedArgs(given: string): Args {
    HttpArgs(given).(releaseGateRequired := true)
  }

  function GatedFiles(commit: string): Files
    requires Contract.Passed(FullGate(commit), GoodWorld(commit))
  {
    map["e" := EveryFile(commit), "g" := Contract.ReportOf(FullGate(commit), GoodWorld(commit))]
  }

  lemma GatedFields(commit: string, given: string)
    requires Contract.Passed(FullGate(commit), GoodWorld(commit))
    ensures var a, files := GatedArgs(given), GatedFiles(commit);
      && a.stage == HttpFull && a.status == Success && a.commit == given && a.shadowEvidenceCommit == ""
      && a.mode == "http"
      && a.maintenanceBaselineCommit == "" && a.maintenanceBaselineJson == ""
      && a.routerAuditJson == "e" && a.prodPreflightJson == "e" && a.servingProbeJson == "e" && a.releaseGateJson == "g"
      && SwitchesOf(a) == Switches(false, false, true, false, false, false, false, false)
      && FallbackExitOk(a) && a.releaseGateRequired && !a.outOfOrder && a.mainRef == "main" && a.mainSha == MainSha()
      && "e" in files && files["e"] == EveryFile(commit)
      && "g" in files && files["g"] == Contract.ReportOf(FullGate(commit), GoodWorld(commit))
  {
    hide Contract.Passed;
    hide Contract.ReportOf;
    hide EveryFile;
  }

  lemma GatedPaths(given: string)
    ensures "out" !in PathsOf(GatedArgs(given))
  {
  }

  lemma GatedCommits(files: Files, a: Args)
    requires IsFullSha(NormalizeCommit(a.commit)) && a.shadowEvidenceCommit == ""
    requires a.maintenanceBaselineCommit == "" && a.maintenanceBaselineJson == ""
    requires !a.outOfOrder && a.mainRef == "main" && a.mainSha == MainSha()
    ensures BaselineOf(files, a) == Some("") && MainFieldsFilled(a) && CommitsSettled(a)
    ensures NormalizeCommit(NormalizeCommit(a.commit)) == NormalizeCommit(a.commit) != ""
    ensures Settled(NormalizeCommit(a.commit))
  {
    hide NormalizeCommit;
    hide Strip;
    hide Lower;
    hide Settled;
    EmptyNormalizes();
    FullShaIsSettled(NormalizeCommit(a.commit));
    ShaLength(NormalizeCommit(a.commit));
    LowerOf(MainSha());
    StripOf(MainSha());
    StripOf("main");
  }

  lemma RestOfChecks(files: Files, a: Args)
    requires a.stage == HttpFull && BaselineOf(files, a) == Some("") && FallbackExitOk(a)
    requires SwitchesOf(a) == Switches(false, false, true, false, false, false, false, false)
    requires a.prodPreflightJson == "e" && a.servingProbeJson == "e" && a.routerAuditJson == "e"
    requires ProdPreflight(files, "e", a.commit, HttpFull) && ServingProbe(files, "e", a.commit)
    requires RouterAudit(files, "e")
    ensures RestHolds(files, a)
  {
    hide ServingProbe;
    hide ProdPreflight;
    hide RouterAudit;
    hide ReleaseGate;
    hide ShadowCommitOf;
    hide FallbackExitOk;
    hide BaselineOf;
    forall c | c in StageChecks(a) && c.1 ensures c.0 in {PreflightGate, ProbeCheck, ReleaseGateCheck} {}
    hide StageChecks;
    hide SwitchesOf;
  }

  /** The commit-bound checks read the normal form only. */
  lemma SpellingIsIrrelevant(files: Files, given: string, commit: string, stage: Stage)
    requires NormalizeCommit(given) == NormalizeCommit(commit)
    ensures ServingProbe(files, "e", given) == ServingProbe(files, "e", commit)
    ensures ProdPreflight(files, "e", given, stage) == ProdPreflight(files, "e", commit, stage)
  {
    hide NormalizeCommit;
    hide RouteSelfTestValid;
    hide PreflightRouteOk;
    hide Strip;
    hide Lower;
  }

  /** For every spelling of a complete commit a full gate run and a full-http
      release exist that go through stage report, append and re-check. */
  lemma GatedReleaseExists(given: string)
    returns (files: Files, a: Args, g: Writer.GateArgs, w: Writer.World)
    requires IsFullSha(NormalizeCommit(given))
    ensures CarriesGate(files, a, g, w) && a.stage == HttpFull && a.releaseGateRequired && a.commit == given
    ensures a.shadowEvidenceCommit == "" && a.mode == "http"
    ensures ReportPassed(files, a, "out")
    ensures AppendAccepts(Reported(files, a, "out"), WithEvidence(a, "out"))
    ensures EvidenceFailures(Reported(files, a, "out"), Line(files, a, "out")) == []
    ensures SamplesFit(files, a.releaseGateJson, NormalizeCommit(given))
  {
    var commit := NormalizeCommit(given);
    g, w := FullGate(commit), GoodWorld(commit);
    FullGatePasses(commit);
    hide Contract.Passed;
    hide Contract.ReportOf;
    hide IsFullSha;
    hide NormalizeCommit;
    hide Settled;
    hide EveryFile;
    hide GatedArgs;
    hide GatedFiles;
    hide RouterAudit;
    hide ServingProbe;
    hide ProdPreflight;
    hide RestHolds;
    hide ReportPassed;
    hide AppendAccepts;
    hide EvidenceFailures;
    hide GoodWorld;
    hide FallbackExitOk;
    hide MainFieldsFilled;
    hide CommitsSettled;
    hide PathsOf;
    hide BaselineOf;
    hide SwitchesOf;
    a, files := GatedArgs(given), GatedFiles(commit);
    GatedFields(commit, given);
    GatedPaths(given);
    GatedCommits(files, a);
    ServedByFiles(files, commit);
    SpellingIsIrrelevant(files, given, commit, HttpFull);
    RestOfChecks(files, a);
    assert Writer.ReportCommit(g) == NormalizeCommit(commit);
    FullGateServes(a, g);
    GateRunReachesLedger(files, a, "out", g, w);
    SampleIsSafe(commit);
  }

  lemma SampleIsSafe(commit: string)
    requires Contract.Passed(FullGate(commit), GoodWorld(commit))
    requires NormalizeCommit(commit) == commit
    ensures SamplesFit(map["g" := Contract.ReportOf(FullGate(commit), GoodWorld(commit))], "g", commit)
    ensures SamplesFit(GatedFiles(commit), "g", commit)
  {
    var g, w := FullGate(commit), GoodWorld(commit);
    Contract.PassedIsClean(g, w);
    OneCell(commit);
    hide Contract.Passed;
    hide Contract.ReportOf;
    hide NormalizeCommit;
    hide Writer.Cells;
    hide EveryFile;
    assert Writer.ReportCommit(g) == commit;
    hide Writer.ReportCommit;
  }

  /** Such a release always re-checks clean, and can serve as a baseline if and
      only if its commit was given without a prefix or blanks. */
  lemma SpellingDecidesBaseline(given: string, now: nat) returns (files: Files, a: Args)
    requires IsFullSha(NormalizeCommit(given))
    ensures a.commit == given && ReportPassed(files, a, "out")
    ensures AppendAccepts(Reported(files, a, "out"), WithEvidence(a, "out"))
    ensures EvidenceFailures(Reported(files, a, "out"), Line(files, a, "out")) == []
    ensures MaintenanceSpec.BaselinePasses(
              [Recorded(files, a, "out", now)], Reported(files, a, "out"), NormalizeCommit(given)) <==>
            IsFullSha(Lower(given))
  {
    hide NormalizeCommit;
    hide IsFullSha;
    hide Lower;
    hide EvidenceFailures;
    hide AppendAccepts;
    hide ReportPassed;
    hide SamplesFit;
    hide MaintenanceSpec.BaselinePasses;
    hide CarriesGate;
    hide BaselineOf;
    hide Reported;
    var g, w;
    files, a, g, w := GatedReleaseExists(given);
    ShaLength(NormalizeCommit(given));
    ServesAlone(files, a, "out", now);
  }

  lemma ServesAlone(files: Files, a: Args, out: string, now: nat)
    requires Released(files, a, out) && a.shadowEvidenceCommit == "" && a.mode == "http"
    requires IsFullSha(NormalizeCommit(a.commit)) && SamplesFit(files, a.releaseGateJson, NormalizeCommit(a.commit))
    ensures BaselineOf(files, a).Some?
    ensures MaintenanceSpec.BaselinePasses(
              [Recorded(files, a, out, now)], Reported(files, a, out), NormalizeCommit(a.commit)) <==>
            IsFullSha(Lower(a.commit))
  {
    hide NormalizeCommit;
    hide IsFullSha;
    hide Settled;
    hide ReportPassed;
    hide SamplesFit;
    hide MaintenanceSpec.BaselinePasses;
    hide BaselineOf;
    hide Reported;
    hide Lower;
    ReleasedSuccess(files, a, out);
    FullShaIsSettled(NormalizeCommit(a.commit));
    HttpIsLower();
    var line := Recorded(files, a, out, now);
    assert [] + [line] == [line];
    AloneIsLater(files, a, out, now);
    ServesAsBaselineExactly([], files, a, out, now);
  }

  lemma HttpIsLower()
    ensures Lower("http") == "http"
  {
    LowerOf("http");
  }

  lemma AloneIsLater(files: Files, a: Args, out: string, now: nat)
    requires Released(files, a, out)
    ensures AuditBounds.LaterSuccess([], a.commit, Recorded(files, a, out, now))
  {
    hide BaselineOf;
    hide NormalizeCommit;
    hide Lower;
    hide StageReportFailures;
    StoredCommit(files, a, out, now);
    hide Recorded;
  }

  /** Forty digits behind `sha-`: recorded and clean, and never a baseline. */
  lemma PrefixedReleaseNeverServes(commit: string, now: nat) returns (files: Files, a: Args)
    requires IsFullSha(commit)
    ensures a.commit == SHA_PREFIX + commit
    ensures ReportPassed(files, a, "out") && NormalizeCommit(a.commit) == commit
    ensures EvidenceFailures(Reported(files, a, "out"), Line(files, a, "out")) == []
    ensures !MaintenanceSpec.BaselinePasses([Recorded(files, a, "out", now)], Reported(files, a, "out"), commit)
  {
    PrefixNormalizes(commit);
    hide IsFullSha;
    hide NormalizeCommit;
    hide Lower;
    hide ReportPassed;
    hide EvidenceFailures;
    hide AppendAccepts;
    hide MaintenanceSpec.BaselinePasses;
    hide BaselineOf;
    hide Reported;
    files, a := SpellingDecidesBaseline(SHA_PREFIX + commit, now);
  }

  lemma PrefixNormalizes(commit: string)
    requires IsFullSha(commit)
    ensures NormalizeCommit(SHA_PREFIX + commit) == commit
    ensures !IsFullSha(Lower(SHA_PREFIX + commit))
  {
    var given := SHA_PREFIX + commit;
    FullShaIsSettled(commit);
    assert IsHexDigit(commit[39]);
    StripOf(given);
    LowerOf(SHA_PREFIX);
    assert given[..4] == SHA_PREFIX && given[4..] == commit;
    hide Strip;
    hide Lower;
  }
}
