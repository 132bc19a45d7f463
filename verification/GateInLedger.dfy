/** The release gate's report inside a ledger release: the contract between
    the two scripts, composed with the agreement of the ledger's own gates. */
module GateInLedger {
  import opened Text
  import opened Evidence
  import opened Ledger
  import opened ThreeGates
  import Writer = ReleaseGateWriter
  import Contract = GateContract

  /** The release names the report of the passing gate run `g` in world `w`. */
  predicate CarriesGate(files: Files, a: Args, g: Writer.GateArgs, w: Writer.World) {
    && Contract.Passed(g, w)
    && a.releaseGateJson != "" && a.releaseGateJson in files
    && files[a.releaseGateJson] == Contract.ReportOf(g, w)
  }

  /** What the gate run must have covered for a release of this stage, with or
      without a validated maintenance baseline. */
  predicate GateServes(a: Args, g: Writer.GateArgs, maintenance: bool) {
    var expected := NormalizeCommit(ShadowCommitOf(a));
    && expected != ""
    && NormalizeCommit(Writer.ReportCommit(g)) == expected
    && (if Writer.Cells(g) == [] then maintenance && g.minTotal == 0 && g.minPerApp == 0 else Settled(expected))
    && (a.stage == HttpFull ==> (g.requireConfig && g.requireRuntime) || maintenance)
  }

  /** Both `append` and `stage-report` take the gate run's report exactly when
      the run covered what the release needs. */
  lemma ReleaseTakesGate(files: Files, a: Args, g: Writer.GateArgs, w: Writer.World, maintenance: bool)
    requires CarriesGate(files, a, g, w)
    ensures Holds(files, a, ReleaseGateCheck, a.commit, ShadowCommitOf(a), maintenance) <==>
              GateServes(a, g, maintenance)
  {
    hide GateAccepts;
    hide NormalizeCommit;
    hide Settled;
    Contract.PassedIsClean(g, w);
    Contract.ReaderAcceptsExactly(g, w, ShadowCommitOf(a), a.stage == HttpFull, AllowAll(maintenance));
  }

  /** So does the re-check of the recorded line, when the commits involved are
      settled. */
  lemma RecheckTakesGate(files: Files, a: Args, out: string, g: Writer.GateArgs, w: Writer.World)
    requires CarriesGate(files, a, g, w)
    requires BaselineOf(files, a).Some? && out !in PathsOf(a)
    requires GateServes(a, g, BaselineOf(files, a).value != "")
    requires Settled(NormalizeCommit(a.commit))
    ensures RecheckHolds(Reported(files, a, out), Line(files, a, out), ReleaseGateCheck) <==>
              Settled(NormalizeCommit(ShadowCommitOf(a)))
  {
    hide Holds;
    hide RecheckHolds;
    hide Settled;
    hide NormalizeCommit;
    hide ValidatedBaseline;
    hide PathsOf;
    ReleaseTakesGate(files, a, g, w, BaselineOf(files, a).value != "");
    RecheckOfGate(files, a, out);
  }

  /** Everything a release needs besides its gate report. */
  predicate RestHolds(files: Files, a: Args) {
    && FallbackExitOk(a) && RouterAudit(files, a.routerAuditJson)
    && var baseline := BaselineOf(files, a);
    && forall c | c in StageChecks(a) && c.1 && c.0 != ReleaseGateCheck ::
         Holds(files, a, c.0, a.commit, ShadowCommitOf(a), baseline.Some? && baseline.value != "")
  }

  /** From gate run to clean ledger line: a release whose other evidence holds
      and whose gate run served it is reported as passing, taken by `append`,
      and stored as a line that re-checks clean. */
  lemma GateRunReachesLedger(files: Files, a: Args, out: string, g: Writer.GateArgs, w: Writer.World)
    requires CarriesGate(files, a, g, w) && a.releaseGateRequired && a.status == Success
    requires BaselineOf(files, a).Some? && out != "" && out !in PathsOf(a)
    requires RestHolds(files, a) && GateServes(a, g, BaselineOf(files, a).value != "")
    requires MainFieldsFilled(a) && CommitsSettled(a) && NormalizeCommit(a.commit) != ""
    ensures ReportPassed(files, a, out)
    ensures AppendAccepts(Reported(files, a, out), WithEvidence(a, out))
    ensures EvidenceFailures(Reported(files, a, out), Line(files, a, out)) == []
  {
    hide Holds;
    hide RouterAudit;
    hide AppendAccepts;
    hide EvidenceFailures;
    hide Settled;
    hide NormalizeCommit;
    hide ValidatedBaseline;
    hide MainFieldsFilled;
    hide CommitsSettled;
    hide PathsOf;
    hide Reported;
    hide Line;
    var maintenance := BaselineOf(files, a).value != "";
    ReleaseTakesGate(files, a, g, w, maintenance);
    assert ReportPassed(files, a, out) by { NothingFails(files, a, maintenance); }
    hide ReportPassed;
    AppendTakesPassingReport(files, a, out);
    StoredLineRechecksClean(files, a, out);
  }

  lemma NothingFails(files: Files, a: Args, maintenance: bool)
    requires FallbackExitOk(a) && RouterAudit(files, a.routerAuditJson)
    requires forall c | c in StageChecks(a) && c.1 :: Holds(files, a, c.0, a.commit, ShadowCommitOf(a), maintenance)
    ensures FailingChecks(files, a, maintenance, ReportChecks(a)) == []
  {
    hide StageChecks;
    hide RouterAudit;
    hide ShadowCommitOf;
    hide FailingChecks;
    forall c | c in ReportChecks(a) && c.1
      ensures Holds(files, a, c.0, a.commit, ShadowCommitOf(a), maintenance)
    {
      assert c == (MapFallbackExit, true) || c == (RouterAuditCheck, true) || c in StageChecks(a);
      if c !in StageChecks(a) { FirstTwo(files, a, c.0, maintenance); }
    }
  }

  lemma FirstTwo(files: Files, a: Args, k: Check, maintenance: bool)
    requires FallbackExitOk(a) && RouterAudit(files, a.routerAuditJson) && k in {MapFallbackExit, RouterAuditCheck}
    ensures Holds(files, a, k, a.commit, ShadowCommitOf(a), maintenance)
  {
    hide RouterAudit;
    hide FallbackExitOk;
  }

  /** The plain case: at `http-full` without a baseline, a full gate of the
      same settled commit serves the release. */
  lemma FullGateServes(a: Args, g: Writer.GateArgs)
    requires g.requireConfig && g.requireRuntime && !g.skipGlobal
    requires NormalizeCommit(Writer.ReportCommit(g)) == NormalizeCommit(ShadowCommitOf(a)) != ""
    requires Settled(NormalizeCommit(ShadowCommitOf(a)))
    ensures GateServes(a, g, false)
  {
    hide NormalizeCommit;
    hide Settled;
    assert Writer.Cells(g)[0] == Writer.Cell("global", "", g.minTotal);
  }
}
