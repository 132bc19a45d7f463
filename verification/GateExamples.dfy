/** Concrete releases on which the three gates disagree. */
module GateExamples {
  import opened Text
  import opened Evidence
  import opened Ledger
  import opened ThreeGates

  const SELF_TEST := RouteSelfTest(true, PROTOCOLS, "ok", "dry-run", Some(false), Some(4), Some(4))

  /** One file that serves as static audit, preflight and serving probe. */
  function OneFile(commit: string): Payload {
    EMPTY_PAYLOAD.(
      verdict := "pass",
      mode := "start",
      scope := "static-code-and-document-evidence",
      targetComplete := Some(false),
      runtimeEvidenceComplete := Some(false),
      remainingRuntimeGates := PENDING_LEDGER,
      expectedCommit := commit,
      routeSelfTest := Some(SELF_TEST))
  }

  function MainSha(): string {
    seq(40, i requires 0 <= i < 40 => 'a')
  }

  /** A shadow start without optional evidence. */
  function PlainArgs(stage: Stage, commit: string): Args {
    Args(stage, Success, commit, "shadow", false, "", "", false, "", "", "", "e", "", false, "", false, "", false,
      "e", "", false, "", false, "", false, "", "", "e", "", false, false, "main", MainSha(), false, "")
  }

  lemma StripOf(s: string)
    requires s == "" || (!IsSpace(s[0]) && !IsSpace(s[|s| - 1]))
    ensures Strip(s) == s
  {
    StripShape(s);
  }

  lemma LowerOf(s: string)
    requires forall i | 0 <= i < |s| :: !('A' <= s[i] <= 'Z')
    ensures Lower(s) == s
  {
  }

  lemma PlainBaseline(stage: Stage, commit: string, files: Files)
    ensures BaselineOf(files, PlainArgs(stage, commit)) == Some("")
  {
    EmptyNormalizes();
  }

  lemma OneFileAudited(commit: string)
    ensures RouterAudit(map["e" := OneFile(commit)], "e")
  {
    LowerOf("pass");
    StripOf("static-code-and-document-evidence");
  }

  /** A rehearsal for the commit `sha-` has a passing stage report that
      `append` refuses. */
  lemma BarePrefixRefused()
    ensures
      var files, a := map["e" := OneFile("sha-")], PlainArgs(RollbackRehearsal, "sha-");
      ReportPassed(files, a, "out") && !AppendAccepts(Reported(files, a, "out"), WithEvidence(a, "out"))
  {
    hide NormalizeCommit;
    hide StageReportFailures;
    hide AppendAccepts;
    hide ValidatedBaseline;
    var files, a := map["e" := OneFile("sha-")], PlainArgs(RollbackRehearsal, "sha-");
    PlainBaseline(RollbackRehearsal, "sha-", files);
    BarePrefixReportPasses();
    BarePrefixNormalizes();
    AppendTakesPassingReport(files, a, "out");
  }

  lemma BarePrefixReportPasses()
    ensures StageReportFailures(map["e" := OneFile("sha-")], PlainArgs(RollbackRehearsal, "sha-")) == []
  {
    hide RouterAudit;
    hide FailingChecks;
    hide ValidatedBaseline;
    var files, a := map["e" := OneFile("sha-")], PlainArgs(RollbackRehearsal, "sha-");
    PlainBaseline(RollbackRehearsal, "sha-", files);
    OneFileAudited("sha-");
    var all := ReportChecks(a);
    forall c | c in all && c.1 ensures Holds(files, a, c.0, a.commit, ShadowCommitOf(a), false) {
      assert c.0 in {MapFallbackExit, RouterAuditCheck};
    }
    assert FailingChecks(files, a, false, all) == [];
  }

  lemma BarePrefixNormalizes()
    ensures NormalizeCommit("sha-") == ""
  {
    StripOf("sha-");
    assert "sha-"[..4] == "sha-";
    LowerOf("sha-");
  }

  /** A shadow start for the commit `sha-sha-x` has a passing stage report
      that `append` records; the recorded line then fails its re-check. */
  lemma DoublePrefixFailsRecheck()
    ensures
      var files, a := map["e" := OneFile("sha-sha-x")], PlainArgs(ShadowStart, "sha-sha-x");
      && ReportPassed(files, a, "out")
      && AppendAccepts(Reported(files, a, "out"), WithEvidence(a, "out"))
      && EvidenceFailures(Reported(files, a, "out"), Line(files, a, "out")) != []
  {
    hide NormalizeCommit;
    hide EvidenceFailures;
    hide StageReportFailures;
    var files, a := map["e" := OneFile("sha-sha-x")], PlainArgs(ShadowStart, "sha-sha-x");
    PlainBaseline(ShadowStart, "sha-sha-x", files);
    NormalizeNotIdempotent();
    PlainReportPasses("sha-sha-x");
    NormalizeTwice("sha-sha-x");
    AppendTakesPassingReport(files, a, "out");
    StoredLineRechecksClean(files, a, "out");
  }

  /** A plain shadow start passes its stage report for any commit that is not
      empty once normalised. */
  lemma PlainReportPasses(commit: string)
    requires NormalizeCommit(commit) != ""
    ensures StageReportFailures(map["e" := OneFile(commit)], PlainArgs(ShadowStart, commit)) == []
  {
    hide NormalizeCommit;
    hide RouterAudit;
    hide ServingProbe;
    hide ProdPreflight;
    hide FailingChecks;
    hide ValidatedBaseline;
    var files, a := map["e" := OneFile(commit)], PlainArgs(ShadowStart, commit);
    PlainBaseline(ShadowStart, commit, files);
    OneFileAudited(commit);
    OneFileProbe(commit);
    var all := ReportChecks(a);
    forall c | c in all && c.1 ensures Holds(files, a, c.0, a.commit, ShadowCommitOf(a), false) {
      assert c.0 in {MapFallbackExit, RouterAuditCheck, PreflightGate, ProbeCheck};
    }
    assert FailingChecks(files, a, false, all) == [];
  }

  lemma OneFileProbe(commit: string)
    requires NormalizeCommit(commit) != ""
    ensures var files := map["e" := OneFile(commit)];
      ServingProbe(files, "e", commit) && ProdPreflight(files, "e", commit, ShadowStart)
  {
    hide NormalizeCommit;
    SelfTestValid();
    hide RouteSelfTestValid;
    LowerOf("pass"); LowerOf("start");
    StripOf("start");
  }

  lemma SelfTestValid()
    ensures RouteSelfTestValid(SELF_TEST)
  {
    LowerOf("ok"); LowerOf("dry-run");
    StripOf("ok"); StripOf("dry-run");
    forall p | p in PROTOCOLS ensures Strip(p) == p { StripOf(p); }
    assert PROTOCOLS <= (set p | p in PROTOCOLS :: Strip(p)) by {
      forall p | p in PROTOCOLS ensures p in (set q | q in PROTOCOLS :: Strip(q)) { assert Strip(p) == p; }
    }
  }
}
