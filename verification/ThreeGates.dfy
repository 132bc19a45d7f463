/** `stage-report`, `append` and the re-check of a stored entry are three
    separate implementations of one demand. This module says exactly when a
    release that satisfies the first satisfies the other two. */
module ThreeGates {
  import opened Text
  import opened Evidence
  import opened Ledger

  function PathsOf(a: Args): set<string> {
    {a.releaseGateJson, a.maintenanceBaselineJson, a.prodPreflightJson, a.prodHealthJson, a.upstreamJson,
     a.providerAuditJson, a.routerAuditJson, a.protocolCanaryJson, a.videoCanaryJson, a.asrCanaryJson,
     a.configAuthorityJson, a.externalBackupJson, a.servingProbeJson, a.smokeJson}
  }

  /** `stage-report` passed for these arguments and wrote its report to a path
      of its own. */
  predicate ReportPassed(files: Files, a: Args, out: string) {
    && a.status == Success
    && out != "" && out !in PathsOf(a)
    && BaselineOf(files, a).Some?
    && StageReportFailures(files, a) == []
  }

  /** The files after that report was written. */
  function Reported(files: Files, a: Args, out: string): Files
    requires BaselineOf(files, a).Some?
  {
    files[out := ReportPayload(a, BaselineOf(files, a).value, [])]
  }

  /** The same arguments, with the report as stage evidence. */
  function WithEvidence(a: Args, out: string): Args {
    a.(evidenceJson := out)
  }

  /** The line `append` would write for them. */
  function Line(files: Files, a: Args, out: string): Args
    requires BaselineOf(files, a).Some?
  {
    StoredArgs(WithEvidence(a, out), BaselineOf(files, a).value)
  }

  // ------------------------------------------------------ files unchanged

  lemma PassingElsewhere(files: Files, out: string, p: Payload, path: string)
    requires path != out
    ensures Passing(files[out := p], path) == Passing(files, path)
    ensures Passing(files, path) ==> files[out := p][path] == files[path]
  {
  }

  lemma HoldsElsewhere(
    files: Files, a: Args, out: string, p: Payload, k: Check, commit: string, shadow: string, maintenance: bool)
    requires out !in PathsOf(a)
    ensures Holds(files[out := p], WithEvidence(a, out), k, commit, shadow, maintenance)
         == Holds(files, a, k, commit, shadow, maintenance)
  {
    hide RouteSelfTestValid;
    hide RowsPass;
    hide PreflightRouteOk;
    hide GateAccepts;
    hide NormalizeCommit;
    hide Contains;
  }

  lemma BaselineElsewhere(
    files: Files, out: string, p: Payload, base: string, json: string, shadow: string, stage: Stage, commit: string)
    requires json != out
    ensures ValidatedBaseline(files[out := p], base, json, shadow, stage, commit)
         == ValidatedBaseline(files, base, json, shadow, stage, commit)
  {
    hide NormalizeCommit;
    hide IsFullSha;
  }

  // ------------------------------------------------------------- append

  lemma ReportChecksSplit(files: Files, a: Args, maintenance: bool)
    requires FailingChecks(files, a, maintenance, ReportChecks(a)) == []
    ensures FallbackExitOk(a) && RouterAudit(files, a.routerAuditJson)
    ensures StageChecksHold(files, a, a.commit, ShadowCommitOf(a), maintenance)
  {
    hide RouterAudit;
    hide StageChecks;
    hide FailingChecks;
    var all := ReportChecks(a);
    assert all[0] in all && all[1] in all;
    forall c | c in StageChecks(a) ensures c in all {
      var i :| 0 <= i < |StageChecks(a)| && StageChecks(a)[i] == c;
      assert all[i + 2] == c;
    }
  }

  /** `append` takes a passing report as evidence exactly when the release
      commit is not empty once normalised. */
  lemma AppendTakesPassingReport(files: Files, a: Args, out: string)
    requires ReportPassed(files, a, out)
    ensures AppendAccepts(Reported(files, a, out), WithEvidence(a, out)) <==> NormalizeCommit(a.commit) != ""
  {
    hide Holds;
    hide RouterAudit;
    hide StageChecks;
    hide NormalizeCommit;
    hide ValidatedBaseline;
    hide FailingChecks;
    hide Lower;
    var baseline := BaselineOf(files, a).value;
    var report := ReportPayload(a, baseline, []);
    var now, b := Reported(files, a, out), WithEvidence(a, out);
    BaselineElsewhere(files, out, report, a.maintenanceBaselineCommit, a.maintenanceBaselineJson,
      a.shadowEvidenceCommit, a.stage, a.commit);
    ReportChecksSplit(files, a, baseline != "");
    assert RouterAudit(now, a.routerAuditJson) by { RouterElsewhere(files, a, out, report); }
    assert StageChecksHold(now, b, b.commit, ShadowCommitOf(b), baseline != "") by {
      SameStageChecks(a, out);
      forall c | c in StageChecks(b) && c.1
        ensures Holds(now, b, c.0, b.commit, ShadowCommitOf(b), baseline != "")
      {
        HoldsElsewhere(files, a, out, report, c.0, a.commit, ShadowCommitOf(a), baseline != "");
      }
    }
    ReportIsEvidence(files, a, out);
  }

  lemma SameStageChecks(a: Args, out: string)
    ensures StageChecks(WithEvidence(a, out)) == StageChecks(a)
    ensures RecheckChecks(WithEvidence(a, out)) == RecheckChecks(a)
  {
    hide ChecksFor;
    hide RecheckOrder;
  }

  lemma RouterElsewhere(files: Files, a: Args, out: string, p: Payload)
    requires out !in PathsOf(a)
    ensures RouterAudit(files[out := p], a.routerAuditJson) == RouterAudit(files, a.routerAuditJson)
  {
  }

  lemma ReportIsEvidence(files: Files, a: Args, out: string)
    requires BaselineOf(files, a).Some? && out != ""
    ensures StageEvidenceForCommit(Reported(files, a, out), out, a.commit) <==> NormalizeCommit(a.commit) != ""
    ensures StageEvidenceMatches(Reported(files, a, out), Line(files, a, out)) <==> NormalizeCommit(a.commit) != ""
  {
    NormalizeAfterLower(a.commit);
    var report := ReportPayload(a, BaselineOf(files, a).value, []);
    assert report.verdict == "pass" && Lower("pass") == "pass";
    assert Reported(files, a, out)[out] == report;
  }

  // -------------------------------------------------------------- re-check

  /** What the caller can look at before recording: the commits that the
      re-check normalises a second time must already be settled. */
  predicate CommitsSettled(a: Args) {
    a.stage != RollbackRehearsal && a.stage != ConfigAuthorityStage ==>
      && Settled(NormalizeCommit(a.commit))
      && (a.releaseGateRequired ==> Settled(NormalizeCommit(ShadowCommitOf(a))))
  }

  predicate MainFieldsFilled(a: Args) {
    && Strip(a.mainRef) != ""
    && IsFullSha(Lower(Strip(a.mainSha)))
    && (a.outOfOrder ==> Strip(a.outOfOrderReason) != "")
  }

  /** The stored main fields read like the given ones. */
  lemma StoredMainFields(files: Files, a: Args, out: string)
    requires ReportPassed(files, a, out) && NormalizeCommit(a.commit) != ""
    ensures CommonClean(Reported(files, a, out), Line(files, a, out)) <==> MainFieldsFilled(a)
  {
    hide RouterAudit;
    hide StageEvidenceMatches;
    hide ValidatedBaseline;
    hide FailingChecks;
    hide NormalizeCommit;
    hide IsFullSha;
    hide Strip;
    hide Lower;
    ReportIsEvidence(files, a, out);
    ReportChecksSplit(files, a, BaselineOf(files, a).value != "");
    RouterElsewhere(files, a, out, ReportPayload(a, BaselineOf(files, a).value, []));
    StripLower(a.mainSha);
    LowerIdempotent(Strip(a.mainSha));
    StripShape(a.outOfOrderReason);
  }

  /** Checks that read the release commit agree on both spellings of it, or
      one of them fails. */
  lemma RecheckOfPlainCheck(files: Files, a: Args, out: string, k: Check)
    requires BaselineOf(files, a).Some? && out !in PathsOf(a) && k != ReleaseGateCheck
    requires Holds(files, a, k, a.commit, ShadowCommitOf(a), BaselineOf(files, a).value != "")
    ensures Settled(NormalizeCommit(a.commit)) ==> RecheckHolds(Reported(files, a, out), Line(files, a, out), k)
    ensures k == PreflightGate && RecheckHolds(Reported(files, a, out), Line(files, a, out), k) ==>
              Settled(NormalizeCommit(a.commit))
  {
    hide RouteSelfTestValid;
    hide RowsPass;
    hide PreflightRouteOk;
    hide GateAccepts;
    hide NormalizeCommit;
    hide Contains;
    hide ValidatedBaseline;
    hide Settled;
    hide Strip;
    var report := ReportPayload(a, BaselineOf(files, a).value, []);
    var e := Line(files, a, out);
    NormalizeAfterLower(a.commit);
    NormalizeTwice(a.commit);
    HoldsElsewhere(files, a, out, report, k, NormalizeCommit(a.commit), "", false);
    LineChecksAlike(files, a, out, Reported(files, a, out), k, NormalizeCommit(a.commit));
  }

  lemma LineChecksAlike(files: Files, a: Args, out: string, now: Files, k: Check, commit: string)
    requires BaselineOf(files, a).Some? && k != ReleaseGateCheck
    ensures Holds(now, Line(files, a, out), k, commit, "", false)
         == Holds(now, WithEvidence(a, out), k, commit, "", false)
  {
    hide RouterAudit;
    hide ExternalBackup;
    hide ConfigAuthorityApply;
    hide ProdPreflight;
    hide HealthPreflight;
    hide ServingProbe;
    hide Smoke;
    hide SmokeRouteMatrix;
    hide ProtocolCanary;
    hide ProviderAudit;
    hide ValidatedBaseline;
    hide NormalizeCommit;
    hide Lower;
    hide Strip;
  }

  /** The shadow commit the re-check reads the gate for. */
  lemma RecheckShadowIs(files: Files, a: Args, out: string)
    requires BaselineOf(files, a).Some?
    requires NormalizeCommit(ShadowCommitOf(a)) != "" && Settled(NormalizeCommit(a.commit))
    ensures
      var was := NormalizeCommit(ShadowCommitOf(a));
      var again := NormalizeCommit(RecheckShadow(Line(files, a, out)));
      && (Settled(was) ==> again == was)
      && (again == was ==> Settled(was))
  {
    hide Settled;
    hide ValidatedBaseline;
    hide Strip;
    var was := NormalizeCommit(ShadowCommitOf(a));
    NormalizeAfterLower(a.commit);
    NormalizeTwice(a.commit);
    NormalizeTwice(ShadowCommitOf(a));
    NormalizeTwice(was);
    hide NormalizeCommit;
    if a.shadowEvidenceCommit != "" {
      assert Line(files, a, out).shadowEvidenceCommit == was;
    } else {
      ShadowDefaults(files, a, out);
    }
  }

  lemma ShadowDefaults(files: Files, a: Args, out: string)
    requires BaselineOf(files, a).Some? && a.shadowEvidenceCommit == ""
    ensures Line(files, a, out).shadowEvidenceCommit == Lower(a.commit)
  {
    EmptyNormalizes();
  }

  lemma EmptyNormalizes()
    ensures NormalizeCommit("") == ""
  {
    assert StripLeft("") == "" && StripRight("") == "" && Strip("") == "";
  }

  /** A baseline validated once validates again from the stored line. */
  lemma RecheckBaselineIs(files: Files, a: Args, out: string)
    requires BaselineOf(files, a).Some? && out !in PathsOf(a)
    requires Settled(NormalizeCommit(a.commit)) && Settled(NormalizeCommit(ShadowCommitOf(a)))
    requires NormalizeCommit(ShadowCommitOf(a)) != ""
    ensures RecheckBaseline(Reported(files, a, out), Line(files, a, out)) == BaselineOf(files, a)
  {
    hide Settled;
    hide IsFullSha;
    hide Strip;
    var base := BaselineOf(files, a).value;
    var e := Line(files, a, out);
    EmptyNormalizes();
    NormalizeAfterLower(a.commit);
    NormalizeTwice(a.commit);
    RecheckShadowIs(files, a, out);
    if base != "" { BaselineSettled(files, a); }
    hide NormalizeCommit;
    BaselineElsewhere(files, out, ReportPayload(a, base, []), e.maintenanceBaselineCommit,
      e.maintenanceBaselineJson, RecheckShadow(e), e.stage, NormalizeCommit(e.commit));
  }

  lemma BaselineSettled(files: Files, a: Args)
    requires BaselineOf(files, a).Some? && BaselineOf(files, a).value != ""
    ensures NormalizeCommit(BaselineOf(files, a).value) == BaselineOf(files, a).value
    ensures a.shadowEvidenceCommit != ""
  {
    hide NormalizeCommit;
    FullShaIsSettled(BaselineOf(files, a).value);
    EmptyNormalizes();
  }

  lemma RecheckOfGate(files: Files, a: Args, out: string)
    requires BaselineOf(files, a).Some? && out !in PathsOf(a)
    requires Settled(NormalizeCommit(a.commit))
    requires Holds(files, a, ReleaseGateCheck, a.commit, ShadowCommitOf(a), BaselineOf(files, a).value != "")
    ensures RecheckHolds(Reported(files, a, out), Line(files, a, out), ReleaseGateCheck) <==>
            Settled(NormalizeCommit(ShadowCommitOf(a)))
  {
    hide ShadowPartOk;
    hide ConfigPartOk;
    hide RuntimePartOk;
    hide NormalizeCommit;
    hide Settled;
    hide ValidatedBaseline;
    hide RecheckBaseline;
    hide RecheckShadow;
    hide Lower;
    RecheckShadowIs(files, a, out);
    if Settled(NormalizeCommit(ShadowCommitOf(a))) { RecheckBaselineIs(files, a, out); }
    PassingElsewhere(files, out, ReportPayload(a, BaselineOf(files, a).value, []), a.releaseGateJson);
  }

  /** A recorded success re-checks clean exactly when its main ref is filled,
      its main sha is a full commit, an override carries a reason, and its
      commits are settled. */
  lemma StoredLineRechecksClean(files: Files, a: Args, out: string)
    requires ReportPassed(files, a, out) && NormalizeCommit(a.commit) != ""
    ensures EvidenceFailures(Reported(files, a, out), Line(files, a, out)) == [] <==>
            MainFieldsFilled(a) && CommitsSettled(a)
  {
    hide CommonClean;
    hide MainFieldsFilled;
    hide EvidenceFailures;
    StoredMainFields(files, a, out);
    StageSpecificRecheck(files, a, out);
  }

  lemma StageSpecificRecheck(files: Files, a: Args, out: string)
    requires ReportPassed(files, a, out) && NormalizeCommit(a.commit) != ""
    ensures (forall c | c in RecheckChecks(Line(files, a, out)) :: c.1 ==>
              RecheckHolds(Reported(files, a, out), Line(files, a, out), c.0)) <==> CommitsSettled(a)
  {
    hide Holds;
    hide RecheckHolds;
    hide Settled;
    hide NormalizeCommit;
    hide ValidatedBaseline;
    hide FailingChecks;
    hide Reported;
    hide Lower;
    hide Strip;
    hide ChecksFor;
    hide RecheckOrder;
    ReportChecksSplit(files, a, BaselineOf(files, a).value != "");
    var checks := RecheckChecks(a);
    LineHasSameChecks(files, a, out);
    RecheckMembers(a.stage, SwitchesOf(a));
    hide Line;
    hide PathsOf;
    if a.stage == RollbackRehearsal {
    } else if a.stage == ConfigAuthorityStage {
      BackupAndApply(files, a, out);
    } else {
      CommitBoundRecheck(files, a, out, checks);
    }
  }

  lemma LineHasSameChecks(files: Files, a: Args, out: string)
    requires BaselineOf(files, a).Some?
    ensures RecheckChecks(Line(files, a, out)) == RecheckChecks(a)
  {
    hide RecheckOrder;
    hide ValidatedBaseline;
    hide NormalizeCommit;
    hide Lower;
    hide Strip;
  }

  /** Both orders list the same checks. */
  lemma RecheckMembers(stage: Stage, on: Switches)
    ensures forall c | c in RecheckOrder(stage, on) :: c in ChecksFor(stage, on)
    ensures stage == RollbackRehearsal ==> RecheckOrder(stage, on) == []
    ensures stage == ConfigAuthorityStage ==> RecheckOrder(stage, on) == [(BackupCheck, true), (ConfigApplyCheck, true)]
    ensures stage == ConfigAuthorityStage ==> ChecksFor(stage, on) == [(BackupCheck, true), (ConfigApplyCheck, true)]
    ensures stage != RollbackRehearsal && stage != ConfigAuthorityStage ==>
      && (PreflightGate, true) in RecheckOrder(stage, on)
      && (ReleaseGateCheck, on.gate) in RecheckOrder(stage, on)
      && forall c | c in RecheckOrder(stage, on) && c.0 == ReleaseGateCheck :: c.1 == on.gate
  {
    if stage != RollbackRehearsal && stage != ConfigAuthorityStage {
      GateSwapped(stage, on);
      MembersFromIndexes(ChecksFor(stage, on), RecheckOrder(stage, on), on.gate);
    }
  }

  lemma MembersFromIndexes(a: seq<(Check, bool)>, b: seq<(Check, bool)>, gate: bool)
    requires |a| == |b| == 10
    requires b[0] == (PreflightGate, true) && b[5] == (ReleaseGateCheck, gate)
    requires forall i | 0 <= i < 10 && i != 5 :: b[i].0 != ReleaseGateCheck
    requires forall i | 0 <= i < 10 :: b[i] == a[if i == 4 then 5 else if i == 5 then 4 else i]
    ensures forall c | c in b :: c in a
    ensures (PreflightGate, true) in b && (ReleaseGateCheck, gate) in b
    ensures forall c | c in b && c.0 == ReleaseGateCheck :: c.1 == gate
  {
  }

  lemma GateSwapped(stage: Stage, on: Switches)
    requires stage != RollbackRehearsal && stage != ConfigAuthorityStage
    ensures
      var a, b := ChecksFor(stage, on), RecheckOrder(stage, on);
      && |a| == |b| == 10
      && b[0] == (PreflightGate, true) && b[5] == (ReleaseGateCheck, on.gate)
      && (forall i | 0 <= i < 10 && i != 5 :: b[i].0 != ReleaseGateCheck)
      && forall i | 0 <= i < 10 :: b[i] == a[if i == 4 then 5 else if i == 5 then 4 else i]
  {
  }

  lemma CommitBoundRecheck(files: Files, a: Args, out: string, checks: seq<(Check, bool)>)
    requires BaselineOf(files, a).Some? && out !in PathsOf(a)
    requires forall c | c in checks :: c.1 ==>
      Holds(files, a, c.0, a.commit, ShadowCommitOf(a), BaselineOf(files, a).value != "")
    requires (PreflightGate, true) in checks && (ReleaseGateCheck, a.releaseGateRequired) in checks
    requires forall c | c in checks && c.0 == ReleaseGateCheck :: c.1 == a.releaseGateRequired
    ensures (forall c | c in checks :: c.1 ==> RecheckHolds(Reported(files, a, out), Line(files, a, out), c.0)) <==>
      && Settled(NormalizeCommit(a.commit))
      && (a.releaseGateRequired ==> Settled(NormalizeCommit(ShadowCommitOf(a))))
  {
    hide Holds;
    hide RecheckHolds;
    hide Settled;
    hide NormalizeCommit;
    hide ValidatedBaseline;
    hide Reported;
    hide Line;
    hide PathsOf;
    RecheckOfPlainCheck(files, a, out, PreflightGate);
    if Settled(NormalizeCommit(a.commit)) {
      forall c | c in checks && c.1 && c.0 != ReleaseGateCheck
        ensures RecheckHolds(Reported(files, a, out), Line(files, a, out), c.0)
      {
        RecheckOfPlainCheck(files, a, out, c.0);
      }
      if a.releaseGateRequired { RecheckOfGate(files, a, out); }
    }
  }

  /** The config-authority checks never look at a commit. */
  lemma BackupAndApply(files: Files, a: Args, out: string)
    requires BaselineOf(files, a).Some? && out !in PathsOf(a)
    requires Holds(files, a, BackupCheck, a.commit, ShadowCommitOf(a), BaselineOf(files, a).value != "")
    requires Holds(files, a, ConfigApplyCheck, a.commit, ShadowCommitOf(a), BaselineOf(files, a).value != "")
    ensures RecheckHolds(Reported(files, a, out), Line(files, a, out), BackupCheck)
    ensures RecheckHolds(Reported(files, a, out), Line(files, a, out), ConfigApplyCheck)
  {
    hide NormalizeCommit;
    hide ValidatedBaseline;
    hide Lower;
    hide Strip;
  }

  /** With complete lower-case commits both conditions hold by themselves. */
  lemma FullShasAreSettled(a: Args)
    requires IsFullSha(NormalizeCommit(a.commit))
    requires a.shadowEvidenceCommit != "" ==> IsFullSha(NormalizeCommit(a.shadowEvidenceCommit))
    ensures NormalizeCommit(a.commit) != "" && CommitsSettled(a)
  {
    hide NormalizeCommit;
    FullShaIsSettled(NormalizeCommit(a.commit));
    if a.shadowEvidenceCommit != "" { FullShaIsSettled(NormalizeCommit(a.shadowEvidenceCommit)); }
  }
}
