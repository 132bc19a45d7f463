/** Which recorded releases can serve as the baseline of a maintenance
    release: `append` stores a commit as given, `maintenance-baseline` looks
    the normalised commit up. */
module BaselineFitness {
  import opened Text
  import opened Evidence
  import opened Ledger
  import opened ThreeGates
  import opened MaintenanceSpec
  import opened AuditBounds

  /** Samples exist, and each is safe and taken for `shadow`. */
  predicate SamplesFit(files: Files, path: string, shadow: string) {
    && path in files && files[path].shadowChecks != []
    && forall c | c in files[path].shadowChecks :: ShadowCheckSafe(c, shadow)
  }

  /** The line `append` writes for the reported release. */
  function Recorded(files: Files, a: Args, out: string, now: nat): Entry
    requires BaselineOf(files, a).Some?
  {
    Entry(Some(now), Line(files, a, out))
  }

  /** A reported full-http release, with its gate, that `append` accepts. */
  predicate Released(files: Files, a: Args, out: string) {
    && a.stage == HttpFull && a.releaseGateRequired
    && ReportPassed(files, a, out) && NormalizeCommit(a.commit) != ""
  }

  // ------------------------------------------------------------- stage evidence

  lemma ReportFields(files: Files, a: Args, out: string)
    requires Released(files, a, out)
    ensures out in Reported(files, a, out) && out != ""
    ensures var p := Reported(files, a, out)[out];
      && p.verdict == "pass" && p.stage == HttpFull && p.status == Success && p.mode == a.mode
      && p.commit == Lower(a.commit) && p.mapFallbackDisabled && p.clean
  {
    hide RouterAudit;
    hide StageChecksHold;
    hide FailingChecks;
    hide ValidatedBaseline;
    hide PathsOf;
    hide NormalizeCommit;
    hide Lower;
    hide Strip;
    hide ShadowCommitOf;
    ReportChecksSplit(files, a, BaselineOf(files, a).value != "");
  }

  /** The stage report is fit as baseline evidence exactly for mode http. */
  lemma ReportFitExactly(files: Files, a: Args, out: string)
    requires Released(files, a, out)
    ensures StageEvidenceFit(Reported(files, a, out), out, NormalizeCommit(a.commit)) <==> Lower(a.mode) == "http"
  {
    hide Lower;
    hide NormalizeCommit;
    hide Reported;
    hide BaselineOf;
    hide Released;
    ReleasedSuccess(files, a, out);
    ReportFields(files, a, out);
    NormalizeAfterLower(a.commit);
    PassIsLower();
  }

  /** The shadow commit the audit reads off that report. */
  lemma OriginOfReport(files: Files, a: Args, out: string)
    requires Released(files, a, out)
    ensures
      var n := NormalizeCommit(ShadowCommitOf(a));
      n != "" && Settled(n) ==> ShadowOrigin(Reported(files, a, out), out, NormalizeCommit(a.commit)) == n
  {
    hide Settled;
    hide ValidatedBaseline;
    hide StageReportFailures;
    hide PathsOf;
    hide NormalizeCommit;
    hide Lower;
    EmptyNormalizes();
    NormalizeAfterLower(a.commit);
    NormalizeTwice(ShadowCommitOf(a));
    PassIsLower();
  }

  lemma PassIsLower()
    ensures Lower("pass") == "pass"
  {
  }

  // ------------------------------------------------------------------- its gate

  lemma GateWasRead(files: Files, a: Args, out: string)
    requires Released(files, a, out)
    ensures ReleaseGate(files, a.releaseGateJson, ShadowCommitOf(a), true, AllowAll(BaselineOf(files, a).value != ""))
    ensures a.releaseGateJson != out
  {
    hide RouterAudit;
    hide FailingChecks;
    hide ValidatedBaseline;
    hide NormalizeCommit;
    hide ReleaseGate;
    hide Holds;
    hide StageChecks;
    hide ShadowCommitOf;
    ReportChecksSplit(files, a, BaselineOf(files, a).value != "");
    GateIsChecked(a);
    GateHolds(files, a, BaselineOf(files, a).value != "");
  }

  lemma GateIsChecked(a: Args)
    requires a.stage == HttpFull && a.releaseGateRequired
    ensures (ReleaseGateCheck, true) in StageChecks(a)
  {
    assert StageChecks(a)[4] == (ReleaseGateCheck, true);
  }

  lemma GateHolds(files: Files, a: Args, maintenance: bool)
    requires a.stage == HttpFull
    ensures Holds(files, a, ReleaseGateCheck, a.commit, ShadowCommitOf(a), maintenance)
         == ReleaseGate(files, a.releaseGateJson, ShadowCommitOf(a), true, AllowAll(maintenance))
  {
    hide ReleaseGate;
  }

  /** A gate report that was read for `given` is fit for an origin exactly when
      the origin is the settled form of `given` and its samples are safe. */
  lemma GateFitExactly(files: Files, now: Files, path: string, given: string, origin: string, maintenance: bool)
    requires ReleaseGate(files, path, given, true, AllowAll(maintenance))
    requires path in now && now[path] == files[path]
    ensures
      var n := NormalizeCommit(given);
      GateFit(now, path, origin) <==> origin == n && Settled(n) && SamplesFit(files, path, n)
  {
    hide Settled;
    hide ConfigPartOk;
    hide RuntimePartOk;
    hide Lower;
    EmptyNormalizes();
    NormalizeTwice(given);
    hide NormalizeCommit;
    AllowancesGrow(files[path], maintenance);
    SafeMeansCommit(files[path], NormalizeCommit(given));
    hide ShadowCheckSafe;
  }

  lemma AllowancesGrow(p: Payload, maintenance: bool)
    ensures ConfigPartOk(p.config, maintenance) ==> ConfigPartOk(p.config, true)
    ensures RuntimePartOk(p.runtime, maintenance) ==> RuntimePartOk(p.runtime, true)
  {
    hide Lower;
  }

  lemma SafeMeansCommit(p: Payload, shadow: string)
    ensures (forall c | c in p.shadowChecks :: ShadowCheckSafe(c, shadow)) ==>
              forall c | c in p.shadowChecks :: NormalizeCommit(c.releaseCommit) == shadow
  {
    hide NormalizeCommit;
  }

  // ------------------------------------------------------------------ the lookup

  lemma StoredCommit(files: Files, a: Args, out: string, now: nat)
    requires BaselineOf(files, a).Some?
    ensures
      var e, c := Recorded(files, a, out, now), NormalizeCommit(a.commit);
      && e.recordedAt == Some(now) && e.rec.stage == a.stage && e.rec.status == a.status
      && e.rec.evidenceJson == out && e.rec.releaseGateJson == a.releaseGateJson
      && Lower(e.rec.commit) == Lower(a.commit) && Lower(c) == c
      && (IsFullSha(Lower(a.commit)) ==> c == Lower(a.commit))
  {
    LowerIdempotent(a.commit);
    var raw := Strip(a.commit);
    LowerIdempotent(if HasShaPrefix(raw) then raw[4..] else raw);
    NormalizeAfterLower(a.commit);
    if IsFullSha(Lower(a.commit)) { FullShaIsSettled(Lower(a.commit)); }
    hide Lower;
    hide Strip;
    hide IsFullSha;
    hide ValidatedBaseline;
  }

  lemma ReleasedSuccess(files: Files, a: Args, out: string)
    requires Released(files, a, out)
    ensures BaselineOf(files, a).Some? && a.stage == HttpFull && a.status == Success
  {
    hide BaselineOf;
    hide StageReportFailures;
    hide NormalizeCommit;
    hide PathsOf;
  }

  /** The baseline audit finds the release's own line exactly when the commit
      was given in its normalised spelling, up to case. */
  lemma OwnLineFound(entries: seq<Entry>, files: Files, a: Args, out: string, now: nat)
    requires Released(files, a, out)
    requires LaterSuccess(entries, a.commit, Recorded(files, a, out, now))
    requires Lower(a.commit) != NormalizeCommit(a.commit) ==> !Successful(entries, NormalizeCommit(a.commit), HttpFull)
    ensures
      var e, c := Recorded(files, a, out, now), NormalizeCommit(a.commit);
      LatestSuccess(entries + [e], c, HttpFull) == if Lower(a.commit) == c then Some(e) else None
  {
    hide Recorded;
    hide NormalizeCommit;
    hide Lower;
    hide ReportPassed;
    hide BaselineOf;
    hide LatestSuccess;
    hide IsFullSha;
    ReleasedSuccess(files, a, out);
    hide Released;
    var e, c := Recorded(files, a, out, now), NormalizeCommit(a.commit);
    StoredCommit(files, a, out, now);
    if Lower(a.commit) == c {
      assert LaterSuccess(entries, c, e);
      LatestAfterAgain(entries, c, e, HttpFull);
    } else {
      assert !SuccessOf(e, c, HttpFull);
      assert !Successful(entries + [e], c, HttpFull);
    }
  }

  /** Which recorded releases can serve: exactly those recorded for a complete
      commit in its own spelling and in mode http, whose gate was read for a
      settled commit and holds safe samples of it. The other condition is that
      no older success stands in for a release recorded under another spelling. */
  lemma ServesAsBaselineExactly(entries: seq<Entry>, files: Files, a: Args, out: string, now: nat)
    requires Released(files, a, out)
    requires LaterSuccess(entries, a.commit, Recorded(files, a, out, now))
    requires Lower(a.commit) != NormalizeCommit(a.commit) ==> !Successful(entries, NormalizeCommit(a.commit), HttpFull)
    ensures
      var c, n := NormalizeCommit(a.commit), NormalizeCommit(ShadowCommitOf(a));
      IsFullSha(c) && BaselinePasses(entries + [Recorded(files, a, out, now)], Reported(files, a, out), c) <==>
        && IsFullSha(Lower(a.commit)) && Lower(a.mode) == "http"
        && Settled(n) && SamplesFit(files, a.releaseGateJson, n)
  {
    hide Recorded;
    hide NormalizeCommit;
    hide Lower;
    hide Released;
    hide Reported;
    hide BaselineOf;
    hide LatestSuccess;
    hide Settled;
    hide SamplesFit;
    hide IsFullSha;
    hide StageEvidenceFit;
    hide GateFit;
    hide ShadowOrigin;
    hide ShadowCommitOf;
    hide LaterSuccess;
    hide LaterNegative;
    ReleasedSuccess(files, a, out);
    var e, c := Recorded(files, a, out, now), NormalizeCommit(a.commit);
    OwnLineFound(entries, files, a, out, now);
    StoredCommit(files, a, out, now);
    ReportFitExactly(files, a, out);
    OriginOfReport(files, a, out);
    GateOfReport(files, a, out, ShadowOrigin(Reported(files, a, out), out, c));
    NothingLater(entries, a.commit, c, e);
  }

  lemma NothingLater(entries: seq<Entry>, commit: string, c: string, e: Entry)
    requires LaterSuccess(entries, commit, e)
    ensures forall x | x in entries + [e] :: !LaterNegative(x, c, e.recordedAt.value)
  {
    hide Lower;
    forall x | x in entries + [e] ensures !LaterNegative(x, c, e.recordedAt.value) {
      assert x in entries || x == e;
    }
  }

  lemma GateOfReport(files: Files, a: Args, out: string, origin: string)
    requires Released(files, a, out)
    ensures
      var n := NormalizeCommit(ShadowCommitOf(a));
      && n != ""
      && (GateFit(Reported(files, a, out), a.releaseGateJson, origin) <==>
            origin == n && Settled(n) && SamplesFit(files, a.releaseGateJson, n))
  {
    GateWasRead(files, a, out);
    GateFitExactly(files, Reported(files, a, out), a.releaseGateJson, ShadowCommitOf(a), origin,
      BaselineOf(files, a).value != "");
    hide GateFit;
    hide NormalizeCommit;
    hide Settled;
    hide SamplesFit;
    hide ShadowCommitOf;
    hide ReportPassed;
    hide BaselineOf;
    hide ConfigPartOk;
    hide RuntimePartOk;
    hide ShadowPartOk;
  }
}
