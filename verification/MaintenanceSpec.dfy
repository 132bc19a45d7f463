/** `maintenance-baseline`: may a historical full-http release serve as the
    baseline of a maintenance release? And what a chain of such releases
    keeps. */
module MaintenanceSpec {
  import opened Text
  import opened Evidence
  import opened Ledger

  predicate StageEvidenceFit(files: Files, path: string, commit: string) {
    && Passing(files, path)
    && var p := files[path];
    && p.stage == HttpFull && p.status == Success
    && NormalizeCommit(p.commit) == commit
    && Lower(p.mode) == "http"
    && p.mapFallbackDisabled
    && p.clean
  }

  /** The commit whose shadow samples the baseline rests on. */
  function ShadowOrigin(files: Files, path: string, commit: string): string {
    var own := if Passing(files, path) then NormalizeCommit(files[path].shadowEvidenceCommit) else "";
    if own != "" then own else commit
  }

  predicate ShadowCheckSafe(c: ShadowCheck, shadow: string) {
    NormalizeCommit(c.releaseCommit) == shadow && c.critical == 0 && c.httpFail == 0 && c.ok
  }

  predicate GateFit(files: Files, path: string, shadow: string) {
    && Passing(files, path)
    && var p := files[path];
    && NormalizeCommit(if p.shadowReleaseCommit != "" then p.shadowReleaseCommit else p.expectedCommit) == shadow
    && p.shadowChecks != []
    && (forall c | c in p.shadowChecks :: ShadowCheckSafe(c, shadow))
    && ReleaseGate(files, path, shadow, true, Allowances(true, true, false))
  }

  /** What a passing `maintenance-baseline` audit of `commit` says. */
  predicate BaselinePasses(entries: seq<Entry>, files: Files, commit: string) {
    var target := LatestSuccess(entries, commit, HttpFull);
    && target.Some?
    && var rec, at := target.value.rec, target.value.recordedAt;
    && StageEvidenceFit(files, rec.evidenceJson, commit)
    && GateFit(files, rec.releaseGateJson, ShadowOrigin(files, rec.evidenceJson, commit))
    && at.Some?
    && forall e | e in entries :: !LaterNegative(e, commit, at.value)
  }

  /** The report file of that audit. */
  function BaselineReport(entries: seq<Entry>, files: Files, commit: string): Payload {
    var target := LatestSuccess(entries, commit, HttpFull);
    var passes := BaselinePasses(entries, files, commit);
    EMPTY_PAYLOAD.(
      verdict := if passes then "pass" else "fail",
      commit := commit,
      stage := HttpFull,
      shadowEvidenceCommit :=
        if target.Some? then ShadowOrigin(files, target.value.rec.evidenceJson, commit) else commit,
      clean := passes)
  }

  // ---------------------------------------------------------------- chains

  /** One passing baseline audit: the ledger and files it read. */
  datatype Audited = Audited(entries: seq<Entry>, files: Files, commit: string)

  predicate Sound(x: Audited) {
    IsFullSha(x.commit) && BaselinePasses(x.entries, x.files, x.commit)
  }

  function ReportOf(x: Audited): Payload {
    BaselineReport(x.entries, x.files, x.commit)
  }

  function TargetOf(x: Audited): Args
    requires Sound(x)
  {
    LatestSuccess(x.entries, x.commit, HttpFull).value.rec
  }

  /** A maintenance release: its arguments, and the files its stage report read. */
  datatype Release = Release(a: Args, files: Files)

  /** `r` was released on the baseline audited by `x`, and `y` audits `r`: the
      stage evidence `y` reads is the stage report of `r`. */
  predicate BasedOn(x: Audited, r: Release, y: Audited)
    requires Sound(x) && Sound(y)
  {
    && r.a.maintenanceBaselineJson in r.files && r.files[r.a.maintenanceBaselineJson] == ReportOf(x)
    && BaselineOf(r.files, r.a).Some? && BaselineOf(r.files, r.a).value != ""
    && StageReportFailures(r.files, r.a) == []
    && y.files[TargetOf(y).evidenceJson] == ReportPayload(r.a, BaselineOf(r.files, r.a).value, [])
  }

  ghost predicate Chain(xs: seq<Audited>, rs: seq<Release>) {
    && |xs| == |rs| + 1
    && (forall i | 0 <= i < |xs| :: Sound(xs[i]))
    && forall i | 0 <= i < |rs| :: BasedOn(xs[i], rs[i], xs[i + 1])
  }

  /** A baseline's shadow commit survives normalisation: its own gate report
      was read for it. */
  lemma OriginSettled(x: Audited)
    requires Sound(x)
    ensures NormalizeCommit(ReportOf(x).shadowEvidenceCommit) == ReportOf(x).shadowEvidenceCommit
    ensures ReportOf(x).shadowEvidenceCommit != ""
  {
    hide IsFullSha;
    hide ConfigPartOk;
    hide RuntimePartOk;
    hide ShadowCheckSafe;
    hide LaterNegative;
    hide LatestSuccess;
    assert StripLeft("") == "" && StripRight("") == "" && Strip("") == "";
    assert NormalizeCommit("") == "";
    hide NormalizeCommit;
  }

  /** A maintenance release hands its baseline's shadow commit on. */
  lemma LinkKeepsOrigin(x: Audited, r: Release, y: Audited)
    requires Sound(x) && Sound(y) && BasedOn(x, r, y)
    ensures ReportOf(y).shadowEvidenceCommit == ReportOf(x).shadowEvidenceCommit
    ensures BaselineOf(r.files, r.a) == Some(x.commit)
  {
    hide Sound;
    hide ReportOf;
    hide BaselineOf;
    hide TargetOf;
    hide StageReportFailures;
    OriginSettled(x);
    LinkShadow(x, r);
    ReportedOrigin(y, r.a, BaselineOf(r.files, r.a).value, ReportOf(x).shadowEvidenceCommit);
  }

  /** An audit reads the shadow commit off the release's own stage report. */
  lemma ReportedOrigin(y: Audited, a: Args, baseline: string, origin: string)
    requires Sound(y)
    requires y.files[TargetOf(y).evidenceJson] == ReportPayload(a, baseline, [])
    requires NormalizeCommit(a.shadowEvidenceCommit) == origin != ""
    requires NormalizeCommit(origin) == origin
    ensures ReportOf(y).shadowEvidenceCommit == origin
  {
    hide NormalizeCommit;
    hide StageEvidenceFit;
    hide GateFit;
    hide LaterNegative;
    hide LatestSuccess;
    hide Lower;
    StageEvidencePassed(y);
  }

  lemma LinkShadow(x: Audited, r: Release)
    requires Sound(x)
    requires r.a.maintenanceBaselineJson in r.files && r.files[r.a.maintenanceBaselineJson] == ReportOf(x)
    requires BaselineOf(r.files, r.a).Some? && BaselineOf(r.files, r.a).value != ""
    ensures NormalizeCommit(r.a.shadowEvidenceCommit) == ReportOf(x).shadowEvidenceCommit
    ensures BaselineOf(r.files, r.a) == Some(x.commit)
  {
    hide IsFullSha;
    hide NormalizeCommit;
    hide Sound;
    hide ReportOf;
    hide Passing;
    hide Lower;
    OriginSettled(x);
    ReportedCommit(x);
  }

  lemma ReportedCommit(x: Audited)
    requires Sound(x)
    ensures ReportOf(x).commit == x.commit && NormalizeCommit(x.commit) == x.commit
  {
    FullShaIsSettled(x.commit);
    hide BaselinePasses;
    hide NormalizeCommit;
    hide IsFullSha;
    hide ShadowOrigin;
  }

  lemma StageEvidencePassed(y: Audited)
    requires Sound(y)
    ensures Passing(y.files, TargetOf(y).evidenceJson)
  {
    hide GateFit;
    hide LaterNegative;
  }

  /** What the gate report behind a baseline shows: samples for the origin,
      none of them critical or failed over http. */
  predicate SafeSamples(x: Audited, origin: string)
    requires Sound(x)
  {
    && TargetOf(x).releaseGateJson in x.files
    && var checks := x.files[TargetOf(x).releaseGateJson].shadowChecks;
    && checks != []
    && forall c | c in checks :: ShadowCheckSafe(c, origin)
  }

  lemma BaselineHasSafeSamples(x: Audited)
    requires Sound(x)
    ensures SafeSamples(x, ReportOf(x).shadowEvidenceCommit)
  {
    hide ReleaseGate;
    hide StageEvidenceFit;
    hide LaterNegative;
    hide ShadowCheckSafe;
    hide LatestSuccess;
  }

  /** Along any chain of maintenance releases, each based on an audited
      earlier one, the shadow evidence commit stays that of the first, and
      every release in it stands on safe samples of that commit. */
  lemma {:induction false} ChainKeepsOrigin(xs: seq<Audited>, rs: seq<Release>, i: nat)
    requires Chain(xs, rs) && i < |xs|
    ensures Sound(xs[0]) && Sound(xs[i])
    ensures ReportOf(xs[i]).shadowEvidenceCommit == ReportOf(xs[0]).shadowEvidenceCommit
    ensures SafeSamples(xs[i], ReportOf(xs[0]).shadowEvidenceCommit)
  {
    hide Sound;
    hide BasedOn;
    hide SafeSamples;
    hide ReportOf;
    if i > 0 {
      ChainKeepsOrigin(xs, rs, i - 1);
      assert BasedOn(xs[i - 1], rs[i - 1], xs[i]);
      LinkKeepsOrigin(xs[i - 1], rs[i - 1], xs[i]);
    }
    BaselineHasSafeSamples(xs[i]);
  }

  /** For a first release that named no other shadow commit, the origin is the
      release commit itself. */
  lemma FirstReleaseIsOrigin(x: Audited, a: Args, baseline: string)
    requires Sound(x) && a.shadowEvidenceCommit == ""
    requires x.files[TargetOf(x).evidenceJson] == ReportPayload(a, baseline, [])
    ensures ReportOf(x).shadowEvidenceCommit == x.commit
  {
    NormalizeAfterLower(a.commit);
    assert StripLeft("") == "" && StripRight("") == "" && Strip("") == "";
    assert NormalizeCommit("") == "";
    hide NormalizeCommit;
    hide IsFullSha;
    hide GateFit;
    hide LaterNegative;
    hide LatestSuccess;
  }
}
