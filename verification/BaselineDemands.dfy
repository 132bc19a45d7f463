/** What can be wrong with a release as a maintenance baseline, and that the
    baseline audit passes exactly the releases with nothing wrong. */
module BaselineDemands {
  import opened Text
  import opened Evidence
  import opened Ledger
  import opened MaintenanceSpec
  import opened EvidenceFlaws
  import opened NegativeEvents

  datatype BaselineFlaw =
    | NotReleased | ReleasedAtNoTime | RolledBack(i: nat)
    | EvidenceUnusable | EvidenceOfOtherStage | EvidenceOfNoSuccess | EvidenceOfOtherCommit | EvidenceNotHttp
    | EvidenceKeepsFallback | EvidenceHasFailures
    | BaselineGateUnusable | GateReadForOther | GateUnsampled | SampleOfOther(i: nat) | SampleCritical(i: nat)
    | SampleHttpFailed(i: nat) | SampleNotOk(i: nat) | GateRefused(gate: GateFlaw)

  /** The commit a release's stage report says its samples were taken for. */
  function SaidOrigin(files: Files, path: string, commit: string): string {
    if Unusable(files, path) || NormalizeCommit(files[path].shadowEvidenceCommit) == "" then commit
    else NormalizeCommit(files[path].shadowEvidenceCommit)
  }

  function GateCommit(p: Payload): string {
    NormalizeCommit(if p.shadowReleaseCommit == "" then p.expectedCommit else p.shadowReleaseCommit)
  }

  /** What is wrong with a release as a baseline, over its ledger and the two
      files of its latest success. */
  predicate BaselineFlawed(entries: seq<Entry>, files: Files, commit: string, x: BaselineFlaw) {
    var latest := LatestSuccess(entries, commit, HttpFull);
    if latest.None? then x.NotReleased?
    else if x.ReleasedAtNoTime? then latest.value.recordedAt.None?
    else if x.RolledBack? then
      && x.i < |entries| && Negative(entries[x.i], commit)
      && entries[x.i].recordedAt.Some? && latest.value.recordedAt.Some?
      && entries[x.i].recordedAt.value > latest.value.recordedAt.value
    else FileFlawed(files, latest.value.rec.evidenceJson, latest.value.rec.releaseGateJson, commit, x)
  }

  predicate FileFlawed(files: Files, path: string, gate: string, commit: string, x: BaselineFlaw) {
    if x.EvidenceUnusable? then Unusable(files, path)
    else if x.BaselineGateUnusable? then Unusable(files, gate)
    else if x.GateRefused? then RefusedFor(files, gate, SaidOrigin(files, path, commit), x.gate)
    else
      || (path in files && EvidenceFlawed(files[path], commit, x))
      || (gate in files && SamplesFlawed(files[gate], SaidOrigin(files, path, commit), x))
  }

  /** The reader's own refusals, with console parts excused and samples not. */
  predicate RefusedFor(files: Files, gate: string, origin: string, x: GateFlaw) {
    if x == GateNoSamples then gate in files && |files[gate].shadowChecks| == 0
    else GateFlawed(files, gate, origin, true, true, x)
  }

  predicate EvidenceFlawed(p: Payload, commit: string, x: BaselineFlaw) {
    match x
    case EvidenceOfOtherStage => p.stage != HttpFull
    case EvidenceOfNoSuccess => p.status != Success
    case EvidenceOfOtherCommit => NormalizeCommit(p.commit) != commit
    case EvidenceNotHttp => Lower(p.mode) != "http"
    case EvidenceKeepsFallback => !p.mapFallbackDisabled
    case EvidenceHasFailures => !p.clean
    case _ => false
  }

  predicate SamplesFlawed(p: Payload, origin: string, x: BaselineFlaw) {
    match x
    case GateReadForOther => GateCommit(p) != origin
    case GateUnsampled => |p.shadowChecks| == 0
    case SampleOfOther(i) => i < |p.shadowChecks| && NormalizeCommit(p.shadowChecks[i].releaseCommit) != origin
    case SampleCritical(i) => i < |p.shadowChecks| && p.shadowChecks[i].critical != 0
    case SampleHttpFailed(i) => i < |p.shadowChecks| && p.shadowChecks[i].httpFail != 0
    case SampleNotOk(i) => i < |p.shadowChecks| && !p.shadowChecks[i].ok
    case _ => false
  }

  lemma EvidenceFitExactly(files: Files, path: string, commit: string)
    ensures StageEvidenceFit(files, path, commit) <==>
      !Unusable(files, path) && forall x: BaselineFlaw :: !EvidenceFlawed(files[path], commit, x)
    ensures ShadowOrigin(files, path, commit) == SaidOrigin(files, path, commit)
  {
    hide NormalizeCommit;
    hide Lower;
    UsableIsPassing(files, path);
    if Passing(files, path) {
      var p := files[path];
      if forall x: BaselineFlaw :: !EvidenceFlawed(p, commit, x) {
        assert !EvidenceFlawed(p, commit, EvidenceOfOtherStage) && !EvidenceFlawed(p, commit, EvidenceOfNoSuccess);
        assert !EvidenceFlawed(p, commit, EvidenceOfOtherCommit) && !EvidenceFlawed(p, commit, EvidenceNotHttp);
        assert !EvidenceFlawed(p, commit, EvidenceKeepsFallback) && !EvidenceFlawed(p, commit, EvidenceHasFailures);
      }
    }
  }

  lemma SamplesSafeExactly(p: Payload, origin: string)
    ensures (forall x: BaselineFlaw :: !SamplesFlawed(p, origin, x)) <==>
      && GateCommit(p) == origin && p.shadowChecks != []
      && forall c | c in p.shadowChecks :: ShadowCheckSafe(c, origin)
  {
    hide NormalizeCommit;
    hide GateCommit;
    if forall x: BaselineFlaw :: !SamplesFlawed(p, origin, x) {
      assert !SamplesFlawed(p, origin, GateReadForOther) && !SamplesFlawed(p, origin, GateUnsampled);
      forall c | c in p.shadowChecks ensures ShadowCheckSafe(c, origin) {
        var i :| 0 <= i < |p.shadowChecks| && p.shadowChecks[i] == c;
        assert !SamplesFlawed(p, origin, SampleOfOther(i)) && !SamplesFlawed(p, origin, SampleCritical(i));
        assert !SamplesFlawed(p, origin, SampleHttpFailed(i)) && !SamplesFlawed(p, origin, SampleNotOk(i));
      }
    } else {
      var x: BaselineFlaw :| SamplesFlawed(p, origin, x);
      if x.SampleOfOther? || x.SampleCritical? || x.SampleHttpFailed? || x.SampleNotOk? {
        assert p.shadowChecks[x.i] in p.shadowChecks;
      }
    }
  }

  /** The reader with console parts excused and samples demanded. */
  lemma ReaderExactly(files: Files, gate: string, origin: string)
    ensures ReleaseGate(files, gate, origin, true, Allowances(true, true, false)) <==>
              forall x: GateFlaw :: !RefusedFor(files, gate, origin, x)
  {
    hide NormalizeCommit;
    hide Lower;
    hide ConfigPartOk;
    hide RuntimePartOk;
    hide GateFlawed;
    GateExactly(files, gate, origin, true, true);
    if forall x: GateFlaw :: !RefusedFor(files, gate, origin, x) {
      assert !RefusedFor(files, gate, origin, GateNoSamples);
      assert !RefusedFor(files, gate, origin, GateUnusable);
      UnusableGate(files, gate, origin);
      forall x: GateFlaw ensures !GateFlawed(files, gate, origin, true, true, x) {
        NoSamplesFlaw(files, gate, origin);
        if x != GateNoSamples { assert !RefusedFor(files, gate, origin, x); }
      }
    } else {
      var x: GateFlaw :| RefusedFor(files, gate, origin, x);
      if x != GateNoSamples { assert GateFlawed(files, gate, origin, true, true, x); }
    }
  }

  lemma UnusableGate(files: Files, gate: string, origin: string)
    ensures GateFlawed(files, gate, origin, true, true, GateUnusable) <==> Unusable(files, gate)
  {
  }

  lemma NoSamplesFlaw(files: Files, gate: string, origin: string)
    ensures GateFlawed(files, gate, origin, true, true, GateNoSamples) ==>
              gate in files && |files[gate].shadowChecks| == 0
  {
    hide NormalizeCommit;
    hide Lower;
    hide ConfigLeftOut;
    hide RuntimeLeftOut;
  }

  lemma GateFitFlawless(files: Files, gate: string, origin: string)
    ensures GateFit(files, gate, origin) <==>
      && !Unusable(files, gate)
      && (forall x: BaselineFlaw :: !SamplesFlawed(files[gate], origin, x))
      && forall x: GateFlaw :: !RefusedFor(files, gate, origin, x)
  {
    hide NormalizeCommit;
    hide SamplesFlawed;
    hide RefusedFor;
    hide ReleaseGate;
    hide ShadowCheckSafe;
    UsableIsPassing(files, gate);
    ReaderExactly(files, gate, origin);
    if Passing(files, gate) { SamplesSafeExactly(files[gate], origin); }
  }

  /** `maintenance-baseline` passes a release exactly when nothing is wrong
      with it as a baseline. */
  lemma BaselineExactly(entries: seq<Entry>, files: Files, commit: string)
    ensures BaselinePasses(entries, files, commit) <==>
              forall x: BaselineFlaw :: !BaselineFlawed(entries, files, commit, x)
  {
    hide StageEvidenceFit;
    hide GateFit;
    hide ShadowOrigin;
    hide SaidOrigin;
    hide LatestSuccess;
    hide LaterNegative;
    hide FileFlawed;
    var latest := LatestSuccess(entries, commit, HttpFull);
    if latest.None? {
      assert BaselineFlawed(entries, files, commit, NotReleased);
    } else {
      var rec := latest.value.rec;
      FilesExactly(files, rec.evidenceJson, rec.releaseGateJson, commit);
      if latest.value.recordedAt.Some? { CurrentExactly(entries, commit, latest.value.recordedAt.value); }
      if BaselinePasses(entries, files, commit) {
        forall x: BaselineFlaw ensures !BaselineFlawed(entries, files, commit, x) {
          hide Negative;
        }
      }
      if forall x: BaselineFlaw :: !BaselineFlawed(entries, files, commit, x) {
        assert !BaselineFlawed(entries, files, commit, ReleasedAtNoTime);
        forall i: nat | i < |entries|
          ensures !(Negative(entries[i], commit) && entries[i].recordedAt.Some?
                    && entries[i].recordedAt.value > latest.value.recordedAt.value)
        {
          assert !BaselineFlawed(entries, files, commit, RolledBack(i));
        }
        forall x: BaselineFlaw | OfFiles(x)
          ensures !FileFlawed(files, rec.evidenceJson, rec.releaseGateJson, commit, x)
        {
          assert !BaselineFlawed(entries, files, commit, x);
        }
      }
    }
  }

  /** The flaws that concern the two files. */
  predicate OfFiles(x: BaselineFlaw) {
    !x.NotReleased? && !x.ReleasedAtNoTime? && !x.RolledBack?
  }

  lemma CurrentExactly(entries: seq<Entry>, commit: string, at: nat)
    ensures (forall e | e in entries :: !LaterNegative(e, commit, at)) <==>
      forall i: nat | i < |entries| ::
        !(Negative(entries[i], commit) && entries[i].recordedAt.Some? && entries[i].recordedAt.value > at)
  {
    hide Lower;
    forall e ensures LaterNegative(e, commit, at) <==>
                       Negative(e, commit) && e.recordedAt.Some? && e.recordedAt.value > at {}
    if exists e | e in entries :: LaterNegative(e, commit, at) {
      var e :| e in entries && LaterNegative(e, commit, at);
      var i :| 0 <= i < |entries| && entries[i] == e;
    }
    hide LaterNegative;
    hide Negative;
  }

  lemma EvidenceFlawOfFile(files: Files, path: string, gate: string, commit: string, x: BaselineFlaw)
    requires path in files && gate in files
    ensures EvidenceFlawed(files[path], commit, x) || SamplesFlawed(files[gate], SaidOrigin(files, path, commit), x) ==>
              OfFiles(x) && FileFlawed(files, path, gate, commit, x)
  {
    hide Unusable;
    hide RefusedFor;
    hide NormalizeCommit;
    hide GateCommit;
    hide Lower;
    hide SaidOrigin;
  }

  lemma FilesExactly(files: Files, path: string, gate: string, commit: string)
    ensures (forall x: BaselineFlaw | OfFiles(x) :: !FileFlawed(files, path, gate, commit, x)) <==>
      StageEvidenceFit(files, path, commit) && GateFit(files, gate, ShadowOrigin(files, path, commit))
    ensures forall x: BaselineFlaw :: FileFlawed(files, path, gate, commit, x) ==> OfFiles(x)
  {
    hide Unusable;
    hide RefusedFor;
    hide StageEvidenceFit;
    hide GateFit;
    hide NormalizeCommit;
    hide GateCommit;
    hide Lower;
    hide SaidOrigin;
    var origin := SaidOrigin(files, path, commit);
    EvidenceFitExactly(files, path, commit);
    GateFitFlawless(files, gate, origin);
    UsableIsPassing(files, path);
    UsableIsPassing(files, gate);
    if forall x: BaselineFlaw | OfFiles(x) :: !FileFlawed(files, path, gate, commit, x) {
      assert !FileFlawed(files, path, gate, commit, EvidenceUnusable);
      assert !FileFlawed(files, path, gate, commit, BaselineGateUnusable);
      forall x: BaselineFlaw ensures !EvidenceFlawed(files[path], commit, x) {
        EvidenceFlawOfFile(files, path, gate, commit, x);
      }
      forall x: BaselineFlaw ensures !SamplesFlawed(files[gate], origin, x) {
        EvidenceFlawOfFile(files, path, gate, commit, x);
      }
      forall x: GateFlaw ensures !RefusedFor(files, gate, origin, x) {
        assert !FileFlawed(files, path, gate, commit, GateRefused(x));
      }
    }
  }

  /** The report of a baseline audit: its verdict is its result, it names the
      release and the commit its samples were taken for. */
  lemma ReportSays(entries: seq<Entry>, files: Files, commit: string)
    ensures
      var p, latest := BaselineReport(entries, files, commit), LatestSuccess(entries, commit, HttpFull);
      && p.verdict == (if forall x: BaselineFlaw :: !BaselineFlawed(entries, files, commit, x) then "pass" else "fail")
      && (p.clean <==> p.verdict == "pass") && p.commit == commit && p.stage == HttpFull
      && p.shadowEvidenceCommit
         == if latest == None then commit else SaidOrigin(files, latest.value.rec.evidenceJson, commit)
  {
    BaselineExactly(entries, files, commit);
    hide BaselinePasses;
    hide BaselineFlawed;
    hide LatestSuccess;
    if LatestSuccess(entries, commit, HttpFull).Some? {
      EvidenceFitExactly(files, LatestSuccess(entries, commit, HttpFull).value.rec.evidenceJson, commit);
    }
    hide ShadowOrigin;
    hide SaidOrigin;
  }
}
