/** The ledger commands as they run: they read evidence files, append to the
    ledger file, and write reports. */
module Workspace {
  import opened Text
  import opened Evidence
  import opened Ledger
  import opened AuditSpec
  import opened MaintenanceSpec

  function RecordedAt(latest: map<Stage, Entry>, stage: Stage): Time {
    if stage in latest then latest[stage].recordedAt else None
  }

  class RolloutWorkspace {
    var entries: seq<Entry>   // the ledger file
    var files: Files          // every readable JSON file

    constructor (entries: seq<Entry>, files: Files)
      ensures this.entries == entries && this.files == files
    {
      this.entries := entries;
      this.files := files;
    }

    /** One stage of the evidence loops in `validate`: an override tolerates
        a missing success, the ordered path does not. */
    ghost predicate Guarded(commit: string, stage: Stage, onlyExisting: bool)
      reads this
    {
      if onlyExisting then ExistingClean(entries, files, commit, stage) else LatestClean(entries, files, commit, stage)
    }

    method StageGuarded(commit: string, stage: Stage, onlyExisting: bool) returns (ok: bool)
      ensures ok <==> Guarded(commit, stage, onlyExisting)
    {
      hide EvidenceFailures;
      hide EntryClean;
      var latest := LatestSuccess(entries, commit, stage);
      if latest.None? { return onlyExisting; }
      var failures := EvidenceFailures(files, latest.value.rec);
      return failures == [];
    }

    method GuardedEvidenceOk(commit: string, stages: seq<Stage>, onlyExisting: bool) returns (ok: bool)
      ensures ok <==> forall s | s in stages :: Guarded(commit, s, onlyExisting)
    {
      hide Guarded;
      ok := true;
      for i := 0 to |stages|
        invariant ok <==> forall s | s in stages[..i] :: Guarded(commit, s, onlyExisting)
      {
        assert stages[..i + 1] == stages[..i] + [stages[i]];
        assert forall s :: s in stages[..i + 1] <==> s in stages[..i] || s == stages[i];
        var good := StageGuarded(commit, stages[i], onlyExisting);
        ok := ok && good;
      }
      assert stages[..|stages|] == stages;
    }

    method AllSuccessful(commit: string, stages: seq<Stage>) returns (ok: bool)
      ensures ok <==> forall s | s in stages :: Successful(entries, commit, s)
    {
      var missing: seq<Stage> := [];
      for i := 0 to |stages|
        invariant missing == [] <==> forall s | s in stages[..i] :: Successful(entries, commit, s)
      {
        assert stages[..i + 1] == stages[..i] + [stages[i]];
        if LatestSuccess(entries, commit, stages[i]).None? {
          missing := missing + [stages[i]];
        }
      }
      assert stages[..|stages|] == stages;
      ok := missing == [];
    }

    /** The observation gate: read the previous stage's success times, take
        the latest, compare with the clock. */
    method WindowElapsed(commit: string, previous: Stage, wait: nat, now: nat) returns (ok: bool)
      ensures ok <==> Waited(entries, commit, previous, wait, now)
    {
      var latest: Time := None;
      for i := 0 to |entries|
        invariant latest.None? <==>
          forall e | e in entries[..i] && SuccessOf(e, commit, previous) :: e.recordedAt.None?
        invariant latest.Some? ==>
          exists e | e in entries[..i] :: SuccessOf(e, commit, previous) && e.recordedAt == latest
        invariant latest.Some? ==>
          forall e | e in entries[..i] && SuccessOf(e, commit, previous) && e.recordedAt.Some? ::
            e.recordedAt.value <= latest.value
      {
        assert entries[..i + 1] == entries[..i] + [entries[i]];
        var e := entries[i];
        if SuccessOf(e, commit, previous) && e.recordedAt.Some? {
          if latest.None? || latest.value < e.recordedAt.value { latest := e.recordedAt; }
        }
      }
      assert entries[..|entries|] == entries;
      ok := latest.Some? && now - latest.value >= wait;
    }

    /** `validate`. */
    method Validate(v: ValidateArgs, now: nat) returns (code: int)
      ensures code == ValidateCode(entries, files, v, now)
    {
      hide LatestClean;
      hide Waited;
      hide ObservationStages;
      hide PriorStages;
      if v.stage == RollbackInproc { return 0; }
      if v.stage !in STAGES && v.stage != RollbackRehearsal { return 2; }
      if Lower(v.commit) == "" { return 2; }
      if v.outOfOrder && Strip(v.outOfOrderReason) == "" { return 2; }
      var rehearsed := LatestSuccess(entries, v.commit, RollbackRehearsal).Some?;
      if RequiresRehearsal(v.stage) && !rehearsed { return 1; }
      var prior := PriorStages(v.stage);
      var guarded := (if RequiresRehearsal(v.stage) then [RollbackRehearsal] else []) + prior;
      if v.outOfOrder {
        var clean := GuardedEvidenceOk(v.commit, guarded, true);
        return if clean then 0 else 1;
      }
      if prior == [] { return 0; }
      var complete := AllSuccessful(v.commit, prior);
      if !complete { return 1; }
      var clean := GuardedEvidenceOk(v.commit, guarded, false);
      if !clean { return 1; }
      if v.minObservation.None? { return 2; }
      var wait := Max0(v.minObservation.value);
      var watched := ObservationStages(prior);
      if wait > 0 && v.stage != ConfigAuthorityStage && watched != [] {
        var elapsed := WindowElapsed(v.commit, watched[|watched| - 1], wait, now);
        return if elapsed then 0 else 1;
      }
      return 0;
    }

    /** `append`: a rejected call leaves the ledger untouched. */
    method Append(a: Args, now: nat) returns (accepted: bool)
      modifies this`entries
      ensures accepted <==> AppendAccepts(files, a)
      ensures entries == LedgerAfterAppend(old(entries), files, a, now)
    {
      hide Holds;
      hide BaselineOf;
      hide StageEvidenceForCommit;
      hide RouterAudit;
      hide StageChecks;
      var baseline := BaselineOf(files, a);
      if baseline.None? { return false; }
      if a.status == Success {
        if !FallbackExitOk(a) { return false; }
        if !StageEvidenceForCommit(files, a.evidenceJson, a.commit) { return false; }
        if !RouterAudit(files, a.routerAuditJson) { return false; }
        var checks := StageChecks(a);
        for i := 0 to |checks|
          invariant forall c | c in checks[..i] :: c.1 ==>
            Holds(files, a, c.0, a.commit, ShadowCommitOf(a), baseline.value != "")
        {
          assert checks[..i + 1] == checks[..i] + [checks[i]];
          if checks[i].1 && !Holds(files, a, checks[i].0, a.commit, ShadowCommitOf(a), baseline.value != "") {
            return false;
          }
        }
        assert checks[..|checks|] == checks;
      }
      entries := entries + [Entry(Some(now), StoredArgs(a, baseline.value))];
      accepted := true;
    }

    /** `stage-report`: collect the failing checks, then write the report
        whatever the verdict. None when the maintenance baseline is refused. */
    method StageReport(a: Args, jsonOut: string) returns (r: Option<seq<Check>>)
      modifies this`files
      ensures r.None? <==> BaselineOf(old(files), a).None?
      ensures r.None? || jsonOut == "" ==> files == old(files)
      ensures r.Some? ==> r.value == StageReportFailures(old(files), a)
      ensures r.Some? && jsonOut != "" ==>
        files == old(files)[jsonOut := ReportPayload(a, BaselineOf(old(files), a).value, r.value)]
    {
      hide Holds;
      hide BaselineOf;
      hide ReportChecks;
      hide ReportPayload;
      hide ShadowCommitOf;
      var baseline := BaselineOf(files, a);
      if baseline.None? { return None; }
      var failures: seq<Check> := [];
      var checks := ReportChecks(a);
      for i := 0 to |checks|
        invariant files == old(files)
        invariant failures == FailingChecks(files, a, baseline.value != "", checks[..i])
      {
        assert checks[..i + 1][..i] == checks[..i];
        if checks[i].1 && !Holds(files, a, checks[i].0, a.commit, ShadowCommitOf(a), baseline.value != "") {
          failures := failures + [checks[i].0];
        }
      }
      assert checks[..|checks|] == checks;
      if jsonOut != "" {
        files := files[jsonOut := ReportPayload(a, baseline.value, failures)];
      }
      r := Some(failures);
    }

    /** The latest success of every required stage, as `audit` tabulates it. */
    ghost predicate Tabulated(latest: map<Stage, Entry>, commit: string, required: seq<Stage>)
      reads this
    {
      forall s :: (s in latest <==> s in required && LatestSuccess(entries, commit, s).Some?)
        && (s in latest ==> latest[s] == LatestSuccess(entries, commit, s).value)
    }

    method AuditEvidence(commit: string, required: seq<Stage>)
      returns (failures: seq<AuditFailure>, latestByStage: map<Stage, Entry>)
      ensures failures == EvidenceProblems(entries, files, commit, required)
      ensures Tabulated(latestByStage, commit, required)
    {
      hide EvidenceFailures;
      hide EntryClean;
      hide LatestClean;
      hide Successful;
      hide SuccessOf;
      failures, latestByStage := [], map[];
      for i := 0 to |required|
        invariant failures == EvidenceProblems(entries, files, commit, required[..i])
        invariant Tabulated(latestByStage, commit, required[..i])
      {
        assert required[..i + 1][..i] == required[..i];
        assert required[..i + 1] == required[..i] + [required[i]];
        var latest := LatestSuccess(entries, commit, required[i]);
        if latest.None? {
          failures := failures + [MissingSuccess(required[i])];
        } else {
          latestByStage := latestByStage[required[i] := latest.value];
          failures := failures + Tagged(required[i], EvidenceFailures(files, latest.value.rec));
        }
      }
      assert required[..|required|] == required;
    }

    method AuditOrder(commit: string, required: seq<Stage>, latest: map<Stage, Entry>)
      returns (failures: seq<AuditFailure>)
      requires Tabulated(latest, commit, required)
      ensures failures == OrderProblems(entries, commit, required, required)
    {
      failures := [];
      var rehearsed := RecordedAt(latest, RollbackRehearsal);
      for i := 0 to |required|
        invariant failures == OrderProblems(entries, commit, required, required[..i])
      {
        assert required[..i + 1][..i] == required[..i];
        if RequiresRehearsal(required[i]) {
          failures := failures + RehearsalProblem(rehearsed, RecordedAt(latest, required[i]), required[i]);
        }
      }
      assert required[..|required|] == required;
    }

    method AuditStale(commit: string, target: Stage, latest: map<Stage, Entry>)
      returns (failures: seq<AuditFailure>)
      requires RecordedAt(latest, target) == LatestTime(entries, commit, target)
      requires target != RollbackInproc
      ensures failures == TargetProblems(entries, commit, target, true)
    {
      hide LaterNegative;
      failures := [];
      var at := RecordedAt(latest, target);
      if at.Some? {
        for i := 0 to |entries|
          invariant failures == StaleProblems(entries[..i], commit, at.value)
        {
          assert entries[..i + 1][..i] == entries[..i];
          if LaterNegative(entries[i], commit, at.value) { failures := failures + [Stale(entries[i])]; }
        }
        assert entries[..|entries|] == entries;
      }
    }

    method AuditWindows(commit: string, watched: seq<Stage>, latest: map<Stage, Entry>, wait: nat)
      returns (failures: seq<AuditFailure>)
      requires forall s | s in watched :: RecordedAt(latest, s) == LatestTime(entries, commit, s)
      ensures failures == WindowProblems(entries, commit, watched, wait)
    {
      failures := [];
      if |watched| < 2 { return; }
      assert watched[..1] == [watched[0]];
      for i := 0 to |watched| - 1
        invariant failures == WindowProblems(entries, commit, watched[..i + 1], wait)
      {
        assert watched[..i + 2][..i + 1] == watched[..i + 1];
        var before, after := RecordedAt(latest, watched[i]), RecordedAt(latest, watched[i + 1]);
        if before.Some? && after.Some? && after.value - before.value < wait {
          failures := failures + [WindowShort(watched[i], watched[i + 1])];
        }
      }
      assert watched[..|watched|] == watched;
    }

    /** `audit`. */
    method Audit(commitArg: string, target: Stage, requireTarget: bool, minObservation: Option<int>)
      returns (code: int, failures: seq<AuditFailure>)
      ensures (code, failures) == AuditCommand(entries, files, commitArg, target, requireTarget, minObservation)
    {
      hide EvidenceProblems;
      hide OrderProblems;
      hide WindowProblems;
      hide WatchedStages;
      var commit := Strip(Lower(commitArg));
      if commit == "" || minObservation.None? { return 2, []; }
      var wait := Max0(minObservation.value);
      var stages := RequiredStages(target, requireTarget);
      if stages.None? { return 1, []; }
      var required := stages.value;
      var evidence, latestByStage := AuditEvidence(commit, required);
      var order := AuditOrder(commit, required, latestByStage);
      var stale := [];
      if requireTarget && target != RollbackInproc {
        stale := AuditStale(commit, target, latestByStage);
      }
      forall s | s in WatchedStages(required)
        ensures RecordedAt(latestByStage, s) == LatestTime(entries, commit, s)
      {
        WatchedMember(required, s);
      }
      var windows := AuditWindows(commit, WatchedStages(required), latestByStage, wait);
      failures := evidence + order + stale + windows;
      code := if failures == [] then 0 else 1;
    }

    /** `maintenance-baseline`: exit code, and the report it writes. */
    method MaintenanceBaseline(commitArg: string, jsonOut: string) returns (code: int)
      modifies this`files
      ensures
        var commit := NormalizeCommit(commitArg);
        if !IsFullSha(commit) then code == 2 && files == old(files)
        else
          && code == (if BaselinePasses(entries, old(files), commit) then 0 else 1)
          && files == if jsonOut == "" then old(files)
                      else old(files)[jsonOut := BaselineReport(entries, old(files), commit)]
    {
      hide StageEvidenceFit;
      hide GateFit;
      hide ShadowOrigin;
      hide LaterNegative;
      hide NormalizeCommit;
      hide IsFullSha;
      var commit := NormalizeCommit(commitArg);
      if !IsFullSha(commit) { return 2; }
      var target := LatestSuccess(entries, commit, HttpFull);
      var ok, shadow := false, commit;
      if target.Some? {
        var rec := target.value.rec;
        shadow := ShadowOrigin(files, rec.evidenceJson, commit);
        var evidenceOk := StageEvidenceFit(files, rec.evidenceJson, commit);
        var gateOk := GateIsFit(rec.releaseGateJson, shadow);
        var current := target.value.recordedAt.Some?;
        if current {
          var stale: seq<Entry> := [];
          for i := 0 to |entries|
            invariant files == old(files)
            invariant stale == [] <==>
              forall e | e in entries[..i] :: !LaterNegative(e, commit, target.value.recordedAt.value)
          {
            assert entries[..i + 1] == entries[..i] + [entries[i]];
            if LaterNegative(entries[i], commit, target.value.recordedAt.value) { stale := stale + [entries[i]]; }
          }
          assert entries[..|entries|] == entries;
          current := stale == [];
        }
        ok := evidenceOk && gateOk && current;
      }
      if jsonOut != "" {
        files := files[jsonOut := EMPTY_PAYLOAD.(
          verdict := if ok then "pass" else "fail", commit := commit, stage := HttpFull,
          shadowEvidenceCommit := shadow, clean := ok)];
      }
      code := if ok then 0 else 1;
    }

    /** The gate-report half of the baseline audit. */
    method GateIsFit(path: string, shadow: string) returns (ok: bool)
      ensures ok <==> GateFit(files, path, shadow)
    {
      hide GateAccepts;
      hide NormalizeCommit;
      hide Lower;
      if !Passing(files, path) { return false; }
      var p := files[path];
      var own := NormalizeCommit(if p.shadowReleaseCommit != "" then p.shadowReleaseCommit else p.expectedCommit);
      ok := own == shadow;
      if p.shadowChecks == [] {
        ok := false;
      } else {
        for i := 0 to |p.shadowChecks|
          invariant ok <==> own == shadow && forall c | c in p.shadowChecks[..i] :: ShadowCheckSafe(c, shadow)
        {
          assert p.shadowChecks[..i + 1] == p.shadowChecks[..i] + [p.shadowChecks[i]];
          if !ShadowCheckSafe(p.shadowChecks[i], shadow) { ok := false; }
        }
        assert p.shadowChecks[..|p.shadowChecks|] == p.shadowChecks;
      }
      if !ReleaseGate(files, path, shadow, true, Allowances(true, true, false)) { ok := false; }
    }
  }
}
