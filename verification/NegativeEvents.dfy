/** Failed and rolled-back lines: how they are recorded, and that no audit and
    no maintenance baseline gets past a later one. */
module NegativeEvents {
  import opened Text
  import opened Evidence
  import opened Ledger
  import opened AuditSpec
  import opened StageOrder
  import opened AuditBounds
  import opened MaintenanceSpec
  import opened ReleaseDemands

  /** A failed or rolled-back line of the commit. */
  predicate Negative(e: Entry, commit: string) {
    Lower(e.rec.commit) == Lower(commit) && (e.rec.status.Failed? || e.rec.status.Rollback?)
  }

  /** A readable line of that kind, later than the latest success of `target`
      if that one has a readable time. */
  predicate LaterThan(e: Entry, entries: seq<Entry>, commit: string, target: Stage) {
    && Negative(e, commit) && e.recordedAt.Some?
    && (LatestTime(entries, commit, target).Some? ==>
          e.recordedAt.value > LatestTime(entries, commit, target).value)
  }

  lemma {:induction false} NegativeLeavesLatest(entries: seq<Entry>, commit: string, s: Stage, e: Entry)
    requires Negative(e, commit)
    ensures LatestSuccess(entries + [e], commit, s) == LatestSuccess(entries, commit, s)
    ensures LatestTime(entries + [e], commit, s) == LatestTime(entries, commit, s)
  {
    hide Lower;
    assert (entries + [e])[..|entries|] == entries;
  }

  /** Once the target has succeeded at a readable time, a later failed or
      rolled-back line of the commit fails its audit, for every target. */
  lemma NegativeBreaksAudit(
    entries: seq<Entry>, files: Files, commit: string, target: Stage, wait: nat, e: Entry)
    requires target in STAGES && RequiredStages(target, true).Some?
    requires Successful(entries, commit, target) ==> LatestTime(entries, commit, target).Some?
    requires LaterThan(e, entries, commit, target)
    ensures AuditFailures(entries + [e], files, commit, target, true, wait) != []
  {
    hide EntryClean;
    hide WatchedStages;
    hide WindowKept;
    hide AuditFailures;
    hide RequiredStages;
    hide Lower;
    RequiredFor(target);
    hide PriorStages;
    var after := entries + [e];
    AuditFailuresMean(after, files, commit, target, true, wait);
    NegativeLeavesLatest(entries, commit, target, e);
    TargetIsNotInproc(target);
    assert after[|entries|] == e && e in after;
    if LatestTime(after, commit, target).Some? {
      assert LaterNegative(e, commit, LatestTime(after, commit, target).value);
      assert !NotStale(after, commit, target);
    } else {
      assert !LatestClean(after, files, commit, target);
    }
  }

  lemma TargetIsNotInproc(target: Stage)
    requires target in STAGES
    ensures target != RollbackInproc
  {
    RehearsalSecond();
  }

  /** Recording a failure or a rollback after a full rollout: the call is
      accepted whatever evidence is left, and the audit command fails from
      then on, for every target that had succeeded. */
  lemma RecordedRollbackFailsAudit(
    entries: seq<Entry>, files: Files, a: Args, now: nat, later: Files, target: Stage, minObservation: Option<int>)
    requires a.status.Failed? || a.status.Rollback?
    requires NormalizeCommit(a.maintenanceBaselineCommit) == "" && a.maintenanceBaselineJson == ""
    requires target in STAGES && Strip(Lower(a.commit)) == Lower(a.commit)
    requires LatestTime(entries, a.commit, target).Some? && now > LatestTime(entries, a.commit, target).value
    ensures AuditCommand(
              LedgerAfterAppend(entries, files, a, now), later, a.commit, target, true, minObservation).0 != 0
  {
    hide AuditFailures;
    hide RequiredStages;
    hide ValidatedBaseline;
    hide LatestTime;
    hide Strip;
    hide NormalizeCommit;
    NoClaimIsValid(files, a);
    OtherStatusIsRecorded(entries, files, a, now);
    hide BaselineOf;
    var after := LedgerAfterAppend(entries, files, a, now);
    var e := after[|entries|];
    assert after == entries + [e];
    hide LedgerAfterAppend;
    LowerIdempotent(a.commit);
    SameLatest(entries, a.commit, target);
    hide Lower;
    RequiredSome(target);
    if minObservation.Some? {
      NegativeBreaksAudit(entries, later, Lower(a.commit), target, Max0(minObservation.value), e);
    }
  }

  lemma RequiredSome(target: Stage)
    requires target in STAGES
    ensures RequiredStages(target, true).Some?
  {
    hide RequiredStages;
    RequiredFor(target);
  }

  lemma SameLatest(entries: seq<Entry>, commit: string, s: Stage)
    ensures LatestTime(entries, Lower(commit), s) == LatestTime(entries, commit, s)
    ensures LatestTime(entries, commit, s).Some? ==> Successful(entries, commit, s)
  {
    SameIndex(entries, commit, s);
  }

  lemma {:induction false} SameIndex(entries: seq<Entry>, commit: string, s: Stage)
    ensures LatestIndex(entries, Lower(commit), s) == LatestIndex(entries, commit, s)
  {
    LowerIdempotent(commit);
    hide Lower;
    if entries != [] { SameIndex(entries[..|entries| - 1], commit, s); }
  }

  // ------------------------------------------------------ maintenance baselines

  /** A passing baseline audit: the release's success has a readable time, and
      no failed or rolled-back line of the commit is later. */
  lemma BaselineIsCurrent(entries: seq<Entry>, files: Files, commit: string)
    requires BaselinePasses(entries, files, commit)
    ensures LatestTime(entries, commit, HttpFull).Some?
    ensures forall e | e in entries && Negative(e, commit) && e.recordedAt.Some? ::
              e.recordedAt.value <= LatestTime(entries, commit, HttpFull).value
  {
    hide StageEvidenceFit;
    hide GateFit;
    hide ShadowOrigin;
    hide LatestSuccess;
    hide Lower;
    forall e | e in entries && Negative(e, commit) && e.recordedAt.Some?
      ensures e.recordedAt.value <= LatestTime(entries, commit, HttpFull).value
    {
      assert !LaterNegative(e, commit, LatestTime(entries, commit, HttpFull).value);
    }
  }

  /** A later failed or rolled-back line ends a baseline, whatever its files
      still say. */
  lemma NegativeEndsBaseline(entries: seq<Entry>, files: Files, commit: string, e: Entry)
    requires LatestTime(entries, commit, HttpFull).Some? && LaterThan(e, entries, commit, HttpFull)
    ensures !BaselinePasses(entries + [e], files, commit)
  {
    hide BaselinePasses;
    hide LatestTime;
    hide Lower;
    NegativeLeavesLatest(entries, commit, HttpFull, e);
    assert (entries + [e])[|entries|] == e && e in entries + [e];
    if BaselinePasses(entries + [e], files, commit) { BaselineIsCurrent(entries + [e], files, commit); }
  }

  /** Recording a rollback of a release that served as a baseline: accepted,
      and the baseline audit fails from then on. */
  lemma RecordedRollbackEndsBaseline(entries: seq<Entry>, files: Files, a: Args, now: nat, later: Files, commit: string)
    requires a.status.Failed? || a.status.Rollback?
    requires NormalizeCommit(a.maintenanceBaselineCommit) == "" && a.maintenanceBaselineJson == ""
    requires Lower(a.commit) == Lower(commit)
    requires LatestTime(entries, commit, HttpFull).Some? && now > LatestTime(entries, commit, HttpFull).value
    ensures !BaselinePasses(LedgerAfterAppend(entries, files, a, now), later, commit)
  {
    hide BaselinePasses;
    hide ValidatedBaseline;
    hide LatestTime;
    hide NormalizeCommit;
    NoClaimIsValid(files, a);
    OtherStatusIsRecorded(entries, files, a, now);
    LowerIdempotent(a.commit);
    hide Lower;
    hide BaselineOf;
    var after := LedgerAfterAppend(entries, files, a, now);
    var e := after[|entries|];
    assert after == entries + [e];
    hide LedgerAfterAppend;
    NegativeEndsBaseline(entries, later, commit, e);
  }

  /** Along a chain of maintenance releases, no baseline had been rolled back
      when it was audited. */
  lemma ChainIsCurrent(xs: seq<Audited>, rs: seq<Release>, i: nat)
    requires Chain(xs, rs) && i < |xs|
    ensures LatestTime(xs[i].entries, xs[i].commit, HttpFull).Some?
    ensures forall e | e in xs[i].entries && Negative(e, xs[i].commit) && e.recordedAt.Some? ::
              e.recordedAt.value <= LatestTime(xs[i].entries, xs[i].commit, HttpFull).value
  {
    hide BaselinePasses;
    hide BasedOn;
    hide IsFullSha;
    hide LatestTime;
    assert Sound(xs[i]);
    BaselineIsCurrent(xs[i].entries, xs[i].files, xs[i].commit);
  }
}
