/** What a passing audit proves about elapsed time. */
module AuditBounds {
  import opened Text
  import opened Evidence
  import opened Ledger
  import opened AuditSpec
  import opened StageOrder
  import opened LedgerRuns

  /** Every line has a readable time, as `append` leaves it. */
  predicate AllReadable(entries: seq<Entry>) {
    forall e | e in entries :: e.recordedAt.Some?
  }

  lemma ReadableLatest(entries: seq<Entry>, commit: string, s: Stage)
    requires AllReadable(entries) && Successful(entries, commit, s)
    ensures LatestTime(entries, commit, s).Some?
  {
  }

  /** Windows add up along a chain of watched stages. */
  lemma {:induction false} WindowsAddUp(entries: seq<Entry>, commit: string, w: seq<Stage>, wait: nat)
    requires |w| > 0
    requires forall s | s in w :: LatestTime(entries, commit, s).Some?
    requires forall i | 0 <= i < |w| - 1 :: WindowKept(entries, commit, w[i], w[i + 1], wait)
    ensures LatestTime(entries, commit, w[|w| - 1]).value - LatestTime(entries, commit, w[0]).value
            >= (|w| - 1) * wait
  {
    hide LatestTime;
    var n := |w| - 1;
    if n > 0 {
      var v := w[..n];
      assert forall i | 0 <= i < |v| - 1 :: WindowKept(entries, commit, w[i], w[i + 1], wait) ==>
        WindowKept(entries, commit, v[i], v[i + 1], wait);
      WindowsAddUp(entries, commit, v, wait);
      assert WindowKept(entries, commit, w[n - 1], w[n], wait);
      assert n * wait == (n - 1) * wait + wait;
    }
  }

  /** A passing audit of `http-full` on a ledger with readable times: the
      latest success is at least eight waiting times after the latest shadow
      start, everything past the first stage is no earlier than the latest
      rehearsal, and no later failure or rollback of the commit exists. */
  lemma AuditPassBoundsElapsedTime(entries: seq<Entry>, files: Files, commit: string, wait: nat)
    requires AllReadable(entries)
    requires RequiredStages(HttpFull, true).Some?
    requires AuditFailures(entries, files, commit, HttpFull, true, wait) == []
    ensures forall s | s in ROLLOUT_SEQUENCE :: LatestTime(entries, commit, s).Some?
    ensures LatestTime(entries, commit, HttpFull).value - LatestTime(entries, commit, ShadowStart).value >= 8 * wait
    ensures forall s | s in ROLLOUT_SEQUENCE && s != ShadowStart ::
              LatestTime(entries, commit, RollbackRehearsal).value <= LatestTime(entries, commit, s).value
    ensures forall e | e in entries && Lower(e.rec.commit) == Lower(commit) && e.rec.status in {Failed, Rollback} ::
              e.recordedAt.value <= LatestTime(entries, commit, HttpFull).value
  {
    hide LatestTime;
    hide EntryClean;
    hide WatchedStages;
    hide WindowKept;
    hide AuditFailures;
    hide LatestSuccess;
    AuditFailuresMean(entries, files, commit, HttpFull, true, wait);
    HttpFullWindows();
    forall s | s in ROLLOUT_SEQUENCE ensures LatestTime(entries, commit, s).Some? {
      assert LatestClean(entries, files, commit, s);
      ReadableLatest(entries, commit, s);
    }
    var w := [ShadowStart] + CANARIES_AND_HTTP;
    assert w[8] == HttpFull && |w| == 9;
    WindowsAddUp(entries, commit, w, wait);
    forall s | s in ROLLOUT_SEQUENCE && s != ShadowStart
      ensures LatestTime(entries, commit, RollbackRehearsal).value <= LatestTime(entries, commit, s).value
    {
      if s != RollbackRehearsal { assert RehearsalOrdered(entries, commit, ROLLOUT_SEQUENCE, s); }
    }
    assert NotStale(entries, commit, HttpFull);
  }

  /** The same on every ledger a run of `append` calls can leave. */
  lemma RunAuditBound(run: seq<Step>, files: Files, commit: string, wait: nat)
    requires RequiredStages(HttpFull, true).Some?
    requires AuditFailures(LedgerOf(run), files, commit, HttpFull, true, wait) == []
    ensures AllReadable(LedgerOf(run))
    ensures forall s | s in ROLLOUT_SEQUENCE :: LatestTime(LedgerOf(run), commit, s).Some?
    ensures LatestTime(LedgerOf(run), commit, HttpFull).value
            >= LatestTime(LedgerOf(run), commit, ShadowStart).value + 8 * wait
    ensures forall s | s in ROLLOUT_SEQUENCE && s != ShadowStart ::
              LatestTime(LedgerOf(run), commit, RollbackRehearsal).value <= LatestTime(LedgerOf(run), commit, s).value
    ensures forall e | e in LedgerOf(run) && Lower(e.rec.commit) == Lower(commit)
                       && e.rec.status in {Failed, Rollback} ::
              e.recordedAt.value <= LatestTime(LedgerOf(run), commit, HttpFull).value
  {
    hide LedgerOf;
    hide LatestTime;
    hide AuditFailures;
    var entries := LedgerOf(run);
    forall e | e in entries ensures e.recordedAt.Some? {
      var k :| 0 <= k < |entries| && entries[k] == e;
      var i := Origin(run, k);
    }
    AuditPassBoundsElapsedTime(entries, files, commit, wait);
  }

  /** Recording shadow start once more moves its latest success, and turns a
      passing audit with a positive waiting time into a failing one. */
  lemma RerunBreaksAudit(entries: seq<Entry>, files: Files, commit: string, wait: nat, again: Entry)
    requires AllReadable(entries) && wait > 0
    requires RequiredStages(HttpFull, true).Some?
    requires AuditFailures(entries, files, commit, HttpFull, true, wait) == []
    requires SuccessOf(again, commit, ShadowStart) && again.recordedAt.Some?
    requires forall e | e in entries :: e.recordedAt.value <= again.recordedAt.value
    ensures AuditFailures(entries + [again], files, commit, HttpFull, true, wait) != []
  {
    hide EntryClean;
    hide WatchedStages;
    hide AuditFailures;
    hide LatestTime;
    hide LatestSuccess;
    var after := entries + [again];
    AuditFailuresMean(after, files, commit, HttpFull, true, wait);
    HttpFullWindows();
    var w := [ShadowStart] + CANARIES_AND_HTTP;
    assert w[0] == ShadowStart && w[1] == CanaryIntentText;
    LatestAfterRerun(entries, commit, again);
    if AuditPasses(after, files, commit, HttpFull, true, wait) {
      assert WindowKept(after, commit, w[0], w[1], wait);
      assert CanaryIntentText in ROLLOUT_SEQUENCE;
      assert LatestClean(after, files, commit, CanaryIntentText);
      ReadableLatest(after, commit, CanaryIntentText);
      LatestBounded(after, commit, CanaryIntentText, again.recordedAt.value);
    }
  }

  lemma LatestAfterRerun(entries: seq<Entry>, commit: string, again: Entry)
    requires AllReadable(entries) && again.recordedAt.Some?
    requires SuccessOf(again, commit, ShadowStart)
    requires forall e | e in entries :: e.recordedAt.value <= again.recordedAt.value
    ensures LatestTime(entries + [again], commit, ShadowStart) == again.recordedAt
  {
    var after := entries + [again];
    assert after[|entries|] == again;
    assert again in after;
    var e := LatestSuccess(after, commit, ShadowStart).value;
    assert e in entries || e == again;
  }

  lemma LatestBounded(entries: seq<Entry>, commit: string, s: Stage, bound: nat)
    requires forall e | e in entries :: e.recordedAt.Some? && e.recordedAt.value <= bound
    requires Successful(entries, commit, s)
    ensures LatestTime(entries, commit, s).Some? && LatestTime(entries, commit, s).value <= bound
  {
  }

  // ------------------------------------------------- recording a stage again

  /** `again` is a further success of its stage, later than every line. */
  predicate LaterSuccess(entries: seq<Entry>, commit: string, again: Entry) {
    && SuccessOf(again, commit, again.rec.stage) && again.recordedAt.Some?
    && forall e | e in entries :: e.recordedAt.Some? && e.recordedAt.value < again.recordedAt.value
  }

  /** It becomes the latest of its stage and leaves every other stage alone. */
  lemma LatestAfterAgain(entries: seq<Entry>, commit: string, again: Entry, s: Stage)
    requires LaterSuccess(entries, commit, again)
    ensures LatestSuccess(entries + [again], commit, s)
            == if s == again.rec.stage then Some(again) else LatestSuccess(entries, commit, s)
  {
    SuccessOfItsStage(again, commit, s);
    hide SuccessOf;
    var after := entries + [again];
    assert after[..|entries|] == entries && after[|entries|] == again;
    var prior := LatestIndex(entries, commit, s);
    assert prior.Some? ==> entries[prior.value] in entries;
  }

  lemma SuccessOfItsStage(e: Entry, commit: string, s: Stage)
    requires SuccessOf(e, commit, e.rec.stage)
    ensures SuccessOf(e, commit, s) <==> s == e.rec.stage
  {
  }

  lemma LatestListed(entries: seq<Entry>, commit: string, s: Stage)
    requires LatestTime(entries, commit, s).Some?
    ensures exists e | e in entries :: e.recordedAt == LatestTime(entries, commit, s)
  {
  }

  /** No stage that an audit of `target` requires has to follow `s`. */
  predicate NothingFollows(s: Stage, target: Stage) {
    s == ConfigAuthorityStage || s == LastWatched(target)
  }

  predicate AllTimed(entries: seq<Entry>, commit: string, stages: seq<Stage>) {
    forall s | s in stages :: LatestTime(entries, commit, s).Some?
  }

  /** A later success of a stage that something else must follow fails the
      audit: its successor is now too early. */
  lemma AgainTooLate(entries: seq<Entry>, files: Files, commit: string, target: Stage, wait: nat, again: Entry)
    requires LaterSuccess(entries, commit, again)
    requires target in STAGES && RequiredStages(target, true).Some?
    requires AllTimed(entries, commit, RequiredStages(target, true).value)
    requires again.rec.stage in RequiredStages(target, true).value && !NothingFollows(again.rec.stage, target)
    ensures !AuditPasses(entries + [again], files, commit, target, true, wait)
  {
    hide LatestClean;
    hide WatchedStages;
    hide RequiredStages;
    hide LatestTime;
    hide LaterSuccess;
    WatchedShape(target);
    var required := RequiredStages(target, true).value;
    var w, s := WatchedStages(required), again.rec.stage;
    if s == RollbackRehearsal {
      TimesAfter(entries, commit, again, s, target);
      assert !RehearsalOrdered(entries + [again], commit, required, target);
    } else {
      var i :| 0 <= i < |w| && w[i] == s;
      assert w[i + 1] in required;
      TimesAfter(entries, commit, again, s, w[i + 1]);
      assert !WindowKept(entries + [again], commit, w[i], w[i + 1], wait);
    }
  }

  lemma TimesAfter(entries: seq<Entry>, commit: string, again: Entry, s: Stage, next: Stage)
    requires LaterSuccess(entries, commit, again) && s == again.rec.stage != next
    requires LatestTime(entries, commit, next).Some?
    ensures LatestTime(entries + [again], commit, s).Some? && LatestTime(entries + [again], commit, next).Some?
    ensures LatestTime(entries + [again], commit, s).value > LatestTime(entries + [again], commit, next).value
  {
    hide LatestSuccess;
    hide SuccessOf;
    LatestAfterAgain(entries, commit, again, s);
    LatestAfterAgain(entries, commit, again, next);
    LatestListed(entries, commit, next);
  }

  /** What a success in time may change: the times of stages nothing follows,
      upwards. */
  predicate OnlyLastMoved(
    entries: seq<Entry>, after: seq<Entry>, commit: string, target: Stage, required: seq<Stage>)
  {
    forall s | s in required ::
      && LatestTime(entries, commit, s).Some? && LatestTime(after, commit, s).Some?
      && LatestTime(entries, commit, s).value <= LatestTime(after, commit, s).value
      && (!NothingFollows(s, target) ==> LatestTime(after, commit, s) == LatestTime(entries, commit, s))
  }

  lemma AgainMoves(entries: seq<Entry>, commit: string, target: Stage, required: seq<Stage>, again: Entry)
    requires LaterSuccess(entries, commit, again) && AllTimed(entries, commit, required)
    requires again.rec.stage !in required || NothingFollows(again.rec.stage, target)
    ensures OnlyLastMoved(entries, entries + [again], commit, target, required)
  {
    hide LatestSuccess;
    hide SuccessOf;
    hide NothingFollows;
    forall s | s in required
      ensures LatestTime(entries, commit, s).value < again.recordedAt.value
      ensures LatestTime(entries + [again], commit, s)
              == if s == again.rec.stage then again.recordedAt else LatestTime(entries, commit, s)
    {
      LatestListed(entries, commit, s);
      LatestAfterAgain(entries, commit, again, s);
    }
    hide LatestTime;
  }

  lemma MovedOrdered(
    entries: seq<Entry>, after: seq<Entry>, commit: string, target: Stage, required: seq<Stage>, s: Stage)
    requires OnlyLastMoved(entries, after, commit, target, required) && target in STAGES
    requires s in required && RehearsalOrdered(entries, commit, required, s)
    ensures RehearsalOrdered(after, commit, required, s)
  {
    hide LatestTime;
    RehearsalSecond();
    assert !NothingFollows(RollbackRehearsal, target);
  }

  lemma MovedWaited(
    entries: seq<Entry>, after: seq<Entry>, commit: string, target: Stage, required: seq<Stage>,
    before: Stage, next: Stage, wait: nat)
    requires OnlyLastMoved(entries, after, commit, target, required)
    requires before in required && next in required && !NothingFollows(before, target)
    requires WindowKept(entries, commit, before, next, wait)
    ensures WindowKept(after, commit, before, next, wait)
  {
    hide LatestTime;
  }

  lemma AgainClean(entries: seq<Entry>, files: Files, commit: string, required: seq<Stage>, again: Entry)
    requires LaterSuccess(entries, commit, again)
    requires forall s | s in required :: LatestClean(entries, files, commit, s)
    ensures (forall s | s in required :: LatestClean(entries + [again], files, commit, s)) <==>
              again.rec.stage !in required || EntryClean(files, again.rec)
  {
    hide EntryClean;
    hide LatestSuccess;
    hide LaterSuccess;
    forall s | s in required
      ensures LatestClean(entries + [again], files, commit, s) <==> s != again.rec.stage || EntryClean(files, again.rec)
    {
      LatestAfterAgain(entries, commit, again, s);
      assert LatestClean(entries, files, commit, s);
    }
  }

  lemma AgainNotStale(entries: seq<Entry>, commit: string, target: Stage, again: Entry)
    requires LaterSuccess(entries, commit, again)
    requires NotStale(entries, commit, target) && LatestTime(entries, commit, target).Some?
    ensures NotStale(entries + [again], commit, target)
  {
    hide LatestSuccess;
    LatestAfterAgain(entries, commit, again, target);
    LatestListed(entries, commit, target);
    forall e | e in entries + [again]
      ensures !LaterNegative(e, commit, LatestTime(entries + [again], commit, target).value)
    {
      assert e in entries ==> !LaterNegative(e, commit, LatestTime(entries, commit, target).value);
    }
  }

  /** Any other later success keeps the order, the windows and the freshness
      of the target; what is left to check is its own evidence. */
  lemma AgainInTime(entries: seq<Entry>, files: Files, commit: string, target: Stage, wait: nat, again: Entry)
    requires LaterSuccess(entries, commit, again)
    requires target in STAGES && RequiredStages(target, true).Some?
    requires target in RequiredStages(target, true).value
    requires AllTimed(entries, commit, RequiredStages(target, true).value)
    requires again.rec.stage !in RequiredStages(target, true).value || NothingFollows(again.rec.stage, target)
    requires AuditPasses(entries, files, commit, target, true, wait)
    ensures AuditPasses(entries + [again], files, commit, target, true, wait) <==>
              again.rec.stage !in RequiredStages(target, true).value || EntryClean(files, again.rec)
  {
    hide EntryClean;
    hide WatchedStages;
    hide RequiredStages;
    hide LatestClean;
    hide LatestTime;
    hide WindowKept;
    hide RehearsalOrdered;
    hide NotStale;
    hide LaterSuccess;
    hide OnlyLastMoved;
    WatchedShape(target);
    var required, after := RequiredStages(target, true).value, entries + [again];
    AgainMoves(entries, commit, target, required, again);
    AgainNotStale(entries, commit, target, again);
    AgainClean(entries, files, commit, required, again);
    forall s | s in required && RequiresRehearsal(s) ensures RehearsalOrdered(after, commit, required, s) {
      MovedOrdered(entries, after, commit, target, required, s);
    }
    var w := WatchedStages(required);
    forall i | 0 <= i < |w| - 1 ensures WindowKept(after, commit, w[i], w[i + 1], wait) {
      assert w[i] in w && w[i + 1] in w;
      MovedWaited(entries, after, commit, target, required, w[i], w[i + 1], wait);
    }
  }

  /** A passing audit found a time for every required stage. */
  lemma PassedAllTimed(entries: seq<Entry>, files: Files, commit: string, target: Stage, wait: nat)
    requires AllReadable(entries)
    requires RequiredStages(target, true).Some? && AuditPasses(entries, files, commit, target, true, wait)
    ensures AllTimed(entries, commit, RequiredStages(target, true).value)
  {
    hide EntryClean;
    hide WatchedStages;
    hide RequiredStages;
    hide LatestTime;
    hide LatestSuccess;
    forall s | s in RequiredStages(target, true).value ensures LatestTime(entries, commit, s).Some? {
      assert LatestClean(entries, files, commit, s);
      ReadableLatest(entries, commit, s);
    }
  }

  lemma LaterIsReadable(entries: seq<Entry>, commit: string, again: Entry, target: Stage)
    requires LaterSuccess(entries, commit, again) && target in STAGES
    ensures AllReadable(entries)
    ensures RequiredStages(target, true).Some? && target in RequiredStages(target, true).value
  {
    hide RequiredStages;
    hide PriorStages;
    RequiredFor(target);
  }

  /** Which recordings a passing audit of `target` survives: a later success of
      any stage leaves it passing exactly when the audit does not look at that
      stage, or nothing has to follow that stage and its evidence is clean. */
  lemma AgainBreaksAuditExactly(
    entries: seq<Entry>, files: Files, commit: string, target: Stage, wait: nat, again: Entry)
    requires target in STAGES && RequiredStages(target, true).Some?
    requires AuditFailures(entries, files, commit, target, true, wait) == []
    requires LaterSuccess(entries, commit, again)
    ensures AuditFailures(entries + [again], files, commit, target, true, wait) == [] <==>
      || again.rec.stage !in RequiredStages(target, true).value
      || (NothingFollows(again.rec.stage, target) && EvidenceFailures(files, again.rec) == [])
  {
    hide EntryClean;
    hide EvidenceFailures;
    hide AuditFailures;
    hide AuditPasses;
    hide RequiredStages;
    hide NothingFollows;
    hide AllTimed;
    hide LaterSuccess;
    LaterIsReadable(entries, commit, again, target);
    AuditFailuresMean(entries, files, commit, target, true, wait);
    AuditFailuresMean(entries + [again], files, commit, target, true, wait);
    PassedAllTimed(entries, files, commit, target, wait);
    if again.rec.stage !in RequiredStages(target, true).value || NothingFollows(again.rec.stage, target) {
      AgainInTime(entries, files, commit, target, wait, again);
    } else {
      AgainTooLate(entries, files, commit, target, wait, again);
    }
  }

  /** At full http: every stage of the sequence is looked at, and only config
      authority and full http itself may be recorded again. */
  lemma AgainAfterFullHttp(entries: seq<Entry>, files: Files, commit: string, wait: nat, again: Entry)
    requires RequiredStages(HttpFull, true).Some?
    requires AuditFailures(entries, files, commit, HttpFull, true, wait) == []
    requires LaterSuccess(entries, commit, again)
    ensures AuditFailures(entries + [again], files, commit, HttpFull, true, wait) == [] <==>
      || again.rec.stage !in ROLLOUT_SEQUENCE
      || (again.rec.stage in {ConfigAuthorityStage, HttpFull} && EvidenceFailures(files, again.rec) == [])
  {
    hide AuditFailures;
    hide EvidenceFailures;
    hide LaterSuccess;
    hide RequiredStages;
    HttpFullWindows();
    SequenceEnds();
    AgainBreaksAuditExactly(entries, files, commit, HttpFull, wait, again);
  }

  lemma SequenceEnds()
    ensures HttpFull in STAGES
  {
    assert STAGES[9] == HttpFull;
  }
}
