/** What whole rollout runs guarantee: every history is a sequence of
    `validate` and `append` calls, each against the evidence files and the
    clock of its moment. */
module LedgerRuns {
  import opened Text
  import opened Evidence
  import opened Ledger
  import opened AuditSpec
  import opened StageOrder

  datatype Step =
    | ValidateStep(v: ValidateArgs, files: Files, now: nat)
    | AppendStep(a: Args, files: Files, now: nat)

  /** The ledger a run leaves, starting from an empty file. */
  function LedgerOf(run: seq<Step>): seq<Entry> {
    if run == [] then []
    else
      var n := |run| - 1;
      var prior := LedgerOf(run[..n]);
      match run[n]
      case ValidateStep(_, _, _) => prior
      case AppendStep(a, files, now) => LedgerAfterAppend(prior, files, a, now)
  }

  predicate ClockForward(run: seq<Step>) {
    forall i, j | 0 <= i < j < |run| :: run[i].now <= run[j].now
  }

  predicate Records(step: Step) {
    step.AppendStep? && AppendAccepts(step.files, step.a)
  }

  /** Step `j` validated, with exit code 0, the stage that step `i` records. */
  predicate ValidatedBy(run: seq<Step>, i: nat, j: nat)
    requires i < |run| && j < |run|
  {
    && run[i].AppendStep? && run[j].ValidateStep?
    && run[j].v.stage == run[i].a.stage
    && Lower(run[j].v.commit) == Lower(run[i].a.commit)
    && ValidateCode(LedgerOf(run[..j]), run[j].files, run[j].v, run[j].now) == 0
  }

  /** Every recorded success was validated before, override or not. */
  ghost predicate Gated(run: seq<Step>) {
    forall i | 0 <= i < |run| && Records(run[i]) && run[i].a.status == Success ::
      exists j :: 0 <= j < i && ValidatedBy(run, i, j)
  }

  predicate InOrder(step: Step, wait: nat) {
    step.ValidateStep? && !step.v.outOfOrder && step.v.minObservation == Some(wait)
  }

  /** Every recorded success was validated before without an override, with
      waiting time `wait`. */
  ghost predicate Disciplined(run: seq<Step>, wait: nat) {
    forall i | 0 <= i < |run| && Records(run[i]) && run[i].a.status == Success ::
      exists j :: 0 <= j < i && ValidatedBy(run, i, j) && InOrder(run[j], wait)
  }

  // ------------------------------------------------------- run structure

  /** The ledger only grows: what a prefix of a run left stays in place. */
  lemma {:induction false} LedgerGrows(run: seq<Step>, j: nat)
    requires j <= |run|
    ensures LedgerOf(run[..j]) <= LedgerOf(run)
  {
    hide LedgerAfterAppend;
    if j < |run| {
      var n := |run| - 1;
      LedgerGrows(run[..n], j);
      assert run[..n][..j] == run[..j];
      if run[n].AppendStep? { AppendGrows(LedgerOf(run[..n]), run[n]); }
    } else {
      assert run[..j] == run;
    }
  }

  lemma LedgerGrowsBetween(run: seq<Step>, j: nat, i: nat)
    requires j <= i <= |run|
    ensures LedgerOf(run[..j]) <= LedgerOf(run[..i])
  {
    LedgerGrows(run[..i], j);
    assert run[..i][..j] == run[..j];
  }

  lemma AppendGrows(entries: seq<Entry>, step: Step)
    requires step.AppendStep?
    ensures var after := LedgerAfterAppend(entries, step.files, step.a, step.now);
      if Records(step) then
        && |after| == |entries| + 1 && entries <= after
        && after[|entries|].recordedAt == Some(step.now)
        && Stores(after[|entries|], step.a)
      else after == entries
  {
    LowerIdempotent(step.a.commit);
  }

  /** The line keeps the stage, status and commit it was appended for. */
  predicate Stores(e: Entry, a: Args) {
    e.rec.stage == a.stage && e.rec.status == a.status && Lower(e.rec.commit) == Lower(a.commit)
  }

  /** The append step that wrote ledger line `k`. */
  lemma {:induction false} Origin(run: seq<Step>, k: nat) returns (i: nat)
    requires k < |LedgerOf(run)|
    ensures i < |run| && Records(run[i]) && |LedgerOf(run[..i])| == k
    ensures LedgerOf(run)[k].recordedAt == Some(run[i].now)
    ensures Stores(LedgerOf(run)[k], run[i].a)
  {
    hide LedgerAfterAppend;
    hide AppendAccepts;
    hide Stores;
    var n := |run| - 1;
    var prior := LedgerOf(run[..n]);
    if run[n].AppendStep? { AppendGrows(prior, run[n]); }
    if k < |prior| {
      i := Origin(run[..n], k);
      assert run[..n][..i] == run[..i];
      LedgerGrows(run, n);
    } else {
      i := n;
    }
  }

  /** `append` always writes a readable time, so every line of a run's ledger
      has one, and with a forward clock the lines are in time order. */
  lemma {:induction false} LinesInTimeOrder(run: seq<Step>)
    requires ClockForward(run)
    ensures forall e | e in LedgerOf(run) :: e.recordedAt.Some?
    ensures forall j, k | 0 <= j < k < |LedgerOf(run)| ::
              LedgerOf(run)[j].recordedAt.value <= LedgerOf(run)[k].recordedAt.value
  {
    var entries := LedgerOf(run);
    forall k | 0 <= k < |entries| ensures entries[k].recordedAt.Some? {
      var i := Origin(run, k);
    }
    forall j, k | 0 <= j < k < |entries| ensures entries[j].recordedAt.value <= entries[k].recordedAt.value {
      LineOrder(run, j, k);
    }
  }

  lemma LineOrder(run: seq<Step>, j: nat, k: nat)
    requires ClockForward(run) && j < k < |LedgerOf(run)|
    ensures LedgerOf(run)[j].recordedAt.Some? && LedgerOf(run)[k].recordedAt.Some?
    ensures LedgerOf(run)[j].recordedAt.value <= LedgerOf(run)[k].recordedAt.value
  {
    hide LedgerOf;
    hide Records;
    var x := Origin(run, j);
    var y := Origin(run, k);
    LedgerGrowsBetween(run, if y < x then y else x, x);
  }

  // ------------------------------------------- what a passing gate demands

  /** A zero exit code for a stage past the first means the rehearsal already
      succeeded, with or without an override. */
  lemma PassNeedsRehearsal(entries: seq<Entry>, files: Files, v: ValidateArgs, now: nat)
    requires ValidateCode(entries, files, v, now) == 0
    requires v.stage in STAGES && v.stage != ShadowStart
    ensures Successful(entries, v.commit, RollbackRehearsal)
  {
    hide LatestClean;
    hide Waited;
    hide PriorStages;
  }

  /** A passing override has looked at the evidence of the latest success of
      every earlier stage and of the rehearsal, and found it clean. */
  lemma OverridePassIsClean(entries: seq<Entry>, files: Files, v: ValidateArgs, now: nat, s: Stage)
    requires ValidateCode(entries, files, v, now) == 0 && v.outOfOrder
    requires v.stage in STAGES
    requires s in PriorStages(v.stage) || (s == RollbackRehearsal && RequiresRehearsal(v.stage))
    requires Successful(entries, v.commit, s)
    ensures EvidenceFailures(files, LatestSuccess(entries, v.commit, s).value.rec) == []
    ensures Strip(v.outOfOrderReason) != ""
  {
    hide EntryClean;
    hide EvidenceFailures;
    hide PriorStages;
    assert ExistingClean(entries, files, v.commit, s);
  }

  /** No stage of the sequence succeeds twice for the commit. */
  ghost predicate OncePerStage(entries: seq<Entry>, commit: string) {
    forall j, k, s | 0 <= j < k < |entries| && SuccessOf(entries[j], commit, s) ::
      !SuccessOf(entries[k], commit, s)
  }

  lemma TheOnlySuccess(entries: seq<Entry>, commit: string, s: Stage, k: nat)
    requires OncePerStage(entries, commit)
    requires k < |entries| && SuccessOf(entries[k], commit, s)
    ensures LatestSuccess(entries, commit, s) == Some(entries[k])
  {
    var i := LatestIndex(entries, commit, s);
    assert entries[k] in entries;
  }

  /** With one success per stage, a passing override vouches for every earlier
      success there is. */
  lemma OverrideVouchesForAll(entries: seq<Entry>, files: Files, v: ValidateArgs, now: nat, s: Stage, e: Entry)
    requires ValidateCode(entries, files, v, now) == 0 && v.outOfOrder
    requires v.stage in STAGES
    requires s in PriorStages(v.stage) || (s == RollbackRehearsal && RequiresRehearsal(v.stage))
    requires OncePerStage(entries, v.commit)
    requires e in entries && SuccessOf(e, v.commit, s)
    ensures EvidenceFailures(files, e.rec) == []
  {
    hide ValidateCode;
    hide EvidenceFailures;
    hide PriorStages;
    var k :| 0 <= k < |entries| && entries[k] == e;
    TheOnlySuccess(entries, v.commit, s, k);
    OverridePassIsClean(entries, files, v, now, s);
  }

  /** A pass in order: all earlier stages succeeded with clean latest evidence,
      and the waiting time since the last watched one has elapsed. */
  lemma OrderedPassDemands(entries: seq<Entry>, files: Files, v: ValidateArgs, now: nat)
    requires ValidateCode(entries, files, v, now) == 0 && !v.outOfOrder
    requires v.stage in STAGES && v.stage != ShadowStart
    ensures Successful(entries, v.commit, RollbackRehearsal)
    ensures forall s | s in PriorStages(v.stage) :: Successful(entries, v.commit, s)
    ensures v.minObservation.Some?
    ensures
      var watched := ObservationStages(PriorStages(v.stage));
      v.stage != ConfigAuthorityStage && watched != [] && v.minObservation.value > 0 ==>
        Waited(entries, v.commit, watched[|watched| - 1], v.minObservation.value, now)
  {
    hide LatestClean;
    hide Waited;
    hide ObservationStages;
    assert PriorStages(v.stage) != [];
  }

  /** Both gates compare commits case-insensitively. */
  lemma SameCommit(entries: seq<Entry>, a: string, b: string, s: Stage)
    requires Lower(a) == Lower(b)
    ensures forall e :: SuccessOf(e, a, s) <==> SuccessOf(e, b, s)
    ensures Successful(entries, a, s) <==> Successful(entries, b, s)
  {
  }

  // ------------------------------------------------------- main theorems

  /** Whatever overrides a run uses, no stage past the first is recorded as a
      success before a rehearsal success of the same commit. */
  lemma OverrideNeverBypassesRehearsal(run: seq<Step>, k: nat, commit: string)
    requires Gated(run)
    requires k < |LedgerOf(run)|
    requires var e := LedgerOf(run)[k];
      SuccessOf(e, commit, e.rec.stage) && e.rec.stage in STAGES && e.rec.stage != ShadowStart
    ensures exists r :: 0 <= r < k && SuccessOf(LedgerOf(run)[r], commit, RollbackRehearsal)
  {
    hide LedgerOf;
    hide ValidateCode;
    hide AppendAccepts;
    var entries := LedgerOf(run);
    var i := Origin(run, k);
    var j :| 0 <= j < i && ValidatedBy(run, i, j);
    var before := LedgerOf(run[..j]);
    PassNeedsRehearsal(before, run[j].files, run[j].v, run[j].now);
    SameCommit(before, run[j].v.commit, commit, RollbackRehearsal);
    var e :| e in before && SuccessOf(e, commit, RollbackRehearsal);
    var r :| 0 <= r < |before| && before[r] == e;
    LedgerGrowsBetween(run, j, i);
    LedgerGrows(run, j);
  }

  /** A success at line `k` found, at some earlier line, a success of stage
      `s` at least `wait` seconds older. */
  ghost predicate Preceded(entries: seq<Entry>, k: nat, commit: string, s: Stage, wait: nat)
    requires k < |entries|
  {
    exists r ::
      && 0 <= r < k && SuccessOf(entries[r], commit, s)
      && entries[r].recordedAt.Some? && entries[k].recordedAt.Some?
      && entries[k].recordedAt.value - entries[r].recordedAt.value >= wait
  }

  /** The validation behind one recorded success, and the ledger it saw. */
  lemma Validation(run: seq<Step>, wait: nat, k: nat, commit: string, stage: Stage) returns (j: nat)
    requires ClockForward(run) && Disciplined(run, wait)
    requires k < |LedgerOf(run)| && SuccessOf(LedgerOf(run)[k], commit, stage)
    ensures j < |run| && InOrder(run[j], wait)
    ensures run[j].v.stage == stage && Lower(run[j].v.commit) == Lower(commit)
    ensures ValidateCode(LedgerOf(run[..j]), run[j].files, run[j].v, run[j].now) == 0
    ensures LedgerOf(run[..j]) <= LedgerOf(run) && |LedgerOf(run[..j])| <= k
    ensures LedgerOf(run)[k].recordedAt.Some? && run[j].now <= LedgerOf(run)[k].recordedAt.value
  {
    hide LedgerOf;
    hide ValidateCode;
    hide AppendAccepts;
    var i := Origin(run, k);
    j :| 0 <= j < i && ValidatedBy(run, i, j) && InOrder(run[j], wait);
    LedgerGrowsBetween(run, j, i);
    LedgerGrows(run, j);
  }

  /** What discipline buys for one recorded success. */
  lemma DisciplinedLine(run: seq<Step>, wait: nat, k: nat, commit: string, stage: Stage)
    requires ClockForward(run) && Disciplined(run, wait)
    requires k < |LedgerOf(run)| && SuccessOf(LedgerOf(run)[k], commit, stage)
    requires stage in STAGES && stage != ShadowStart
    ensures Preceded(LedgerOf(run), k, commit, RollbackRehearsal, 0)
    ensures forall s | s in PriorStages(stage) :: Preceded(LedgerOf(run), k, commit, s, 0)
    ensures
      var watched := ObservationStages(PriorStages(stage));
      stage != ConfigAuthorityStage && watched != [] ==>
        Preceded(LedgerOf(run), k, commit, watched[|watched| - 1], wait)
  {
    hide LedgerOf;
    hide ValidateCode;
    hide ObservationStages;
    hide PriorStages;
    hide Disciplined;
    hide Preceded;
    hide Waited;
    var j := Validation(run, wait, k, commit, stage);
    var before, v := LedgerOf(run[..j]), run[j].v;
    OrderedPassDemands(before, run[j].files, v, run[j].now);
    forall s | s == RollbackRehearsal || s in PriorStages(stage)
      ensures Preceded(LedgerOf(run), k, commit, s, 0)
    {
      var r := EarlierSuccess(run, before, k, v.commit, commit, s);
    }
    var watched := ObservationStages(PriorStages(stage));
    if stage != ConfigAuthorityStage && watched != [] {
      var s := watched[|watched| - 1];
      ObservationMember(PriorStages(stage), s);
      WaitedLine(run, before, k, v.commit, commit, s, wait, run[j].now);
    }
  }

  lemma WaitedLine(
    run: seq<Step>, before: seq<Entry>, k: nat, mine: string, commit: string, s: Stage, wait: nat, now: nat)
    requires ClockForward(run) && before <= LedgerOf(run) && |before| <= k < |LedgerOf(run)|
    requires Lower(mine) == Lower(commit) && Successful(before, mine, s)
    requires wait > 0 ==> Waited(before, mine, s, wait, now)
    requires LedgerOf(run)[k].recordedAt.Some? && now <= LedgerOf(run)[k].recordedAt.value
    ensures Preceded(LedgerOf(run), k, commit, s, wait)
  {
    hide LedgerOf;
    var r := EarlierSuccess(run, before, k, mine, commit, s);
    assert before[r] in before;
  }

  lemma EarlierSuccess(
    run: seq<Step>, before: seq<Entry>, k: nat, mine: string, commit: string, s: Stage) returns (r: nat)
    requires ClockForward(run) && before <= LedgerOf(run) && |before| <= k < |LedgerOf(run)|
    requires Lower(mine) == Lower(commit) && Successful(before, mine, s)
    ensures r < |before| && SuccessOf(before[r], commit, s) && before[r] == LedgerOf(run)[r]
    ensures before[r].recordedAt.Some? && LedgerOf(run)[k].recordedAt.Some?
    ensures before[r].recordedAt.value <= LedgerOf(run)[k].recordedAt.value
    ensures Preceded(LedgerOf(run), k, commit, s, 0)
  {
    hide LedgerOf;
    var e :| e in before && SuccessOf(e, mine, s);
    r :| 0 <= r < |before| && before[r] == e;
    LineOrder(run, r, k);
  }

  /** Nothing after the target's success is a failure or a rollback of it. */
  ghost predicate NoLaterNegative(entries: seq<Entry>, commit: string, target: Stage) {
    forall j, k | 0 <= j < k < |entries| && SuccessOf(entries[j], commit, target) ::
      !(Lower(entries[k].rec.commit) == Lower(commit) && entries[k].rec.status in {Failed, Rollback})
  }

  /** The hypotheses about one commit under which a run must pass its audit. */
  ghost predicate Auditable(entries: seq<Entry>, files: Files, commit: string, target: Stage) {
    && target in STAGES
    && Successful(entries, commit, target)
    && OncePerStage(entries, commit)
    && (forall e, s | e in entries && SuccessOf(e, commit, s) :: EvidenceFailures(files, e.rec) == [])
    && NoLaterNegative(entries, commit, target)
  }

  /** `k` is the line of the only success of stage `s`. */
  ghost predicate OnlyAt(entries: seq<Entry>, commit: string, s: Stage, k: nat) {
    && k < |entries| && SuccessOf(entries[k], commit, s)
    && entries[k].recordedAt.Some?
    && LatestSuccess(entries, commit, s) == Some(entries[k])
  }

  ghost predicate NeededFor(s: Stage, target: Stage) {
    s == target || s in PriorStages(target) || (s == RollbackRehearsal && target != ShadowStart)
  }

  lemma FirstHasNoPrior(s: Stage, target: Stage)
    requires NeededFor(s, target) && s != target
    ensures target != ShadowStart
  {
    assert STAGES[0] == ShadowStart;
  }

  /** Every stage the audit requires was recorded. */
  lemma RequiredLine(run: seq<Step>, wait: nat, commit: string, target: Stage, s: Stage) returns (k: nat)
    requires ClockForward(run) && Disciplined(run, wait)
    requires target in STAGES && Successful(LedgerOf(run), commit, target)
    requires NeededFor(s, target)
    ensures k < |LedgerOf(run)| && SuccessOf(LedgerOf(run)[k], commit, s)
    ensures LedgerOf(run)[k].recordedAt.Some?
  {
    hide LedgerOf;
    hide Disciplined;
    hide ClockForward;
    hide PriorStages;
    hide ObservationStages;
    var entries := LedgerOf(run);
    var e :| e in entries && SuccessOf(e, commit, target);
    k :| 0 <= k < |entries| && entries[k] == e;
    if s != target {
      FirstHasNoPrior(s, target);
      DisciplinedLine(run, wait, k, commit, target);
      assert Preceded(entries, k, commit, s, 0);
      k :| 0 <= k < |entries| && SuccessOf(entries[k], commit, s);
    }
    var i := Origin(run, k);
  }

  lemma CleanLine(entries: seq<Entry>, files: Files, commit: string, target: Stage, s: Stage, k: nat)
    requires Auditable(entries, files, commit, target)
    requires k < |entries| && SuccessOf(entries[k], commit, s) && entries[k].recordedAt.Some?
    ensures OnlyAt(entries, commit, s, k) && LatestClean(entries, files, commit, s)
  {
    hide EntryClean;
    hide EvidenceFailures;
    hide NoLaterNegative;
    TheOnlySuccess(entries, commit, s, k);
    assert EvidenceFailures(files, entries[k].rec) == [];
  }

  /** ... exactly once, and with clean evidence. */
  lemma RequiredStageRecorded(run: seq<Step>, wait: nat, files: Files, commit: string, target: Stage, s: Stage)
    returns (k: nat)
    requires ClockForward(run) && Disciplined(run, wait)
    requires Auditable(LedgerOf(run), files, commit, target)
    requires NeededFor(s, target)
    ensures OnlyAt(LedgerOf(run), commit, s, k)
    ensures LatestClean(LedgerOf(run), files, commit, s)
  {
    hide LedgerOf;
    hide EvidenceFailures;
    hide LatestClean;
    hide Disciplined;
    hide ClockForward;
    hide NeededFor;
    hide OnlyAt;
    hide OncePerStage;
    hide NoLaterNegative;
    k := RequiredLine(run, wait, commit, target, s);
    CleanLine(LedgerOf(run), files, commit, target, s, k);
  }

  /** With one success per stage, `Preceded` is about the latest success. */
  lemma PrecededByLatest(entries: seq<Entry>, commit: string, before: Stage, after: Stage, k: nat, wait: nat)
    requires OncePerStage(entries, commit)
    requires OnlyAt(entries, commit, after, k) && Preceded(entries, k, commit, before, wait)
    ensures WindowKept(entries, commit, before, after, wait)
    ensures LatestTime(entries, commit, before).Some? && LatestTime(entries, commit, after).Some?
  {
    hide LatestSuccess;
    var r :| 0 <= r < k && SuccessOf(entries[r], commit, before)
      && entries[r].recordedAt.Some? && entries[k].recordedAt.Some?
      && entries[k].recordedAt.value - entries[r].recordedAt.value >= wait;
    TheOnlySuccess(entries, commit, before, r);
  }

  /** Where a watched stage sits in STAGES, and which stage it waits for. */
  lemma WatchedPair(target: Stage, i: nat)
    requires target in STAGES && i + 1 < |ObservationStages(PriorStages(target) + [target])|
    ensures
      var w := ObservationStages(PriorStages(target) + [target]);
      var before := ObservationStages(PriorStages(w[i + 1]));
      && w[i + 1] in STAGES && w[i + 1] != ConfigAuthorityStage && w[i + 1] != ShadowStart
      && NeededFor(w[i + 1], target)
      && before != [] && before[|before| - 1] == w[i]
  {
    hide ObservationStages;
    hide PriorStages;
    var stages := PriorStages(target) + [target];
    var w := ObservationStages(stages);
    ObservationMember(stages, w[i + 1]);
    var p :| 0 <= p < |stages| && stages[p] == w[i + 1];
    PriorPlus(target);
    PreviousWatched(stages, i, p);
    PriorAt(target, p);
    if p == 0 {
      assert stages[..0] == [];
      ObservationMember([], w[i]);
    }
  }

  lemma PriorPlus(target: Stage)
    requires target in STAGES
    ensures PriorStages(target) + [target] == STAGES[..Position(target) + 1]
    ensures Distinct(PriorStages(target) + [target])
  {
    RehearsalSecond();
  }

  lemma PriorAt(target: Stage, p: nat)
    requires target in STAGES && p <= Position(target)
    ensures var stages := PriorStages(target) + [target];
      && p < |stages| && stages[p] in STAGES && PriorStages(stages[p]) == stages[..p]
      && NeededFor(stages[p], target)
      && (stages[p] == ShadowStart ==> p == 0)
  {
    PriorPlus(target);
    StageAt(p);
    hide Position;
    hide PriorStages;
    var stages := PriorStages(target) + [target];
    assert stages[p] == STAGES[p] && stages[..p] == STAGES[..p];
    assert p < |PriorStages(target)| ==> stages[p] == PriorStages(target)[p];
  }

  lemma StageAt(p: nat)
    requires p < |STAGES|
    ensures STAGES[p] in STAGES && Position(STAGES[p]) == p && PriorStages(STAGES[p]) == STAGES[..p]
    ensures STAGES[p] == ShadowStart ==> p == 0
  {
    RehearsalSecond();
    var stages := STAGES;
    var q := Position(stages[p]);
    assert stages[q] == stages[p] && stages[0] == ShadowStart;
    hide Position;
    assert q == p;
  }

  lemma DisciplinedWindow(run: seq<Step>, wait: nat, files: Files, commit: string, target: Stage, i: nat)
    requires ClockForward(run) && Disciplined(run, wait)
    requires Auditable(LedgerOf(run), files, commit, target)
    requires i + 1 < |ObservationStages(PriorStages(target) + [target])|
    ensures
      var w := ObservationStages(PriorStages(target) + [target]);
      WindowKept(LedgerOf(run), commit, w[i], w[i + 1], wait)
  {
    hide LedgerOf;
    hide Disciplined;
    hide ClockForward;
    hide Preceded;
    hide OnlyAt;
    hide NeededFor;
    hide WindowKept;
    hide ObservationStages;
    hide PriorStages;
    hide LatestClean;
    hide EvidenceFailures;
    var w := ObservationStages(PriorStages(target) + [target]);
    WatchedPair(target, i);
    var k := RequiredStageRecorded(run, wait, files, commit, target, w[i + 1]);
    assert SuccessOf(LedgerOf(run)[k], commit, w[i + 1]) by { OnlyAtSuccess(LedgerOf(run), commit, w[i + 1], k); }
    OnlyAtSuccess(LedgerOf(run), commit, w[i + 1], k);
    DisciplinedLine(run, wait, k, commit, w[i + 1]);
    PrecededByLatest(LedgerOf(run), commit, w[i], w[i + 1], k, wait);
  }

  lemma OnlyAtSuccess(entries: seq<Entry>, commit: string, s: Stage, k: nat)
    requires OnlyAt(entries, commit, s, k)
    ensures k < |entries| && SuccessOf(entries[k], commit, s) && entries[k].recordedAt.Some?
    ensures LatestTime(entries, commit, s) == entries[k].recordedAt
  {
  }

  lemma DisciplinedOrder(
    run: seq<Step>, wait: nat, files: Files, commit: string, target: Stage, required: seq<Stage>, s: Stage)
    requires ClockForward(run) && Disciplined(run, wait)
    requires Auditable(LedgerOf(run), files, commit, target)
    requires NeededFor(s, target) && RequiresRehearsal(s)
    requires RollbackRehearsal in required
    ensures RehearsalOrdered(LedgerOf(run), commit, required, s)
  {
    hide LedgerOf;
    hide Disciplined;
    hide ClockForward;
    hide Preceded;
    hide OnlyAt;
    hide LatestClean;
    hide EvidenceFailures;
    hide LatestTime;
    var k := RequiredStageRecorded(run, wait, files, commit, target, s);
    OnlyAtSuccess(LedgerOf(run), commit, s, k);
    assert s in STAGES;
    DisciplinedLine(run, wait, k, commit, s);
    PrecededByLatest(LedgerOf(run), commit, RollbackRehearsal, s, k, 0);
  }

  lemma DisciplinedNotStale(run: seq<Step>, wait: nat, files: Files, commit: string, target: Stage)
    requires ClockForward(run) && Disciplined(run, wait)
    requires Auditable(LedgerOf(run), files, commit, target)
    ensures NotStale(LedgerOf(run), commit, target)
  {
    hide LedgerOf;
    hide Disciplined;
    hide LatestClean;
    hide EvidenceFailures;
    hide OnlyAt;
    hide NotStale;
    hide PriorStages;
    var entries := LedgerOf(run);
    var k := RequiredStageRecorded(run, wait, files, commit, target, target);
    OnlyAtSuccess(entries, commit, target, k);
    LinesInTimeOrder(run);
    NotStaleAt(entries, commit, target, k);
  }

  lemma NotStaleAt(entries: seq<Entry>, commit: string, target: Stage, k: nat)
    requires OnlyAt(entries, commit, target, k) && NoLaterNegative(entries, commit, target)
    requires forall e | e in entries :: e.recordedAt.Some?
    requires forall j, n | 0 <= j < n < |entries| :: entries[j].recordedAt.value <= entries[n].recordedAt.value
    ensures NotStale(entries, commit, target)
  {
    hide LatestSuccess;
    forall e | e in entries ensures !LaterNegative(e, commit, entries[k].recordedAt.value) {
      var n :| 0 <= n < |entries| && entries[n] == e;
    }
  }

  /** A disciplined run passes its audit: for every target in STAGES that
      succeeded, the audit with the run's waiting time reports no failure. */
  lemma DisciplinedRunPassesAudit(run: seq<Step>, wait: nat, files: Files, commit: string, target: Stage)
    requires ClockForward(run) && Disciplined(run, wait)
    requires Auditable(LedgerOf(run), files, commit, target)
    ensures RequiredStages(target, true).Some?
    ensures AuditFailures(LedgerOf(run), files, commit, target, true, wait) == []
  {
    hide LedgerOf;
    hide Disciplined;
    hide ClockForward;
    hide LatestClean;
    hide RehearsalOrdered;
    hide NotStale;
    hide WindowKept;
    hide ObservationStages;
    hide WatchedStages;
    hide OncePerStage;
    hide NoLaterNegative;
    hide EvidenceFailures;
    hide RequiredStages;
    hide PriorStages;
    hide AuditFailures;
    hide OnlyAt;
    var entries := LedgerOf(run);
    RequiredFor(target);
    var required := RequiredStages(target, true).value;
    forall s | s in required ensures LatestClean(entries, files, commit, s) && NeededFor(s, target) {
      var k := RequiredStageRecorded(run, wait, files, commit, target, s);
    }
    forall s | s in required && RequiresRehearsal(s) ensures RehearsalOrdered(entries, commit, required, s) {
      if target == ShadowStart { NoOther(s); }
      DisciplinedOrder(run, wait, files, commit, target, required, s);
    }
    DisciplinedNotStale(run, wait, files, commit, target);
    forall i | 0 <= i < |WatchedStages(required)| - 1
      ensures WindowKept(entries, commit, WatchedStages(required)[i], WatchedStages(required)[i + 1], wait)
    {
      DisciplinedWindow(run, wait, files, commit, target, i);
    }
    AuditFailuresMean(entries, files, commit, target, true, wait);
  }

  /** A recorded success of a stage in STAGES was validated for a commit that
      is not empty. */
  lemma ValidatedCommitNotEmpty(run: seq<Step>, wait: nat, commit: string, target: Stage)
    requires ClockForward(run) && Disciplined(run, wait)
    requires target in STAGES && Successful(LedgerOf(run), commit, target)
    ensures Lower(commit) != ""
  {
    hide LedgerOf;
    hide Disciplined;
    hide ClockForward;
    hide PriorStages;
    hide LatestClean;
    hide Waited;
    var entries := LedgerOf(run);
    var e :| e in entries && SuccessOf(e, commit, target);
    var k :| 0 <= k < |entries| && entries[k] == e;
    var j := Validation(run, wait, k, commit, target);
  }

  /** No line belongs to the stripped spelling of `commit`, unless stripping
      changes nothing. */
  predicate OnlyAsGiven(entries: seq<Entry>, commit: string) {
    forall e | e in entries && Lower(e.rec.commit) == Strip(Lower(commit)) :: Strip(Lower(commit)) == Lower(commit)
  }

  /** What that means for the command: `validate` and `append` use a commit as
      given while `audit` strips it, so the audit of a disciplined run passes
      if and only if the commit has no blank at either end. */
  lemma DisciplinedAuditExactly(run: seq<Step>, wait: nat, files: Files, commit: string, target: Stage)
    requires ClockForward(run) && Disciplined(run, wait)
    requires Auditable(LedgerOf(run), files, commit, target)
    requires OnlyAsGiven(LedgerOf(run), commit)
    ensures AuditCommand(LedgerOf(run), files, commit, target, true, Some(wait)).0 == 0 <==>
              Strip(Lower(commit)) == Lower(commit)
  {
    hide LedgerOf;
    hide Disciplined;
    hide ClockForward;
    hide AuditFailures;
    hide Auditable;
    hide OnlyAsGiven;
    hide RequiredStages;
    hide Strip;
    hide Lower;
    var asked := Strip(Lower(commit));
    AuditableTarget(run, wait, files, commit, target);
    if asked == Lower(commit) {
      LowerTwice(LedgerOf(run), files, commit, target);
      DisciplinedRunPassesAudit(run, wait, files, asked, target);
    } else {
      NothingAsAsked(LedgerOf(run), files, commit, target, wait);
    }
  }

  lemma AuditableTarget(run: seq<Step>, wait: nat, files: Files, commit: string, target: Stage)
    requires ClockForward(run) && Disciplined(run, wait)
    requires Auditable(LedgerOf(run), files, commit, target)
    ensures Lower(commit) != "" && target in STAGES && RequiredStages(target, true).Some?
  {
    hide LedgerOf;
    hide Disciplined;
    hide ClockForward;
    hide Lower;
    hide RequiredStages;
    hide PriorStages;
    ValidatedCommitNotEmpty(run, wait, commit, target);
    RequiredFor(target);
  }

  lemma LowerTwice(entries: seq<Entry>, files: Files, commit: string, target: Stage)
    requires Auditable(entries, files, commit, target)
    ensures Auditable(entries, files, Lower(commit), target)
  {
    hide EvidenceFailures;
    LowerIdempotent(commit);
    hide Lower;
    assert forall e, s :: SuccessOf(e, Lower(commit), s) == SuccessOf(e, commit, s);
    hide SuccessOf;
  }

  lemma NothingAsAsked(entries: seq<Entry>, files: Files, commit: string, target: Stage, wait: nat)
    requires OnlyAsGiven(entries, commit) && Strip(Lower(commit)) != Lower(commit)
    requires target in STAGES && RequiredStages(target, true).Some?
    ensures AuditFailures(entries, files, Strip(Lower(commit)), target, true, wait) != []
  {
    hide AuditFailures;
    hide RequiredStages;
    hide WatchedStages;
    hide WindowKept;
    hide PriorStages;
    hide EntryClean;
    var asked := Strip(Lower(commit));
    StripLower(commit);
    LowerIdempotent(Strip(commit));
    assert Lower(asked) == asked;
    hide Strip;
    hide Lower;
    RequiredFor(target);
    AuditFailuresMean(entries, files, asked, target, true, wait);
    assert !LatestClean(entries, files, asked, target);
  }

  lemma NoOther(s: Stage)
    requires NeededFor(s, ShadowStart)
    ensures s == ShadowStart
  {
  }
}
