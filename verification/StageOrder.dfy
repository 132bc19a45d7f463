/** Facts about the two stage sequences that the gates index and filter. */
module StageOrder {
  import opened Text
  import opened Evidence
  import opened Ledger
  import opened AuditSpec

  lemma {:induction false} ObservationAppend(stages: seq<Stage>, x: Stage)
    ensures ObservationStages(stages + [x]) ==
            ObservationStages(stages) + if x == ConfigAuthorityStage then [] else [x]
  {
    if stages != [] {
      assert (stages + [x])[1..] == stages[1..] + [x];
      ObservationAppend(stages[1..], x);
    }
  }

  lemma {:induction false} FilterSplit(a: seq<Stage>, b: seq<Stage>, allowed: seq<Stage>)
    requires forall s | s in a :: s in allowed
    requires forall s | s in b :: s !in allowed
    ensures Filter(a + b, allowed) == a
  {
    if a != [] {
      assert (a + b)[1..] == a[1..] + b;
      FilterSplit(a[1..], b, allowed);
    } else {
      assert a + b == b;
      if b != [] { FilterSplit([], b[1..], allowed); assert [] + b[1..] == b[1..]; }
    }
  }

  ghost predicate Distinct<T>(s: seq<T>) {
    forall i, j | 0 <= i < j < |s| :: s[i] != s[j]
  }

  /** In a watched sequence, the stage before another is the last one watched
      among everything that precedes the latter in the full sequence. */
  lemma {:induction false} PreviousWatched(stages: seq<Stage>, i: nat, p: nat)
    requires Distinct(stages) && p < |stages|
    requires i + 1 < |ObservationStages(stages)| && ObservationStages(stages)[i + 1] == stages[p]
    ensures
      var before := ObservationStages(stages[..p]);
      before != [] && before[|before| - 1] == ObservationStages(stages)[i]
    ensures stages[p] != ConfigAuthorityStage
  {
    var n := |stages| - 1;
    var init, y := stages[..n], stages[n];
    assert stages == init + [y];
    ObservationAppend(init, y);
    var w := ObservationStages(init);
    if i + 1 < |w| {
      ObservationMember(init, w[i + 1]);
      assert p != n;
      assert stages[..p] == init[..p];
      PreviousWatched(init, i, p);
    } else {
      assert p == n;
    }
  }

  /** The rollout sequence is STAGES with the rehearsal put second. */
  lemma RehearsalSecond()
    ensures ROLLOUT_SEQUENCE == [STAGES[0], RollbackRehearsal] + STAGES[1..]
    ensures RollbackRehearsal !in STAGES && Distinct(STAGES)
  {
  }

  /** `cut` holds what `kept` holds, and `extra` too when `more`. */
  ghost predicate SameWith(cut: seq<Stage>, kept: seq<Stage>, extra: Stage, more: bool) {
    forall s :: s in cut <==> s in kept || (s == extra && more)
  }

  /** The cut of a sequence whose second element was inserted. */
  lemma CutOfInserted(stages: seq<Stage>, extra: Stage, k: nat)
    requires k < |stages| && Distinct(stages) && extra !in stages
    ensures
      var sequence := [stages[0], extra] + stages[1..];
      var r := if k == 0 then 0 else k + 1;
      SameWith(sequence[..r + 1], stages[..k + 1], extra, k > 0)
  {
    var sequence := [stages[0], extra] + stages[1..];
    var r := if k == 0 then 0 else k + 1;
    var cut := sequence[..r + 1];
    forall s | s in cut ensures s in stages[..k + 1] || (s == extra && k > 0) {
      var j :| 0 <= j <= r && sequence[j] == s;
      if j != 1 { assert stages[..k + 1][if j == 0 then 0 else j - 1] == s; }
    }
    forall s | s in stages[..k + 1] ensures s in cut {
      var j :| 0 <= j <= k && stages[j] == s;
      assert cut[if j == 0 then 0 else j + 1] == s;
    }
    if k > 0 { assert cut[1] == extra; }
  }

  lemma FilterCut(stages: seq<Stage>, allowed: seq<Stage>, k: nat)
    requires k < |stages| && Distinct(stages)
    requires forall s | s in stages :: s in allowed <==> s in stages[..k + 1]
    ensures Filter(stages, allowed) == stages[..k + 1]
  {
    var a, b := stages[..k + 1], stages[k + 1..];
    assert a + b == stages;
    forall s | s in b ensures s !in a {
      var j :| 0 <= j < |b| && b[j] == s;
      assert stages[k + 1 + j] == s;
    }
    FilterSplit(a, b, allowed);
  }

  /** Where a stage sits in the two sequences. */
  lemma Positions(target: Stage)
    requires target in STAGES
    ensures target in ROLLOUT_SEQUENCE && target != RollbackInproc
    ensures SequencePosition(target) == if Position(target) == 0 then 0 else Position(target) + 1
    ensures target == ShadowStart <==> Position(target) == 0
  {
    RehearsalSecond();
  }

  /** The stages an audit requires, for every target: none for the in-process
      rollback, no answer for a stage outside the sequence, and otherwise the
      sequence up to the target, with it or without it. */
  lemma RequiredExactly(target: Stage, requireTarget: bool)
    ensures
      var required := RequiredStages(target, requireTarget);
      if target.RollbackInproc? then required == Some([])
      else if target !in ROLLOUT_SEQUENCE then required == None
      else
        && required.Some? && required.value <= ROLLOUT_SEQUENCE
        && var n := |required.value|;
        && (requireTarget ==> n > 0 && required.value[n - 1] == target)
        && (!requireTarget ==> n < |ROLLOUT_SEQUENCE| && ROLLOUT_SEQUENCE[n] == target)
  {
    hide Position;
  }

  lemma RequiredCut(target: Stage)
    requires target in STAGES
    ensures RequiredStages(target, true).Some?
    ensures SameWith(RequiredStages(target, true).value, STAGES[..Position(target) + 1],
              RollbackRehearsal, target != ShadowStart)
  {
    hide SameWith;
    hide Position;
    hide SequencePosition;
    RehearsalSecond();
    Positions(target);
    CutOfInserted(STAGES, RollbackRehearsal, Position(target));
  }

  /** The stages a passing audit of `target` requires, and which of them it
      puts observation windows between. */
  lemma RequiredFor(target: Stage)
    requires target in STAGES
    ensures RequiredStages(target, true).Some?
    ensures
      var required := RequiredStages(target, true).value;
      && SameWith(required, PriorStages(target) + [target], RollbackRehearsal, target != ShadowStart)
      && WatchedStages(required) == ObservationStages(PriorStages(target) + [target])
  {
    RequiredCut(target);
    var stages, k := STAGES, Position(target);
    assert stages[..k + 1] == PriorStages(target) + [target];
    hide RequiredStages;
    hide ObservationStages;
    hide Filter;
    RehearsalSecond();
    FilterCut(stages, RequiredStages(target, true).value, k);
  }

  lemma {:induction false} ObservationDistinct(stages: seq<Stage>)
    requires Distinct(stages)
    ensures Distinct(ObservationStages(stages))
  {
    if stages != [] {
      var n := |stages| - 1;
      var init := stages[..n];
      assert stages == init + [stages[n]];
      ObservationAppend(init, stages[n]);
      ObservationDistinct(init);
      ObservationMember(init, stages[n]);
    }
  }

  /** The watched stage nothing waits for. */
  function LastWatched(target: Stage): Stage {
    if target == ConfigAuthorityStage then ShadowStart else target
  }

  /** What an audit of `target` watches: distinct required stages, all but the
      rehearsal and config authority, ending with the last one. */
  lemma WatchedShape(target: Stage)
    requires target in STAGES
    ensures RequiredStages(target, true).Some?
    ensures
      var required := RequiredStages(target, true).value;
      var w := WatchedStages(required);
      && w != [] && w[|w| - 1] == LastWatched(target) && Distinct(w)
      && (forall s | s in w :: s in required && s != RollbackRehearsal && s != ConfigAuthorityStage)
      && (forall s | s in required && s != RollbackRehearsal && s != ConfigAuthorityStage :: s in w)
      && (RollbackRehearsal in required ==> target in required && RequiresRehearsal(target))
  {
    hide WatchedStages;
    hide RequiredStages;
    hide ObservationStages;
    hide PriorStages;
    RequiredFor(target);
    var stages := PriorStages(target) + [target];
    ObservationAppend(PriorStages(target), target);
    TargetNotRehearsal(target);
    ObservationDistinct(stages);
    forall s ensures s in ObservationStages(stages) <==> s in stages && s != ConfigAuthorityStage {
      ObservationMember(stages, s);
    }
    if target == ConfigAuthorityStage { BeforeAuthority(); }
  }

  lemma TargetNotRehearsal(target: Stage)
    requires target in STAGES
    ensures Distinct(PriorStages(target) + [target])
    ensures RollbackRehearsal !in PriorStages(target) + [target]
  {
    RehearsalSecond();
    assert PriorStages(target) + [target] == STAGES[..Position(target) + 1];
  }

  lemma BeforeAuthority()
    ensures ObservationStages(PriorStages(ConfigAuthorityStage)) == [ShadowStart]
  {
    var prior := PriorStages(ConfigAuthorityStage);
    assert prior == [ShadowStart];
    KeepAll(prior);
  }

  lemma HttpFullWindows()
    ensures RequiredStages(HttpFull, true) == Some(ROLLOUT_SEQUENCE)
    ensures WatchedStages(ROLLOUT_SEQUENCE) == [ShadowStart] + CANARIES_AND_HTTP
  {
    hide ObservationStages;
    hide Filter;
    RehearsalSecond();
    var stages := STAGES;
    CutOfInserted(stages, RollbackRehearsal, 9);
    assert ROLLOUT_SEQUENCE[..11] == ROLLOUT_SEQUENCE;
    assert stages[..9] + [HttpFull] == [ShadowStart, ConfigAuthorityStage] + CANARIES_AND_HTTP;
    SkipAuthority(CANARIES_AND_HTTP);
    RequiredFor(HttpFull);
  }

  const CANARIES_AND_HTTP: seq<Stage> := [
    CanaryIntentText, CanaryChat, CanaryStreaming, CanaryVision,
    CanaryImage, CanaryAsr, CanaryVideoAsr, HttpFull]

  lemma SkipAuthority(rest: seq<Stage>)
    requires ConfigAuthorityStage !in rest
    ensures ObservationStages([ShadowStart, ConfigAuthorityStage] + rest) == [ShadowStart] + rest
  {
    var tail := [ConfigAuthorityStage] + rest;
    KeepAll(rest);
    assert ObservationStages(tail) == rest by { assert tail[1..] == rest; }
    var all := [ShadowStart, ConfigAuthorityStage] + rest;
    assert ObservationStages(all) == [ShadowStart] + ObservationStages(tail) by { assert all[1..] == tail; }
  }

  lemma {:induction false} KeepAll(rest: seq<Stage>)
    requires ConfigAuthorityStage !in rest
    ensures ObservationStages(rest) == rest
  {
    if rest != [] { KeepAll(rest[1..]); }
  }
}
