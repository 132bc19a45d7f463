/** `llmgw-final-acceptance.py`: the paid acceptance matrix of one commit, as
    a manifest on disk that survives failures, crashes and manual resumes. */
module FinalAcceptance {
  import opened Text

  datatype Cell = TextCell | StreamCell | ImageCell | VisionCell | AsrCell | VideoCell

  const CELLS: seq<Cell> := [TextCell, StreamCell, ImageCell, VisionCell, AsrCell, VideoCell]

  /** `CELLS.index`. */
  function Ord(c: Cell): (i: nat)
    ensures i < 6 && CELLS[i] == c
  {
    match c
    case TextCell => 0
    case StreamCell => 1
    case ImageCell => 2
    case VisionCell => 3
    case AsrCell => 4
    case VideoCell => 5
  }

  datatype CellStatus = CellRunning | CellFailed | CellPassed
  datatype RunStatus = RunRunning | RunFailed | RunPassed

  datatype Manifest = Manifest(
    status: RunStatus,
    failedCell: Option<Cell>,
    currentCell: Option<Cell>,
    cells: map<Cell, CellStatus>,
    manualResumes: seq<Cell>)

  const FRESH := Manifest(RunRunning, None, None, map[], [])

  /** What happened outside the manifest: a paid command was started, or a
      cell's pass reached the disk. */
  datatype Event = Started(cell: Cell) | Passed(cell: Cell)

  datatype World = World(disk: Option<Manifest>, log: seq<Event>)

  const NOTHING := World(None, [])

  datatype Outcome = Outcome(exitCode: int, logFound: bool)

  /** One call of the script. `ready` says whether environment, login and
      preflight succeed; the process dies after `budget` observable actions
      (manifest writes and paid commands). */
  datatype Invocation = Invocation(
    execute: bool,
    ready: bool,
    resume: Option<Cell>,
    note: string,
    outcome: Cell -> Outcome,
    budget: nat)

  predicate Good(o: Outcome) {
    o.exitCode == 0 && o.logFound
  }

  // -------------------------------------------------------- specification

  function Running(m: Manifest, c: Cell): Manifest {
    m.(currentCell := Some(c), cells := m.cells[c := CellRunning])
  }

  function Failing(m: Manifest, c: Cell): Manifest {
    m.(status := RunFailed, failedCell := Some(c), cells := m.cells[c := CellFailed])
  }

  function Passing(m: Manifest, c: Cell): Manifest {
    m.(failedCell := None, cells := m.cells[c := CellPassed])
  }

  /** The cell loop from cell `i` on, with `m` in memory and on disk. */
  function RunCells(w: World, m: Manifest, i: nat, outcome: Cell -> Outcome, budget: nat): World
    requires i <= 6
    decreases 6 - i
  {
    if budget == 0 then w
    else if i == 6 then w.(disk := Some(m.(status := RunPassed, currentCell := None)))
    else
      var c := CELLS[i];
      var running := Running(m, c);
      var begun := w.(disk := Some(running));
      if budget == 1 then begun
      else
        var paid := begun.(log := w.log + [Started(c)]);
        if budget == 2 then paid
        else if !Good(outcome(c)) then paid.(disk := Some(Failing(running, c)))
        else
          var passed := Passing(running, c);
          RunCells(World(Some(passed), paid.log + [Passed(c)]), passed, i + 1, outcome, budget - 3)
  }

  predicate MayResume(m: Manifest, v: Invocation) {
    v.resume.Some? && Strip(v.note) != "" && m.failedCell == v.resume
  }

  /** `main`. */
  function Invoke(w: World, v: Invocation): World {
    if !v.execute || !v.ready || v.budget == 0 then w
    else match w.disk
      case None =>
        if v.resume.Some? then w
        else RunCells(w.(disk := Some(FRESH)), FRESH, 0, v.outcome, v.budget - 1)
      case Some(m) =>
        if !MayResume(m, v) then w
        else
          var resumed := m.(manualResumes := m.manualResumes + [v.resume.value]);
          RunCells(w.(disk := Some(resumed)), resumed, Ord(v.resume.value), v.outcome, v.budget - 1)
  }

  function Replay(w: World, calls: seq<Invocation>): World {
    if calls == [] then w else Invoke(Replay(w, calls[..|calls| - 1]), calls[|calls| - 1])
  }

  // ------------------------------------------------------------ the script

  class AcceptanceRunner {
    var disk: Option<Manifest>
    ghost var log: seq<Event>

    constructor ()
      ensures disk == None && log == []
    {
      disk := None;
      log := [];
    }

    ghost function Now(): World
      reads this
    {
      World(disk, log)
    }

    /** The cell loop: run the cells from `first` on, writing the manifest
        before and after each, until a failure, the end, or death. */
    method RunFrom(manifest: Manifest, first: nat, outcome: Cell -> Outcome, budget: nat)
      requires first <= 6 && disk == Some(manifest)
      modifies this
      ensures Now() == RunCells(old(Now()), manifest, first, outcome, budget)
    {
      hide Good;
      hide Running;
      hide Failing;
      hide Passing;
      var m, left := manifest, budget;
      for i := first to 6
        invariant disk == Some(m)
        invariant RunCells(old(Now()), manifest, first, outcome, budget) == RunCells(Now(), m, i, outcome, left)
      {
        var cell := CELLS[i];
        if left == 0 { return; }
        m := Running(m, cell);
        disk := Some(m);
        if left == 1 { return; }
        log := log + [Started(cell)];
        if left == 2 { return; }
        if !Good(outcome(cell)) {
          m := Failing(m, cell);
          disk := Some(m);
          return;
        }
        m := Passing(m, cell);
        disk := Some(m);
        log := log + [Passed(cell)];
        left := left - 3;
      }
      if left == 0 { return; }
      disk := Some(m.(status := RunPassed, currentCell := None));
    }

    /** One call of the script, up to its end or its death. */
    method Run(v: Invocation)
      modifies this
      ensures Now() == Invoke(old(Now()), v)
    {
      hide RunCells;
      hide Strip;
      if !v.execute || !v.ready || v.budget == 0 { return; }
      var m := FRESH;
      var first := 0;
      if disk.Some? {
        m := disk.value;
        if v.resume.None? || Strip(v.note) == "" || m.failedCell != v.resume { return; }
        m := m.(manualResumes := m.manualResumes + [v.resume.value]);
        first := Ord(v.resume.value);
      } else if v.resume.Some? {
        return;
      }
      disk := Some(m);
      RunFrom(m, first, v.outcome, v.budget - 1);
    }
  }

  // -------------------------------------------------------------- invariant

  function Starts(log: seq<Event>, c: Cell): nat {
    if log == [] then 0
    else Starts(log[..|log| - 1], c) + if log[|log| - 1] == Started(c) then 1 else 0
  }

  function Resumes(m: Manifest, c: Cell): nat {
    multiset(m.manualResumes)[c]
  }

  /** Every start in the log came after the passes of all earlier cells and
      before any pass of its own cell. */
  predicate Orderly(log: seq<Event>) {
    forall k | 0 <= k < |log| && log[k].Started? ::
      && (forall d: Cell | Ord(d) < Ord(log[k].cell) :: Passed(d) in log[..k])
      && Passed(log[k].cell) !in log[..k]
  }

  /** The manifest and the log agree that exactly the first `p` cells passed. */
  predicate Progress(w: World, p: nat) {
    && w.disk.Some? && p <= 6
    && var m := w.disk.value;
    && (forall c: Cell :: Ord(c) < p <==> c in m.cells && m.cells[c] == CellPassed)
    && (forall c: Cell :: Ord(c) < p <==> Passed(c) in w.log)
    && (forall c: Cell | Ord(c) > p :: Starts(w.log, c) == 0)
    && (forall c: Cell :: Starts(w.log, c) <= 1 + Resumes(m, c))
    && (m.failedCell.Some? ==> Ord(m.failedCell.value) == p)
    && (m.status == RunPassed ==> p == 6)
    && Orderly(w.log)
  }

  ghost predicate Sound(w: World) {
    (w == NOTHING) || exists p: nat :: Progress(w, p)
  }

  lemma StartsAppend(log: seq<Event>, e: Event, c: Cell)
    ensures Starts(log + [e], c) == Starts(log, c) + if e == Started(c) then 1 else 0
  {
    assert (log + [e])[..|log|] == log;
  }

  lemma ResumesAppend(m: Manifest, r: Cell, c: Cell)
    ensures Resumes(m.(manualResumes := m.manualResumes + [r]), c) == Resumes(m, c) + if r == c then 1 else 0
  {
  }

  lemma OrderlyStart(log: seq<Event>, c: Cell)
    requires Orderly(log)
    requires forall d: Cell | Ord(d) < Ord(c) :: Passed(d) in log
    requires Passed(c) !in log
    ensures Orderly(log + [Started(c)])
  {
    var after := log + [Started(c)];
    forall k | 0 <= k < |after| && after[k].Started?
      ensures forall d: Cell | Ord(d) < Ord(after[k].cell) :: Passed(d) in after[..k]
      ensures Passed(after[k].cell) !in after[..k]
    {
      assert after[..k] == log[..k];
      assert k == |log| ==> log[..k] == log;
    }
  }

  lemma OrderlyPass(log: seq<Event>, c: Cell)
    requires Orderly(log)
    ensures Orderly(log + [Passed(c)])
  {
    var after := log + [Passed(c)];
    forall k | 0 <= k < |after| && after[k].Started?
      ensures forall d: Cell | Ord(d) < Ord(after[k].cell) :: Passed(d) in after[..k]
      ensures Passed(after[k].cell) !in after[..k]
    {
      assert after[..k] == log[..k];
    }
  }

  /** Writing `running` changes no pass. */
  lemma OpenKeeps(w: World, m: Manifest, i: nat)
    requires i < 6 && w.disk == Some(m) && Progress(w, i)
    ensures Progress(w.(disk := Some(Running(m, CELLS[i]))), i)
  {
    assert Ord(CELLS[i]) == i;
  }

  /** Starting the cell whose turn it is, with a resume or a first run to
      spare, keeps the books. */
  lemma PayKeeps(w: World, i: nat)
    requires i < 6 && Progress(w, i)
    requires Starts(w.log, CELLS[i]) <= Resumes(w.disk.value, CELLS[i])
    ensures Progress(w.(log := w.log + [Started(CELLS[i])]), i)
  {
    var c, m := CELLS[i], w.disk.value;
    OneMoreCell(i);
    hide Ord;
    OrderlyStart(w.log, c);
    var after := w.log + [Started(c)];
    forall d: Cell
      ensures Passed(d) in after <==> Passed(d) in w.log
      ensures Starts(after, d) == Starts(w.log, d) + if d == c then 1 else 0
    {
      StartsAppend(w.log, Started(c), d);
    }
    hide Starts;
    hide Orderly;
    forall d: Cell | Ord(d) > i ensures Starts(after, d) == 0 { assert d != c; }
    forall d: Cell ensures Starts(after, d) <= 1 + Resumes(m, d) {}
  }

  lemma FailKeeps(w: World, m: Manifest, i: nat)
    requires i < 6 && w.disk == Some(m) && Progress(w, i)
    ensures Progress(w.(disk := Some(Failing(m, CELLS[i]))), i)
  {
    assert Ord(CELLS[i]) == i;
  }

  lemma PassKeeps(w: World, m: Manifest, i: nat)
    requires i < 6 && w.disk == Some(m) && Progress(w, i) && m.status != RunPassed
    ensures Progress(World(Some(Passing(m, CELLS[i])), w.log + [Passed(CELLS[i])]), i + 1)
  {
    var c := CELLS[i];
    OrderlyPass(w.log, c);
    var after := w.log + [Passed(c)];
    forall d: Cell ensures Starts(after, d) == Starts(w.log, d) { StartsAppend(w.log, Passed(c), d); }
    hide Orderly;
    hide Starts;
    OneMoreCell(i);
    forall d: Cell ensures Passed(d) in after <==> Ord(d) < i + 1 {
      assert Passed(d) in after <==> Passed(d) in w.log || d == c;
    }
    hide Ord;
    var m' := Passing(m, c);
    forall d: Cell ensures Ord(d) < i + 1 <==> d in m'.cells && m'.cells[d] == CellPassed {
      assert d != c ==> (d in m'.cells <==> d in m.cells) && (d in m.cells ==> m'.cells[d] == m.cells[d]);
    }
    assert forall d: Cell :: Resumes(m', d) == Resumes(m, d);
  }

  lemma OneMoreCell(i: nat)
    requires i < 6
    ensures forall d: Cell :: Ord(d) < i + 1 <==> Ord(d) < i || d == CELLS[i]
    ensures Ord(CELLS[i]) == i
  {
  }

  /** The cell loop keeps the books from wherever it starts to wherever it dies. */
  lemma {:induction false} RunCellsKeeps(w: World, m: Manifest, i: nat, outcome: Cell -> Outcome, budget: nat)
    requires i <= 6 && w.disk == Some(m) && Progress(w, i) && m.status != RunPassed
    requires i < 6 ==> Starts(w.log, CELLS[i]) <= Resumes(m, CELLS[i])
    ensures Sound(RunCells(w, m, i, outcome, budget))
    decreases 6 - i
  {
    hide Progress;
    hide Starts;
    hide Orderly;
    hide Ord;
    hide Good;
    hide Sound;
    if budget == 0 {
      SoundAt(w, i);
    } else if i == 6 {
      FinishKeeps(w, m);
      SoundAt(w.(disk := Some(m.(status := RunPassed, currentCell := None))), 6);
    } else {
      var c := CELLS[i];
      var running := Running(m, c);
      OpenKeeps(w, m, i);
      var begun := w.(disk := Some(running));
      SoundAt(begun, i);
      assert Resumes(running, c) == Resumes(m, c);
      PayKeeps(begun, i);
      var paid := begun.(log := w.log + [Started(c)]);
      SoundAt(paid, i);
      if budget > 2 {
        if !Good(outcome(c)) {
          FailKeeps(paid, running, i);
          SoundAt(paid.(disk := Some(Failing(running, c))), i);
        } else {
          PassKeeps(paid, running, i);
          var next := World(Some(Passing(running, c)), paid.log + [Passed(c)]);
          if i + 1 < 6 { NotYetStarted(paid, i, Passed(c)); }
          RunCellsKeeps(next, Passing(running, c), i + 1, outcome, budget - 3);
        }
      }
    }
  }

  lemma SoundAt(w: World, p: nat)
    requires Progress(w, p)
    ensures Sound(w)
  {
  }

  lemma FinishKeeps(w: World, m: Manifest)
    requires w.disk == Some(m) && Progress(w, 6)
    ensures Progress(w.(disk := Some(m.(status := RunPassed, currentCell := None))), 6)
  {
  }

  lemma NotYetStarted(w: World, i: nat, e: Event)
    requires i + 1 < 6 && Progress(w, i) && e.Passed?
    ensures Starts(w.log + [e], CELLS[i + 1]) == 0
  {
    StartsAppend(w.log, e, CELLS[i + 1]);
    assert Ord(CELLS[i + 1]) == i + 1;
  }

  lemma FreshKeeps()
    ensures Progress(World(Some(FRESH), []), 0)
    ensures Starts([], CELLS[0]) == 0
  {
  }

  lemma ResumeKeeps(w: World, m: Manifest, c: Cell, p: nat)
    requires w.disk == Some(m) && Progress(w, p) && m.failedCell == Some(c)
    ensures
      var resumed := m.(manualResumes := m.manualResumes + [c]);
      && p == Ord(c) && m.status != RunPassed
      && Progress(w.(disk := Some(resumed)), p)
      && Starts(w.log, c) <= Resumes(resumed, c)
  {
    forall d: Cell ensures
      Resumes(m.(manualResumes := m.manualResumes + [c]), d) == Resumes(m, d) + (if c == d then 1 else 0)
    {
      ResumesAppend(m, c, d);
    }
  }

  lemma InvokeKeeps(w: World, v: Invocation)
    requires Sound(w)
    ensures Sound(Invoke(w, v))
  {
    hide Progress;
    hide Starts;
    hide RunCells;
    if v.execute && v.ready && v.budget > 0 {
      match w.disk {
        case None =>
          if w != NOTHING {
            var p :| Progress(w, p);
            NeedsDisk(w, p);
          }
          if v.resume.None? {
            FreshKeeps();
            RunCellsKeeps(World(Some(FRESH), []), FRESH, 0, v.outcome, v.budget - 1);
          }
        case Some(m) =>
          if MayResume(m, v) {
            var c := v.resume.value;
            var p :| Progress(w, p);
            ResumeKeeps(w, m, c, p);
            var resumed := m.(manualResumes := m.manualResumes + [c]);
            RunCellsKeeps(w.(disk := Some(resumed)), resumed, Ord(c), v.outcome, v.budget - 1);
          }
      }
    }
  }

  lemma NeedsDisk(w: World, p: nat)
    requires Progress(w, p)
    ensures w.disk.Some?
  {
  }

  lemma {:induction false} ReplaySound(calls: seq<Invocation>)
    ensures Sound(Replay(NOTHING, calls))
  {
    hide Invoke;
    if calls != [] {
      ReplaySound(calls[..|calls| - 1]);
      InvokeKeeps(Replay(NOTHING, calls[..|calls| - 1]), calls[|calls| - 1]);
    }
  }

  /** Over every sequence of runs, failures, crashes and resumes: a cell is
      paid for only after all earlier cells passed and never again once it
      passed, at most once plus once per recorded manual resume of it, and a
      passed run has passed every cell. */
  lemma NoCellPaidTwiceOncePassed(calls: seq<Invocation>)
    ensures
      var w := Replay(NOTHING, calls);
      && Orderly(w.log)
      && (w.disk.None? ==> w.log == [])
      && (w.disk.Some? ==> forall c: Cell :: Starts(w.log, c) <= 1 + Resumes(w.disk.value, c))
      && (w.disk.Some? && w.disk.value.status == RunPassed ==>
           forall c: Cell :: c in w.disk.value.cells && w.disk.value.cells[c] == CellPassed && Passed(c) in w.log)
  {
    hide Replay;
    ReplaySound(calls);
    var w := Replay(NOTHING, calls);
    if w != NOTHING {
      var p :| Progress(w, p);
    }
  }

  /** Only the recorded failed cell can be resumed, so a manifest without one
      (a finished run, or one that died outside a resumed cell) is final:
      no later call changes the disk or pays for anything. */
  lemma {:induction false} NoFailedCellIsFinal(w: World, calls: seq<Invocation>)
    requires w.disk.Some? && w.disk.value.failedCell.None?
    ensures Replay(w, calls) == w
  {
    if calls != [] { NoFailedCellIsFinal(w, calls[..|calls| - 1]); }
  }

  // -------------------------------------------------- can it still be finished?

  /** Some further sequence of calls ends with a passed run. */
  ghost predicate CanFinish(w: World) {
    exists calls :: Finished(Replay(w, calls))
  }

  predicate Finished(w: World) {
    w.disk.Some? && w.disk.value.status == RunPassed
  }

  /** What the disk must show for that: nothing yet, a failed cell, or a pass. */
  predicate Unblocked(w: World) {
    w.disk.Some? ==> w.disk.value.failedCell.Some? || w.disk.value.status == RunPassed
  }

  const GOOD: Cell -> Outcome := _ => Outcome(0, true)

  /** Cells that all come out well carry the loop to its end. */
  lemma {:induction false} GoodCellsFinish(w: World, m: Manifest, i: nat, budget: nat)
    requires i <= 6 && budget > 3 * (6 - i)
    ensures Finished(RunCells(w, m, i, GOOD, budget))
    decreases 6 - i
  {
    if i < 6 {
      var c := CELLS[i];
      var passed := Passing(Running(m, c), c);
      GoodCellsFinish(World(Some(passed), w.log + [Started(c), Passed(c)]), passed, i + 1, budget - 3);
      assert w.log + [Started(c)] + [Passed(c)] == w.log + [Started(c), Passed(c)];
    }
  }

  /** The call that finishes what is unblocked: the first run, or a resume of
      the failed cell. */
  function FinishingCall(w: World): Invocation {
    Invocation(true, true, if w.disk.Some? then w.disk.value.failedCell else None, "fixed", GOOD, 20)
  }

  /** An acceptance can still be finished exactly when nothing was started, a
      failed cell is on record, or it already passed. */
  lemma CanFinishExactly(w: World)
    ensures CanFinish(w) <==> Unblocked(w)
  {
    if CanFinish(w) && !Unblocked(w) {
      var calls :| Finished(Replay(w, calls));
      NoFailedCellIsFinal(w, calls);
    }
    if Unblocked(w) {
      if Finished(w) {
        assert Finished(Replay(w, []));
      } else {
        var v := FinishingCall(w);
        assert Finished(Invoke(w, v)) by { FinishingCallFinishes(w); }
        hide Invoke;
        assert Replay(w, [v]) == Invoke(w, v) by { assert [v][..0] == [] && Replay(w, []) == w; }
      }
    }
  }

  lemma FinishingCallFinishes(w: World)
    requires Unblocked(w) && !Finished(w)
    ensures Finished(Invoke(w, FinishingCall(w)))
  {
    hide RunCells;
    StripShape("fixed");
    match w.disk
    case None => GoodCellsFinish(w.(disk := Some(FRESH)), FRESH, 0, 19);
    case Some(m) =>
      var c := m.failedCell.value;
      var resumed := m.(manualResumes := m.manualResumes + [c]);
      GoodCellsFinish(w.(disk := Some(resumed)), resumed, Ord(c), 19);
  }

  /** Actions the loop needs from cell `i` on until a failure or the end is on
      disk. */
  function Needed(outcome: Cell -> Outcome, i: nat): nat
    requires i <= 6
    decreases 6 - i
  {
    if i == 6 then 1 else if Good(outcome(CELLS[i])) then 3 + Needed(outcome, i + 1) else 3
  }

  /** The loop leaves an unblocked disk exactly when it lives long enough to
      record how it ended, or dies before a resumed cell's pass erased the
      failed cell. */
  lemma {:induction false} LoopUnblocked(w: World, m: Manifest, i: nat, outcome: Cell -> Outcome, budget: nat)
    requires i <= 6 && w.disk == Some(m) && m.status != RunPassed
    requires m.failedCell.Some? ==> i < 6
    ensures Unblocked(RunCells(w, m, i, outcome, budget)) <==>
              budget >= Needed(outcome, i) || (m.failedCell.Some? && budget < 3)
    decreases 6 - i
  {
    hide Good;
    if i < 6 && budget >= 3 && Good(outcome(CELLS[i])) {
      var c := CELLS[i];
      var passed := Passing(Running(m, c), c);
      assert passed.failedCell.None? && passed.status == m.status;
      hide Passing;
      hide Running;
      hide Ord;
      LoopUnblocked(World(Some(passed), w.log + [Started(c)] + [Passed(c)]), passed, i + 1, outcome, budget - 3);
    }
  }

  /** The call gets past its checks and into the cell loop. */
  predicate Enters(w: World, v: Invocation) {
    && v.execute && v.ready && v.budget > 0
    && if w.disk.Some? then MayResume(w.disk.value, v) else v.resume.None?
  }

  /** When a call of the script leaves an acceptance that can be finished. A
      call that never reaches the loop changes nothing; one that does must live
      to record its end, or die before its resumed cell passed. Budget and
      outcomes are known before the call. */
  lemma CallCanBeFinishedExactly(calls: seq<Invocation>, v: Invocation)
    ensures
      var w := Replay(NOTHING, calls);
      CanFinish(Invoke(w, v)) <==>
        if !Enters(w, v) then CanFinish(w)
        else
          || v.budget - 1 >= Needed(v.outcome, if v.resume.Some? then Ord(v.resume.value) else 0)
          || (v.resume.Some? && v.budget <= 3)
  {
    hide Replay;
    hide RunCells;
    hide CanFinish;
    hide Strip;
    var w := Replay(NOTHING, calls);
    CanFinishExactly(w);
    CanFinishExactly(Invoke(w, v));
    if Enters(w, v) {
      match w.disk
      case None => LoopUnblocked(w.(disk := Some(FRESH)), FRESH, 0, v.outcome, v.budget - 1);
      case Some(m) =>
        var c := v.resume.value;
        ReplaySound(calls);
        NotPassedYet(w);
        var resumed := m.(manualResumes := m.manualResumes + [c]);
        LoopUnblocked(w.(disk := Some(resumed)), resumed, Ord(c), v.outcome, v.budget - 1);
    }
  }

  lemma NotPassedYet(w: World)
    requires Sound(w) && w.disk.Some? && w.disk.value.failedCell.Some?
    ensures w.disk.value.status != RunPassed
  {
    var p :| Progress(w, p);
  }

  /** A first run that dies before its end is on disk can never be finished,
      whichever cell it was in: nothing is paid for again, nothing changes. */
  lemma CrashMidCellIsFinal(v: Invocation, calls: seq<Invocation>)
    requires v.execute && v.ready && v.resume.None?
    requires 0 < v.budget <= Needed(v.outcome, 0)
    ensures
      var w := Invoke(NOTHING, v);
      && w.disk.Some? && w.disk.value.status != RunPassed
      && Replay(w, calls) == w
      && (v.budget >= 3 ==> Started(TextCell) in w.log)
  {
    hide Replay;
    var w := Invoke(NOTHING, v);
    LoopUnblocked(World(Some(FRESH), []), FRESH, 0, v.outcome, v.budget - 1);
    NoFailedCellIsFinal(w, calls);
    if v.budget >= 3 { FirstPayment(v.outcome, v.budget - 1); }
  }

  lemma FirstPayment(outcome: Cell -> Outcome, budget: nat)
    requires budget >= 2
    ensures Started(TextCell) in RunCells(World(Some(FRESH), []), FRESH, 0, outcome, budget).log
  {
    hide Good;
    var paid := [] + [Started(CELLS[0])];
    assert paid[0] == Started(TextCell);
    if budget > 2 && Good(outcome(CELLS[0])) {
      var passed := Passing(Running(FRESH, CELLS[0]), CELLS[0]);
      LogGrows(World(Some(passed), paid + [Passed(CELLS[0])]), passed, 1, outcome, budget - 3, Started(TextCell));
    }
  }

  lemma {:induction false} LogGrows(w: World, m: Manifest, i: nat, outcome: Cell -> Outcome, budget: nat, e: Event)
    requires i <= 6 && e in w.log
    ensures e in RunCells(w, m, i, outcome, budget).log
    decreases 6 - i
  {
    hide Good;
    if i < 6 && budget > 2 && Good(outcome(CELLS[i])) {
      var c := CELLS[i];
      var passed := Passing(Running(m, c), c);
      LogGrows(World(Some(passed), w.log + [Started(c)] + [Passed(c)]), passed, i + 1, outcome, budget - 3, e);
    }
  }

  // -------------------------------------------------- what one call leaves behind

  /** The events of `q` cells that passed, from cell `i` on. */
  function PassLog(i: nat, q: nat): seq<Event>
    requires i + q <= 6
  {
    if q == 0 then [] else PassLog(i, q - 1) + [Started(CELLS[i + q - 1]), Passed(CELLS[i + q - 1])]
  }

  /** The manifest when they had passed. */
  function PassManifest(m: Manifest, i: nat, q: nat): Manifest
    requires i + q <= 6
  {
    if q == 0 then m
    else
      var p, c := PassManifest(m, i, q - 1), CELLS[i + q - 1];
      Manifest(p.status, None, Some(c), p.cells[c := CellPassed], p.manualResumes)
  }

  /** The loop runs `q` cells that exit 0 and leave their log, and then ends,
      fails, or dies. */
  predicate RunsThrough(i: nat, q: nat, outcome: Cell -> Outcome, budget: nat)
    requires i + q <= 6
  {
    && 3 * q <= budget
    && (forall j | i <= j < i + q :: outcome(CELLS[j]).exitCode == 0 && outcome(CELLS[j]).logFound)
    && (budget < 3 * q + 3 || i + q == 6 || outcome(CELLS[i + q]).exitCode != 0 || !outcome(CELLS[i + q]).logFound)
  }

  /** The world `r` after passes that left `log` and manifest `p`, with cell
      `at` next and `left` actions to go: the finished manifest, or the failed
      cell, or whatever was written and paid for before dying. */
  predicate EndsAs(r: World, log: seq<Event>, p: Manifest, at: nat, left: nat)
    requires at <= 6
  {
    if left == 0 then r == World(Some(p), log)
    else if at == 6 then r == World(Some(Manifest(RunPassed, p.failedCell, None, p.cells, p.manualResumes)), log)
    else
      var c := CELLS[at];
      if left <= 2 then
        r == World(Some(Manifest(p.status, p.failedCell, Some(c), p.cells[c := CellRunning], p.manualResumes)),
               if left == 1 then log else log + [Started(c)])
      else
        r == World(Some(Manifest(RunFailed, Some(c), Some(c), p.cells[c := CellFailed], p.manualResumes)),
               log + [Started(c)])
  }

  /** What the loop leaves: the passes of the cells it ran through, and how it
      ended behind them. */
  lemma {:induction false} LoopLeaves(w: World, m: Manifest, i: nat, q: nat, outcome: Cell -> Outcome, budget: nat)
    requires i + q <= 6 && w.disk == Some(m) && RunsThrough(i, q, outcome, budget)
    ensures EndsAs(
              RunCells(w, m, i, outcome, budget), w.log + PassLog(i, q), PassManifest(m, i, q), i + q, budget - 3 * q)
    decreases q
  {
    hide RunCells;
    hide EndsAs;
    if q == 0 {
      LoopEnds(w, m, i, outcome, budget);
      assert w.log + PassLog(i, q) == w.log && PassManifest(m, i, q) == m;
    } else {
      var c := CELLS[i];
      var passed := Manifest(m.status, None, Some(c), m.cells[c := CellPassed], m.manualResumes);
      var next := World(Some(passed), w.log + [Started(c)] + [Passed(c)]);
      LoopStep(w, m, i, outcome, budget);
      LoopLeaves(next, passed, i + 1, q - 1, outcome, budget - 3);
      PassLogHead(i, q);
      PassManifestHead(m, i, q);
      hide PassLog;
      hide PassManifest;
      assert w.log + [Started(c)] + [Passed(c)] + PassLog(i + 1, q - 1) == w.log + PassLog(i, q);
    }
  }

  lemma LoopEnds(w: World, m: Manifest, i: nat, outcome: Cell -> Outcome, budget: nat)
    requires i <= 6 && w.disk == Some(m) && RunsThrough(i, 0, outcome, budget)
    ensures EndsAs(RunCells(w, m, i, outcome, budget), w.log, m, i, budget)
  {
    if i < 6 && budget >= 3 {
      assert Failing(Running(m, CELLS[i]), CELLS[i]).cells == m.cells[CELLS[i] := CellFailed];
    }
  }

  lemma LoopStep(w: World, m: Manifest, i: nat, outcome: Cell -> Outcome, budget: nat)
    requires i < 6 && budget >= 3 && outcome(CELLS[i]).exitCode == 0 && outcome(CELLS[i]).logFound
    ensures
      var c := CELLS[i];
      var passed := Manifest(m.status, None, Some(c), m.cells[c := CellPassed], m.manualResumes);
      RunCells(w, m, i, outcome, budget)
      == RunCells(World(Some(passed), w.log + [Started(c)] + [Passed(c)]), passed, i + 1, outcome, budget - 3)
  {
    var c := CELLS[i];
    assert Passing(Running(m, c), c).cells == m.cells[c := CellPassed];
  }

  lemma {:induction false} PassLogHead(i: nat, q: nat)
    requires q > 0 && i + q <= 6
    ensures PassLog(i, q) == [Started(CELLS[i]), Passed(CELLS[i])] + PassLog(i + 1, q - 1)
  {
    if q > 1 { PassLogHead(i, q - 1); }
  }

  lemma {:induction false} PassManifestHead(m: Manifest, i: nat, q: nat)
    requires q > 0 && i + q <= 6
    ensures var c := CELLS[i];
      PassManifest(m, i, q)
      == PassManifest(Manifest(m.status, None, Some(c), m.cells[c := CellPassed], m.manualResumes), i + 1, q - 1)
  {
    if q > 1 { PassManifestHead(m, i, q - 1); }
  }

  /** Every loop runs through some number of cells. */
  lemma {:induction false} SomeRunThrough(i: nat, outcome: Cell -> Outcome, budget: nat) returns (q: nat)
    requires i <= 6
    ensures i + q <= 6 && RunsThrough(i, q, outcome, budget)
    decreases 6 - i
  {
    if i == 6 || budget < 3 || outcome(CELLS[i]).exitCode != 0 || !outcome(CELLS[i]).logFound {
      q := 0;
    } else {
      q := SomeRunThrough(i + 1, outcome, budget - 3);
      q := q + 1;
    }
  }

  /** When a call reaches the loop, and from which manifest and cell: an
      executed, ready call, either the first one without a resume, or a resume
      with a note of exactly the failed cell, which it records. Every other
      call changes nothing. */
  lemma CallStartsExactly(w: World, v: Invocation)
    ensures
      if !v.execute || !v.ready || v.budget == 0 then Invoke(w, v) == w
      else if w.disk == None && v.resume == None then
        var start := Manifest(RunRunning, None, None, map[], []);
        Invoke(w, v) == RunCells(World(Some(start), w.log), start, 0, v.outcome, v.budget - 1)
      else if w.disk.Some? && v.resume.Some? && w.disk.value.failedCell == v.resume && Strip(v.note) != "" then
        var m, c := w.disk.value, v.resume.value;
        var resumed := Manifest(m.status, m.failedCell, m.currentCell, m.cells, m.manualResumes + [c]);
        exists i :: 0 <= i < 6 && CELLS[i] == c
          && Invoke(w, v) == RunCells(World(Some(resumed), w.log), resumed, i, v.outcome, v.budget - 1)
      else Invoke(w, v) == w
  {
    hide RunCells;
    hide Strip;
    if v.resume.Some? { assert CELLS[Ord(v.resume.value)] == v.resume.value; }
  }

  /** The call is executed, and the cell's command exits 0 and leaves its log. */
  predicate PassesIn(v: Invocation, c: Cell) {
    v.execute && v.ready && v.outcome(c).exitCode == 0 && v.outcome(c).logFound
  }

  /** A cell is recorded as passed only by an executed call in which its
      command exited 0 and its log was found. */
  lemma {:induction false} PassedWasGood(calls: seq<Invocation>, c: Cell)
    requires Passed(c) in Replay(NOTHING, calls).log
    ensures exists i :: 0 <= i < |calls| && PassesIn(calls[i], c)
  {
    hide RunCells;
    hide Strip;
    if calls != [] {
      var n := |calls| - 1;
      var w, v := Replay(NOTHING, calls[..n]), calls[n];
      if Passed(c) in w.log {
        PassedWasGood(calls[..n], c);
        var i :| 0 <= i < n && PassesIn(calls[..n][i], c);
        assert calls[i] == calls[..n][i];
      } else {
        NewPassWasGood(w, v, c);
      }
    }
  }

  lemma NewPassWasGood(w: World, v: Invocation, c: Cell)
    requires Passed(c) !in w.log && Passed(c) in Invoke(w, v).log
    ensures PassesIn(v, c)
  {
    hide RunCells;
    hide Strip;
    if v.execute && v.ready && v.budget > 0 {
      match w.disk
      case None =>
        if v.resume.None? { LoopPassIsGood(w.(disk := Some(FRESH)), FRESH, 0, v.outcome, v.budget - 1, c); }
      case Some(m) =>
        if MayResume(m, v) {
          var resumed := m.(manualResumes := m.manualResumes + [v.resume.value]);
          LoopPassIsGood(w.(disk := Some(resumed)), resumed, Ord(v.resume.value), v.outcome, v.budget - 1, c);
        }
    }
  }

  lemma LoopPassIsGood(w: World, m: Manifest, i: nat, outcome: Cell -> Outcome, budget: nat, c: Cell)
    requires i <= 6 && w.disk == Some(m)
    requires Passed(c) !in w.log && Passed(c) in RunCells(w, m, i, outcome, budget).log
    ensures outcome(c).exitCode == 0 && outcome(c).logFound
  {
    hide RunCells;
    hide PassManifest;
    var q := SomeRunThrough(i, outcome, budget);
    LoopLeaves(w, m, i, q, outcome, budget);
    PassLogMembers(i, q, c);
    hide PassLog;
  }

  lemma {:induction false} PassLogMembers(i: nat, q: nat, c: Cell)
    requires i + q <= 6
    ensures Passed(c) in PassLog(i, q) <==> exists j :: i <= j < i + q && CELLS[j] == c
  {
    if q > 0 { PassLogMembers(i, q - 1, c); }
  }
}
