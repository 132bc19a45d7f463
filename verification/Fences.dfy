/** Fenced code in `doc-readability-check.py`: the line scanners behind the
    link checker and the link fixer. What the line regexes say about a line is
    given with the line. */
module Fences {
  import opened Text

  /** A fence delimiter: its character and its length. */
  datatype Delim = Delim(mark: char, len: nat)

  /** A line read as a fence: its delimiter if it has one, whether nothing
      but blanks follows it, and the language word. */
  datatype FenceView = FenceView(delim: Option<Delim>, bareInfo: bool, lang: string)

  datatype Line = Line(
    text: string,
    outsideList: FenceView,             // indentation counts
    insideList: FenceView,              // indentation ignored
    blank: bool,
    indentedCode: bool,
    listMarker: bool,
    leadingSpace: bool,
    shellControl: bool)

  function View(l: Line, inList: bool): FenceView {
    if inList then l.insideList else l.outsideList
  }

  /** `fence_closes` for the delimiter of a line: same character, not shorter,
      no info string. */
  predicate Closes(opener: Delim, v: FenceView) {
    && v.delim.Some? && v.delim.value.mark == opener.mark
    && v.delim.value.len >= opener.len && v.bareInfo
  }

  datatype State = State(fence: Option<Delim>, inList: bool)

  const START := State(None, false)

  /** The line flips the fence state. */
  predicate Toggles(st: State, l: Line) {
    var v := View(l, st.inList);
    v.delim.Some? && (st.fence.None? || Closes(st.fence.value, v))
  }

  /** The line is text of the document: outside fences, and not an indented
      code block. */
  predicate Yields(st: State, l: Line) {
    !Toggles(st, l) && st.fence.None? && (l.blank || !l.indentedCode || st.inList)
  }

  function Next(st: State, l: Line): State {
    if Toggles(st, l) then st.(fence := if st.fence.None? then View(l, st.inList).delim else None)
    else if st.fence.Some? || l.blank || l.indentedCode then st
    else if l.listMarker then st.(inList := true)
    else if !l.leadingSpace then st.(inList := false)
    else st
  }

  function StateAfter(st: State, lines: seq<Line>): State {
    if lines == [] then st else Next(StateAfter(st, lines[..|lines| - 1]), lines[|lines| - 1])
  }

  /** The numbered lines `body_lines` yields, for a text whose first line has
      number `first`. */
  function Body(st: State, first: nat, lines: seq<Line>): seq<(nat, Line)> {
    if lines == [] then []
    else
      var n := |lines| - 1;
      Body(st, first, lines[..n])
      + if Yields(StateAfter(st, lines[..n]), lines[n]) then [(first + n, lines[n])] else []
  }

  /** What a rewriting of one line gives, and how many links it made. */
  datatype Rewrite = Rewrite(text: string, links: nat)

  function FixedLines(st: State, lines: seq<Line>, fix: string -> Rewrite): seq<string> {
    if lines == [] then []
    else
      var n := |lines| - 1;
      FixedLines(st, lines[..n], fix)
      + [if Yields(StateAfter(st, lines[..n]), lines[n]) then fix(lines[n].text).text else lines[n].text]
  }

  function LinksMade(body: seq<(nat, Line)>, fix: string -> Rewrite): nat {
    if body == [] then 0 else LinksMade(body[..|body| - 1], fix) + fix(body[|body| - 1].1.text).links
  }

  // ------------------------------------------------------------ the script

  /** `body_lines`. */
  method BodyLines(lines: seq<Line>) returns (body: seq<(nat, Line)>)
    ensures body == Body(START, 1, lines)
  {
    body := [];
    var fence: Option<Delim> := None;
    var inList := false;
    for i := 0 to |lines|
      invariant State(fence, inList) == StateAfter(START, lines[..i])
      invariant body == Body(START, 1, lines[..i])
    {
      assert lines[..i + 1][..i] == lines[..i];
      var line := lines[i];
      var view := View(line, inList);
      if view.delim.Some? && (fence.None? || Closes(fence.value, view)) {
        fence := if fence.None? then view.delim else None;
        continue;
      }
      if fence.Some? { continue; }
      if !line.blank {
        if line.indentedCode {
          if !inList { continue; }
        } else if line.listMarker {
          inList := true;
        } else if !line.leadingSpace {
          inList := false;
        }
      }
      body := body + [(i + 1, line)];
    }
    assert lines[..|lines|] == lines;
  }

  /** `fix_links`, with the two substitutions of a line as one function. */
  method FixLinks(lines: seq<Line>, fix: string -> Rewrite) returns (out: seq<string>, changed: nat)
    ensures out == FixedLines(START, lines, fix)
    ensures changed == LinksMade(Body(START, 1, lines), fix)
  {
    out, changed := [], 0;
    var fence: Option<Delim> := None;
    var inList := false;
    for i := 0 to |lines|
      invariant State(fence, inList) == StateAfter(START, lines[..i])
      invariant out == FixedLines(START, lines[..i], fix)
      invariant changed == LinksMade(Body(START, 1, lines[..i]), fix)
    {
      assert lines[..i + 1][..i] == lines[..i];
      LinksStep(lines, fix, i);
      var line := lines[i];
      var view := View(line, inList);
      if view.delim.Some? && (fence.None? || Closes(fence.value, view)) {
        fence := if fence.None? then view.delim else None;
        out := out + [line.text];
        continue;
      }
      if fence.Some? {
        out := out + [line.text];
        continue;
      }
      if !line.blank {
        if line.indentedCode {
          if !inList {
            out := out + [line.text];
            continue;
          }
        } else if line.listMarker {
          inList := true;
        } else if !line.leadingSpace {
          inList := false;
        }
      }
      var r := fix(line.text);
      out := out + [r.text];
      changed := changed + r.links;
    }
    assert lines[..|lines|] == lines;
  }

  // ---------------------------------------------------------------- lemmas

  lemma LinksStep(lines: seq<Line>, fix: string -> Rewrite, i: nat)
    requires i < |lines|
    ensures LinksMade(Body(START, 1, lines[..i + 1]), fix) == LinksMade(Body(START, 1, lines[..i]), fix)
      + if Yields(StateAfter(START, lines[..i]), lines[i]) then fix(lines[i].text).links else 0
  {
    assert lines[..i + 1][..i] == lines[..i];
    var body := Body(START, 1, lines[..i]);
    if Yields(StateAfter(START, lines[..i]), lines[i]) {
      assert (body + [(1 + i, lines[i])])[..|body|] == body;
    } else {
      assert body + [] == body;
    }
  }

  lemma {:induction false} StateConcat(st: State, a: seq<Line>, b: seq<Line>)
    ensures StateAfter(st, a + b) == StateAfter(StateAfter(st, a), b)
  {
    if b == [] {
      assert a + b == a;
    } else {
      var n := |b| - 1;
      assert (a + b)[..|a + b| - 1] == a + b[..n];
      StateConcat(st, a, b[..n]);
    }
  }

  lemma {:induction false} BodyConcat(st: State, first: nat, a: seq<Line>, b: seq<Line>)
    ensures Body(st, first, a + b) == Body(st, first, a) + Body(StateAfter(st, a), first + |a|, b)
  {
    if b == [] {
      assert a + b == a;
    } else {
      var n := |b| - 1;
      assert (a + b)[..|a + b| - 1] == a + b[..n];
      BodyConcat(st, first, a, b[..n]);
      StateConcat(st, a, b[..n]);
    }
  }

  function Shifted(body: seq<(nat, Line)>, offset: nat): seq<(nat, Line)> {
    seq(|body|, i requires 0 <= i < |body| => (body[i].0 + offset, body[i].1))
  }

  lemma {:induction false} BodyShifts(st: State, first: nat, offset: nat, lines: seq<Line>)
    ensures Body(st, first + offset, lines) == Shifted(Body(st, first, lines), offset)
  {
    if lines != [] { BodyShifts(st, first, offset, lines[..|lines| - 1]); }
  }

  /** Inside a fence nothing moves until a line closes it. */
  lemma {:induction false} FenceHolds(opener: Delim, inList: bool, first: nat, lines: seq<Line>)
    requires forall l | l in lines :: !Closes(opener, View(l, inList))
    ensures StateAfter(State(Some(opener), inList), lines) == State(Some(opener), inList)
    ensures Body(State(Some(opener), inList), first, lines) == []
  {
    if lines != [] {
      var n := |lines| - 1;
      assert lines[n] in lines;
      FenceHolds(opener, inList, first, lines[..n]);
    }
  }

  /** An opener, lines none of which closes it, and a closer, in the list state
      of the place where they stand. */
  predicate FencedBlock(block: seq<Line>, inList: bool) {
    && |block| >= 2
    && View(block[0], inList).delim.Some?
    && var opener := View(block[0], inList).delim.value;
    && (forall l | l in block[1..|block| - 1] :: !Closes(opener, View(l, inList)))
    && Closes(opener, View(block[|block| - 1], inList))
  }

  lemma BlockIsSilent(block: seq<Line>, inList: bool, first: nat)
    requires FencedBlock(block, inList)
    ensures StateAfter(State(None, inList), block) == State(None, inList)
    ensures Body(State(None, inList), first, block) == []
  {
    var st := State(None, inList);
    var opener := View(block[0], inList).delim.value;
    var head, mid, tail := block[..1], block[1..|block| - 1], block[|block| - 1..];
    assert block == head + mid + tail;
    var inside := State(Some(opener), inList);
    assert StateAfter(st, head) == inside && Body(st, first, head) == [] by {
      assert head[..0] == [];
    }
    FenceHolds(opener, inList, first + 1, mid);
    StateConcat(st, head, mid);
    BodyConcat(st, first, head, mid);
    StateConcat(st, head + mid, tail);
    BodyConcat(st, first, head + mid, tail);
    assert tail[..0] == [] && tail == [block[|block| - 1]];
  }

  /** A fenced block inserted outside a fence is invisible: the same lines are
      yielded, those behind it with shifted numbers, and the final fence and
      list state is the same. */
  lemma FencedBlockIsInvisible(before: seq<Line>, block: seq<Line>, after: seq<Line>)
    requires StateAfter(START, before).fence.None?
    requires FencedBlock(block, StateAfter(START, before).inList)
    ensures
      var st := StateAfter(START, before);
      var tail := Body(st, 1 + |before|, after);
      && Body(START, 1, before + after) == Body(START, 1, before) + tail
      && Body(START, 1, before + block + after) == Body(START, 1, before) + Shifted(tail, |block|)
      && StateAfter(START, before + block + after) == StateAfter(START, before + after)
  {
    hide FencedBlock;
    hide StateAfter;
    hide Body;
    var st := StateAfter(START, before);
    BlockIsSilent(block, st.inList, 1 + |before|);
    BodyConcat(START, 1, before, after);
    BodyConcat(START, 1, before, block);
    BodyConcat(START, 1, before + block, after);
    StateConcat(START, before, after);
    StateConcat(START, before, block);
    StateConcat(START, before + block, after);
    BodyShifts(st, 1 + |before|, |block|, after);
    assert Body(START, 1, before) + [] == Body(START, 1, before);
  }

  /** A fence that is never closed hides the rest of the text. */
  lemma UnclosedFenceHidesRest(before: seq<Line>, opener: Line, rest: seq<Line>)
    requires
      var st := StateAfter(START, before);
      && st.fence.None? && View(opener, st.inList).delim.Some?
      && forall l | l in rest :: !Closes(View(opener, st.inList).delim.value, View(l, st.inList))
    ensures Body(START, 1, before + [opener] + rest) == Body(START, 1, before)
  {
    var st := StateAfter(START, before);
    var d := View(opener, st.inList).delim.value;
    BodyConcat(START, 1, before, [opener]);
    StateConcat(START, before, [opener]);
    BodyConcat(START, 1, before + [opener], rest);
    assert [opener][..0] == [];
    FenceHolds(d, st.inList, 2 + |before|, rest);
  }

  /** `body_lines` yields line `i` exactly when the scanner stands outside
      fences and code there. */
  lemma {:induction false} BodyMembers(st: State, first: nat, lines: seq<Line>, i: nat)
    requires i < |lines|
    ensures (first + i, lines[i]) in Body(st, first, lines) <==> Yields(StateAfter(st, lines[..i]), lines[i])
  {
    var n := |lines| - 1;
    BodyNumbers(st, first, lines[..n]);
    if i < n {
      BodyMembers(st, first, lines[..n], i);
      assert lines[..n][..i] == lines[..i];
    }
  }

  lemma {:induction false} BodyNumbers(st: State, first: nat, lines: seq<Line>)
    ensures forall p | p in Body(st, first, lines) :: first <= p.0 < first + |lines|
  {
    if lines != [] { BodyNumbers(st, first, lines[..|lines| - 1]); }
  }

  /** The fixer rewrites exactly the lines the checker reads: line `i` of its
      output is rewritten if `body_lines` yields line `i`, and untouched if not. */
  lemma {:induction false} FixerTouchesBodyOnly(lines: seq<Line>, fix: string -> Rewrite, i: nat)
    requires i < |lines|
    ensures |FixedLines(START, lines, fix)| == |lines|
    ensures FixedLines(START, lines, fix)[i] ==
            if (1 + i, lines[i]) in Body(START, 1, lines) then fix(lines[i].text).text else lines[i].text
  {
    FixedLength(START, lines, fix);
    BodyMembers(START, 1, lines, i);
    FixedAt(START, lines, fix, i);
  }

  lemma {:induction false} FixedLength(st: State, lines: seq<Line>, fix: string -> Rewrite)
    ensures |FixedLines(st, lines, fix)| == |lines|
  {
    if lines != [] { FixedLength(st, lines[..|lines| - 1], fix); }
  }

  lemma {:induction false} FixedAt(st: State, lines: seq<Line>, fix: string -> Rewrite, i: nat)
    requires i < |lines|
    ensures |FixedLines(st, lines, fix)| == |lines|
    ensures FixedLines(st, lines, fix)[i] ==
            if Yields(StateAfter(st, lines[..i]), lines[i]) then fix(lines[i].text).text else lines[i].text
  {
    FixedLength(st, lines, fix);
    var n := |lines| - 1;
    FixedLength(st, lines[..n], fix);
    if i < n {
      FixedAt(st, lines[..n], fix, i);
      assert lines[..n][..i] == lines[..i];
    }
  }

  // ---------------------------------------------------------- which line closes

  /** Inside a fence opened by `n` marks, a line stays inside unless it is
      itself a fence of at least as many of the same marks and nothing else;
      then it closes, and the next line is text again. */
  lemma ClosesExactly(mark: char, n: nat, inList: bool, l: Line)
    ensures
      var st, v := State(Some(Delim(mark, n)), inList), if inList then l.insideList else l.outsideList;
      && !Yields(st, l) && Next(st, l).inList == inList
      && (Next(st, l).fence == None <==>
            exists m: nat :: m >= n && v.delim == Some(Delim(mark, m)) && v.bareInfo)
      && (Next(st, l).fence == None || Next(st, l) == st)
  {
    var v := View(l, inList);
    if v.delim.Some? && v.delim.value.mark == mark && v.delim.value.len >= n {
      assert v.delim == Some(Delim(mark, v.delim.value.len));
    }
  }

  /** Outside a fence a line with any delimiter opens one, info string or not.
      Every other line is text, but an indented one counts as code until a list
      has begun. A list begins with its marker and ends with the next line that
      starts in the first column. */
  lemma OutsideExactly(inList: bool, l: Line)
    ensures
      var st, v := State(None, inList), if inList then l.insideList else l.outsideList;
      if v.delim.Some? then !Yields(st, l) && Next(st, l) == State(v.delim, inList)
      else
        && Next(st, l).fence == None
        && (Yields(st, l) <==> l.blank || inList || !l.indentedCode)
        && (Next(st, l).inList <==>
              if l.blank || l.indentedCode then inList else l.listMarker || (inList && l.leadingSpace))
  {
  }

  /** The fixer's count: each body line adds the links its rewriting makes. */
  lemma {:induction false} LinksAddUp(a: seq<(nat, Line)>, b: seq<(nat, Line)>, fix: string -> Rewrite)
    ensures LinksMade(a + b, fix) == LinksMade(a, fix) + LinksMade(b, fix)
    ensures |b| == 1 ==> LinksMade(b, fix) == fix(b[0].1.text).links
  {
    if b == [] {
      assert a + b == a;
    } else {
      var n := |b| - 1;
      assert (a + b)[..|a + b| - 1] == a + b[..n];
      LinksAddUp(a, b[..n], fix);
    }
  }
}
