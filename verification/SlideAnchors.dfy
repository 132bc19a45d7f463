/** `find_slide_blocks` of `extract-ppt-anchors.py`: a depth-counting scan that
    cuts the outermost slide elements out of a deck. The markup is given as the
    sequence of its div/section/article tags and the text between them. */
module SlideAnchors {
  import opened Text

  datatype Tag = Div | Section | Article

  /** A piece of the page, with the characters it was read from. An opening
      tag has a class attribute or not, and may be written self-closing. */
  datatype Token =
    | Plain(src: string)
    | Open(src: string, tag: Tag, cls: Option<string>, selfClosing: bool)
    | Close(src: string, tag: Tag)

  datatype Span = Span(start: nat, end: nat, cls: string)

  /** `str.split()`. */
  function Words(s: string): seq<string> {
    WordsAfter(s, "")
  }

  function WordsAfter(s: string, word: string): seq<string> {
    var done := if word == "" then [] else [word];
    if s == "" then done
    else if IsSpace(s[0]) then done + WordsAfter(s[1..], "")
    else WordsAfter(s[1..], word + [s[0]])
  }

  predicate IsSlideClass(cls: string) {
    "slide" in Words(cls)
  }

  predicate IsSlide(cls: Option<string>) {
    cls.Some? && IsSlideClass(cls.value)
  }

  // -------------------------------------------------------- specification

  /** How a tag moves the depth of an element named `tag`. */
  function Delta(t: Token, tag: Tag): int {
    match t
    case Plain(_) => 0
    case Open(_, other, _, selfClosing) => if other == tag && !selfClosing then 1 else 0
    case Close(_, other) => if other == tag then -1 else 0
  }

  /** Behind which token the depth comes back to zero. */
  function CloseAt(toks: seq<Token>, j: nat, tag: Tag, depth: int): (r: Option<nat>)
    requires depth > 0
    ensures r.Some? ==> j < r.value <= |toks|
    decreases |toks| - j
  {
    if j >= |toks| then None
    else
      var d := depth + Delta(toks[j], tag);
      if d <= 0 then Some(j + 1) else CloseAt(toks, j + 1, tag, d)
  }

  function Prepend(spans: seq<Span>, more: Option<seq<Span>>): Option<seq<Span>> {
    if more.None? then None else Some(spans + more.value)
  }

  /** The scan from token `i`; None when it raises. */
  function Scan(toks: seq<Token>, i: nat): Option<seq<Span>>
    decreases |toks| - i
  {
    if i >= |toks| then Some([])
    else if !(toks[i].Open? && IsSlide(toks[i].cls)) then Scan(toks, i + 1)
    else
      var end := CloseAt(toks, i + 1, toks[i].tag, 1);
      if end.None? then None
      else Prepend([Span(i, end.value, toks[i].cls.value)], Scan(toks, end.value))
  }

  // ------------------------------------------------------------ the script

  /** `OPEN_RE.search`: the next opening tag that has a class. */
  method NextOpen(toks: seq<Token>, from: nat) returns (i: nat)
    requires from <= |toks|
    ensures from <= i <= |toks| && (i < |toks| ==> toks[i].Open? && toks[i].cls.Some?)
    ensures Scan(toks, from) == Scan(toks, i)
  {
    i := from;
    while i < |toks| && !(toks[i].Open? && toks[i].cls.Some?)
      invariant from <= i <= |toks|
      invariant Scan(toks, from) == Scan(toks, i)
    {
      i := i + 1;
    }
  }

  /** Count depth from behind an opening tag; None when the tags run out. */
  method Balance(toks: seq<Token>, from: nat, tag: Tag) returns (end: Option<nat>)
    requires from <= |toks|
    ensures end == CloseAt(toks, from, tag, 1)
  {
    var depth, scan := 1, from;
    while depth > 0
      invariant from <= scan <= |toks| && depth >= 0
      invariant CloseAt(toks, from, tag, 1) == if depth > 0 then CloseAt(toks, scan, tag, depth) else Some(scan)
      decreases |toks| - scan, depth
    {
      if scan == |toks| { return None; }
      depth := depth + Delta(toks[scan], tag);
      scan := scan + 1;
    }
    end := Some(scan);
  }

  /** `find_slide_blocks`; None when it raises on unbalanced markup. */
  method FindSlideBlocks(toks: seq<Token>) returns (blocks: Option<seq<Span>>)
    ensures blocks == Scan(toks, 0)
  {
    var found: seq<Span> := [];
    var pos := 0;
    PrependNothing(Scan(toks, 0));
    while true
      invariant pos <= |toks|
      invariant Scan(toks, 0) == Prepend(found, Scan(toks, pos))
      decreases |toks| - pos
    {
      var i := NextOpen(toks, pos);
      if i == |toks| {
        assert found + [] == found;
        return Some(found);
      }
      if !IsSlideClass(toks[i].cls.value) {
        pos := i + 1;
        continue;
      }
      var end := Balance(toks, i + 1, toks[i].tag);
      if end.None? { return None; }
      var block := Span(i, end.value, toks[i].cls.value);
      PrependTwice(found, [block], Scan(toks, end.value));
      found := found + [block];
      pos := end.value;
    }
  }

  lemma PrependTwice(a: seq<Span>, b: seq<Span>, more: Option<seq<Span>>)
    ensures Prepend(a, Prepend(b, more)) == Prepend(a + b, more)
  {
    if more.Some? { assert a + (b + more.value) == a + b + more.value; }
  }

  lemma PrependNothing(more: Option<seq<Span>>)
    ensures Prepend([], more) == more
  {
    if more.Some? { assert [] + more.value == more.value; }
  }

  // ------------------------------------------------------ cutting the page

  /** Disjoint, non-empty and in document order, between two positions. */
  predicate Ordered(spans: seq<Span>, lo: nat, hi: nat) {
    && (forall k | 0 <= k < |spans| :: lo <= spans[k].start < spans[k].end <= hi)
    && forall k | 0 <= k < |spans| - 1 :: spans[k].end <= spans[k + 1].start
  }

  /** On any markup the blocks found are disjoint and in document order. */
  lemma {:induction false} ScanOrdered(toks: seq<Token>, i: nat)
    requires i <= |toks| && Scan(toks, i).Some?
    ensures Ordered(Scan(toks, i).value, i, |toks|)
    decreases |toks| - i
  {
    if i < |toks| {
      if toks[i].Open? && IsSlide(toks[i].cls) {
        ScanOrdered(toks, CloseAt(toks, i + 1, toks[i].tag, 1).value);
      } else {
        ScanOrdered(toks, i + 1);
      }
    }
  }

  /** Gaps and blocks in turn, and the rest of the page. */
  function Reassembled(toks: seq<Token>, spans: seq<Span>, from: nat): seq<Token>
    requires from <= |toks| && Ordered(spans, from, |toks|)
  {
    if spans == [] then toks[from..]
    else
      OrderedTail(spans, from, |toks|);
      toks[from..spans[0].start] + toks[spans[0].start..spans[0].end] + Reassembled(toks, spans[1..], spans[0].end)
  }

  lemma OrderedTail(spans: seq<Span>, lo: nat, hi: nat)
    requires Ordered(spans, lo, hi) && spans != []
    ensures Ordered(spans[1..], spans[0].end, hi)
  {
    var rest := spans[1..];
    forall k | 0 <= k < |rest| ensures spans[0].end <= rest[k].start {
      AllAfter(spans, lo, hi, k + 1);
    }
    forall k | 0 <= k < |rest| - 1 ensures rest[k].end <= rest[k + 1].start {
      assert spans[k + 1].end <= spans[k + 1 + 1].start;
    }
  }

  lemma {:induction false} AllAfter(spans: seq<Span>, lo: nat, hi: nat, k: nat)
    requires Ordered(spans, lo, hi) && 0 < k < |spans|
    ensures spans[0].end <= spans[k].start
  {
    if k > 1 {
      AllAfter(spans, lo, hi, k - 1);
      assert spans[k - 1].end <= spans[k - 1 + 1].start;
    }
  }

  /** Prefix, blocks, gaps and suffix add up to the page. */
  lemma {:induction false} NothingIsLost(toks: seq<Token>, spans: seq<Span>, from: nat)
    requires from <= |toks| && Ordered(spans, from, |toks|)
    ensures Reassembled(toks, spans, from) == toks[from..]
  {
    if spans != [] {
      OrderedTail(spans, from, |toks|);
      NothingIsLost(toks, spans[1..], spans[0].end);
    }
  }

  function Render(toks: seq<Token>): string {
    if toks == [] then "" else Render(toks[..|toks| - 1]) + toks[|toks| - 1].src
  }

  /** A token span is the character span between the offsets of its ends. */
  lemma {:induction false} SpanOfCharacters(toks: seq<Token>, a: nat, b: nat)
    requires a <= b <= |toks|
    ensures
      var x, y := |Render(toks[..a])|, |Render(toks[..b])|;
      x <= y <= |Render(toks)| && Render(toks)[x..y] == Render(toks[a..b])
  {
    RenderPrefix(toks, b);
    RenderConcat(toks[..a], toks[a..b]);
    assert toks[..a] + toks[a..b] == toks[..b];
  }

  lemma {:induction false} RenderConcat(a: seq<Token>, b: seq<Token>)
    ensures Render(a + b) == Render(a) + Render(b)
  {
    if b == [] {
      assert a + b == a;
    } else {
      var n := |b| - 1;
      assert (a + b)[..|a + b| - 1] == a + b[..n];
      RenderConcat(a, b[..n]);
    }
  }

  lemma RenderPrefix(toks: seq<Token>, b: nat)
    requires b <= |toks|
    ensures Render(toks[..b]) <= Render(toks)
  {
    hide Render;
    var a, c := toks[..b], toks[b..];
    RenderConcat(a, c);
    assert a + c == toks;
  }

  // ------------------------------------------------------ well-nested pages

  /** A page: text, elements, and tags written self-closing. */
  datatype Node =
    | Text(src: string)
    | Void(src: string, tag: Tag, cls: Option<string>)
    | Element(open_: string, tag: Tag, cls: Option<string>, children: Forest, close: string)
  datatype Forest = Nil | Cons(node: Node, rest: Forest)

  function Print(f: Forest): seq<Token> {
    match f
    case Nil => []
    case Cons(n, rest) => PrintNode(n) + Print(rest)
  }

  function PrintNode(n: Node): (r: seq<Token>)
    ensures |r| > 0
  {
    match n
    case Text(src) => [Plain(src)]
    case Void(src, tag, cls) => [Open(src, tag, cls, true)]
    case Element(o, tag, cls, children, c) => [Open(o, tag, cls, false)] + Print(children) + [Close(c, tag)]
  }

  /** The outermost slide elements, in document order, from position `at`. */
  function Spans(f: Forest, at: nat): seq<Span> {
    match f
    case Nil => []
    case Cons(n, rest) => NodeSpans(n, at) + Spans(rest, at + |PrintNode(n)|)
  }

  function NodeSpans(n: Node, at: nat): seq<Span> {
    match n
    case Text(_) => []
    case Void(_, _, cls) => if IsSlide(cls) then [Span(at, at + 1, cls.value)] else []
    case Element(_, _, cls, children, _) =>
      if IsSlide(cls) then [Span(at, at + |PrintNode(n)|, cls.value)] else Spans(children, at + 1)
  }

  /** A self-closing slide tag outside every slide element. */
  predicate Exposed(f: Forest) {
    match f
    case Nil => false
    case Cons(n, rest) => ExposedNode(n) || Exposed(rest)
  }

  predicate ExposedNode(n: Node) {
    match n
    case Text(_) => false
    case Void(_, _, cls) => IsSlide(cls)
    case Element(_, _, cls, children, _) => !IsSlide(cls) && Exposed(children)
  }

  /** `part` stands in `toks` at position `i`. */
  predicate At(toks: seq<Token>, i: nat, part: seq<Token>) {
    i + |part| <= |toks| && toks[i..i + |part|] == part
  }

  lemma AtSplit(toks: seq<Token>, i: nat, a: seq<Token>, b: seq<Token>)
    requires At(toks, i, a + b)
    ensures At(toks, i, a) && At(toks, i + |a|, b)
  {
    var whole := toks[i..i + |a + b|];
    assert whole[..|a|] == a && whole[|a|..] == b;
    assert toks[i..i + |a|] == whole[..|a|];
    assert toks[i + |a|..i + |a| + |b|] == whole[|a|..];
  }

  lemma AtOne(toks: seq<Token>, i: nat, t: Token)
    requires At(toks, i, [t])
    ensures i < |toks| && toks[i] == t
  {
    assert toks[i..i + 1][0] == t;
  }

  lemma AtElement(toks: seq<Token>, i: nat, n: Node)
    requires n.Element? && At(toks, i, PrintNode(n))
    ensures i < |toks| && toks[i] == Open(n.open_, n.tag, n.cls, false)
    ensures At(toks, i + 1, Print(n.children))
    ensures i + 1 + |Print(n.children)| < |toks| && toks[i + 1 + |Print(n.children)|] == Close(n.close, n.tag)
    ensures |PrintNode(n)| == |Print(n.children)| + 2
  {
    var o, body, c := [Open(n.open_, n.tag, n.cls, false)], Print(n.children), [Close(n.close, n.tag)];
    AtSplit(toks, i, o + body, c);
    AtSplit(toks, i, o, body);
    AtOne(toks, i, o[0]);
    AtOne(toks, i + 1 + |body|, c[0]);
  }

  /** Counting depth passes over a whole forest unchanged. */
  lemma {:induction false} DepthPassesForest(toks: seq<Token>, i: nat, f: Forest, tag: Tag, depth: int)
    requires At(toks, i, Print(f)) && depth > 0
    ensures CloseAt(toks, i, tag, depth) == CloseAt(toks, i + |Print(f)|, tag, depth)
    decreases f
  {
    match f
    case Nil =>
    case Cons(n, rest) =>
      AtSplit(toks, i, PrintNode(n), Print(rest));
      DepthPassesNode(toks, i, n, tag, depth);
      DepthPassesForest(toks, i + |PrintNode(n)|, rest, tag, depth);
  }

  lemma {:induction false} DepthPassesNode(toks: seq<Token>, i: nat, n: Node, tag: Tag, depth: int)
    requires At(toks, i, PrintNode(n)) && depth > 0
    ensures CloseAt(toks, i, tag, depth) == CloseAt(toks, i + |PrintNode(n)|, tag, depth)
    decreases n
  {
    if n.Element? {
      AtElement(toks, i, n);
      DepthPassesForest(toks, i + 1, n.children, tag, if n.tag == tag then depth + 1 else depth);
    } else {
      AtOne(toks, i, PrintNode(n)[0]);
    }
  }

  /** Without exposed self-closing slides the scan collects exactly the
      outermost slide elements of a forest and goes on behind it. */
  lemma {:induction false} ScanForest(toks: seq<Token>, i: nat, f: Forest)
    requires At(toks, i, Print(f)) && !Exposed(f)
    ensures Scan(toks, i) == Prepend(Spans(f, i), Scan(toks, i + |Print(f)|))
    decreases f
  {
    hide Scan;
    hide At;
    hide NodeSpans;
    hide ExposedNode;
    match f
    case Nil => PrependNothing(Scan(toks, i));
    case Cons(n, rest) =>
      AtSplit(toks, i, PrintNode(n), Print(rest));
      ScanNode(toks, i, n);
      ScanForest(toks, i + |PrintNode(n)|, rest);
      PrependTwice(NodeSpans(n, i), Spans(rest, i + |PrintNode(n)|), Scan(toks, i + |Print(f)|));
  }

  lemma {:induction false} ScanNode(toks: seq<Token>, i: nat, n: Node)
    requires At(toks, i, PrintNode(n)) && !ExposedNode(n)
    ensures Scan(toks, i) == Prepend(NodeSpans(n, i), Scan(toks, i + |PrintNode(n)|))
    decreases n
  {
    hide IsSlide;
    if n.Element? {
      AtElement(toks, i, n);
      if IsSlide(n.cls) {
        DepthPassesForest(toks, i + 1, n.children, n.tag, 1);
        ScanSlide(toks, i, n);
      } else {
        ScanForest(toks, i + 1, n.children);
      }
    } else {
      AtOne(toks, i, PrintNode(n)[0]);
      PrependNothing(Scan(toks, i + 1));
    }
  }

  lemma ScanSlide(toks: seq<Token>, i: nat, n: Node)
    requires n.Element? && IsSlide(n.cls) && At(toks, i, PrintNode(n))
    requires CloseAt(toks, i + 1, n.tag, 1) == CloseAt(toks, i + 1 + |Print(n.children)|, n.tag, 1)
    ensures Scan(toks, i) == Prepend(NodeSpans(n, i), Scan(toks, i + |PrintNode(n)|))
  {
    hide IsSlide;
    AtElement(toks, i, n);
    hide At;
    hide Print;
    assert CloseAt(toks, i + 1, n.tag, 1) == Some(i + |PrintNode(n)|);
  }

  /** The scan raised, or one of its blocks ends elsewhere. */
  ghost predicate Diverges(found: Option<seq<Span>>, spans: seq<Span>) {
    found.None? || exists k | 0 <= k < |found.value| && k < |spans| :: found.value[k].end != spans[k].end
  }

  lemma DivergesLater(head: seq<Span>, found: Option<seq<Span>>, spans: seq<Span>)
    requires Diverges(found, spans)
    ensures Diverges(Prepend(head, found), head + spans)
  {
    if found.Some? {
      var k :| 0 <= k < |found.value| && k < |spans| && found.value[k].end != spans[k].end;
      var m := |head| + k;
      assert (head + found.value)[m].end != (head + spans)[m].end;
    }
  }

  lemma DivergesStill(found: Option<seq<Span>>, spans: seq<Span>, more: seq<Span>)
    requires Diverges(found, spans)
    ensures Diverges(found, spans + more)
  {
    if found.Some? {
      var k :| 0 <= k < |found.value| && k < |spans| && found.value[k].end != spans[k].end;
      assert found.value[k].end != (spans + more)[k].end;
    }
  }

  lemma {:induction false} ExposedForestDiverges(toks: seq<Token>, i: nat, f: Forest)
    requires At(toks, i, Print(f)) && Exposed(f)
    ensures Diverges(Scan(toks, i), Spans(f, i))
    decreases f
  {
    hide Scan;
    hide At;
    hide NodeSpans;
    hide ExposedNode;
    hide Diverges;
    match f
    case Cons(n, rest) =>
      AtSplit(toks, i, PrintNode(n), Print(rest));
      if ExposedNode(n) {
        ExposedNodeDiverges(toks, i, n);
        DivergesStill(Scan(toks, i), NodeSpans(n, i), Spans(rest, i + |PrintNode(n)|));
      } else {
        ScanNode(toks, i, n);
        ExposedForestDiverges(toks, i + |PrintNode(n)|, rest);
        DivergesLater(NodeSpans(n, i), Scan(toks, i + |PrintNode(n)|), Spans(rest, i + |PrintNode(n)|));
      }
  }

  lemma {:induction false} ExposedNodeDiverges(toks: seq<Token>, i: nat, n: Node)
    requires At(toks, i, PrintNode(n)) && ExposedNode(n)
    ensures Diverges(Scan(toks, i), NodeSpans(n, i))
    decreases n
  {
    if n.Element? {
      AtElement(toks, i, n);
      ExposedForestDiverges(toks, i + 1, n.children);
    } else {
      AtOne(toks, i, PrintNode(n)[0]);
      var found := Scan(toks, i);
      if found.Some? { assert found.value[0].end != NodeSpans(n, i)[0].end; }
    }
  }

  /** On every well-nested page the scan finds exactly the outermost slide
      elements, if and only if none of them is written as a self-closing tag. */
  lemma FindsTheRightElements(f: Forest)
    ensures Scan(Print(f), 0) == Some(Spans(f, 0)) <==> !Exposed(f)
  {
    var toks := Print(f);
    assert toks[0..|toks|] == toks;
    if Exposed(f) {
      ExposedForestDiverges(toks, 0, f);
    } else {
      ScanForest(toks, 0, f);
      assert Spans(f, 0) + [] == Spans(f, 0);
    }
  }

  /** One self-closing slide tag alone makes the scan raise. */
  lemma SelfClosingSlideRaises()
    ensures Scan(Print(Cons(Void("<div class=\"slide\"/>", Div, Some("slide")), Nil)), 0) == None
  {
    var page := Cons(Void("<div class=\"slide\"/>", Div, Some("slide")), Nil);
    SoleWord("slide", "");
    assert "" + "slide" == "slide";
    var toks := Print(page);
    assert toks == [Open("<div class=\"slide\"/>", Div, Some("slide"), true)];
    assert CloseAt(toks, 1, Div, 1) == None;
  }

  lemma {:induction false} SoleWord(s: string, word: string)
    requires forall i | 0 <= i < |s| :: !IsSpace(s[i])
    requires word + s != ""
    ensures WordsAfter(s, word) == [word + s]
  {
    if s == "" {
      assert word + s == word;
    } else {
      SoleWord(s[1..], word + [s[0]]);
      assert word + [s[0]] + s[1..] == word + s;
    }
  }

  // --------------------------------------------------------------- class words

  /** A word of a class attribute. */
  predicate IsWord(s: string) {
    s != "" && forall c | c in s :: !IsSpace(c)
  }

  /** Words with a blank behind each, and any blanks in front. */
  function Spelled(words: seq<string>): string {
    if words == [] then "" else words[0] + " " + Spelled(words[1..])
  }

  lemma {:induction false} WordsOfRun(word: string, rest: string, done: string)
    requires forall c | c in word :: !IsSpace(c)
    ensures WordsAfter(word + rest, done) == WordsAfter(rest, done + word)
  {
    if word == "" {
      assert word + rest == rest && done + word == done;
    } else {
      assert (word + rest)[0] == word[0] && (word + rest)[1..] == word[1..] + rest;
      assert word[0] in word;
      WordsOfRun(word[1..], rest, done + [word[0]]);
      assert done + [word[0]] + word[1..] == done + word;
    }
  }

  /** The class words of an attribute are the words it was spelled from. */
  lemma {:induction false} WordsOfSpelled(words: seq<string>)
    requires forall w | w in words :: IsWord(w)
    ensures Words(Spelled(words)) == words
  {
    if words != [] {
      var w, rest := words[0], Spelled(words[1..]);
      assert w in words;
      WordsOfSpelled(words[1..]);
      assert Spelled(words) == w + (" " + rest);
      WordsOfRun(w, " " + rest, "");
      assert "" + w == w && (" " + rest)[1..] == rest;
      assert words == [w] + words[1..];
    }
  }

  /** An element is a slide exactly when `slide` is one of its class words; a
      longer word that contains it does not count. */
  lemma SlideAmongWords(words: seq<string>)
    requires forall w | w in words :: IsWord(w)
    ensures IsSlideClass(Spelled(words)) <==> "slide" in words
    ensures IsSlide(Some(Spelled(words))) <==> "slide" in words
    ensures !IsSlide(None)
  {
    WordsOfSpelled(words);
  }
}
