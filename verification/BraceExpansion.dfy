/** `expand_braces` of `audit-rule-scope-gaps.py`: textual, innermost-first
    brace expansion, and the language it computes. */
module BraceExpansion {

  predicate IsBrace(c: char) {
    c == '{' || c == '}'
  }

  predicate BraceFree(s: string) {
    forall i | 0 <= i < |s| :: !IsBrace(s[i])
  }

  predicate CommaFree(s: string) {
    forall i | 0 <= i < |s| :: s[i] != ','
  }

  function Opens(s: string): nat {
    if s == "" then 0 else Opens(s[1..]) + if s[0] == '{' then 1 else 0
  }

  // ------------------------------------------------------------ the script

  /** Length of the run of non-brace characters at the front. */
  function PlainRun(s: string): (n: nat)
    ensures n <= |s| && BraceFree(s[..n]) && (n < |s| ==> IsBrace(s[n]))
  {
    if s == "" || IsBrace(s[0]) then 0
    else
      var n := PlainRun(s[1..]);
      assert forall i | 0 < i <= n :: s[i] == s[1..][i - 1];
      1 + n
  }

  datatype Match = NoMatch | Match(start: nat, end: nat)

  /** A match of the pattern: an opening brace, brace-free text, a closing one. */
  predicate GroupAt(s: string, start: nat, end: nat) {
    start + 2 <= end <= |s| && s[start] == '{' && s[end - 1] == '}' && BraceFree(s[start + 1..end - 1])
  }

  /** The regex search from `i` on: the leftmost opening brace whose next brace
      closes. */
  function SearchFrom(s: string, i: nat): (m: Match)
    requires i <= |s|
    ensures m.Match? ==> i <= m.start && GroupAt(s, m.start, m.end)
    decreases |s| - i
  {
    if i == |s| then NoMatch
    else
      var n := PlainRun(s[i + 1..]);
      if s[i] == '{' && i + 1 + n < |s| && s[i + 1 + n] == '}' then
        assert GroupAt(s, i, i + 2 + n) by { assert s[i + 1..i + 1 + n] == s[i + 1..][..n]; }
        Match(i, i + 2 + n)
      else SearchFrom(s, i + 1)
  }

  /** The search finds exactly the leftmost match, and none only when there is
      none; a start admits a single end. */
  lemma {:induction false} SearchIsLeftmost(s: string, i: nat)
    requires i <= |s|
    ensures var m := SearchFrom(s, i);
      && (m.NoMatch? ==> forall j, e | i <= j :: !GroupAt(s, j, e))
      && (m.Match? ==> i <= m.start && GroupAt(s, m.start, m.end))
      && (m.Match? ==> forall j, e | i <= j <= m.start && GroupAt(s, j, e) :: j == m.start && e == m.end)
    decreases |s| - i
  {
    if i < |s| {
      var m, n := SearchFrom(s, i), PlainRun(s[i + 1..]);
      forall e | GroupAt(s, i, e) ensures m == Match(i, e) { OnlyEnd(s, i, e, n); }
      if m.NoMatch? || m.start != i { SearchIsLeftmost(s, i + 1); }
      hide BraceFree;
      hide SearchFrom;
    }
  }

  lemma OnlyEnd(s: string, i: nat, e: nat, n: nat)
    requires GroupAt(s, i, e) && n == PlainRun(s[i + 1..])
    ensures e == i + 2 + n
  {
    var rest, k := s[i + 1..], e - 2 - i;
    assert rest[..k] == s[i + 1..e - 1] && rest[k] == s[e - 1];
    PlainRunIs(rest, k);
  }

  /** `str.split(",")`. */
  function Split(s: string): (r: seq<string>)
    ensures |r| > 0
    ensures forall i | 0 <= i < |r| :: CommaFree(r[i])
    ensures BraceFree(s) ==> forall i | 0 <= i < |r| :: BraceFree(r[i])
  {
    if s == "" then [""]
    else
      var rest := Split(s[1..]);
      if s[0] == ',' then [""] + rest
      else
        var first := [s[0]] + rest[0];
        assert CommaFree(first) && (BraceFree(s) ==> BraceFree(first));
        [first] + rest[1..]
  }

  lemma {:induction false} OpensConcat(a: string, b: string)
    ensures Opens(a + b) == Opens(a) + Opens(b)
  {
    if a == "" { assert a + b == b; } else {
      assert (a + b)[1..] == a[1..] + b;
      OpensConcat(a[1..], b);
    }
  }

  lemma {:induction false} BraceFreeOpens(s: string)
    requires BraceFree(s)
    ensures Opens(s) == 0
  {
    if s != "" { BraceFreeOpens(s[1..]); }
  }

  /** Each substitution removes one opening brace. */
  lemma SubstitutionShrinks(s: string, start: nat, end: nat, option: string)
    requires start + 2 <= end <= |s| && s[start] == '{' && BraceFree(option)
    ensures Opens(s[..start] + option + s[end..]) < Opens(s)
  {
    var pre, mid, suf := s[..start], s[start..end], s[end..];
    assert s == pre + mid + suf;
    OpensConcat(pre + mid, suf);
    OpensConcat(pre, mid);
    OpensConcat(pre + option, suf);
    OpensConcat(pre, option);
    BraceFreeOpens(option);
    assert Opens(mid) >= 1;
  }

  function Replaced(s: string, m: Match, option: string): string
    requires m.Match? && m.start <= m.end <= |s|
  {
    s[..m.start] + option + s[m.end..]
  }

  /** The expansions of the first `k` options of a match. */
  function ExpandOptions(s: string, m: Match, options: seq<string>): seq<string>
    requires m == SearchFrom(s, 0) && m.Match?
    requires forall w | w in options :: BraceFree(w)
    decreases Opens(s), 0, |options|
  {
    if options == [] then []
    else
      var n := |options| - 1;
      SubstitutionShrinks(s, m.start, m.end, options[n]);
      ExpandOptions(s, m, options[..n]) + Expand(Replaced(s, m, options[n]))
  }

  /** `expand_braces` as a function: it is total because the number of opening
      braces falls at every call. */
  function Expand(s: string): seq<string>
    decreases Opens(s), 1
  {
    var m := SearchFrom(s, 0);
    if m.NoMatch? then [s] else ExpandOptions(s, m, Split(s[m.start + 1..m.end - 1]))
  }

  method ExpandBraces(s: string) returns (out: seq<string>)
    ensures out == Expand(s)
    decreases Opens(s)
  {
    hide SearchFrom;
    hide Split;
    hide Opens;
    var m := SearchFrom(s, 0);
    if m.NoMatch? { return [s]; }
    out := [];
    var options := Split(s[m.start + 1..m.end - 1]);
    for i := 0 to |options|
      invariant out == ExpandOptions(s, m, options[..i])
    {
      assert options[..i + 1][..i] == options[..i];
      SubstitutionShrinks(s, m.start, m.end, options[i]);
      var more := ExpandBraces(Replaced(s, m, options[i]));
      out := out + more;
    }
    assert options[..|options|] == options;
  }

  // -------------------------------------------------------------- patterns

  /** A well-formed pattern: literal characters and brace groups, which nest. */
  datatype Pat = Eps | Chr(c: char, rest: Pat) | Group(options: Opts, rest: Pat)
  datatype Opts = One(p: Pat) | More(p: Pat, others: Opts)

  function Text(p: Pat): string {
    match p
    case Eps => ""
    case Chr(c, rest) => [c] + Text(rest)
    case Group(o, rest) => "{" + OptsText(o) + "}" + Text(rest)
  }

  function OptsText(o: Opts): string {
    match o
    case One(p) => Text(p)
    case More(p, others) => Text(p) + "," + OptsText(others)
  }

  /** Braces only as groups, and commas only outside groups or between options. */
  predicate WellFormed(p: Pat, inGroup: bool) {
    match p
    case Eps => true
    case Chr(c, rest) => !IsBrace(c) && (inGroup ==> c != ',') && WellFormed(rest, inGroup)
    case Group(o, rest) => OptsWellFormed(o) && WellFormed(rest, inGroup)
  }

  predicate OptsWellFormed(o: Opts) {
    match o
    case One(p) => WellFormed(p, true)
    case More(p, others) => WellFormed(p, true) && OptsWellFormed(others)
  }

  /** What a pattern denotes: a choice of one option for every group. */
  ghost predicate Denotes(p: Pat, w: string) {
    match p
    case Eps => w == ""
    case Chr(c, rest) => w != "" && w[0] == c && Denotes(rest, w[1..])
    case Group(o, rest) => exists k | 0 <= k <= |w| :: OptsDenote(o, w[..k]) && Denotes(rest, w[k..])
  }

  ghost predicate OptsDenote(o: Opts, w: string) {
    match o
    case One(p) => Denotes(p, w)
    case More(p, others) => Denotes(p, w) || OptsDenote(others, w)
  }

  // -------------------------------------- the leftmost innermost group

  predicate Plain(p: Pat) {
    match p
    case Eps => true
    case Chr(_, rest) => Plain(rest)
    case Group(_, _) => false
  }

  predicate OptsPlain(o: Opts) {
    match o
    case One(p) => Plain(p)
    case More(p, others) => Plain(p) && OptsPlain(others)
  }

  /** The options of the leftmost innermost group, ... */
  function Hole(p: Pat): (o: Opts)
    requires !Plain(p)
    ensures OptsPlain(o)
  {
    match p
    case Chr(_, rest) => Hole(rest)
    case Group(o, _) => if OptsPlain(o) then o else OptsHole(o)
  }

  function OptsHole(o: Opts): (h: Opts)
    requires !OptsPlain(o)
    ensures OptsPlain(h)
  {
    match o
    case One(p) => Hole(p)
    case More(p, others) => if Plain(p) then OptsHole(others) else Hole(p)
  }

  /** ... the text before it, ... */
  function Before(p: Pat): string
    requires !Plain(p)
  {
    match p
    case Chr(c, rest) => [c] + Before(rest)
    case Group(o, _) => if OptsPlain(o) then "" else "{" + OptsBefore(o)
  }

  function OptsBefore(o: Opts): string
    requires !OptsPlain(o)
  {
    match o
    case One(p) => Before(p)
    case More(p, others) => if Plain(p) then Text(p) + "," + OptsBefore(others) else Before(p)
  }

  /** ... the text behind it, ... */
  function Behind(p: Pat): string
    requires !Plain(p)
  {
    match p
    case Chr(c, rest) => Behind(rest)
    case Group(o, rest) => if OptsPlain(o) then Text(rest) else OptsBehind(o) + "}" + Text(rest)
  }

  function OptsBehind(o: Opts): string
    requires !OptsPlain(o)
  {
    match o
    case One(p) => Behind(p)
    case More(p, others) => if Plain(p) then OptsBehind(others) else Behind(p) + "," + OptsText(others)
  }

  function Literal(w: string, rest: Pat): Pat {
    if w == "" then rest else Chr(w[0], Literal(w[1..], rest))
  }

  /** ... and the pattern with that group replaced by a literal. */
  function Fill(p: Pat, w: string): Pat
    requires !Plain(p)
  {
    match p
    case Chr(c, rest) => Chr(c, Fill(rest, w))
    case Group(o, rest) => if OptsPlain(o) then Literal(w, rest) else Group(OptsFill(o, w), rest)
  }

  function OptsFill(o: Opts, w: string): Opts
    requires !OptsPlain(o)
  {
    match o
    case One(p) => One(Fill(p, w))
    case More(p, others) => if Plain(p) then More(p, OptsFill(others, w)) else More(Fill(p, w), others)
  }

  /** The literal options of a plain group. */
  function Words(o: Opts): seq<string>
    requires OptsPlain(o)
  {
    match o
    case One(p) => [Text(p)]
    case More(p, others) => [Text(p)] + Words(others)
  }

  // ------------------------------------------------------ one substitution

  /** The text of a pattern around its leftmost innermost group. */
  lemma {:induction false} TextAround(p: Pat)
    requires !Plain(p)
    ensures Text(p) == Before(p) + "{" + OptsText(Hole(p)) + "}" + Behind(p)
  {
    match p
    case Chr(c, rest) => TextAround(rest);
    case Group(o, rest) => if !OptsPlain(o) { OptsTextAround(o); }
  }

  lemma {:induction false} OptsTextAround(o: Opts)
    requires !OptsPlain(o)
    ensures OptsText(o) == OptsBefore(o) + "{" + OptsText(OptsHole(o)) + "}" + OptsBehind(o)
  {
    match o
    case One(p) => TextAround(p);
    case More(p, others) => if Plain(p) { OptsTextAround(others); } else { TextAround(p); }
  }

  lemma {:induction false} LiteralText(w: string, rest: Pat)
    ensures Text(Literal(w, rest)) == w + Text(rest)
  {
    if w != "" {
      LiteralText(w[1..], rest);
      assert w == [w[0]] + w[1..];
      assert [w[0]] + (w[1..] + Text(rest)) == [w[0]] + w[1..] + Text(rest);
    }
  }

  /** Filling the group puts the literal between the same two texts. */
  lemma {:induction false} FillText(p: Pat, w: string)
    requires !Plain(p)
    ensures Text(Fill(p, w)) == Before(p) + w + Behind(p)
  {
    match p
    case Chr(c, rest) => FillText(rest, w);
    case Group(o, rest) => if OptsPlain(o) { LiteralText(w, rest); } else { OptsFillText(o, w); }
  }

  lemma {:induction false} OptsFillText(o: Opts, w: string)
    requires !OptsPlain(o)
    ensures OptsText(OptsFill(o, w)) == OptsBefore(o) + w + OptsBehind(o)
  {
    match o
    case One(p) => FillText(p, w);
    case More(p, others) => if Plain(p) { OptsFillText(others, w); } else { FillText(p, w); }
  }

  lemma {:induction false} LiteralWellFormed(w: string, rest: Pat, inGroup: bool)
    requires BraceFree(w) && CommaFree(w) && WellFormed(rest, inGroup)
    ensures WellFormed(Literal(w, rest), inGroup)
  {
    if w != "" { LiteralWellFormed(w[1..], rest, inGroup); }
  }

  lemma {:induction false} FillWellFormed(p: Pat, w: string, inGroup: bool)
    requires !Plain(p) && WellFormed(p, inGroup) && BraceFree(w) && CommaFree(w)
    ensures WellFormed(Fill(p, w), inGroup) && OptsWellFormed(Hole(p))
  {
    match p
    case Chr(c, rest) => FillWellFormed(rest, w, inGroup);
    case Group(o, rest) => if OptsPlain(o) { LiteralWellFormed(w, rest, inGroup); } else { OptsFillWellFormed(o, w); }
  }

  lemma {:induction false} OptsFillWellFormed(o: Opts, w: string)
    requires !OptsPlain(o) && OptsWellFormed(o) && BraceFree(w) && CommaFree(w)
    ensures OptsWellFormed(OptsFill(o, w)) && OptsWellFormed(OptsHole(o))
  {
    match o
    case One(p) => FillWellFormed(p, w, true);
    case More(p, others) => if Plain(p) { OptsFillWellFormed(others, w); } else { FillWellFormed(p, w, true); }
  }

  predicate CloseFree(s: string) {
    forall i | 0 <= i < |s| :: s[i] != '}'
  }

  lemma {:induction false} PlainText(p: Pat, inGroup: bool)
    requires Plain(p) && WellFormed(p, inGroup)
    ensures BraceFree(Text(p)) && (inGroup ==> CommaFree(Text(p)))
  {
    match p
    case Eps =>
    case Chr(c, rest) => PlainText(rest, inGroup);
  }

  lemma {:induction false} PlainOptsText(o: Opts)
    requires OptsPlain(o) && OptsWellFormed(o)
    ensures BraceFree(OptsText(o))
  {
    match o
    case One(p) => PlainText(p, true);
    case More(p, others) => PlainText(p, true); PlainOptsText(others);
  }

  /** No brace closes before the leftmost innermost group does. */
  lemma {:induction false} BeforeIsOpen(p: Pat, inGroup: bool)
    requires !Plain(p) && WellFormed(p, inGroup)
    ensures CloseFree(Before(p))
  {
    match p
    case Chr(c, rest) => BeforeIsOpen(rest, inGroup);
    case Group(o, rest) => if !OptsPlain(o) { OptsBeforeIsOpen(o); }
  }

  lemma {:induction false} OptsBeforeIsOpen(o: Opts)
    requires !OptsPlain(o) && OptsWellFormed(o)
    ensures CloseFree(OptsBefore(o))
  {
    match o
    case One(p) => BeforeIsOpen(p, true);
    case More(p, others) =>
      if Plain(p) { PlainText(p, true); OptsBeforeIsOpen(others); } else { BeforeIsOpen(p, true); }
  }

  // ------------------------------------------------------------- searching

  lemma {:induction false} PlainRunIs(s: string, n: nat)
    requires n <= |s| && BraceFree(s[..n]) && (n < |s| ==> IsBrace(s[n]))
    ensures PlainRun(s) == n
  {
    if n > 0 {
      assert s[..n][0] == s[0];
      assert s[1..][..n - 1] == s[..n][1..];
      PlainRunIs(s[1..], n - 1);
    }
  }

  lemma {:induction false} PlainRunStops(s: string, k: nat)
    requires k < |s| && IsBrace(s[k])
    ensures PlainRun(s) <= k
  {
    if k > 0 && !IsBrace(s[0]) { PlainRunStops(s[1..], k - 1); }
  }

  /** A brace that meets another opening brace first is no match. */
  lemma SearchSkips(s: string, i: nat, k: nat)
    requires i < k < |s| && s[k] == '{'
    requires forall j | i < j < k :: s[j] != '}'
    ensures SearchFrom(s, i) == SearchFrom(s, i + 1)
  {
    assert s[i + 1..][k - i - 1] == s[k];
    PlainRunStops(s[i + 1..], k - i - 1);
    var n := PlainRun(s[i + 1..]);
    assert s[i + 1 + n] != '}';
  }

  lemma SearchMatches(s: string, k: nat, n: nat)
    requires k + 1 + n < |s| && s[k] == '{' && s[k + 1 + n] == '}' && BraceFree(s[k + 1..][..n])
    ensures SearchFrom(s, k) == Match(k, k + 2 + n)
  {
    assert s[k + 1..][n] == s[k + 1 + n];
    PlainRunIs(s[k + 1..], n);
  }

  /** The search finds the group that closes first. */
  lemma {:induction false} SearchReaches(s: string, i: nat, k: nat, n: nat)
    requires i <= k && k + 1 + n < |s| && s[k] == '{' && s[k + 1 + n] == '}' && BraceFree(s[k + 1..][..n])
    requires forall j | i <= j < k :: s[j] != '}'
    ensures SearchFrom(s, i) == Match(k, k + 2 + n)
    decreases k - i
  {
    hide SearchFrom;
    if i == k {
      SearchMatches(s, k, n);
    } else {
      SearchSkips(s, i, k);
      SearchReaches(s, i + 1, k, n);
    }
  }

  lemma SearchFinds(pre: string, body: string, suf: string)
    requires CloseFree(pre) && BraceFree(body)
    ensures SearchFrom(pre + "{" + body + "}" + suf, 0) == Match(|pre|, |pre| + 2 + |body|)
  {
    hide SearchFrom;
    var s := pre + "{" + body + "}" + suf;
    assert s[|pre| + 1..][..|body|] == body;
    forall j | 0 <= j < |pre| ensures s[j] != '}' { assert s[j] == pre[j]; }
    SearchReaches(s, 0, |pre|, |body|);
  }

  lemma {:induction false} SearchFails(s: string, i: nat)
    requires BraceFree(s) && i <= |s|
    ensures SearchFrom(s, i) == NoMatch
    decreases |s| - i
  {
    if i < |s| { SearchFails(s, i + 1); }
  }

  lemma {:induction false} SplitWord(w: string)
    requires CommaFree(w)
    ensures Split(w) == [w]
  {
    if w != "" {
      SplitWord(w[1..]);
      assert [w[0]] + w[1..] == w;
    }
  }

  lemma {:induction false} SplitJoined(w: string, rest: string)
    requires CommaFree(w)
    ensures Split(w + "," + rest) == [w] + Split(rest)
  {
    var all := w + "," + rest;
    if w == "" {
      assert all[1..] == rest;
    } else {
      assert all[1..] == w[1..] + "," + rest;
      SplitJoined(w[1..], rest);
      assert all[0] == w[0] && [w[0]] + w[1..] == w;
    }
  }

  /** Splitting the text of a plain group at its commas gives its options. */
  lemma {:induction false} SplitIsWords(o: Opts)
    requires OptsPlain(o) && OptsWellFormed(o)
    ensures Split(OptsText(o)) == Words(o)
  {
    match o
    case One(p) => PlainText(p, true); SplitWord(Text(p));
    case More(p, others) =>
      PlainText(p, true);
      SplitIsWords(others);
      SplitJoined(Text(p), OptsText(others));
  }

  // ------------------------------------------------------------ denotation

  lemma {:induction false} PlainDenotes(p: Pat, x: string)
    requires Plain(p)
    ensures Denotes(p, x) <==> x == Text(p)
  {
    match p
    case Eps =>
    case Chr(c, rest) => if x != "" { PlainDenotes(rest, x[1..]); assert x == [x[0]] + x[1..]; }
  }

  lemma {:induction false} PlainOptsDenote(o: Opts, x: string)
    requires OptsPlain(o)
    ensures OptsDenote(o, x) <==> x in Words(o)
  {
    match o
    case One(p) => PlainDenotes(p, x);
    case More(p, others) => PlainDenotes(p, x); PlainOptsDenote(others, x);
  }

  lemma {:induction false} LiteralDenotes(w: string, rest: Pat, x: string)
    ensures Denotes(Literal(w, rest), x) <==> |w| <= |x| && x[..|w|] == w && Denotes(rest, x[|w|..])
  {
    if w == "" {
      assert x[0..] == x;
    } else if x != "" {
      LiteralDenotes(w[1..], rest, x[1..]);
      if |w| <= |x| {
        assert x[1..][|w| - 1..] == x[|w|..];
        assert x[..|w|] == w <==> x[0] == w[0] && x[1..][..|w| - 1] == w[1..] by {
          assert x[..|w|] == [x[0]] + x[1..][..|w| - 1] && w == [w[0]] + w[1..];
        }
      }
    }
  }

  /** A pattern denotes what its one-step substitutions denote together. */
  ghost predicate SomeFill(p: Pat, x: string)
    requires !Plain(p)
  {
    exists w | w in Words(Hole(p)) :: Denotes(Fill(p, w), x)
  }

  ghost predicate SomeOptsFill(o: Opts, x: string)
    requires !OptsPlain(o)
  {
    exists w | w in Words(OptsHole(o)) :: OptsDenote(OptsFill(o, w), x)
  }

  lemma PlainGroupFills(o: Opts, rest: Pat, x: string)
    requires OptsPlain(o)
    ensures Denotes(Group(o, rest), x) <==> SomeFill(Group(o, rest), x)
  {
    var p := Group(o, rest);
    if Denotes(p, x) {
      var k :| 0 <= k <= |x| && OptsDenote(o, x[..k]) && Denotes(rest, x[k..]);
      PlainOptsDenote(o, x[..k]);
      LiteralDenotes(x[..k], rest, x);
      assert x[..k] in Words(Hole(p)) && Denotes(Fill(p, x[..k]), x);
    }
    if SomeFill(p, x) {
      var w :| w in Words(o) && Denotes(Fill(p, w), x);
      LiteralDenotes(w, rest, x);
      PlainOptsDenote(o, w);
      assert OptsDenote(o, x[..|w|]) && Denotes(rest, x[|w|..]);
    }
  }

  lemma {:induction false} DenotesByFills(p: Pat, x: string)
    requires !Plain(p)
    ensures Denotes(p, x) <==> SomeFill(p, x)
    decreases p, 0
  {
    match p
    case Chr(c, rest) =>
      if x != "" && x[0] == c {
        DenotesByFills(rest, x[1..]);
        if SomeFill(rest, x[1..]) {
          var w :| w in Words(Hole(rest)) && Denotes(Fill(rest, w), x[1..]);
          assert w in Words(Hole(p)) && Denotes(Fill(p, w), x);
        }
        if SomeFill(p, x) {
          var w :| w in Words(Hole(p)) && Denotes(Fill(p, w), x);
          assert Denotes(Fill(rest, w), x[1..]);
        }
      }
    case Group(o, rest) =>
      if OptsPlain(o) {
        PlainGroupFills(o, rest, x);
      } else {
        forall k | 0 <= k <= |x| ensures OptsDenote(o, x[..k]) <==> SomeOptsFill(o, x[..k]) {
          OptsDenoteByFills(o, x[..k]);
        }
        NestedGroupFills(o, rest, x);
      }
  }

  lemma NestedGroupFills(o: Opts, rest: Pat, x: string)
    requires !OptsPlain(o)
    requires forall k | 0 <= k <= |x| :: OptsDenote(o, x[..k]) <==> SomeOptsFill(o, x[..k])
    ensures Denotes(Group(o, rest), x) <==> SomeFill(Group(o, rest), x)
  {
    var p := Group(o, rest);
    hide Words;
    hide OptsPlain;
    hide OptsFill;
    hide OptsHole;
    hide OptsDenote;
    if Denotes(p, x) {
      var k :| 0 <= k <= |x| && OptsDenote(o, x[..k]) && Denotes(rest, x[k..]);
      var w :| w in Words(OptsHole(o)) && OptsDenote(OptsFill(o, w), x[..k]);
      FilledGroup(o, rest, w);
      assert Denotes(Group(OptsFill(o, w), rest), x);
    }
    if SomeFill(p, x) {
      var w :| w in Words(Hole(p)) && Denotes(Fill(p, w), x);
      FilledGroup(o, rest, w);
      var k :| 0 <= k <= |x| && OptsDenote(OptsFill(o, w), x[..k]) && Denotes(rest, x[k..]);
      assert SomeOptsFill(o, x[..k]);
    }
  }

  lemma FilledGroup(o: Opts, rest: Pat, w: string)
    requires !OptsPlain(o)
    ensures !Plain(Group(o, rest)) && Hole(Group(o, rest)) == OptsHole(o)
    ensures Fill(Group(o, rest), w) == Group(OptsFill(o, w), rest)
  {
  }

  lemma {:induction false} OptsDenoteByFills(o: Opts, x: string)
    requires !OptsPlain(o)
    ensures OptsDenote(o, x) <==> SomeOptsFill(o, x)
    decreases o, 0
  {
    match o
    case One(p) =>
      DenotesByFills(p, x);
      assert forall w :: OptsDenote(OptsFill(o, w), x) <==> Denotes(Fill(p, w), x);
    case More(p, others) =>
      if Plain(p) {
        OptsDenoteByFills(others, x);
        assert forall w :: OptsDenote(OptsFill(o, w), x) <==> Denotes(p, x) || OptsDenote(OptsFill(others, w), x);
        SomeWord(OptsHole(o));
      } else {
        DenotesByFills(p, x);
        assert forall w :: OptsDenote(OptsFill(o, w), x) <==> Denotes(Fill(p, w), x) || OptsDenote(others, x);
        SomeWord(OptsHole(o));
      }
  }

  lemma SomeWord(o: Opts)
    requires OptsPlain(o)
    ensures Words(o) != [] && Words(o)[0] in Words(o)
  {
  }

  // ----------------------------------------------------------- main theorem

  lemma {:induction false} ExpandOptionsMembers(s: string, m: Match, options: seq<string>, x: string)
    requires m == SearchFrom(s, 0) && m.Match?
    requires forall w | w in options :: BraceFree(w)
    ensures x in ExpandOptions(s, m, options) <==> exists w | w in options :: x in Expand(Replaced(s, m, w))
  {
    if options != [] {
      var n := |options| - 1;
      assert options == options[..n] + [options[n]];
      ExpandOptionsMembers(s, m, options[..n], x);
      SubstitutionShrinks(s, m.start, m.end, options[n]);
    }
  }

  /** What one expansion step does to the text of a pattern. */
  lemma OneStep(p: Pat, inGroup: bool)
    requires WellFormed(p, inGroup) && !Plain(p)
    ensures
      var s, m := Text(p), SearchFrom(Text(p), 0);
      && m.Match? && Split(s[m.start + 1..m.end - 1]) == Words(Hole(p))
      && forall w | w in Words(Hole(p)) ::
           && BraceFree(w) && CommaFree(w)
           && Replaced(s, m, w) == Text(Fill(p, w)) && Opens(Text(Fill(p, w))) < Opens(s)
  {
    hide Split;
    hide Words;
    hide SearchFrom;
    hide Opens;
    hide Text;
    hide Fill;
    var s, pre, body, suf := Text(p), Before(p), OptsText(Hole(p)), Behind(p);
    TextAround(p);
    BeforeIsOpen(p, inGroup);
    FillWellFormed(p, "", inGroup);
    PlainOptsText(Hole(p));
    SearchFinds(pre, body, suf);
    SplitIsWords(Hole(p));
    forall w | w in Words(Hole(p))
      ensures BraceFree(w) && CommaFree(w)
      ensures Replaced(s, Match(|pre|, |pre| + 2 + |body|), w) == Text(Fill(p, w)) && Opens(Text(Fill(p, w))) < Opens(s)
    {
      var i :| 0 <= i < |Split(body)| && Split(body)[i] == w;
      FillText(p, w);
      SubstitutionAround(pre, body, suf, w);
    }
    assert s[|pre| + 1..|pre| + 1 + |body|] == body;
  }

  lemma SubstitutionAround(pre: string, body: string, suf: string, w: string)
    requires BraceFree(w)
    ensures
      var s, m := pre + "{" + body + "}" + suf, Match(|pre|, |pre| + 2 + |body|);
      Replaced(s, m, w) == pre + w + suf && Opens(pre + w + suf) < Opens(s)
  {
    var s := pre + "{" + body + "}" + suf;
    assert s[..|pre|] == pre && s[|pre| + 2 + |body|..] == suf;
    SubstitutionShrinks(s, |pre|, |pre| + 2 + |body|, w);
  }

  /** On the text of any well-formed pattern, nested or not, `expand_braces`
      returns exactly the strings the pattern denotes. */
  lemma {:induction false} ExpandComputesLanguage(p: Pat, inGroup: bool, x: string)
    requires WellFormed(p, inGroup)
    ensures x in Expand(Text(p)) <==> Denotes(p, x)
    decreases Opens(Text(p))
  {
    hide SearchFrom;
    hide Split;
    hide Opens;
    hide Words;
    hide Fill;
    hide ExpandOptions;
    hide Denotes;
    var s := Text(p);
    if Plain(p) {
      PlainText(p, inGroup);
      SearchFails(s, 0);
      PlainDenotes(p, x);
    } else {
      OneStep(p, inGroup);
      DenotesByFills(p, x);
      var m := SearchFrom(s, 0);
      ExpandOptionsMembers(s, m, Words(Hole(p)), x);
      forall w | w in Words(Hole(p)) ensures x in Expand(Replaced(s, m, w)) <==> Denotes(Fill(p, w), x) {
        FillWellFormed(p, w, inGroup);
        ExpandComputesLanguage(Fill(p, w), inGroup, x);
      }
    }
  }

  /** On any string at all, no result has a brace pair left to expand. */
  lemma {:induction false} ExpandIsFinal(s: string, x: string)
    requires x in Expand(s)
    ensures SearchFrom(x, 0) == NoMatch
    decreases Opens(s)
  {
    var m := SearchFrom(s, 0);
    if m.Match? {
      var options := Split(s[m.start + 1..m.end - 1]);
      ExpandOptionsMembers(s, m, options, x);
      var w :| w in options && x in Expand(Replaced(s, m, w));
      SubstitutionShrinks(s, m.start, m.end, w);
      ExpandIsFinal(Replaced(s, m, w), x);
    }
  }
}
