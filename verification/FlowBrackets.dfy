/** The bracket matcher of `frontmatter_syntax_problem`, and the grammar it
    decides. */
module FlowBrackets {
  import opened Text
  import opened QuotedScalars

  predicate IsOpening(c: char) {
    c == '[' || c == '{'
  }

  predicate IsClosing(c: char) {
    c == ']' || c == '}'
  }

  function Partner(c: char): char {
    if c == '[' then ']' else '}'
  }

  datatype FlowProblem = Mismatch(c: char) | MissingClose(c: char)

  /** The matcher on the rest of a value, with `stack` holding the open
      brackets, innermost last. */
  function Match(s: string, stack: seq<char>): Option<FlowProblem>
    requires forall c | c in stack :: IsOpening(c)
    decreases |s|
  {
    if s == "" then
      if stack == [] then None else Some(MissingClose(Partner(stack[|stack| - 1])))
    else if IsOpening(s[0]) then Match(s[1..], stack + [s[0]])
    else if IsClosing(s[0]) then
      if stack == [] || Partner(stack[|stack| - 1]) != s[0] then Some(Mismatch(s[0]))
      else Match(s[1..], stack[..|stack| - 1])
    else Match(s[1..], stack)
  }

  datatype Syntax = Fine | Flow(flow: FlowProblem) | Quoted(quoted: Problem) | NestedKey | Reserved | Indicator

  /** `frontmatter_syntax_problem`. */
  function SyntaxProblem(raw: string): Syntax {
    var value := Strip(raw);
    if value == "" || value[0] in {'|', '>', '#'} then Fine
    else if IsOpening(value[0]) then
      var p := Match(value, []);
      if p.Some? then Flow(p.value) else Fine
    else if IsQuote(value[0]) then
      var p := QuotedProblem(value);
      if p.Some? then Quoted(p.value) else Fine
    else if Contains(value, ": ") || value[|value| - 1] == ':' then NestedKey
    else if value[0] in {'@', '`'} then Reserved
    else if value[0] in {'&', '*', '!'} && |value| > 1 then Indicator
    else Fine
  }

  method MatchBrackets(value: string) returns (problem: Option<FlowProblem>)
    ensures problem == Match(value, [])
  {
    var stack: seq<char> := [];
    for i := 0 to |value|
      invariant forall c | c in stack :: IsOpening(c)
      invariant Match(value, []) == Match(value[i..], stack)
    {
      assert value[i..][1..] == value[i + 1..];
      var ch := value[i];
      if IsOpening(ch) {
        stack := stack + [ch];
      } else if IsClosing(ch) {
        if stack == [] || Partner(stack[|stack| - 1]) != ch { return Some(Mismatch(ch)); }
        stack := stack[..|stack| - 1];
      }
    }
    problem := if stack != [] then Some(MissingClose(Partner(stack[|stack| - 1]))) else None;
  }

  method CheckSyntax(raw: string) returns (problem: Syntax)
    ensures problem == SyntaxProblem(raw)
  {
    hide Strip;
    hide Match;
    hide QuotedProblem;
    hide Contains;
    var value := Strip(raw);
    if value == "" || value[0] in {'|', '>', '#'} { return Fine; }
    if IsOpening(value[0]) {
      var p := MatchBrackets(value);
      return if p.Some? then Flow(p.value) else Fine;
    }
    if IsQuote(value[0]) {
      var p := CheckQuoted(value);
      return if p.Some? then Quoted(p.value) else Fine;
    }
    if Contains(value, ": ") || value[|value| - 1] == ':' { return NestedKey; }
    if value[0] in {'@', '`'} { return Reserved; }
    if value[0] in {'&', '*', '!'} && |value| > 1 { return Indicator; }
    return Fine;
  }

  // ------------------------------------------------------------ the grammar

  /** Derivations of S -> empty | [ S ] S | { S } S. */
  datatype Derivation =
    | Empty
    | Square(inner: Derivation, rest: Derivation)
    | Curly(inner: Derivation, rest: Derivation)

  /** The word a derivation derives. */
  function Word(d: Derivation): string {
    match d
    case Empty => ""
    case Square(inner, rest) => "[" + Word(inner) + "]" + Word(rest)
    case Curly(inner, rest) => "{" + Word(inner) + "}" + Word(rest)
  }

  function Pair(open_: char, inner: Derivation, rest: Derivation): Derivation {
    if open_ == '[' then Square(inner, rest) else Curly(inner, rest)
  }

  lemma WordOfPair(o: char, inner: Derivation, rest: Derivation)
    requires IsOpening(o)
    ensures Word(Pair(o, inner, rest)) == [o] + Word(inner) + [Partner(o)] + Word(rest)
  {
  }

  /** The bracket characters of a value, in order. */
  function Brackets(s: string): string {
    if s == "" then ""
    else (if IsOpening(s[0]) || IsClosing(s[0]) then [s[0]] else "") + Brackets(s[1..])
  }

  predicate InGrammar(s: string, d: Derivation) {
    Word(d) == Brackets(s)
  }

  /** Other characters make no difference. */
  lemma {:induction false} MatchSeesBracketsOnly(s: string, stack: seq<char>)
    requires forall c | c in stack :: IsOpening(c)
    ensures Match(Brackets(s), stack) == Match(s, stack)
    decreases |s|
  {
    if s != "" {
      var more := Brackets(s[1..]);
      if IsOpening(s[0]) {
        assert ([s[0]] + more)[1..] == more;
        MatchSeesBracketsOnly(s[1..], stack + [s[0]]);
      } else if IsClosing(s[0]) {
        assert ([s[0]] + more)[1..] == more;
        if stack != [] { MatchSeesBracketsOnly(s[1..], stack[..|stack| - 1]); }
      } else {
        assert "" + more == more;
        MatchSeesBracketsOnly(s[1..], stack);
      }
    }
  }

  lemma MatchOpening(c: char, s: string, stack: seq<char>)
    requires IsOpening(c) && forall x | x in stack :: IsOpening(x)
    ensures Match([c] + s, stack) == Match(s, stack + [c])
    ensures Match([Partner(c)] + s, stack + [c]) == Match(s, stack)
  {
    assert ([c] + s)[1..] == s && ([Partner(c)] + s)[1..] == s;
    assert (stack + [c])[..|stack|] == stack;
  }

  lemma Regroup<T>(a: seq<T>, b: seq<T>, c: seq<T>, d: seq<T>, e: seq<T>)
    ensures a + b + c + d + e == a + (b + (c + (d + e)))
  {
  }

  /** The matcher runs over a derived word and ends where it began. */
  lemma {:induction false} WordIsNeutral(d: Derivation, s: string, stack: seq<char>)
    requires forall c | c in stack :: IsOpening(c)
    ensures Match(Word(d) + s, stack) == Match(s, stack)
  {
    if d == Empty {
      assert "" + s == s;
    } else {
      var o := if d.Square? then '[' else '{';
      var tail := [Partner(o)] + (Word(d.rest) + s);
      WordOfPair(o, d.inner, d.rest);
      Regroup([o], Word(d.inner), [Partner(o)], Word(d.rest), s);
      MatchOpening(o, Word(d.inner) + tail, stack);
      WordIsNeutral(d.inner, tail, stack + [o]);
      MatchOpening(o, Word(d.rest) + s, stack);
      WordIsNeutral(d.rest, s, stack);
    }
  }

  predicate AllBrackets(s: string) {
    forall i | 0 <= i < |s| :: IsOpening(s[i]) || IsClosing(s[i])
  }

  /** Derivations between the closers of the open brackets, innermost first. */
  function Unwound(ds: seq<Derivation>, stack: seq<char>): string
    requires |ds| == |stack| + 1
    decreases |stack|, 1
  {
    Word(ds[0]) + UnwoundRest(ds[1..], stack)
  }

  function UnwoundRest(ds: seq<Derivation>, stack: seq<char>): string
    requires |ds| == |stack|
    decreases |stack|, 0
  {
    if stack == [] then ""
    else
      var n := |stack| - 1;
      [Partner(stack[n])] + Unwound(ds, stack[..n])
  }

  /** Read a matched word back as derivations. */
  function Parse(s: string, stack: seq<char>): (ds: seq<Derivation>)
    requires forall c | c in stack :: IsOpening(c)
    requires Match(s, stack) == None && AllBrackets(s)
    ensures |ds| == |stack| + 1
    decreases |s|
  {
    if s == "" then [Empty]
    else if IsOpening(s[0]) then
      var ds := Parse(s[1..], stack + [s[0]]);
      [Pair(s[0], ds[0], ds[1])] + ds[2..]
    else
      [Empty] + Parse(s[1..], stack[..|stack| - 1])
  }

  lemma {:induction false} ParseUnwinds(s: string, stack: seq<char>)
    requires forall c | c in stack :: IsOpening(c)
    requires Match(s, stack) == None && AllBrackets(s)
    ensures Unwound(Parse(s, stack), stack) == s
    decreases |s|
  {
    if s != "" {
      if IsOpening(s[0]) {
        var deeper := stack + [s[0]];
        var ds := Parse(s[1..], deeper);
        ParseUnwinds(s[1..], deeper);
        OpenUnwinds(s[0], ds, stack);
        assert s == [s[0]] + s[1..];
      } else {
        var n := |stack| - 1;
        var ds := Parse(s[1..], stack[..n]);
        ParseUnwinds(s[1..], stack[..n]);
        assert ([Empty] + ds)[1..] == ds;
        assert s == [s[0]] + s[1..];
      }
    }
  }

  lemma OpenUnwinds(c: char, ds: seq<Derivation>, stack: seq<char>)
    requires |ds| == |stack| + 2 && IsOpening(c)
    ensures Unwound([Pair(c, ds[0], ds[1])] + ds[2..], stack) == [c] + Unwound(ds, stack + [c])
  {
    var joined := [Pair(c, ds[0], ds[1])] + ds[2..];
    assert (stack + [c])[..|stack|] == stack;
    assert joined[1..] == ds[2..] == ds[1..][1..];
    var rest := UnwoundRest(ds[2..], stack);
    hide UnwoundRest;
    assert Unwound(ds, stack + [c]) == Word(ds[0]) + ([Partner(c)] + (Word(ds[1]) + rest)) by {
      OpenRest(c, ds[1..], stack);
    }
    WordOfPair(c, ds[0], ds[1]);
    Regroup([c], Word(ds[0]), [Partner(c)], Word(ds[1]), rest);
  }

  lemma OpenRest(c: char, ds: seq<Derivation>, stack: seq<char>)
    requires |ds| == |stack| + 1
    ensures UnwoundRest(ds, stack + [c]) == [Partner(c)] + (Word(ds[0]) + UnwoundRest(ds[1..], stack))
  {
    assert (stack + [c])[..|stack|] == stack;
  }

  lemma {:induction false} BracketsOnly(s: string)
    ensures AllBrackets(Brackets(s))
  {
    if s != "" { BracketsOnly(s[1..]); }
  }

  /** For values that start a flow collection, the checker reports no problem
      if and only if the bracket characters of the value form a word of the
      grammar. */
  lemma BracketsDecideGrammar(raw: string)
    requires Strip(raw) != "" && IsOpening(Strip(raw)[0])
    ensures SyntaxProblem(raw) == Fine <==> exists d :: InGrammar(Strip(raw), d)
  {
    hide Strip;
    var value := Strip(raw);
    var word := Brackets(value);
    MatchSeesBracketsOnly(value, []);
    if Match(value, []) == None {
      BracketsOnly(value);
      ParseUnwinds(word, []);
      assert InGrammar(value, Parse(word, [])[0]);
    }
    if exists d :: InGrammar(value, d) {
      var d :| InGrammar(value, d);
      assert Word(d) + "" == word;
      WordIsNeutral(d, "", []);
    }
  }
}
