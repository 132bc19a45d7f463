/** The two quoted-scalar scanners of `doc-readability-check.py`: one looks for
    YAML errors, the other reads the value (YAML 1.2, sections 5.7, 7.3.1 and
    7.3.2). */
module QuotedScalars {
  import opened Text

  datatype Problem =
    | LoneBackslash
    | BadHexEscape
    | UnknownEscape
    | NotClosed
    | TrailingText

  const ESCAPES: set<char> := {
    '0', 'a', 'b', 't', 'n', 'v', 'f', 'r', 'e', '\"', '/', '\\', 'N', '_', 'L', 'P', ' ', '\t', '\n'}

  function HexWidth(c: char): nat {
    if c == 'x' then 2 else if c == 'u' then 4 else if c == 'U' then 8 else 0
  }

  predicate IsHex(c: char) {
    '0' <= c <= '9' || 'a' <= c <= 'f' || 'A' <= c <= 'F'
  }

  predicate IsQuote(c: char) {
    c == '\"' || c == '\''
  }

  predicate HexRun(v: string, from: nat, width: nat) {
    from + width <= |v| && forall j | from <= j < from + width :: IsHex(v[j])
  }

  // ------------------------------------------------------ the error scanner

  datatype Closing = Broken(why: Problem) | ClosedAt(i: nat)

  /** Where the error scanner finds the closing quote, looking from `i`. */
  function FindClose(v: string, quote: char, i: nat): (r: Closing)
    ensures r.ClosedAt? ==> i <= r.i < |v| && v[r.i] == quote
    decreases |v| - i
  {
    if i >= |v| then Broken(NotClosed)
    else if quote == '\"' && v[i] == '\\' then
      if i + 1 >= |v| then Broken(LoneBackslash)
      else
        var width := HexWidth(v[i + 1]);
        if width > 0 then
          if HexRun(v, i + 2, width) then FindClose(v, quote, i + 2 + width) else Broken(BadHexEscape)
        else if v[i + 1] !in ESCAPES then Broken(UnknownEscape)
        else FindClose(v, quote, i + 2)
    else if v[i] == quote then
      if quote == '\'' && i + 1 < |v| && v[i + 1] == '\'' then FindClose(v, quote, i + 2) else ClosedAt(i)
    else FindClose(v, quote, i + 1)
  }

  predicate IsQuoted(value: string) {
    value != "" && IsQuote(value[0])
  }

  /** `quoted_scalar_problem`; None when the value has no problem, or is not
      quoted at all. */
  function QuotedProblem(raw: string): Option<Problem> {
    var value := Strip(raw);
    if !IsQuoted(value) then None
    else match FindClose(value, value[0], 1)
      case Broken(why) => Some(why)
      case ClosedAt(i) =>
        var rest := Strip(value[i + 1..]);
        if rest != "" && rest[0] != '#' then Some(TrailingText) else None
  }

  // ------------------------------------------------------- the value scanner

  /** Where the value scanner stops, looking from `i`. */
  function StopAt(v: string, quote: char, i: nat): (r: nat)
    ensures i <= |v| ==> i <= r <= |v|
    decreases |v| - i
  {
    if i >= |v| then i
    else if quote == '\"' && v[i] == '\\' && i + 1 < |v| then StopAt(v, quote, i + 2)
    else if v[i] == quote then
      if quote == '\'' && i + 1 < |v| && v[i + 1] == '\'' then StopAt(v, quote, i + 2) else i
    else StopAt(v, quote, i + 1)
  }

  /** The characters it collects on the way. */
  function Collected(v: string, quote: char, i: nat): string
    decreases |v| - i
  {
    if i >= |v| then ""
    else if quote == '\"' && v[i] == '\\' && i + 1 < |v| then [v[i + 1]] + Collected(v, quote, i + 2)
    else if v[i] == quote then
      if quote == '\'' && i + 1 < |v| && v[i + 1] == '\'' then ['\''] + Collected(v, quote, i + 2) else ""
    else [v[i]] + Collected(v, quote, i + 1)
  }

  function BlankRun(v: string, i: nat): (j: nat)
    ensures i <= |v| ==> i <= j <= |v|
    decreases |v| - i
  {
    if i < |v| && IsSpace(v[i]) then BlankRun(v, i + 1) else i
  }

  /** What comes before the first run of blanks that a `#` follows. */
  function BeforeComment(v: string, i: nat): string
    requires i <= |v|
    decreases |v| - i
  {
    if i == |v| then v
    else if IsSpace(v[i]) && BlankRun(v, i) < |v| && v[BlankRun(v, i)] == '#' then v[..i]
    else BeforeComment(v, i + 1)
  }

  /** `yaml_scalar`. */
  function YamlScalar(raw: string): string {
    var value := Strip(raw);
    if value != "" && value[0] == '#' then ""
    else if IsQuoted(value) then Collected(value, value[0], 1)
    else Strip(BeforeComment(value, 0))
  }

  // ----------------------------------------------------------- the scripts

  /** `quoted_scalar_problem`. */
  method CheckQuoted(raw: string) returns (problem: Option<Problem>)
    ensures problem == QuotedProblem(raw)
  {
    hide Strip;
    var value := Strip(raw);
    if !IsQuoted(value) { return None; }
    var quote := value[0];
    var i, closed := 1, false;
    while i < |value|
      invariant 1 <= i <= |value|
      invariant FindClose(value, quote, 1) == FindClose(value, quote, i)
      decreases |value| - i
    {
      var ch := value[i];
      if quote == '\"' && ch == '\\' {
        if i + 1 >= |value| { return Some(LoneBackslash); }
        var width := HexWidth(value[i + 1]);
        if width > 0 {
          if !HexRun(value, i + 2, width) { return Some(BadHexEscape); }
          i := i + 2 + width;
          continue;
        }
        if value[i + 1] !in ESCAPES { return Some(UnknownEscape); }
        i := i + 2;
        continue;
      }
      if ch == quote {
        if quote == '\'' && i + 1 < |value| && value[i + 1] == '\'' {
          i := i + 2;
          continue;
        }
        closed := true;
        break;
      }
      i := i + 1;
    }
    if !closed { return Some(NotClosed); }
    var rest := Strip(value[i + 1..]);
    problem := if rest != "" && rest[0] != '#' then Some(TrailingText) else None;
  }

  lemma TextAssoc(a: string, b: string, c: string)
    ensures a + (b + c) == a + b + c
  {
  }

  /** The quoted branch of `yaml_scalar`. */
  method ReadQuoted(value: string) returns (text: string, stop: nat)
    requires IsQuoted(value)
    ensures text == Collected(value, value[0], 1) && stop == StopAt(value, value[0], 1)
  {
    var quote := value[0];
    text := "";
    var i := 1;
    while i < |value|
      invariant 1 <= i <= |value|
      invariant Collected(value, quote, 1) == text + Collected(value, quote, i)
      invariant StopAt(value, quote, 1) == StopAt(value, quote, i)
      decreases |value| - i
    {
      var ch := value[i];
      if quote == '\"' && ch == '\\' && i + 1 < |value| {
        TextAssoc(text, [value[i + 1]], Collected(value, quote, i + 2));
        text := text + [value[i + 1]];
        i := i + 2;
        continue;
      }
      if ch == quote {
        if quote == '\'' && i + 1 < |value| && value[i + 1] == '\'' {
          TextAssoc(text, ['\''], Collected(value, quote, i + 2));
          text := text + ['\''];
          i := i + 2;
          continue;
        }
        break;
      }
      TextAssoc(text, [ch], Collected(value, quote, i + 1));
      text := text + [ch];
      i := i + 1;
    }
    assert text + "" == text;
    stop := i;
  }

  /** `yaml_scalar`. */
  method ReadScalar(raw: string) returns (text: string)
    ensures text == YamlScalar(raw)
  {
    hide Strip;
    hide Collected;
    var value := Strip(raw);
    if value != "" && value[0] == '#' { return ""; }
    if IsQuoted(value) {
      var stop;
      text, stop := ReadQuoted(value);
    } else {
      text := Strip(BeforeComment(value, 0));
    }
  }

  // ------------------------------------------------------ the scanners agree

  /** Hex digits are nothing special to the value scanner. */
  lemma {:induction false} StopsBehindHex(v: string, i: nat, width: nat)
    requires HexRun(v, i, width)
    ensures StopAt(v, '\"', i) == StopAt(v, '\"', i + width)
    decreases width
  {
    if width > 0 { StopsBehindHex(v, i + 1, width - 1); }
  }

  lemma {:induction false} SameClosingQuote(v: string, quote: char, i: nat)
    requires FindClose(v, quote, i).ClosedAt?
    ensures StopAt(v, quote, i) == FindClose(v, quote, i).i
    decreases |v| - i
  {
    if quote == '\"' && v[i] == '\\' {
      var width := HexWidth(v[i + 1]);
      if width > 0 {
        SameClosingQuote(v, quote, i + 2 + width);
        StopsBehindHex(v, i + 2, width);
      } else {
        SameClosingQuote(v, quote, i + 2);
      }
    } else if v[i] == quote {
      if quote == '\'' && i + 1 < |v| && v[i + 1] == '\'' { SameClosingQuote(v, quote, i + 2); }
    } else {
      SameClosingQuote(v, quote, i + 1);
    }
  }

  /** Whenever a quoted value has no problem, the value scanner stops at the
      closing quote the error scanner found, with only blanks or a comment
      behind it. */
  lemma ScannersAgree(raw: string)
    requires IsQuoted(Strip(raw)) && QuotedProblem(raw) == None
    ensures
      var v := Strip(raw);
      var stop := StopAt(v, v[0], 1);
      && FindClose(v, v[0], 1) == ClosedAt(stop)
      && stop < |v| && v[stop] == v[0]
      && (Strip(v[stop + 1..]) == "" || Strip(v[stop + 1..])[0] == '#')
  {
    hide Strip;
    var v := Strip(raw);
    SameClosingQuote(v, v[0], 1);
  }

  // ------------------------------------------------------------ round trips

  /** A string with every single quote doubled. */
  function Doubled(s: string): string {
    if s == "" then "" else (if s[0] == '\'' then "''" else [s[0]]) + Doubled(s[1..])
  }

  /** A string with double quotes and backslashes escaped. */
  function Escaped(s: string): string {
    if s == "" then "" else (if s[0] == '\"' || s[0] == '\\' then ['\\', s[0]] else [s[0]]) + Escaped(s[1..])
  }

  function SingleQuoted(s: string): string {
    "'" + Doubled(s) + "'"
  }

  function DoubleQuoted(s: string): string {
    "\"" + Escaped(s) + "\""
  }

  lemma {:induction false} ReadsDoubled(v: string, i: nat, s: string)
    requires i <= |v| && v[i..] == Doubled(s) + "'"
    ensures FindClose(v, '\'', i) == ClosedAt(|v| - 1) && Collected(v, '\'', i) == s
    decreases |s|
  {
    if s == "" {
      assert v[i..][0] == v[i] && |v| == i + 1;
    } else if s[0] == '\'' {
      assert v[i..] == "''" + (Doubled(s[1..]) + "'");
      assert v[i..][0] == v[i] && v[i..][1] == v[i + 1];
      assert v[i + 2..] == v[i..][2..];
      ReadsDoubled(v, i + 2, s[1..]);
      assert s == [s[0]] + s[1..];
    } else {
      assert v[i..] == [s[0]] + (Doubled(s[1..]) + "'");
      assert v[i..][0] == v[i];
      assert v[i + 1..] == v[i..][1..];
      ReadsDoubled(v, i + 1, s[1..]);
      assert s == [s[0]] + s[1..];
    }
  }

  lemma {:induction false} ReadsEscaped(v: string, i: nat, s: string)
    requires i <= |v| && v[i..] == Escaped(s) + "\""
    ensures FindClose(v, '\"', i) == ClosedAt(|v| - 1) && Collected(v, '\"', i) == s
    decreases |s|
  {
    if s == "" {
      assert v[i..][0] == v[i] && |v| == i + 1;
    } else if s[0] == '\"' || s[0] == '\\' {
      assert v[i..] == ['\\', s[0]] + (Escaped(s[1..]) + "\"");
      assert v[i..][0] == v[i] && v[i..][1] == v[i + 1];
      assert v[i + 2..] == v[i..][2..];
      ReadsEscaped(v, i + 2, s[1..]);
      assert s == [s[0]] + s[1..];
    } else {
      assert v[i..] == [s[0]] + (Escaped(s[1..]) + "\"");
      assert v[i..][0] == v[i];
      assert v[i + 1..] == v[i..][1..];
      ReadsEscaped(v, i + 1, s[1..]);
      assert s == [s[0]] + s[1..];
    }
  }

  /** Every string survives single quoting with doubled quotes. */
  lemma SingleQuotesRoundTrip(s: string)
    ensures QuotedProblem(SingleQuoted(s)) == None && YamlScalar(SingleQuoted(s)) == s
  {
    var v := SingleQuoted(s);
    StripShape(v);
    assert v[0] == v[|v| - 1] == '\'';
    assert v[1..] == Doubled(s) + "'";
    ReadsDoubled(v, 1, s);
    NothingBehind(v);
  }

  /** Every string survives double quoting with escaped quotes and backslashes. */
  lemma DoubleQuotesRoundTrip(s: string)
    ensures QuotedProblem(DoubleQuoted(s)) == None && YamlScalar(DoubleQuoted(s)) == s
  {
    var v := DoubleQuoted(s);
    StripShape(v);
    assert v[0] == v[|v| - 1] == '\"';
    assert v[1..] == Escaped(s) + "\"";
    ReadsEscaped(v, 1, s);
    NothingBehind(v);
  }

  lemma NothingBehind(v: string)
    ensures Strip(v[|v|..]) == ""
  {
    assert v[|v|..] == "";
    StripShape("");
  }
}
