/** Quoted scalars as a grammar (YAML 1.2, sections 5.7, 7.3.1 and 7.3.2): what
    the error scanner accepts, why it refuses the rest, and what the value
    scanner reads. */
module ScalarGrammar {
  import opened Text
  import opened QuotedScalars
  import opened FlowBrackets

  /** A piece between quotes: a plain character, an escaped one, or a hex
      escape. Between single quotes the only escape is a doubled quote. */
  datatype Piece = Char(c: char) | Escape(c: char) | Hex(kind: char, digits: string)

  predicate HexPiece(kind: char, digits: string) {
    && (forall d | d in digits :: d in "0123456789abcdefABCDEF")
    && ((kind == 'x' && |digits| == 2) || (kind == 'u' && |digits| == 4) || (kind == 'U' && |digits| == 8))
  }

  predicate Escapable(c: char) {
    c in "0abtnvfre\"/\\N_LP \t\n"
  }

  predicate Fits(p: Piece, quote: char) {
    match p
    case Char(c) => if quote == '\'' then c != '\'' else c != '\"' && c != '\\'
    case Escape(c) => if quote == '\'' then c == '\'' else Escapable(c)
    case Hex(kind, digits) => quote != '\'' && HexPiece(kind, digits)
  }

  function Written(p: Piece, quote: char): string {
    match p
    case Char(c) => [c]
    case Escape(c) => if quote == '\'' then "''" else ['\\', c]
    case Hex(kind, digits) => ['\\', kind] + digits
  }

  /** What the value scanner makes of a piece: it drops the backslash and
      interprets nothing. */
  function Meant(p: Piece): string {
    match p
    case Char(c) => [c]
    case Escape(c) => [c]
    case Hex(kind, digits) => [kind] + digits
  }

  function AllWritten(ps: seq<Piece>, quote: char): string {
    if ps == [] then "" else Written(ps[0], quote) + AllWritten(ps[1..], quote)
  }

  function AllMeant(ps: seq<Piece>): string {
    if ps == [] then "" else Meant(ps[0]) + AllMeant(ps[1..])
  }

  /** The text goes on with the digits of a hex escape. */
  predicate HexFollows(kind: char, after: string) {
    exists n | 0 <= n <= |after| :: HexPiece(kind, after[..n])
  }

  /** Why no further piece can be read. */
  datatype Stop = AtQuote | AtEnd | AtLoneBackslash | AtBadHex | AtUnknownEscape

  predicate StopsFor(rest: string, quote: char, s: Stop) {
    match s
    case AtEnd => rest == ""
    case AtQuote => rest != "" && rest[0] == quote && (quote == '\'' ==> |rest| == 1 || rest[1] != '\'')
    case AtLoneBackslash => quote == '\"' && rest == "\\"
    case AtBadHex =>
      && quote == '\"' && |rest| >= 2 && rest[0] == '\\' && rest[1] in "xuU"
      && !HexFollows(rest[1], rest[2..])
    case AtUnknownEscape =>
      quote == '\"' && |rest| >= 2 && rest[0] == '\\' && rest[1] !in "xuU" && !Escapable(rest[1])
  }

  function Outcome(s: Stop, at: nat): Closing {
    match s
    case AtQuote => ClosedAt(at)
    case AtEnd => Broken(NotClosed)
    case AtLoneBackslash => Broken(LoneBackslash)
    case AtBadHex => Broken(BadHexEscape)
    case AtUnknownEscape => Broken(UnknownEscape)
  }

  lemma HexDigitsAre(c: char)
    ensures IsHex(c) <==> c in "0123456789abcdefABCDEF"
  {
  }

  lemma EscapesAre(c: char)
    ensures c in ESCAPES <==> Escapable(c)
  {
  }

  lemma HexWidthIs(kind: char, digits: string)
    ensures HexWidth(kind) > 0 <==> kind in "xuU"
    ensures HexPiece(kind, digits) <==> HexWidth(kind) > 0 && |digits| == HexWidth(kind) && HexRun(digits, 0, |digits|)
  {
    forall c ensures IsHex(c) <==> c in "0123456789abcdefABCDEF" { HexDigitsAre(c); }
    hide IsHex;
    if HexRun(digits, 0, |digits|) {
      forall d | d in digits ensures IsHex(d) { var i :| 0 <= i < |digits| && digits[i] == d; }
    }
    if forall d | d in digits :: IsHex(d) {
      forall i | 0 <= i < |digits| ensures IsHex(digits[i]) { assert digits[i] in digits; }
    }
  }

  lemma RunOfSlice(v: string, from: nat, width: nat)
    requires from + width <= |v|
    ensures HexRun(v, from, width) <==> HexRun(v[from..from + width], 0, width)
  {
    hide IsHex;
    var w := v[from..from + width];
    if HexRun(w, 0, width) {
      forall j | from <= j < from + width ensures IsHex(v[j]) { assert v[j] == w[j - from]; }
    }
  }

  /** The characters of a text that starts with `w`. */
  lemma StartsWith(v: string, i: nat, w: string, rest: string)
    requires i <= |v| && v[i..] == w + rest
    ensures i + |w| <= |v| && v[i + |w|..] == rest && v[i..i + |w|] == w
    ensures forall k | 0 <= k < |w| :: v[i + k] == w[k]
  {
    assert forall k | 0 <= k < |w| :: v[i + k] == v[i..][k];
    assert v[i..][..|w|] == w && v[i..][|w|..] == rest;
  }

  /** A well-formed piece is stepped over, and its meaning collected. */
  lemma StepOver(v: string, quote: char, i: nat, p: Piece, rest: string)
    requires IsQuote(quote) && i <= |v| && Fits(p, quote) && v[i..] == Written(p, quote) + rest
    ensures var j := i + |Written(p, quote)|;
      && j <= |v| && v[j..] == rest
      && FindClose(v, quote, i) == FindClose(v, quote, j)
      && Collected(v, quote, i) == Meant(p) + Collected(v, quote, j)
  {
    var w := Written(p, quote);
    StartsWith(v, i, w, rest);
    match p
    case Char(c) => assert v[i + 0] == w[0];
    case Escape(c) =>
      assert v[i + 0] == w[0] && v[i + 1] == w[1];
      StepOverEscape(v, quote, i, c);
    case Hex(kind, digits) =>
      assert v[i + 0] == w[0] && v[i + 1] == w[1] && v[i + 2..i + |w|] == w[2..] == digits by {
        assert v[i..i + |w|][2..] == v[i + 2..i + |w|];
      }
      StepOverHex(v, i, kind, digits);
  }

  lemma StepOverEscape(v: string, quote: char, i: nat, c: char)
    requires IsQuote(quote) && Fits(Escape(c), quote) && i + 2 <= |v|
    requires v[i] == (if quote == '\'' then '\'' else '\\') && v[i + 1] == c
    ensures FindClose(v, quote, i) == FindClose(v, quote, i + 2)
    ensures Collected(v, quote, i) == [c] + Collected(v, quote, i + 2)
  {
    EscapesAre(c);
    HexWidthIs(c, "");
    hide ESCAPES;
    if quote == '\"' { EscapeIsNoKind(c); }
  }

  lemma StepOverHex(v: string, i: nat, kind: char, digits: string)
    requires HexPiece(kind, digits) && i + 2 + |digits| <= |v|
    requires v[i] == '\\' && v[i + 1] == kind && v[i + 2..i + 2 + |digits|] == digits
    ensures FindClose(v, '\"', i) == FindClose(v, '\"', i + 2 + |digits|)
    ensures Collected(v, '\"', i) == ([kind] + digits) + Collected(v, '\"', i + 2 + |digits|)
  {
    HexWidthIs(kind, digits);
    RunOfSlice(v, i + 2, |digits|);
    hide HexPiece;
    hide HexRun;
    CollectsHex(v, i + 2, |digits|);
    Concat([kind], digits, Collected(v, '\"', i + 2 + |digits|));
  }

  lemma EscapeIsNoKind(c: char)
    requires Escapable(c)
    ensures c !in "xuU"
  {
  }

  /** The value scanner takes hex digits as they are. */
  lemma {:induction false} CollectsHex(v: string, i: nat, width: nat)
    requires HexRun(v, i, width)
    ensures Collected(v, '\"', i) == v[i..i + width] + Collected(v, '\"', i + width)
    decreases width
  {
    if width == 0 {
      assert v[i..i] == "";
    } else {
      assert IsHex(v[i]) && Collected(v, '\"', i) == [v[i]] + Collected(v, '\"', i + 1);
      CollectsHex(v, i + 1, width - 1);
      hide Collected;
      assert v[i..i + width] == [v[i]] + v[i + 1..i + width];
      Concat([v[i]], v[i + 1..i + width], Collected(v, '\"', i + width));
    }
  }

  lemma Concat(a: string, b: string, c: string)
    ensures a + b + c == a + (b + c)
  {
  }

  lemma {:induction false} ReadsPieces(v: string, quote: char, i: nat, ps: seq<Piece>, rest: string)
    requires IsQuote(quote) && i <= |v| && v[i..] == AllWritten(ps, quote) + rest
    requires forall p | p in ps :: Fits(p, quote)
    ensures var j := i + |AllWritten(ps, quote)|;
      && j <= |v| && v[j..] == rest
      && FindClose(v, quote, i) == FindClose(v, quote, j)
      && Collected(v, quote, i) == AllMeant(ps) + Collected(v, quote, j)
    decreases |ps|
  {
    hide Written;
    hide Meant;
    hide FindClose;
    hide Collected;
    hide Fits;
    hide AllWritten;
    hide AllMeant;
    if ps == [] {
      NothingWritten(quote, rest);
      NothingWritten(quote, Collected(v, quote, i));
    } else {
      var w, more := Written(ps[0], quote), AllWritten(ps[1..], quote);
      assert ps[0] in ps && forall p | p in ps[1..] :: p in ps;
      FirstWritten(ps, quote);
      Concat(w, more, rest);
      StepOver(v, quote, i, ps[0], more + rest);
      ReadsPieces(v, quote, i + |w|, ps[1..], rest);
      Concat(Meant(ps[0]), AllMeant(ps[1..]), Collected(v, quote, i + |w| + |more|));
    }
  }

  lemma NothingWritten(quote: char, rest: string)
    ensures AllWritten([], quote) + rest == rest && AllMeant([]) + rest == rest && AllWritten([], quote) == ""
  {
  }

  lemma FirstWritten(ps: seq<Piece>, quote: char)
    requires ps != []
    ensures AllWritten(ps, quote) == Written(ps[0], quote) + AllWritten(ps[1..], quote)
    ensures AllMeant(ps) == Meant(ps[0]) + AllMeant(ps[1..])
  {
  }

  /** At a stop the error scanner answers with it. */
  lemma AnswersStop(v: string, quote: char, i: nat, s: Stop)
    requires IsQuote(quote) && i <= |v| && StopsFor(v[i..], quote, s)
    ensures FindClose(v, quote, i) == Outcome(s, i)
  {
    var rest := v[i..];
    assert forall k | 0 <= k < |rest| :: rest[k] == v[i + k];
    match s
    case AtEnd =>
    case AtQuote =>
    case AtLoneBackslash => assert |rest| == 1;
    case AtUnknownEscape =>
      EscapesAre(rest[1]);
      HexWidthIs(rest[1], "");
    case AtBadHex =>
      HexWidthIs(rest[1], "");
      assert v[i + 2..] == rest[2..];
      RunFollows(v, i + 2, rest[1]);
  }

  lemma RunFollows(v: string, from: nat, kind: char)
    requires from <= |v| && HexWidth(kind) > 0
    ensures HexRun(v, from, HexWidth(kind)) ==> HexFollows(kind, v[from..])
  {
    var width := HexWidth(kind);
    if from + width <= |v| {
      RunOfSlice(v, from, width);
      assert v[from..from + width] == v[from..][..width];
      HexWidthIs(kind, v[from..][..width]);
    }
  }

  /** The error scanner's answer, for every text: it reads pieces as long as
      there are any, and its answer is why it stopped. */
  lemma ScannerAnswers(v: string, quote: char, i: nat, ps: seq<Piece>, rest: string, s: Stop)
    requires IsQuote(quote) && i <= |v| && v[i..] == AllWritten(ps, quote) + rest
    requires (forall p | p in ps :: Fits(p, quote)) && StopsFor(rest, quote, s)
    ensures FindClose(v, quote, i) == Outcome(s, i + |AllWritten(ps, quote)|)
  {
    hide FindClose;
    hide Fits;
    hide AllWritten;
    hide StopsFor;
    hide Outcome;
    ReadsPieces(v, quote, i, ps, rest);
    AnswersStop(v, quote, i + |AllWritten(ps, quote)|, s);
  }

  /** Every text is pieces followed by a stop. */
  lemma {:induction false} EveryTextStops(t: string, quote: char) returns (ps: seq<Piece>, rest: string, s: Stop)
    requires IsQuote(quote)
    ensures t == AllWritten(ps, quote) + rest && (forall p | p in ps :: Fits(p, quote)) && StopsFor(rest, quote, s)
    decreases |t|
  {
    var p: Piece;
    var found: bool;
    found, p, s := NextPiece(t, quote);
    if found {
      var w := Written(p, quote);
      assert t == w + t[|w|..];
      ps, rest, s := EveryTextStops(t[|w|..], quote);
      ps := [p] + ps;
    } else {
      ps, rest := [], t;
    }
  }

  lemma NextPiece(t: string, quote: char) returns (found: bool, p: Piece, s: Stop)
    requires IsQuote(quote)
    ensures found ==> Fits(p, quote) && Written(p, quote) <= t
    ensures !found ==> StopsFor(t, quote, s)
  {
    found, p, s := true, Char(' '), AtEnd;
    if t == "" {
      found := false;
    } else if quote == '\"' && t[0] == '\\' {
      if |t| == 1 {
        found, s := false, AtLoneBackslash;
      } else if t[1] in "xuU" {
        if HexFollows(t[1], t[2..]) {
          var n :| 0 <= n <= |t[2..]| && HexPiece(t[1], t[2..][..n]);
          p := Hex(t[1], t[2..][..n]);
          assert t[..2 + n] == ['\\', t[1]] + t[2..][..n];
        } else {
          found, s := false, AtBadHex;
        }
      } else if Escapable(t[1]) {
        p := Escape(t[1]);
        assert t[..2] == ['\\', t[1]];
      } else {
        found, s := false, AtUnknownEscape;
      }
    } else if t[0] == quote {
      if quote == '\'' && |t| > 1 && t[1] == '\'' {
        p := Escape('\'');
        assert t[..2] == "''";
      } else {
        found, s := false, AtQuote;
      }
    } else {
      p := Char(t[0]);
      assert t[..1] == [t[0]];
    }
  }

  /** A quoted value as the grammar has it: pieces, the closing quote, and
      nothing behind it but blanks or a comment. */
  predicate QuotedAs(value: string, ps: seq<Piece>, tail: string) {
    && value != "" && IsQuote(value[0])
    && value == [value[0]] + AllWritten(ps, value[0]) + [value[0]] + tail
    && (forall p | p in ps :: Fits(p, value[0]))
    && (value[0] == '\'' ==> tail == "" || tail[0] != '\'')
    && (Strip(tail) == "" || Strip(tail)[0] == '#')
  }

  /** A quoted value is accepted exactly when the grammar derives it, and then
      its meaning is what is read. */
  lemma AcceptsExactly(raw: string)
    requires IsQuoted(Strip(raw))
    ensures QuotedProblem(raw) == None <==> exists ps, tail :: QuotedAs(Strip(raw), ps, tail)
    ensures forall ps, tail :: QuotedAs(Strip(raw), ps, tail) ==> YamlScalar(raw) == AllMeant(ps)
  {
    var v := Strip(raw);
    var quote := v[0];
    hide Strip;
    hide FindClose;
    hide Collected;
    forall ps, tail | QuotedAs(v, ps, tail) ensures QuotedProblem(raw) == None && YamlScalar(raw) == AllMeant(ps) {
      DerivedIsAccepted(v, ps, tail);
    }
    if QuotedProblem(raw) == None { var ps, tail := AcceptedIsDerived(v); }
  }

  lemma DerivedIsAccepted(v: string, ps: seq<Piece>, tail: string)
    requires QuotedAs(v, ps, tail)
    ensures var at := 1 + |AllWritten(ps, v[0])|;
      && FindClose(v, v[0], 1) == ClosedAt(at) && at + 1 <= |v| && v[at + 1..] == tail
      && Collected(v, v[0], 1) == AllMeant(ps) && v[0] != '#'
  {
    hide Strip;
    hide FindClose;
    hide Collected;
    hide Fits;
    hide AllWritten;
    hide AllMeant;
    var quote, w, rest := v[0], AllWritten(ps, v[0]), [v[0]] + tail;
    Regrouped([quote], w, tail);
    Behind(v, w, rest);
    assert rest[1..] == tail;
    assert quote == '\'' && tail != "" ==> rest[1] == tail[0];
    ReadsPieces(v, quote, 1, ps, rest);
    ScannerAnswers(v, quote, 1, ps, rest, AtQuote);
    CollectsNothing(v, quote, 1 + |w|);
    assert AllMeant(ps) + "" == AllMeant(ps);
  }

  lemma Regrouped(q: string, w: string, tail: string)
    ensures q + w + q + tail == q + w + (q + tail)
  {
  }

  lemma CollectsNothing(v: string, quote: char, at: nat)
    requires IsQuote(quote) && at <= |v| && StopsFor(v[at..], quote, AtQuote)
    ensures Collected(v, quote, at) == ""
  {
    var rest := v[at..];
    assert rest[0] == v[at] && (|rest| > 1 ==> rest[1] == v[at + 1]);
  }

  lemma AcceptedIsDerived(v: string) returns (ps: seq<Piece>, tail: string)
    requires IsQuoted(v) && FindClose(v, v[0], 1).ClosedAt?
    requires var rest := Strip(v[FindClose(v, v[0], 1).i + 1..]); rest == "" || rest[0] == '#'
    ensures QuotedAs(v, ps, tail)
  {
    hide Strip;
    hide FindClose;
    hide Fits;
    hide AllWritten;
    var rest: string, s: Stop;
    ps, rest, s := EveryTextStops(v[1..], v[0]);
    ScannerAnswers(v, v[0], 1, ps, rest, s);
    assert s == AtQuote;
    tail := rest[1..];
    var w := AllWritten(ps, v[0]);
    assert rest == [v[0]] + tail;
    assert rest[0] == v[0] && (tail != "" ==> tail[0] == rest[1]);
    hide StopsFor;
    Rebuilt(v, w, tail);
  }

  lemma Rebuilt(v: string, w: string, tail: string)
    requires v != "" && v[1..] == w + ([v[0]] + tail)
    ensures v == [v[0]] + w + [v[0]] + tail && v[1 + |w| + 1..] == tail
  {
    var q := [v[0]];
    assert v == q + v[1..];
    Regrouped(q, w, tail);
    assert q + (w + (q + tail)) == q + w + (q + tail);
    Behind(v, w, q + tail);
    assert (q + tail)[1..] == tail;
  }

  /** Which problem a quoted value has, when no derivation exists. */
  lemma RefusesExactly(raw: string, ps: seq<Piece>, rest: string, s: Stop)
    requires IsQuoted(Strip(raw))
    requires var v := Strip(raw);
      && v == [v[0]] + AllWritten(ps, v[0]) + rest
      && (forall p | p in ps :: Fits(p, v[0])) && StopsFor(rest, v[0], s)
    ensures QuotedProblem(raw) ==
      match s
      case AtQuote => (if Strip(rest[1..]) == "" || Strip(rest[1..])[0] == '#' then None else Some(TrailingText))
      case AtEnd => Some(NotClosed)
      case AtLoneBackslash => Some(LoneBackslash)
      case AtBadHex => Some(BadHexEscape)
      case AtUnknownEscape => Some(UnknownEscape)
  {
    hide Strip;
    hide FindClose;
    hide Fits;
    hide AllWritten;
    hide StopsFor;
    StopOfValue(Strip(raw), ps, rest, s);
  }

  lemma StopOfValue(v: string, ps: seq<Piece>, rest: string, s: Stop)
    requires IsQuoted(v) && v == [v[0]] + AllWritten(ps, v[0]) + rest
    requires (forall p | p in ps :: Fits(p, v[0])) && StopsFor(rest, v[0], s)
    ensures var at := 1 + |AllWritten(ps, v[0])|;
      && FindClose(v, v[0], 1) == Outcome(s, at)
      && (s == AtQuote ==> rest != "" && at < |v| && v[at + 1..] == rest[1..])
  {
    hide FindClose;
    hide Fits;
    hide AllWritten;
    hide Outcome;
    var w := AllWritten(ps, v[0]);
    Behind(v, w, rest);
    assert s == AtQuote ==> rest != "";
    hide StopsFor;
    ScannerAnswers(v, v[0], 1, ps, rest, s);
  }

  lemma Behind(v: string, w: string, rest: string)
    requires v != "" && v == [v[0]] + w + rest
    ensures v[1..] == w + rest && v[1 + |w|..] == rest
    ensures rest != "" ==> 1 + |w| < |v| && v[1 + |w| + 1..] == rest[1..]
  {
    var q := [v[0]];
    assert (q + w + rest)[1..] == w + rest;
    assert (q + w + rest)[1 + |w|..] == rest;
    if rest != "" { assert v[1 + |w|..][1..] == v[1 + |w| + 1..]; }
  }

  // -------------------------------------------------------------- plain scalars

  /** A comment starts behind the blanks from `i` to `j`. */
  predicate CommentAt(v: string, i: int, j: int) {
    0 <= i < j < |v| && v[j] == '#' && forall k | i <= k < j :: IsSpace(v[k])
  }

  lemma {:induction false} BlankRunStops(v: string, i: nat)
    requires i <= |v|
    ensures var j := BlankRun(v, i);
      && i <= j <= |v| && (forall k | i <= k < j :: IsSpace(v[k])) && (j < |v| ==> !IsSpace(v[j]))
    decreases |v| - i
  {
    if i < |v| && IsSpace(v[i]) { BlankRunStops(v, i + 1); }
  }

  lemma CommentHere(v: string, i: nat)
    requires i < |v|
    ensures (IsSpace(v[i]) && BlankRun(v, i) < |v| && v[BlankRun(v, i)] == '#') <==> exists j :: CommentAt(v, i, j)
  {
    BlankRunStops(v, i);
    var b := BlankRun(v, i);
    if IsSpace(v[i]) && b < |v| && v[b] == '#' {
      assert b != i;
      assert CommentAt(v, i, b);
    }
    if j :| CommentAt(v, i, j) {
      assert IsSpace(v[i]) && !IsSpace('#');
      assert j == b;
    }
  }

  /** A plain value ends where the first comment behind a blank starts. */
  lemma {:induction false} CutAtFirstComment(v: string, i: nat)
    requires i <= |v|
    ensures
      || (BeforeComment(v, i) == v && forall k, j | i <= k :: !CommentAt(v, k, j))
      || exists k, j | i <= k && CommentAt(v, k, j) ::
           BeforeComment(v, i) == v[..k] && forall x, y | i <= x < k :: !CommentAt(v, x, y)
    decreases |v| - i
  {
    hide BlankRun;
    if i < |v| {
      CommentHere(v, i);
      if exists j :: CommentAt(v, i, j) {
        var j :| CommentAt(v, i, j);
        assert BeforeComment(v, i) == v[..i];
      } else {
        CutAtFirstComment(v, i + 1);
        if exists k, j | i + 1 <= k && CommentAt(v, k, j) ::
             BeforeComment(v, i + 1) == v[..k] && forall x, y | i + 1 <= x < k :: !CommentAt(v, x, y)
        {
          var k, j :| i + 1 <= k && CommentAt(v, k, j)
            && BeforeComment(v, i + 1) == v[..k] && forall x, y | i + 1 <= x < k :: !CommentAt(v, x, y);
          assert forall x, y | i <= x < k :: !CommentAt(v, x, y);
        }
      }
    }
  }

  /** What is read of an unquoted value: nothing of a comment, everything
      without one, and otherwise what stands before the first one. */
  lemma ReadsPlain(raw: string)
    requires !IsQuoted(Strip(raw))
    ensures
      var v := Strip(raw);
      if v != "" && v[0] == '#' then YamlScalar(raw) == ""
      else if forall k: nat, j: nat :: !CommentAt(v, k, j) then YamlScalar(raw) == Strip(v)
      else exists k: nat, j: nat | CommentAt(v, k, j) ::
        YamlScalar(raw) == Strip(v[..k]) && forall x: nat, y: nat | x < k :: !CommentAt(v, x, y)
  {
    hide Strip;
    hide BeforeComment;
    hide IsQuoted;
    CutAtFirstComment(Strip(raw), 0);
  }

  // ---------------------------------------------------------------- the verdict

  /** Unquoted values that are no collection: block scalars, comments and the
      empty value are fine, and of the rest exactly those without a nested key
      and without a reserved or indicating first character. */
  lemma PlainVerdict(raw: string)
    requires var v := Strip(raw); v == "" || v[0] !in "[{\"'"
    ensures
      var v, verdict := Strip(raw), SyntaxProblem(raw);
      if v == "" || v[0] in "|>#" then verdict == Fine
      else if Mentions(v, ": ") || v[|v| - 1] == ':' then verdict == NestedKey
      else if v[0] in "@`" then verdict == Reserved
      else if |v| > 1 && v[0] in "&*!" then verdict == Indicator
      else verdict == Fine
  {
    ContainsExactly(Strip(raw), ": ");
    hide Strip;
    hide Contains;
    hide Mentions;
    hide Match;
    hide QuotedProblem;
  }

  /** A quoted value has exactly its scanner's problem, and a collection its
      matcher's. */
  lemma QuotedVerdict(raw: string)
    requires var v := Strip(raw); v != "" && v[0] in "\"'"
    ensures SyntaxProblem(raw) == Fine <==> exists ps, tail :: QuotedAs(Strip(raw), ps, tail)
    ensures SyntaxProblem(raw).Quoted? || SyntaxProblem(raw) == Fine
  {
    var v := Strip(raw);
    StripShape(raw);
    AcceptsExactly(v);
    hide Strip;
    hide QuotedProblem;
    hide QuotedAs;
    hide Match;
    hide Contains;
  }

  // ---------------------------------------------------- any value, accepted or not

  /** What the value scanner takes for a piece: behind a backslash anything
      goes, and one at the very end stands for itself. */
  predicate FitsLoosely(p: Piece, quote: char) {
    match p
    case Char(c) => c != quote && (quote == '\"' ==> c != '\\')
    case Escape(c) => quote == '\'' ==> c == '\''
    case Hex(_, _) => false
  }

  /** The value scanner has nothing more to take from `rest`. */
  predicate NothingToTake(rest: string, quote: char) {
    || rest == ""
    || (rest[0] == quote && (quote == '\'' ==> |rest| == 1 || rest[1] != '\''))
  }

  lemma TakeOne(v: string, quote: char, i: nat, p: Piece, rest: string)
    requires IsQuote(quote) && i <= |v| && FitsLoosely(p, quote) && v[i..] == Written(p, quote) + rest
    ensures var j := i + |Written(p, quote)|;
      && j <= |v| && v[j..] == rest
      && StopAt(v, quote, i) == StopAt(v, quote, j)
      && Collected(v, quote, i) == Meant(p) + Collected(v, quote, j)
  {
    var w := Written(p, quote);
    StartsWith(v, i, w, rest);
    assert v[i + 0] == w[0];
    if p.Escape? { assert v[i + 1] == w[1]; }
  }

  /** Whatever a value looks like, the value scanner takes pieces as long as
      there are any, stops behind them, and reads what they mean; a backslash
      at the very end is read as it is. */
  lemma {:induction false} ReadsAnything(v: string, quote: char, i: nat, ps: seq<Piece>, rest: string)
    requires IsQuote(quote) && i <= |v| && v[i..] == AllWritten(ps, quote) + rest
    requires forall p | p in ps :: FitsLoosely(p, quote)
    requires NothingToTake(rest, quote) || (quote == '\"' && rest == "\\")
    ensures
      var at := i + |AllWritten(ps, quote)|;
      if NothingToTake(rest, quote) then StopAt(v, quote, i) == at && Collected(v, quote, i) == AllMeant(ps)
      else StopAt(v, quote, i) == |v| == at + 1 && Collected(v, quote, i) == AllMeant(ps) + "\\"
    decreases |ps|
  {
    hide StopAt;
    hide Collected;
    if ps == [] {
      assert v[i..] == rest && AllMeant(ps) == "";
      EndOfValue(v, quote, i);
    } else {
      hide Written;
      hide Meant;
      hide FitsLoosely;
      var w, more := Written(ps[0], quote), AllWritten(ps[1..], quote);
      assert ps[0] in ps && forall p | p in ps[1..] :: p in ps;
      FirstWritten(ps, quote);
      hide AllWritten;
      hide AllMeant;
      Concat(w, more, rest);
      TakeOne(v, quote, i, ps[0], more + rest);
      ReadsAnything(v, quote, i + |w|, ps[1..], rest);
      Concat(Meant(ps[0]), AllMeant(ps[1..]), "\\");
    }
  }

  lemma EndOfValue(v: string, quote: char, i: nat)
    requires IsQuote(quote) && i <= |v|
    requires NothingToTake(v[i..], quote) || (quote == '\"' && v[i..] == "\\")
    ensures if NothingToTake(v[i..], quote) then StopAt(v, quote, i) == i && Collected(v, quote, i) == ""
            else StopAt(v, quote, i) == |v| == i + 1 && Collected(v, quote, i) == "\\"
  {
    var rest := v[i..];
    assert forall k | 0 <= k < |rest| :: rest[k] == v[i + k];
    if !NothingToTake(rest, quote) { assert |rest| == 1 && v[i + 0] == '\\'; }
  }
}
