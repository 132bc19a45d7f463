/** Strings as the scripts handle them: `str.lower`, `str.strip`, `str.split`
    and the commit normalisation shared by the ledger and the release gate. */
module Text {

  datatype Option<+T> = None | Some(value: T)

  function LowerChar(c: char): char {
    if 'A' <= c <= 'Z' then (c as int + 32) as char else c
  }

  function Lower(s: string): (r: string)
    ensures |r| == |s|
  {
    seq(|s|, i requires 0 <= i < |s| => LowerChar(s[i]))
  }

  predicate IsSpace(c: char) {
    c == ' ' || '\t' <= c <= '\r' || '\U{1c}' <= c <= '\U{1f}'
  }

  function StripLeft(s: string): string {
    if s != "" && IsSpace(s[0]) then StripLeft(s[1..]) else s
  }

  function StripRight(s: string): string {
    if s != "" && IsSpace(s[|s| - 1]) then StripRight(s[..|s| - 1]) else s
  }

  function Strip(s: string): string {
    StripRight(StripLeft(s))
  }

  const SHA_PREFIX := "sha-"

  predicate HasShaPrefix(s: string) {
    |s| >= 4 && Lower(s[..4]) == SHA_PREFIX
  }

  /** `_normalize_commit`: strip, drop one `sha-` prefix, lower. */
  function NormalizeCommit(s: string): string {
    var raw := Strip(s);
    Lower(if HasShaPrefix(raw) then raw[4..] else raw)
  }

  predicate IsHexDigit(c: char) {
    '0' <= c <= '9' || 'a' <= c <= 'f'
  }

  /** A complete lower-case 40-digit commit. */
  predicate IsFullSha(s: string) {
    |s| == 40 && forall i | 0 <= i < |s| :: IsHexDigit(s[i])
  }

  /** What a string must look like for normalisation to leave it alone. */
  predicate Settled(s: string) {
    && Lower(s) == s
    && !HasShaPrefix(s)
    && (s == "" || (!IsSpace(s[0]) && !IsSpace(s[|s| - 1])))
  }

  predicate Contains(s: string, part: string) {
    part <= s || (s != "" && Contains(s[1..], part))
  }

  // ---------------------------------------------------------------- lemmas

  lemma LowerIdempotent(s: string)
    ensures Lower(Lower(s)) == Lower(s)
  {
  }

  lemma LowerSlice(s: string, lo: nat, hi: nat)
    requires lo <= hi <= |s|
    ensures Lower(s[lo..hi]) == Lower(s)[lo..hi]
  {
  }

  lemma {:induction false} StripLeftLower(s: string)
    ensures StripLeft(Lower(s)) == Lower(StripLeft(s))
  {
    if s != "" {
      assert Lower(s)[1..] == Lower(s[1..]);
      StripLeftLower(s[1..]);
    }
  }

  lemma {:induction false} StripRightLower(s: string)
    ensures StripRight(Lower(s)) == Lower(StripRight(s))
  {
    if s != "" {
      assert Lower(s)[..|s| - 1] == Lower(s[..|s| - 1]);
      StripRightLower(s[..|s| - 1]);
    }
  }

  /** Lowering a commit before normalising it changes nothing. */
  lemma NormalizeAfterLower(s: string)
    ensures NormalizeCommit(Lower(s)) == NormalizeCommit(s)
  {
    StripLeftLower(s);
    StripRightLower(StripLeft(s));
    var raw := Strip(s);
    assert Strip(Lower(s)) == Lower(raw);
    if |raw| >= 4 {
      LowerSlice(raw, 0, 4);
      LowerSlice(raw, 4, |raw|);
      LowerIdempotent(raw[..4]);
      LowerIdempotent(raw[4..]);
    }
    LowerIdempotent(raw);
  }

  lemma {:induction false} StripLeftShape(s: string)
    ensures |StripLeft(s)| <= |s|
    ensures |StripLeft(s)| == |s| <==> (s == "" || !IsSpace(s[0]))
    ensures StripLeft(s) == "" || !IsSpace(StripLeft(s)[0])
    ensures StripLeft(s) == s[|s| - |StripLeft(s)|..]
  {
    if s != "" && IsSpace(s[0]) { StripLeftShape(s[1..]); }
  }

  lemma {:induction false} StripRightShape(s: string)
    ensures |StripRight(s)| <= |s|
    ensures |StripRight(s)| == |s| <==> (s == "" || !IsSpace(s[|s| - 1]))
    ensures StripRight(s) == "" || !IsSpace(StripRight(s)[|StripRight(s)| - 1])
    ensures StripRight(s) == s[..|StripRight(s)|]
  {
    if s != "" && IsSpace(s[|s| - 1]) { StripRightShape(s[..|s| - 1]); }
  }

  /** Stripping twice is stripping once, and never lengthens. */
  lemma StripShape(s: string)
    ensures |Strip(s)| <= |s|
    ensures |Strip(s)| == |s| <==> Strip(s) == s
    ensures Strip(s) == s <==> (s == "" || (!IsSpace(s[0]) && !IsSpace(s[|s| - 1])))
    ensures Strip(Strip(s)) == Strip(s)
  {
    StripLeftShape(s);
    StripRightShape(StripLeft(s));
    var t := Strip(s);
    if t != "" {
      assert t[0] == StripLeft(s)[0];
    }
    StripLeftShape(t);
    StripRightShape(t);
    assert StripLeft(t) == t;
  }

  lemma StripLower(s: string)
    ensures Strip(Lower(s)) == Lower(Strip(s))
  {
    StripLeftLower(s);
    StripRightLower(StripLeft(s));
  }

  /** A second normalisation changes a value exactly when the first one did
      not settle it, and then the value gets strictly shorter. */
  lemma NormalizeTwice(s: string)
    ensures NormalizeCommit(NormalizeCommit(s)) == NormalizeCommit(s) <==> Settled(NormalizeCommit(s))
    ensures !Settled(NormalizeCommit(s)) ==> |NormalizeCommit(NormalizeCommit(s))| < |NormalizeCommit(s)|
    ensures |NormalizeCommit(NormalizeCommit(s))| <= |NormalizeCommit(s)|
  {
    var raw := Strip(s);
    LowerIdempotent(if HasShaPrefix(raw) then raw[4..] else raw);
    var n := NormalizeCommit(s);
    StripShape(n);
    if Settled(n) {
      assert Strip(n) == n;
    } else if Strip(n) == n {
      assert HasShaPrefix(n);
    } else {
      assert |Strip(n)| < |n|;
    }
  }

  lemma SettledIsFixed(s: string)
    requires Settled(s)
    ensures NormalizeCommit(s) == s
  {
    StripShape(s);
  }

  lemma FullShaIsSettled(s: string)
    requires IsFullSha(s)
    ensures Settled(s) && NormalizeCommit(s) == s
  {
    forall i | 0 <= i < |s| ensures Lower(s)[i] == s[i] { assert IsHexDigit(s[i]); }
    assert Lower(s) == s;
    assert IsHexDigit(s[0]) && IsHexDigit(s[|s| - 1]);
    assert Lower(s[..4])[0] == s[0] != 's';
    SettledIsFixed(s);
  }

  /** `sha-sha-x` loses a prefix at every normalisation. */
  lemma NormalizeNotIdempotent()
    ensures NormalizeCommit("sha-sha-x") == "sha-x"
    ensures NormalizeCommit(NormalizeCommit("sha-sha-x")) == "x"
  {
  }

  /** `part` occurs somewhere in `s`. */
  predicate Mentions(s: string, part: string) {
    exists k | 0 <= k <= |s| :: part <= s[k..]
  }

  lemma {:induction false} ContainsExactly(s: string, part: string)
    ensures Contains(s, part) <==> Mentions(s, part)
  {
    assert s[0..] == s;
    if s != "" {
      ContainsExactly(s[1..], part);
      if Mentions(s[1..], part) {
        var k :| 0 <= k <= |s[1..]| && part <= s[1..][k..];
        assert s[1..][k..] == s[k + 1..];
      }
      if k :| 0 < k <= |s| && part <= s[k..] { assert s[1..][k - 1..] == s[k..]; }
    }
  }

  /** Lower-casing keeps every character but the twenty-six capitals, which
      become the small letter at the same place of the alphabet. */
  lemma LowerExactly(s: string, i: nat)
    requires i < |s|
    ensures forall k | 0 <= k < 26 && s[i] == CAPITALS[k] :: Lower(s)[i] == SMALL[k]
    ensures s[i] !in CAPITALS ==> Lower(s)[i] == s[i]
  {
    var capitals := CAPITALS;
    if 'A' <= s[i] <= 'Z' { assert capitals[s[i] as int - 'A' as int] == s[i]; }
  }

  const CAPITALS := "ABCDEFGHIJKLMNOPQRSTUVWXYZ"
  const SMALL := "abcdefghijklmnopqrstuvwxyz"

  /** Stripping cuts off blanks at both ends and nothing else. */
  lemma StripExactly(s: string) returns (a: string, b: string)
    ensures s == a + Strip(s) + b && (forall c | c in a :: c in BLANKS) && (forall c | c in b :: c in BLANKS)
    ensures Strip(s) != "" ==> Strip(s)[0] !in BLANKS && Strip(s)[|Strip(s)| - 1] !in BLANKS
  {
    forall c: char ensures IsSpace(c) <==> c in BLANKS { BlanksAre(c); }
    a := StripsLeft(s);
    b := StripsRight(StripLeft(s));
    StripKeepsEnds(s);
    hide IsSpace;
    hide StripLeft;
    hide StripRight;
    assert s == a + (Strip(s) + b);
  }

  lemma StripKeepsEnds(s: string)
    ensures Strip(s) != "" ==> !IsSpace(Strip(s)[0]) && !IsSpace(Strip(s)[|Strip(s)| - 1])
  {
    hide IsSpace;
    StripShape(s);
    StripShape(Strip(s));
  }

  const BLANKS := " \t\n\U{0b}\U{0c}\r\U{1c}\U{1d}\U{1e}\U{1f}"

  lemma BlanksAre(c: char)
    ensures IsSpace(c) <==> c in BLANKS
  {
  }

  lemma {:induction false} StripsLeft(s: string) returns (a: string)
    ensures s == a + StripLeft(s) && forall c | c in a :: IsSpace(c)
  {
    a := "";
    if s != "" && IsSpace(s[0]) {
      a := StripsLeft(s[1..]);
      a := [s[0]] + a;
    }
  }

  lemma {:induction false} StripsRight(s: string) returns (b: string)
    ensures s == StripRight(s) + b && forall c | c in b :: IsSpace(c)
  {
    b := "";
    if s != "" && IsSpace(s[|s| - 1]) {
      b := StripsRight(s[..|s| - 1]);
      b := b + [s[|s| - 1]];
    }
  }

  /** What normalisation does to a commit: strip, drop one `sha-` in any case,
      lower-case. */
  lemma NormalizeExactly(s: string)
    ensures
      var n, t := NormalizeCommit(s), Strip(s);
      if |t| >= 4 && Lower(t)[..4] == "sha-" then n == Lower(t)[4..] else n == Lower(t)
  {
    var t := Strip(s);
    if |t| >= 4 {
      LowerSlice(t, 0, 4);
      LowerSlice(t, 4, |t|);
    }
  }

  /** A complete commit has exactly forty lower-case hex digits. */
  lemma FullShaExactly(s: string)
    ensures IsFullSha(s) <==> |s| == 40 && forall i | 0 <= i < |s| :: s[i] in "0123456789abcdef"
  {
    forall c: char ensures IsHexDigit(c) <==> c in "0123456789abcdef" { HexDigitsAre(c); }
    hide IsHexDigit;
  }

  lemma HexDigitsAre(c: char)
    ensures IsHexDigit(c) <==> c in "0123456789abcdef"
  {
  }
}
