/** The text helpers every Python module shares: strip, slice, lower. */
module Text {

  /** Whitespace as `str.strip` sees it, on the Latin-1 range. */
  predicate IsSpace(c: char) {
    var n := c as int;
    9 <= n <= 13 || 28 <= n <= 32 || n == 0x85 || n == 0xA0
  }

  function LStrip(s: string): string {
    if s != "" && IsSpace(s[0]) then LStrip(s[1..]) else s
  }

  function RStrip(s: string): string {
    if s != "" && IsSpace(s[|s| - 1]) then RStrip(s[..|s| - 1]) else s
  }

  function Strip(s: string): string {
    RStrip(LStrip(s))
  }

  function Take(s: string, limit: nat): string {
    if |s| <= limit then s else s[..limit]
  }

  /** `str(value or "").strip()[:limit]`. */
  function Bounded(s: string, limit: nat): string {
    Take(Strip(s), limit)
  }

  /** No whitespace at either edge: exactly the strings `strip` leaves alone. */
  predicate TrimStable(s: string) {
    s == "" || (!IsSpace(s[0]) && !IsSpace(s[|s| - 1]))
  }

  function LowerChar(c: char): char {
    if 'A' <= c <= 'Z' then (c as int + 32) as char else c
  }

  function Lower(s: string): string {
    seq(|s|, i requires 0 <= i < |s| => LowerChar(s[i]))
  }

  /** `str.replace("\x00", " ")`, the first step of every token. */
  function NulToSpace(s: string): string {
    seq(|s|, i requires 0 <= i < |s| => if s[i] == 0 as char then ' ' else s[i])
  }

  /** `_token` and `_text`: NUL to space, strip, then cut. */
  function Token(s: string, limit: nat): string {
    Bounded(NulToSpace(s), limit)
  }

  predicate TokenStable(s: string, limit: nat) {
    Token(s, limit) == s
  }

  lemma {:induction false} LStripKeepsStable(s: string)
    ensures LStrip(s) == "" || !IsSpace(LStrip(s)[0])
    ensures s == "" || !IsSpace(s[0]) ==> LStrip(s) == s
    ensures |LStrip(s)| <= |s|
    ensures LStrip(s) != "" ==> s != "" && LStrip(s)[|LStrip(s)| - 1] == s[|s| - 1]
  {
    if s != "" && IsSpace(s[0]) {
      LStripKeepsStable(s[1..]);
    }
  }

  lemma {:induction false} RStripKeepsStable(s: string)
    ensures RStrip(s) == "" || !IsSpace(RStrip(s)[|RStrip(s)| - 1])
    ensures RStrip(s) != "" ==> s != "" && RStrip(s)[0] == s[0]
    ensures s == "" || !IsSpace(s[|s| - 1]) ==> RStrip(s) == s
    ensures |RStrip(s)| <= |s|
  {
    if s != "" && IsSpace(s[|s| - 1]) {
      RStripKeepsStable(s[..|s| - 1]);
    }
  }

  /** `strip` returns trim-stable text, and is the identity exactly there. */
  lemma StripStable(s: string)
    ensures TrimStable(Strip(s))
    ensures Strip(s) == s <==> TrimStable(s)
    ensures |Strip(s)| <= |s|
  {
    LStripKeepsStable(s);
    RStripKeepsStable(LStrip(s));
  }

  /** Cutting after stripping is idempotent exactly when the cut leaves no blank edge. */
  lemma BoundedIdempotent(s: string, limit: nat)
    ensures |Bounded(s, limit)| <= limit
    ensures Bounded(Bounded(s, limit), limit) == Bounded(s, limit) <==> TrimStable(Bounded(s, limit))
  {
    StripStable(s);
    StripStable(Bounded(s, limit));
  }

  /** Short trim-stable text passes through `Bounded` unchanged, and nothing else does. */
  lemma BoundedFixpoint(s: string, limit: nat)
    ensures Bounded(s, limit) == s <==> TrimStable(s) && |s| <= limit
  {
    StripStable(s);
  }

  /** Any cut of NUL-free text is NUL-free, so a second token only strips again. */
  lemma TokenAgain(s: string, limit: nat)
    ensures |Token(s, limit)| <= limit
    ensures TokenStable(Token(s, limit), limit) <==> TrimStable(Token(s, limit))
  {
    var t := Token(s, limit);
    NoNulStrip(NulToSpace(s));
    assert forall i :: 0 <= i < |t| ==> t[i] != 0 as char;
    assert NulToSpace(t) == t;
    BoundedIdempotent(NulToSpace(s), limit);
  }

  lemma NoNulStrip(s: string)
    requires forall i :: 0 <= i < |s| ==> s[i] != 0 as char
    ensures forall i :: 0 <= i < |Strip(s)| ==> Strip(s)[i] != 0 as char
  {
    LStripSuffix(s);
    RStripPrefix(LStrip(s));
  }

  lemma {:induction false} LStripSuffix(s: string)
    ensures |LStrip(s)| <= |s| && LStrip(s) == s[|s| - |LStrip(s)|..]
  {
    if s != "" && IsSpace(s[0]) {
      LStripSuffix(s[1..]);
    }
  }

  lemma {:induction false} RStripPrefix(s: string)
    ensures |RStrip(s)| <= |s| && RStrip(s) == s[..|RStrip(s)|]
  {
    if s != "" && IsSpace(s[|s| - 1]) {
      RStripPrefix(s[..|s| - 1]);
    }
  }

  /** Stripping keeps a contiguous middle part of the text. */
  lemma StripSlice(s: string) returns (from: nat, to: nat)
    ensures from <= to <= |s| && Strip(s) == s[from..to]
  {
    LStripSuffix(s);
    RStripPrefix(LStrip(s));
    from := |s| - |LStrip(s)|;
    to := from + |Strip(s)|;
  }

  ghost predicate Blank(s: string) {
    forall c | c in s :: IsSpace(c)
  }

  lemma {:induction false} LStripTakesBlanks(s: string)
    ensures |LStrip(s)| <= |s| && Blank(s[..|s| - |LStrip(s)|])
  {
    LStripSuffix(s);
    if s != "" && IsSpace(s[0]) {
      LStripTakesBlanks(s[1..]);
      LStripSuffix(s[1..]);
      var n := |s| - |LStrip(s)|;
      assert s[..n] == [s[0]] + s[1..][..n - 1];
    }
  }

  lemma {:induction false} RStripTakesBlanks(s: string)
    ensures |RStrip(s)| <= |s| && Blank(s[|RStrip(s)|..])
  {
    RStripPrefix(s);
    if s != "" && IsSpace(s[|s| - 1]) {
      var init := s[..|s| - 1];
      RStripTakesBlanks(init);
      RStripPrefix(init);
      assert s[|RStrip(s)|..] == init[|RStrip(s)|..] + [s[|s| - 1]];
    }
  }

  /** Blank, the text, blank: the text has no blank edge of its own. */
  ghost predicate Edged(s: string, a: string, t: string, b: string) {
    s == a + t + b && Blank(a) && Blank(b) && TrimStable(t)
  }

  /** `strip` takes the blanks off both edges and nothing else. */
  lemma StripMeans(s: string)
    ensures exists a, b :: Edged(s, a, Strip(s), b)
  {
    var a := LeftEdge(s);
    var b := RightEdge(LStrip(s));
    StripStable(s);
    assert s == a + (Strip(s) + b) == a + Strip(s) + b;
    assert Edged(s, a, Strip(s), b);
  }

  lemma LeftEdge(s: string) returns (a: string)
    ensures s == a + LStrip(s) && Blank(a)
  {
    LStripSuffix(s);
    LStripTakesBlanks(s);
    a := s[..|s| - |LStrip(s)|];
  }

  lemma RightEdge(s: string) returns (b: string)
    ensures s == RStrip(s) + b && Blank(b)
  {
    RStripPrefix(s);
    RStripTakesBlanks(s);
    b := s[|RStrip(s)|..];
  }

  /** A token is the start of the text with its blank edges and NULs gone, as far as the limit allows. */
  lemma TokenMeans(s: string, limit: nat)
    ensures exists spaced, a, t, b ::
              && |spaced| == |s| && (forall i | 0 <= i < |s| :: spaced[i] == if s[i] == 0 as char then ' ' else s[i])
              && Edged(spaced, a, t, b)
              && Token(s, limit) <= t && |Token(s, limit)| == if |t| < limit then |t| else limit
  {
    var spaced := NulToSpace(s);
    StripMeans(spaced);
    var a, b :| Edged(spaced, a, Strip(spaced), b);
    assert Edged(spaced, a, Strip(spaced), b);
  }

  /** `text.split(sep, 1)[0]`. */
  function BeforeFirst(s: string, sep: char): (r: string)
    ensures |r| <= |s| && r == s[..|r|]
    ensures s != "" && s[0] != sep ==> r != ""
  {
    if s == "" || s[0] == sep then "" else [s[0]] + BeforeFirst(s[1..], sep)
  }

  predicate StartsWith(s: string, prefix: string) {
    |prefix| <= |s| && s[..|prefix|] == prefix
  }

  predicate OccursAt(hay: string, needle: string, i: nat) {
    i + |needle| <= |hay| && hay[i..i + |needle|] == needle
  }

  /** `needle in hay`. */
  predicate Contains(hay: string, needle: string) {
    exists i | 0 <= i <= |hay| :: OccursAt(hay, needle, i)
  }

  predicate IsAlpha(c: char) {
    'a' <= c <= 'z' || 'A' <= c <= 'Z'
  }

  predicate IsDigit(c: char) {
    '0' <= c <= '9'
  }

  /** `[A-Za-z0-9_.:-]`. */
  predicate IsIdChar(c: char) {
    IsAlpha(c) || IsDigit(c) || c in "_.:-"
  }

  /** Text made of identity characters only, at most `limit` of them. */
  predicate IdText(s: string, limit: nat) {
    1 <= |s| <= limit && forall i | 0 <= i < |s| :: IsIdChar(s[i])
  }

  lemma IdTextIsTrimStable(s: string, limit: nat)
    requires IdText(s, limit)
    ensures TrimStable(s) && Strip(s) == s
  {
    StripStable(s);
  }

  /** Lower-case hexadecimal SHA-256. */
  predicate IsHex64(s: string) {
    |s| == 64 && forall i | 0 <= i < 64 :: IsDigit(s[i]) || 'a' <= s[i] <= 'f'
  }

  lemma HexIsTrimStable(s: string)
    requires IsHex64(s)
    ensures TrimStable(s) && Strip(s) == s && Bounded(s, 64) == s
  {
    StripStable(s);
    BoundedFixpoint(s, 64);
  }

  /** Dictionary order of strings, by code point. */
  predicate LexLeq(a: string, b: string) {
    a == "" || (b != "" && (a[0] < b[0] || (a[0] == b[0] && LexLeq(a[1..], b[1..]))))
  }

  lemma {:induction false} LexTotal(a: string, b: string)
    ensures LexLeq(a, b) || LexLeq(b, a)
  {
    if a != "" && b != "" && a[0] == b[0] {
      LexTotal(a[1..], b[1..]);
    }
  }

  lemma {:induction false} LexTransitive(a: string, b: string, c: string)
    requires LexLeq(a, b) && LexLeq(b, c)
    ensures LexLeq(a, c)
  {
    if a != "" && a[0] == b[0] && b[0] == c[0] {
      LexTransitive(a[1..], b[1..], c[1..]);
    }
  }
}
