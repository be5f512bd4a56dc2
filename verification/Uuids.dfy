/** UUIDs, the text str(uuid) writes (section 4 of RFC 9562), and the texts uuid.UUID(text) accepts. */
module Uuids {
  import opened Prelude
  import opened Text

  function Pow16(w: nat): (p: nat)
    ensures p > 0
  {
    if w == 0 then 1 else 16 * Pow16(w - 1)
  }

  /** The 128 bits as a number, which is also the order PostgreSQL compares uuid values by. */
  type Uuid = n: nat | n < Pow16(32) witness 0

  function HexText(n: nat, w: nat): (s: string)
    requires n < Pow16(w)
    ensures |s| == w
  {
    if w == 0 then [] else HexText(n / 16, w - 1) + [HexDigit(n % 16)]
  }

  /** Groups of 8, 4, 4, 4 and 12 lower-case digits. */
  function UuidText(u: Uuid): (s: string)
    ensures |s| == 36
  {
    var h := HexText(u, 32);
    h[..8] + "-" + h[8..12] + "-" + h[12..16] + "-" + h[16..20] + "-" + h[20..]
  }

  // ---- Reading ----

  function HexNumber(s: string): (r: Option<nat>)
    ensures r.Some? ==> r.value < Pow16(|s|)
  {
    if s == [] then Some(0)
    else
      var head, last := HexNumber(s[..|s| - 1]), HexValue(s[|s| - 1]);
      if head.None? || last.None? then None else Some(head.value * 16 + last.value)
  }

  /** str.replace(pattern, ""). */
  function Without(s: string, pattern: string): string
    requires pattern != []
  {
    if s == [] then []
    else if pattern <= s then Without(s[|pattern|..], pattern)
    else [s[0]] + Without(s[1..], pattern)
  }

  predicate IsBrace(c: char) {
    c == '{' || c == '}'
  }

  /** str.strip("{}"). */
  function WithoutBraces(s: string): string {
    if s == [] then []
    else if IsBrace(s[0]) then WithoutBraces(s[1..])
    else if IsBrace(s[|s| - 1]) then WithoutBraces(s[..|s| - 1])
    else s
  }

  function ParseUuid(s: string): Option<Uuid> {
    var digits := Without(WithoutBraces(Without(Without(s, "urn:"), "uuid:")), "-");
    if |digits| != 32 then None else HexNumber(digits)
  }

  // ---- What is written reads back, in any letter case ----

  function Lower(c: char): char {
    if 'A' <= c <= 'Z' then (c as int + 32) as char else c
  }

  /** The text equals `t` up to the case of its letters. */
  predicate SameUpToCase(s: string, t: string) {
    |s| == |t| && forall i :: 0 <= i < |s| ==> Lower(s[i]) == t[i]
  }

  predicate AllHex(s: string) {
    forall c | c in s :: HexValue(c).Some?
  }

  lemma {:induction false} HexTextReadsBack(n: nat, w: nat, s: string)
    requires n < Pow16(w)
    requires SameUpToCase(s, HexText(n, w))
    ensures AllHex(s) && HexNumber(s) == Some(n)
  {
    if w > 0 {
      var h := HexText(n, w);
      var head, last := s[..w - 1], s[w - 1];
      assert h[..w - 1] == HexText(n / 16, w - 1);
      forall i | 0 <= i < w - 1 ensures Lower(head[i]) == HexText(n / 16, w - 1)[i] {
        assert Lower(s[i]) == h[i];
      }
      HexTextReadsBack(n / 16, w - 1, head);
      assert Lower(last) == h[w - 1];
      CasedDigitIsRead(n % 16, last);
      assert s == head + [last];
      OneMoreDigit(head, last, n / 16, n % 16);
    }
  }

  lemma {:induction false} CasedDigitIsRead(n: nat, c: char)
    requires n < 16 && Lower(c) == HexDigit(n)
    ensures HexValue(c) == Some(n)
  {
    HexDigitHasItsValue(n);
  }

  lemma {:induction false} OneMoreDigit(head: string, last: char, high: nat, low: nat)
    requires AllHex(head) && HexNumber(head) == Some(high) && HexValue(last) == Some(low)
    ensures AllHex(head + [last]) && HexNumber(head + [last]) == Some(high * 16 + low)
  {
    assert (head + [last])[..|head|] == head;
  }

  lemma {:induction false} WithoutAbsent(s: string, pattern: string)
    requires pattern != [] && pattern[0] !in s
    ensures Without(s, pattern) == s
  {
    if s != [] {
      assert s[0] in s;
      WithoutAbsent(s[1..], pattern);
      assert s == [s[0]] + s[1..];
    }
  }

  lemma {:induction false} DashFirst(t: string)
    ensures Without("-" + t, "-") == Without(t, "-")
  {
    assert ("-" + t)[1..] == t;
  }

  lemma {:induction false} NoDashFirst(c: char, t: string)
    requires c != '-'
    ensures Without([c] + t, "-") == [c] + Without(t, "-")
  {
    var s := [c] + t;
    assert s[0] != "-"[0];
    assert s[1..] == t;
  }

  lemma {:induction false} HeadFirst(c: char, s: string, middle: string, t: string)
    ensures [c] + s + middle + t == [c] + (s + middle + t)
  {
  }

  lemma {:induction false} WithoutDashes(s: string, t: string)
    requires AllHex(s)
    ensures Without(s + "-" + t, "-") == s + Without(t, "-")
  {
    if s == [] {
      assert s + "-" + t == "-" + t;
      DashFirst(t);
    } else {
      assert HexValue(s[0]).Some? by { assert s[0] in s; }
      assert s == [s[0]] + s[1..];
      HeadFirst(s[0], s[1..], "-", t);
      NoDashFirst(s[0], s[1..] + "-" + t);
      WithoutDashes(s[1..], t);
      assert s + Without(t, "-") == [s[0]] + (s[1..] + Without(t, "-"));
    }
  }

  /** uuid.UUID reads the text of a UUID back whatever the case of its letters. */
  lemma {:induction false} ParseCasedText(u: Uuid, s: string)
    requires SameUpToCase(s, UuidText(u))
    ensures ParseUuid(s) == Some(u)
  {
    var h := HexText(u, 32);
    var d := s[..8] + s[9..13] + s[14..18] + s[19..23] + s[24..];
    CasedDigits(u, s, d);
    HexTextReadsBack(u, 32, d);
    CasedParts(u, s, d);
    forall c | c in s ensures c == '-' || HexValue(c).Some? {
      if c != '-' { assert c in d; }
    }
    NothingToStrip(s);
    DashesRemoved(s, d);
    assert |d| == 32;
  }

  /** A text of digits and dashes has no prefix or brace to remove. */
  lemma {:induction false} NothingToStrip(s: string)
    requires s != [] && forall c | c in s :: c == '-' || HexValue(c).Some?
    ensures WithoutBraces(Without(Without(s, "urn:"), "uuid:")) == s
  {
    assert HexValue('u').None? && HexValue('{').None? && HexValue('}').None?;
    WithoutAbsent(s, "urn:");
    WithoutAbsent(s, "uuid:");
    assert s[0] in s && s[|s| - 1] in s;
  }

  lemma {:induction false} CasedDigits(u: Uuid, s: string, d: string)
    requires SameUpToCase(s, UuidText(u))
    requires d == s[..8] + s[9..13] + s[14..18] + s[19..23] + s[24..]
    ensures SameUpToCase(d, HexText(u, 32))
  {
    var h := HexText(u, 32);
    var t := UuidText(u);
    assert t[..8] == h[..8] && t[9..13] == h[8..12] && t[14..18] == h[12..16];
    assert t[19..23] == h[16..20] && t[24..] == h[20..];
    forall i | 0 <= i < 32 ensures Lower(d[i]) == h[i] {
      if i < 8 { assert d[i] == s[i] && t[..8][i] == h[..8][i]; }
      else if i < 12 { assert d[i] == s[i + 1] && t[9..13][i - 8] == h[8..12][i - 8]; }
      else if i < 16 { assert d[i] == s[i + 2] && t[14..18][i - 12] == h[12..16][i - 12]; }
      else if i < 20 { assert d[i] == s[i + 3] && t[19..23][i - 16] == h[16..20][i - 16]; }
      else { assert d[i] == s[i + 4] && t[24..][i - 20] == h[20..][i - 20]; }
    }
  }

  /** Outside the digits there are only the four dashes. */
  lemma {:induction false} CasedParts(u: Uuid, s: string, d: string)
    requires SameUpToCase(s, UuidText(u))
    requires d == s[..8] + s[9..13] + s[14..18] + s[19..23] + s[24..]
    ensures s == s[..8] + "-" + (s[9..13] + "-" + (s[14..18] + "-" + (s[19..23] + "-" + s[24..])))
    ensures forall c | c in s :: c == '-' || c in d
  {
    var t := UuidText(u);
    assert t[8] == '-' && t[13] == '-' && t[18] == '-' && t[23] == '-';
    assert Lower(s[8]) == t[8] && Lower(s[13]) == t[13] && Lower(s[18]) == t[18] && Lower(s[23]) == t[23];
  }

  lemma {:induction false} DashesRemoved(s: string, d: string)
    requires |s| == 36
    requires d == s[..8] + s[9..13] + s[14..18] + s[19..23] + s[24..] && AllHex(d)
    requires s == s[..8] + "-" + (s[9..13] + "-" + (s[14..18] + "-" + (s[19..23] + "-" + s[24..])))
    ensures Without(s, "-") == d
  {
    var e := s[24..];
    assert forall c :: c in d <==> c in s[..8] || c in s[9..13] || c in s[14..18] || c in s[19..23] || c in e;
    FourDashes(s[..8], s[9..13], s[14..18], s[19..23], e);
    assert s[..8] + (s[9..13] + (s[14..18] + (s[19..23] + e))) == d;
  }

  lemma {:induction false} FourDashes(a: string, b: string, c: string, d: string, e: string)
    requires AllHex(a) && AllHex(b) && AllHex(c) && AllHex(d) && AllHex(e)
    ensures Without(a + "-" + (b + "-" + (c + "-" + (d + "-" + e))), "-") == a + (b + (c + (d + e)))
  {
    WithoutDashes(a, b + "-" + (c + "-" + (d + "-" + e)));
    WithoutDashes(b, c + "-" + (d + "-" + e));
    WithoutDashes(c, d + "-" + e);
    WithoutDashes(d, e);
    assert HexValue('-').None?;
    WithoutAbsent(e, "-");
  }

  lemma {:induction false} ParseText(u: Uuid)
    ensures ParseUuid(UuidText(u)) == Some(u)
  {
    var h := HexText(u, 32);
    HexTextIsLower(u, 32);
    forall i | 0 <= i < 36 ensures Lower(UuidText(u)[i]) == UuidText(u)[i] {
      assert UuidText(u)[i] in h || UuidText(u)[i] == '-';
    }
    ParseCasedText(u, UuidText(u));
  }

  lemma {:induction false} HexTextIsLower(n: nat, w: nat)
    requires n < Pow16(w)
    ensures forall c | c in HexText(n, w) :: Lower(c) == c
  {
    if w > 0 {
      HexTextIsLower(n / 16, w - 1);
    }
  }

  lemma {:induction false} UuidTextIsInjective(u: Uuid, v: Uuid)
    requires UuidText(u) == UuidText(v)
    ensures u == v
  {
    ParseText(u);
    ParseText(v);
  }

  // ---- One text for each UUID ----

  predicate IsLowerHex(c: char) {
    '0' <= c <= '9' || 'a' <= c <= 'f'
  }

  /** Five groups of 8, 4, 4, 4 and 12 lower-case digits, with dashes between them. */
  predicate IsGrouped(s: string) {
    && |s| == 36 && s[8] == '-' && s[13] == '-' && s[18] == '-' && s[23] == '-'
    && forall i | 0 <= i < 36 && i != 8 && i != 13 && i != 18 && i != 23 :: IsLowerHex(s[i])
  }

  lemma {:induction false} LowerDigitIsWritten(c: char, n: nat)
    requires IsLowerHex(c) && HexValue(c) == Some(n)
    ensures n < 16 && c == HexDigit(n)
  {
    HexDigitHasItsValue(n);
  }

  lemma {:induction false} HexTextIsUnique(s: string, n: nat)
    requires (forall c | c in s :: IsLowerHex(c)) && HexNumber(s) == Some(n)
    ensures n < Pow16(|s|) && s == HexText(n, |s|)
  {
    if s != [] {
      var head, last := s[..|s| - 1], s[|s| - 1];
      assert last in s && s == head + [last];
      var high, low := HexNumber(head).value, HexValue(last).value;
      HexTextIsUnique(head, high);
      LowerDigitIsWritten(last, low);
      HighAndLowDigits(n, high, low);
      HexTextOfDigits(n, high, low, |s|);
    }
  }

  lemma {:induction false} HighAndLowDigits(n: nat, high: nat, low: nat)
    requires n == high * 16 + low && low < 16
    ensures n / 16 == high && n % 16 == low
  {
  }

  lemma {:induction false} HexTextOfDigits(n: nat, high: nat, low: nat, w: nat)
    requires w > 0 && high < Pow16(w - 1) && n == high * 16 + low && low < 16
    ensures n < Pow16(w) && HexText(n, w) == HexText(high, w - 1) + [HexDigit(low)]
  {
    HighAndLowDigits(n, high, low);
  }

  lemma {:induction false} DigitsOf(s: string)
    requires IsGrouped(s)
    ensures var d := s[..8] + s[9..13] + s[14..18] + s[19..23] + s[24..];
            && |d| == 32 && (forall c | c in d :: IsLowerHex(c)) && ParseUuid(s) == HexNumber(d)
            && s == d[..8] + "-" + d[8..12] + "-" + d[12..16] + "-" + d[16..20] + "-" + d[20..]
  {
    var d := s[..8] + s[9..13] + s[14..18] + s[19..23] + s[24..];
    forall c | c in d ensures IsLowerHex(c) {
    }
    assert s == s[..8] + "-" + (s[9..13] + "-" + (s[14..18] + "-" + (s[19..23] + "-" + s[24..])));
    forall c | c in s ensures c == '-' || HexValue(c).Some? {
    }
    NothingToStrip(s);
    DashesRemoved(s, d);
    assert d[..8] == s[..8] && d[8..12] == s[9..13] && d[12..16] == s[14..18] && d[16..20] == s[19..23]
           && d[20..] == s[24..];
  }

  lemma {:induction false} TextIsGrouped(u: Uuid)
    ensures IsGrouped(UuidText(u))
  {
    HexTextIsLowerHex(u, 32);
    var h := HexText(u, 32);
    forall i | 0 <= i < 32 ensures IsLowerHex(h[i]) {
      assert h[i] in h;
    }
  }

  lemma {:induction false} HexTextIsLowerHex(n: nat, w: nat)
    requires n < Pow16(w)
    ensures forall c | c in HexText(n, w) :: IsLowerHex(c)
  {
    if w > 0 {
      HexTextIsLowerHex(n / 16, w - 1);
      HexDigitHasItsValue(n % 16);
    }
  }

  /** str(uuid) is the one text in five groups of lower-case digits that names the UUID. */
  lemma {:induction false} UuidTextIsTheSpelling(u: Uuid, s: string)
    ensures s == UuidText(u) <==> IsGrouped(s) && ParseUuid(s) == Some(u)
  {
    TextIsGrouped(u);
    ParseText(u);
    if IsGrouped(s) && ParseUuid(s) == Some(u) {
      DigitsOf(s);
      HexTextIsUnique(s[..8] + s[9..13] + s[14..18] + s[19..23] + s[24..], u);
    }
  }
}
