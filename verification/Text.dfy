/** Text as Python sees it: code point order, sorting of distinct strings, str.strip(), and digits. */
module Text {
  import opened Prelude

  // ---- Order ----

  /** The order `sorted` uses on str: lexicographic by code point, a proper prefix first. */
  predicate Less(a: string, b: string) {
    if b == [] then false
    else if a == [] then true
    else a[0] < b[0] || (a[0] == b[0] && Less(a[1..], b[1..]))
  }

  lemma {:induction false} LessIsTotal(a: string, b: string)
    ensures a == b || Less(a, b) || Less(b, a)
  {
    if a != [] && b != [] && a[0] == b[0] {
      LessIsTotal(a[1..], b[1..]);
      assert a == [a[0]] + a[1..] && b == [b[0]] + b[1..];
    }
  }

  lemma {:induction false} LessIsTransitive(a: string, b: string, c: string)
    requires Less(a, b) && Less(b, c)
    ensures Less(a, c)
  {
    if a != [] && a[0] == b[0] == c[0] {
      LessIsTransitive(a[1..], b[1..], c[1..]);
    }
  }

  lemma {:induction false} LessIsIrreflexive(a: string)
    ensures !Less(a, a)
  {
    if a != [] {
      LessIsIrreflexive(a[1..]);
    }
  }

  lemma {:induction false} LessIsAsymmetric(a: string, b: string)
    ensures !(Less(a, b) && Less(b, a))
  {
    if Less(a, b) && Less(b, a) {
      LessIsTransitive(a, b, a);
      LessIsIrreflexive(a);
    }
  }

  // ---- Sorting distinct strings ----

  ghost predicate StrictlyAscending(s: seq<string>) {
    forall i, j :: 0 <= i < j < |s| ==> Less(s[i], s[j])
  }

  predicate IsLeast(k: string, s: set<string>) {
    k in s && forall j | j in s :: j == k || Less(k, j)
  }

  lemma {:induction false} LeastExists(s: set<string>)
    requires s != {}
    ensures exists k :: IsLeast(k, s)
  {
    var x :| x in s;
    if s == {x} {
      assert IsLeast(x, s);
    } else {
      var rest := s - {x};
      assert s == {x} + rest;
      LeastExists(rest);
      var k :| IsLeast(k, rest);
      LessIsTotal(k, x);
      if Less(x, k) {
        forall j | j in s ensures j == x || Less(x, j) {
          if j != x && j != k { LessIsTransitive(x, k, j); }
        }
        assert IsLeast(x, s);
      } else {
        assert IsLeast(k, s);
      }
    }
  }

  lemma {:induction false} LeastIsUnique(s: set<string>)
    ensures forall j, k :: IsLeast(j, s) && IsLeast(k, s) ==> j == k
  {
    forall j, k | IsLeast(j, s) && IsLeast(k, s) ensures j == k {
      LessIsAsymmetric(j, k);
    }
  }

  function Least(s: set<string>): (k: string)
    requires s != {}
    ensures IsLeast(k, s)
  {
    LeastExists(s);
    LeastIsUnique(s);
    var k :| k in s && IsLeast(k, s); k
  }

  /** The members of a set in ascending order: what `sorted` gives for distinct strings. */
  function Listing(s: set<string>): (r: seq<string>)
    ensures StrictlyAscending(r)
    ensures Members(r) == s
    ensures |r| == |s|
  {
    if s == {} then [] else
      var k := Least(s);
      var rest := Listing(s - {k});
      assert forall x :: x in rest <==> x in Members(rest);
      [k] + rest
  }

  lemma {:induction false} AscendingHasNoDuplicates(s: seq<string>)
    requires StrictlyAscending(s)
    ensures NoDuplicates(s)
  {
    forall i, j | 0 <= i < j < |s| ensures s[i] != s[j] {
      LessIsIrreflexive(s[i]);
    }
  }

  /** Two ascending listings of the same members are the same listing. */
  lemma {:induction false} AscendingIsUnique(a: seq<string>, b: seq<string>)
    requires StrictlyAscending(a) && StrictlyAscending(b)
    requires Members(a) == Members(b)
    ensures a == b
  {
    assert a != [] ==> a[0] in Members(b);
    assert b != [] ==> b[0] in Members(a);
    if a != [] && b != [] {
      if a[0] != b[0] {
        var i :| 0 <= i < |b| && b[i] == a[0];
        var j :| 0 <= j < |a| && a[j] == b[0];
        assert Less(b[0], a[0]) && Less(a[0], b[0]);
        LessIsAsymmetric(a[0], b[0]);
      }
      AscendingHasNoDuplicates(a);
      AscendingHasNoDuplicates(b);
      TailMembers(a);
      TailMembers(b);
      AscendingIsUnique(a[1..], b[1..]);
      assert a == [a[0]] + a[1..] && b == [b[0]] + b[1..];
    }
  }

  lemma {:induction false} TailMembers(s: seq<string>)
    requires s != [] && NoDuplicates(s)
    ensures Members(s[1..]) == Members(s) - {s[0]}
  {
    forall x ensures x in Members(s[1..]) <==> x in Members(s) - {s[0]} {
      if x in Members(s) - {s[0]} {
        var i :| 0 <= i < |s| && s[i] == x;
        assert s[1..][i - 1] == x;
      }
      if x in Members(s[1..]) {
        var i :| 0 <= i < |s[1..]| && s[1..][i] == x;
        assert s[i + 1] == x;
      }
    }
  }

  function Inserted(x: string, s: seq<string>): seq<string> {
    if s == [] || Less(x, s[0]) || x == s[0] then [x] + s else [s[0]] + Inserted(x, s[1..])
  }

  /** sorted(s). */
  function Sorted(s: seq<string>): seq<string> {
    if s == [] then [] else Inserted(s[0], Sorted(s[1..]))
  }

  lemma {:induction false} InsertedAscends(x: string, s: seq<string>)
    requires StrictlyAscending(s) && x !in s
    ensures StrictlyAscending(Inserted(x, s))
    ensures forall y :: y in Inserted(x, s) <==> y == x || y in s
  {
    if s != [] {
      LessIsTotal(x, s[0]);
      if Less(x, s[0]) {
        forall j | 0 <= j < |s| ensures Less(x, s[j]) {
          if j > 0 { LessIsTransitive(x, s[0], s[j]); }
        }
      } else {
        InsertedAscends(x, s[1..]);
        var t := Inserted(x, s[1..]);
        forall j | 0 <= j < |t| ensures Less(s[0], t[j]) {
          assert t[j] in t;
          if t[j] != x {
            var i :| 0 <= i < |s[1..]| && s[1..][i] == t[j];
            assert s[i + 1] == t[j];
          }
        }
      }
    }
  }

  /** Sorting distinct strings lists their set: neither order nor repetition of the input shows. */
  lemma {:induction false} SortedDistinct(s: seq<string>)
    requires NoDuplicates(s)
    ensures Sorted(s) == Listing(Members(s))
  {
    SortedAscends(s);
    AscendingIsUnique(Sorted(s), Listing(Members(s)));
  }

  lemma {:induction false} SortedAscends(s: seq<string>)
    requires NoDuplicates(s)
    ensures StrictlyAscending(Sorted(s))
    ensures forall y :: y in Sorted(s) <==> y in s
  {
    if s != [] {
      assert s[0] !in s[1..];
      SortedAscends(s[1..]);
      InsertedAscends(s[0], Sorted(s[1..]));
      assert s == [s[0]] + s[1..];
    }
  }

  // ---- Whitespace ----

  /** The characters str.strip() removes. */
  predicate IsSpace(c: char) {
    var n := c as int;
    (9 <= n <= 13) || (28 <= n <= 32) || n == 0x85 || n == 0xA0 || n == 0x1680 ||
    (0x2000 <= n <= 0x200A) || n == 0x2028 || n == 0x2029 || n == 0x202F || n == 0x205F || n == 0x3000
  }

  function StripLeft(s: string): string {
    if s != [] && IsSpace(s[0]) then StripLeft(s[1..]) else s
  }

  function StripRight(s: string): string {
    if s != [] && IsSpace(s[|s| - 1]) then StripRight(s[..|s| - 1]) else s
  }

  function Strip(s: string): string {
    StripRight(StripLeft(s))
  }

  lemma {:induction false} StripLeftEnds(s: string)
    ensures StripLeft(s) == [] || !IsSpace(StripLeft(s)[0])
  {
    if s != [] && IsSpace(s[0]) { StripLeftEnds(s[1..]); }
  }

  lemma {:induction false} StripRightEnds(s: string)
    ensures var r := StripRight(s); r <= s && (r == [] || !IsSpace(r[|r| - 1]))
  {
    if s != [] && IsSpace(s[|s| - 1]) { StripRightEnds(s[..|s| - 1]); }
  }

  lemma {:induction false} StripIsIdempotent(s: string)
    ensures Strip(Strip(s)) == Strip(s)
  {
    StripLeftEnds(s);
    StripRightEnds(StripLeft(s));
  }

  /** Nothing but white space. */
  predicate IsBlank(s: string) {
    forall c | c in s :: IsSpace(c)
  }

  lemma {:induction false} BlankStripsToNothing(s: string)
    ensures Strip(s) == [] <==> IsBlank(s)
  {
    LeftBlank(s);
    StripLeftEnds(s);
    RightBlank(StripLeft(s));
    if StripLeft(s) != [] {
      assert StripLeft(s)[0] in StripLeft(s);
    }
  }

  lemma {:induction false} LeftBlank(s: string)
    ensures StripLeft(s) == [] <==> IsBlank(s)
  {
    if s != [] {
      assert s[0] in s;
      if IsSpace(s[0]) {
        LeftBlank(s[1..]);
        assert s == [s[0]] + s[1..];
      }
    }
  }

  lemma {:induction false} RightBlank(s: string)
    ensures StripRight(s) == [] <==> IsBlank(s)
  {
    if s != [] {
      var last := s[|s| - 1];
      assert last in s;
      if IsSpace(last) {
        RightBlank(s[..|s| - 1]);
        assert s == s[..|s| - 1] + [last];
      }
    }
  }

  // ---- Digits ----

  function HexDigit(n: nat): (c: char)
    requires n < 16
  {
    "0123456789abcdef"[n]
  }

  /** The value of a hexadecimal digit in either letter case. */
  function HexValue(c: char): (r: Option<nat>)
    ensures r.Some? ==> r.value < 16
  {
    if '0' <= c <= '9' then Some(c as int - '0' as int)
    else if 'a' <= c <= 'f' then Some(c as int - 'a' as int + 10)
    else if 'A' <= c <= 'F' then Some(c as int - 'A' as int + 10)
    else None
  }

  lemma {:induction false} HexDigitHasItsValue(n: nat)
    requires n < 16
    ensures HexValue(HexDigit(n)) == Some(n)
    ensures HexDigit(n) in "0123456789abcdef"
  {
  }

  predicate IsDigit(c: char) {
    '0' <= c <= '9'
  }

  function Digit(n: nat): (c: char)
    requires n < 10
    ensures IsDigit(c) && c as int - '0' as int == n
  {
    ('0' as int + n) as char
  }

  /** Decimal text without leading zeros. */
  function NatText(n: nat): string {
    if n < 10 then [Digit(n)] else NatText(n / 10) + [Digit(n % 10)]
  }

  function IntText(n: int): string {
    if n < 0 then "-" + NatText(-n) else NatText(n)
  }

  predicate AllDigits(s: string) {
    forall c | c in s :: IsDigit(c)
  }

  function NatValue(s: string): nat
    requires AllDigits(s)
  {
    if s == [] then 0
    else
      assert IsDigit(s[|s| - 1]);
      NatValue(s[..|s| - 1]) * 10 + (s[|s| - 1] as int - '0' as int)
  }

  lemma {:induction false} NatTextReadsBack(n: nat)
    ensures NatText(n) != [] && AllDigits(NatText(n)) && NatValue(NatText(n)) == n
  {
    if n >= 10 {
      NatTextReadsBack(n / 10);
      assert NatText(n)[..|NatText(n)| - 1] == NatText(n / 10);
    }
  }

  /** The longest prefix of digits. */
  function DigitRun(s: string): (k: nat)
    ensures k <= |s| && AllDigits(s[..k])
    ensures k < |s| ==> !IsDigit(s[k])
  {
    if s == [] || !IsDigit(s[0]) then 0
    else
      assert s[..1 + DigitRun(s[1..])] == [s[0]] + s[1..][..DigitRun(s[1..])];
      1 + DigitRun(s[1..])
  }

  lemma {:induction false} DigitRunOfText(d: string, rest: string)
    requires AllDigits(d)
    requires rest == [] || !IsDigit(rest[0])
    ensures DigitRun(d + rest) == |d|
  {
    if d == [] {
      assert d + rest == rest;
    } else {
      assert (d + rest)[1..] == d[1..] + rest;
      DigitRunOfText(d[1..], rest);
    }
  }

  // ---- Fixed width decimals, as datetime.isoformat() writes them ----

  function Pow10(w: nat): (p: nat)
    ensures p > 0
  {
    if w == 0 then 1 else 10 * Pow10(w - 1)
  }

  function Padded(n: nat, w: nat): (s: string)
    requires n < Pow10(w)
    ensures |s| == w
  {
    if w == 0 then [] else Padded(n / 10, w - 1) + [Digit(n % 10)]
  }

  lemma {:induction false} PaddedReadsBack(n: nat, w: nat)
    requires n < Pow10(w)
    ensures AllDigits(Padded(n, w)) && NatValue(Padded(n, w)) == n
  {
    if w > 0 {
      PaddedReadsBack(n / 10, w - 1);
      assert Padded(n, w)[..w - 1] == Padded(n / 10, w - 1);
    }
  }
}
