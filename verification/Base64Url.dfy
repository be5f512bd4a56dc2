/** Padded base64 with the URL and filename safe alphabet (section 5 of RFC 4648), on ASCII text. */
module Base64Url {
  import opened Prelude

  predicate IsAscii(s: string) {
    forall i :: 0 <= i < |s| ==> s[i] as int < 128
  }

  function Symbol(n: nat): (c: char)
    requires n < 64
    ensures c != '='
  {
    if n < 26 then ('A' as int + n) as char
    else if n < 52 then ('a' as int + n - 26) as char
    else if n < 62 then ('0' as int + n - 52) as char
    else if n == 62 then '-'
    else '_'
  }

  function SymbolValue(c: char): (r: Option<nat>)
    ensures r.Some? ==> r.value < 64
  {
    if 'A' <= c <= 'Z' then Some(c as int - 'A' as int)
    else if 'a' <= c <= 'z' then Some(c as int - 'a' as int + 26)
    else if '0' <= c <= '9' then Some(c as int - '0' as int + 52)
    else if c == '-' then Some(62)
    else if c == '_' then Some(63)
    else None
  }

  lemma {:induction false} SymbolHasItsValue(n: nat)
    requires n < 64
    ensures SymbolValue(Symbol(n)) == Some(n)
  {
  }

  function Encode(s: string): string
    requires IsAscii(s)
  {
    if s == [] then []
    else
      var a := s[0] as int;
      if |s| == 1 then EncodeBlock(a, 0, 0)[..2] + "=="
      else if |s| == 2 then EncodeBlock(a, s[1] as int, 0)[..3] + "="
      else EncodeBlock(a, s[1] as int, s[2] as int) + Encode(s[3..])
  }

  /** Three bytes as four symbols of six bits. */
  function EncodeBlock(a: nat, b: nat, c: nat): (s: string)
    requires a < 128 && b < 128 && c < 128
    ensures |s| == 4 && s[2] != '=' && s[3] != '='
  {
    [Symbol(a / 4), Symbol(a % 4 * 16 + b / 16), Symbol(b % 16 * 4 + c / 64), Symbol(c % 64)]
  }

  /** Four symbols as three bytes; the bits of a missing symbol are zero. */
  function DecodeBlock(s: string): Option<(nat, nat, nat)>
    requires |s| == 4
  {
    var a, b := SymbolValue(s[0]), SymbolValue(s[1]);
    var c := if s[2] == '=' then Some(0) else SymbolValue(s[2]);
    var d := if s[3] == '=' then Some(0) else SymbolValue(s[3]);
    if a.None? || b.None? || c.None? || d.None? then None
    else Some((a.value * 4 + b.value / 16, b.value % 16 * 16 + c.value / 4, c.value % 4 * 64 + d.value))
  }

  /** Bytes outside ASCII are refused: no text the encoder writes holds one. */
  function Decode(s: string): Option<string> {
    if s == [] then Some([])
    else if |s| < 4 then None
    else
      var block := DecodeBlock(s[..4]);
      if block.None? then None
      else
        var (a, b, c) := block.value;
        if a >= 128 || b >= 128 || c >= 128 then None
        else if s[2..] == "==" then Some([a as char])
        else if s[2] == '=' then None
        else if s[3..] == "=" then Some([a as char, b as char])
        else if s[3] == '=' then None
        else
          var rest := Decode(s[4..]);
          if rest.None? then None else Some([a as char, b as char, c as char] + rest.value)
  }

  // ---- Round trip ----

  lemma {:induction false} SextetsMakeBytes(a: nat, b: nat, c: nat)
    requires a < 128 && b < 128 && c < 128
    ensures a / 4 * 4 + (a % 4 * 16 + b / 16) / 16 == a
    ensures (a % 4 * 16 + b / 16) % 16 * 16 + (b % 16 * 4 + c / 64) / 4 == b
    ensures (b % 16 * 4 + c / 64) % 4 * 64 + c % 64 == c
  {
  }

  lemma {:induction false} BlockDecodes(a: nat, b: nat, c: nat, s: string)
    requires a < 128 && b < 128 && c < 128 && |s| == 4
    requires var e := EncodeBlock(a, b, c);
             && s[..2] == e[..2]
             && (s[2] == e[2] || (s[2] == '=' && b == 0 && c == 0))
             && (s[3] == e[3] || (s[3] == '=' && c == 0))
    ensures DecodeBlock(s) == Some((a, b, c))
  {
    var e := EncodeBlock(a, b, c);
    assert s[0] == s[..2][0] == e[0] && s[1] == s[..2][1] == e[1];
    SymbolHasItsValue(a / 4);
    SymbolHasItsValue(a % 4 * 16 + b / 16);
    SymbolHasItsValue(b % 16 * 4 + c / 64);
    SymbolHasItsValue(c % 64);
    SextetsMakeBytes(a, b, c);
  }

  /** What Decode makes of a first block with three, two and one bytes. */
  lemma {:induction false} FullBlock(e: string, a: nat, b: nat, c: nat, text: string, rest: string)
    requires |e| == 4 && e[2] != '=' && e[3] != '='
    requires a < 128 && b < 128 && c < 128 && DecodeBlock(e) == Some((a, b, c))
    requires Decode(text) == Some(rest)
    ensures Decode(e + text) == Some([a as char, b as char, c as char] + rest)
  {
    assert (e + text)[..4] == e && (e + text)[4..] == text;
    assert (e + text)[2..][0] == e[2] && (e + text)[3..][0] == e[3];
  }

  lemma {:induction false} TwoByteBlock(e: string, a: nat, b: nat)
    requires |e| == 4 && e[2] != '=' && e[3] == '='
    requires a < 128 && b < 128 && DecodeBlock(e) == Some((a, b, 0))
    ensures Decode(e) == Some([a as char, b as char])
  {
    assert e[..4] == e && e[3..] == "=" && e[2..][0] == e[2];
  }

  lemma {:induction false} OneByteBlock(e: string, a: nat)
    requires |e| == 4 && e[2] == '=' && e[3] == '='
    requires a < 128 && DecodeBlock(e) == Some((a, 0, 0))
    ensures Decode(e) == Some([a as char])
  {
    assert e[..4] == e && e[2..] == "==";
  }

  lemma {:induction false} ShortDecodes(s: string)
    requires IsAscii(s) && 1 <= |s| <= 2
    ensures Decode(Encode(s)) == Some(s)
  {
    var a := s[0] as int;
    if |s| == 2 {
      var b := s[1] as int;
      var e := EncodeBlock(a, b, 0)[..3] + "=";
      BlockDecodes(a, b, 0, e);
      TwoByteBlock(e, a, b);
      assert s == [a as char, b as char];
    } else {
      var e := EncodeBlock(a, 0, 0)[..2] + "==";
      BlockDecodes(a, 0, 0, e);
      OneByteBlock(e, a);
      assert s == [a as char];
    }
  }

  lemma {:induction false} DecodeEncode(s: string)
    requires IsAscii(s)
    ensures Decode(Encode(s)) == Some(s)
  {
    if 1 <= |s| <= 2 {
      ShortDecodes(s);
    } else if |s| > 2 {
      DecodeEncode(s[3..]);
      LongReadsBack(s);
    }
  }

  lemma {:induction false} LongReadsBack(s: string)
    requires IsAscii(s) && |s| > 2 && Decode(Encode(s[3..])) == Some(s[3..])
    ensures Decode(Encode(s)) == Some(s)
  {
    var rest := s[3..];
    LongEncodes(s);
    LongDecodes(s[0] as int, s[1] as int, s[2] as int, Encode(rest), rest);
    ThreeMore(s[0], s[1], s[2], rest);
    assert s == [s[0], s[1], s[2]] + rest;
  }

  lemma {:induction false} ThreeMore(a: char, b: char, c: char, rest: string)
    requires a as int < 128 && b as int < 128 && c as int < 128
    ensures [a as int as char, b as int as char, c as int as char] + rest == [a, b, c] + rest
  {
  }

  lemma {:induction false} LongEncodes(s: string)
    requires IsAscii(s) && |s| > 2
    ensures Encode(s) == EncodeBlock(s[0] as int, s[1] as int, s[2] as int) + Encode(s[3..])
  {
  }

  lemma {:induction false} LongDecodes(a: nat, b: nat, c: nat, text: string, rest: string)
    requires a < 128 && b < 128 && c < 128 && Decode(text) == Some(rest)
    ensures Decode(EncodeBlock(a, b, c) + text) == Some([a as char, b as char, c as char] + rest)
  {
    var e := EncodeBlock(a, b, c);
    BlockDecodes(a, b, c, e);
    FullBlock(e, a, b, c, text, rest);
  }
}
