/**
  * JSON values, the compact text `json.dumps(value, sort_keys=True, separators=(",", ":"))` writes for
  * them, and a reader of that text (sections 4 to 7 of RFC 8259, without white space, fractions or
  * exponents).  Objects are maps, so equality of values ignores the order of members.
  */
module Json {
  import opened Prelude
  import opened Text

  datatype Json =
    | Null
    | Bool(b: bool)
    | Num(n: int)
    | Str(s: string)
    | Arr(items: seq<Json>)
    | Obj(fields: map<string, Json>)

  // ---- Writing ----

  function Hex4(n: nat): (s: string)
    requires n < 0x10000
    ensures |s| == 4
  {
    [HexDigit(n / 4096), HexDigit(n / 256 % 16), HexDigit(n / 16 % 16), HexDigit(n % 16)]
  }

  function CodeUnit(n: nat): (s: string)
    requires n < 0x10000
    ensures |s| == 6
  {
    "\\u" + Hex4(n)
  }

  /** One character under ensure_ascii: everything outside ' '..'~' becomes \u escapes. */
  function EscapeChar(c: char): (s: string)
    ensures s != [] && s[0] != '"'
  {
    var n := c as int;
    if c == '"' then "\\\""
    else if c == '\\' then "\\\\"
    else if n == 10 then "\\n"
    else if n == 13 then "\\r"
    else if n == 9 then "\\t"
    else if n == 12 then "\\f"
    else if n == 8 then "\\b"
    else if 32 <= n <= 126 then [c]
    else if n < 0x10000 then CodeUnit(n)
    else CodeUnit(0xD800 + (n - 0x10000) / 0x400) + CodeUnit(0xDC00 + (n - 0x10000) % 0x400)
  }

  function Escape(s: string): string {
    if s == [] then [] else EscapeChar(s[0]) + Escape(s[1..])
  }

  function PrintString(s: string): string {
    "\"" + Escape(s) + "\""
  }

  /** The canonical text: members of objects in ascending key order. */
  function Print(v: Json): string
    decreases v, 1, 0
  {
    match v
    case Null => "null"
    case Bool(b) => if b then "true" else "false"
    case Num(n) => IntText(n)
    case Str(s) => PrintString(s)
    case Arr(items) => "[" + PrintItems(v, 0) + "]"
    case Obj(fields) =>
      var keys := Listing(fields.Keys);
      assert forall k | k in keys :: k in Members(keys);
      "{" + PrintMembers(v, keys) + "}"
  }

  function PrintItems(v: Json, i: nat): string
    requires v.Arr? && i <= |v.items|
    decreases v, 0, |v.items| - i
  {
    if i == |v.items| then []
    else Print(v.items[i]) + (if i + 1 == |v.items| then [] else "," + PrintItems(v, i + 1))
  }

  /** The members named by `keys`, in that order. */
  function PrintMembers(v: Json, keys: seq<string>): string
    requires v.Obj? && forall k | k in keys :: k in v.fields
    decreases v, 0, |keys|
  {
    if keys == [] then []
    else
      PrintMember(v, keys[0]) + (if |keys| == 1 then [] else "," + PrintMembers(v, keys[1..]))
  }

  function PrintMember(v: Json, key: string): string
    requires v.Obj? && key in v.fields
    decreases v, 0, 0
  {
    PrintString(key) + (":" + Print(v.fields[key]))
  }

  // ---- Reading ----

  function ReadHex4(s: string): (r: Option<nat>)
    ensures r.Some? ==> |s| >= 4 && r.value < 0x10000
  {
    if |s| < 4 then None
    else
      var a, b, c, d := HexValue(s[0]), HexValue(s[1]), HexValue(s[2]), HexValue(s[3]);
      if a.None? || b.None? || c.None? || d.None? then None
      else Some(a.value * 4096 + b.value * 256 + c.value * 16 + d.value)
  }

  /** A \u escape after its first two characters; a surrogate must come in a pair. */
  function ReadUnicode(s: string): (r: Option<(char, string)>)
    ensures r.Some? ==> |r.value.1| < |s|
  {
    var hi := ReadHex4(s);
    if hi.None? then None
    else if hi.value < 0xD800 || 0xE000 <= hi.value then Some((hi.value as char, s[4..]))
    else if 0xDC00 <= hi.value || |s| < 6 || s[4] != '\\' || s[5] != 'u' then None
    else
      var lo := ReadHex4(s[6..]);
      if lo.None? || lo.value < 0xDC00 || 0xE000 <= lo.value then None
      else Some(((0x10000 + (hi.value - 0xD800) * 0x400 + (lo.value - 0xDC00)) as char, s[10..]))
  }

  function ReadChar(s: string): (r: Option<(char, string)>)
    ensures r.Some? ==> |r.value.1| < |s|
  {
    if s == [] || s[0] < ' ' || s[0] == '"' then None
    else if s[0] != '\\' then Some((s[0], s[1..]))
    else if |s| < 2 then None
    else if s[1] == '"' || s[1] == '\\' || s[1] == '/' then Some((s[1], s[2..]))
    else if s[1] == 'n' then Some((10 as char, s[2..]))
    else if s[1] == 'r' then Some((13 as char, s[2..]))
    else if s[1] == 't' then Some((9 as char, s[2..]))
    else if s[1] == 'f' then Some((12 as char, s[2..]))
    else if s[1] == 'b' then Some((8 as char, s[2..]))
    else if s[1] == 'u' then ReadUnicode(s[2..])
    else None
  }

  /** The characters up to the closing quote. */
  function ReadChars(s: string): (r: Option<(string, string)>)
    ensures r.Some? ==> |r.value.1| < |s|
    decreases |s|
  {
    if s != [] && s[0] == '"' then Some(([], s[1..]))
    else
      var c := ReadChar(s);
      if c.None? then None
      else
        var cs := ReadChars(c.value.1);
        if cs.None? then None else Some(([c.value.0] + cs.value.0, cs.value.1))
  }

  function ReadNumber(s: string): (r: Option<(int, string)>)
    ensures r.Some? ==> |r.value.1| < |s|
  {
    var sign := if s != [] && s[0] == '-' then 1 else 0;
    var k := DigitRun(s[sign..]);
    if k == 0 then None
    else
      var n: int := NatValue(s[sign..][..k]);
      Some((if sign == 1 then -n else n, s[sign..][k..]))
  }

  function Read(s: string): (r: Option<(Json, string)>)
    ensures r.Some? ==> |r.value.1| < |s|
    decreases |s|, 1
  {
    if s == [] then None
    else if s[0] == 'n' then if "null" <= s then Some((Null, s[4..])) else None
    else if s[0] == 't' then if "true" <= s then Some((Bool(true), s[4..])) else None
    else if s[0] == 'f' then if "false" <= s then Some((Bool(false), s[5..])) else None
    else if s[0] == '"' then
      var r := ReadChars(s[1..]);
      if r.None? then None else Some((Str(r.value.0), r.value.1))
    else if s[0] == '[' then
      if |s| > 1 && s[1] == ']' then Some((Arr([]), s[2..]))
      else
        var r := ReadItems(s[1..]);
        if r.None? then None else Some((Arr(r.value.0), r.value.1))
    else if s[0] == '{' then
      if |s| > 1 && s[1] == '}' then Some((Obj(map[]), s[2..]))
      else
        var r := ReadMembers(s[1..]);
        if r.None? then None else Some((Obj(r.value.0), r.value.1))
    else
      var r := ReadNumber(s);
      if r.None? then None else Some((Num(r.value.0), r.value.1))
  }

  function ReadItems(s: string): (r: Option<(seq<Json>, string)>)
    ensures r.Some? ==> |r.value.1| < |s|
    decreases |s|, 2
  {
    var v := Read(s);
    if v.None? || v.value.1 == [] then None
    else if v.value.1[0] == ']' then Some(([v.value.0], v.value.1[1..]))
    else if v.value.1[0] != ',' then None
    else
      var vs := ReadItems(v.value.1[1..]);
      if vs.None? then None else Some(([v.value.0] + vs.value.0, vs.value.1))
  }

  function ReadMember(s: string): (r: Option<((string, Json), string)>)
    ensures r.Some? ==> |r.value.1| < |s|
    decreases |s|, 2
  {
    if s == [] || s[0] != '"' then None
    else
      var k := ReadChars(s[1..]);
      if k.None? || k.value.1 == [] || k.value.1[0] != ':' then None
      else
        var v := Read(k.value.1[1..]);
        if v.None? then None else Some(((k.value.0, v.value.0), v.value.1))
  }

  /** Members up to the closing brace; of two members with one key the later wins. */
  function ReadMembers(s: string): (r: Option<(map<string, Json>, string)>)
    ensures r.Some? ==> |r.value.1| < |s|
    decreases |s|, 3
  {
    var m := ReadMember(s);
    if m.None? || m.value.1 == [] then None
    else
      var ((k, v), rest) := m.value;
      if rest[0] == '}' then Some((map[k := v], rest[1..]))
      else if rest[0] != ',' then None
      else
        var ms := ReadMembers(rest[1..]);
        if ms.None? then None else Some((map[k := v] + ms.value.0, ms.value.1))
  }

  /** A whole text: one value and nothing after it. */
  function Parse(s: string): Option<Json> {
    var r := Read(s);
    if r.None? || r.value.1 != [] then None else Some(r.value.0)
  }

  // ---- What is written reads back ----

  lemma {:induction false} Hex4ReadsBack(n: nat, rest: string)
    requires n < 0x10000
    ensures ReadHex4(Hex4(n) + rest) == Some(n)
  {
    FourDigitsReadBack(n / 4096, n / 256 % 16, n / 16 % 16, n % 16, rest);
    HexDigitsSumUp(n);
  }

  lemma {:induction false} FourDigitsReadBack(a: nat, b: nat, c: nat, d: nat, rest: string)
    requires a < 16 && b < 16 && c < 16 && d < 16
    ensures ReadHex4([HexDigit(a), HexDigit(b), HexDigit(c), HexDigit(d)] + rest) ==
              Some(a * 4096 + b * 256 + c * 16 + d)
  {
    HexDigitIsRead(a);
    HexDigitIsRead(b);
    HexDigitIsRead(c);
    HexDigitIsRead(d);
    FourCharsAreRead(HexDigit(a), HexDigit(b), HexDigit(c), HexDigit(d), a, b, c, d, rest);
  }

  lemma {:induction false} HexDigitIsRead(n: nat)
    requires n < 16
    ensures HexValue(HexDigit(n)) == Some(n)
  {
    HexDigitHasItsValue(n);
  }

  lemma {:induction false} FourCharsAreRead(
      p: char, q: char, r: char, s: char, a: nat, b: nat, c: nat, d: nat, rest: string)
    requires HexValue(p) == Some(a) && HexValue(q) == Some(b) && HexValue(r) == Some(c) && HexValue(s) == Some(d)
    requires a < 16 && b < 16 && c < 16 && d < 16
    ensures ReadHex4([p, q, r, s] + rest) == Some(a * 4096 + b * 256 + c * 16 + d)
  {
    var text := [p, q, r, s] + rest;
    assert text[0] == p && text[1] == q && text[2] == r && text[3] == s;
  }

  lemma {:induction false} HexDigitsSumUp(n: nat)
    requires n < 0x10000
    ensures n / 4096 * 4096 + n / 256 % 16 * 256 + n / 16 % 16 * 16 + n % 16 == n
  {
    var a, b, c := n / 16, n / 256, n / 4096;
    assert b == a / 16 && c == b / 16;
    assert n == a * 16 + n % 16 && a == b * 16 + a % 16 && b == c * 16 + b % 16;
  }

  lemma {:induction false} UnitReadsBack(c: char, rest: string)
    requires c as int < 0x10000
    ensures ReadUnicode(Hex4(c as int) + rest) == Some((c, rest))
  {
    Hex4ReadsBack(c as int, rest);
    assert (Hex4(c as int) + rest)[4..] == rest;
  }

  lemma {:induction false} PairReadsBack(c: char, hi: nat, lo: nat, rest: string)
    requires 0xD800 <= hi < 0xDC00 && 0xDC00 <= lo < 0xE000
    requires c as int == 0x10000 + (hi - 0xD800) * 0x400 + (lo - 0xDC00)
    ensures ReadUnicode(Hex4(hi) + ("\\u" + (Hex4(lo) + rest))) == Some((c, rest))
  {
    var last := Hex4(lo) + rest;
    var s := Hex4(hi) + ("\\u" + last);
    Hex4ReadsBack(hi, "\\u" + last);
    assert s[6..] == last;
    Hex4ReadsBack(lo, rest);
    assert s[10..] == last[4..] == rest;
  }

  lemma {:induction false} CharReadsBack(c: char, rest: string)
    ensures ReadChar(EscapeChar(c) + rest) == Some((c, rest))
  {
    if |EscapeChar(c)| <= 2 {
      ShortCharReadsBack(c, rest);
    } else if c as int < 0x10000 {
      UnitCharReadsBack(c, rest);
    } else {
      PairCharReadsBack(c, rest);
    }
  }

  lemma {:induction false} UnitCharReadsBack(c: char, rest: string)
    requires c as int < 0x10000 && EscapeChar(c) == CodeUnit(c as int)
    ensures ReadChar(EscapeChar(c) + rest) == Some((c, rest))
  {
    UnitReadsBack(c, rest);
    EscapedUnicode(Hex4(c as int) + rest);
    assert EscapeChar(c) + rest == "\\u" + (Hex4(c as int) + rest);
  }

  lemma {:induction false} PairCharReadsBack(c: char, rest: string)
    requires c as int >= 0x10000
    ensures ReadChar(EscapeChar(c) + rest) == Some((c, rest))
  {
    var d := c as int - 0x10000;
    HighAndLow(d);
    PairEscape(c);
    SurrogatesReadBack(c, 0xD800 + d / 0x400, 0xDC00 + d % 0x400, rest);
  }

  lemma {:induction false} HighAndLow(d: nat)
    requires d < 0x100000
    ensures d / 0x400 < 0x400 && d == d / 0x400 * 0x400 + d % 0x400
  {
  }

  lemma {:induction false} PairEscape(c: char)
    requires c as int >= 0x10000
    ensures var d := c as int - 0x10000;
            EscapeChar(c) == CodeUnit(0xD800 + d / 0x400) + CodeUnit(0xDC00 + d % 0x400)
  {
  }

  lemma {:induction false} SurrogatesReadBack(c: char, hi: nat, lo: nat, rest: string)
    requires 0xD800 <= hi < 0xDC00 && 0xDC00 <= lo < 0xE000
    requires c as int == 0x10000 + (hi - 0xD800) * 0x400 + (lo - 0xDC00)
    ensures ReadChar(CodeUnit(hi) + CodeUnit(lo) + rest) == Some((c, rest))
  {
    PairReadsBack(c, hi, lo, rest);
    EscapedUnicode(Hex4(hi) + ("\\u" + (Hex4(lo) + rest)));
    PairText(Hex4(hi), Hex4(lo), rest);
  }

  lemma {:induction false} PairText(hi: string, lo: string, rest: string)
    ensures ("\\u" + hi) + ("\\u" + lo) + rest == "\\u" + (hi + ("\\u" + (lo + rest)))
  {
  }

  lemma {:induction false} ShortCharReadsBack(c: char, rest: string)
    requires |EscapeChar(c)| <= 2
    ensures ReadChar(EscapeChar(c) + rest) == Some((c, rest))
  {
    var s := EscapeChar(c) + rest;
    if |EscapeChar(c)| == 1 {
      assert s[1..] == rest;
    } else {
      assert s[2..] == rest;
    }
  }

  lemma {:induction false} EscapedUnicode(tail: string)
    ensures ReadChar("\\u" + tail) == ReadUnicode(tail)
  {
    assert ("\\u" + tail)[2..] == tail;
  }

  lemma {:induction false} StringReadsBack(s: string, rest: string)
    ensures ReadChars(Escape(s) + "\"" + rest) == Some((s, rest))
  {
    var text := Escape(s) + "\"" + rest;
    if s == [] {
      assert text == "\"" + rest && text[1..] == rest;
    } else {
      var tail := Escape(s[1..]) + "\"" + rest;
      assert text == EscapeChar(s[0]) + tail;
      CharReadsBack(s[0], tail);
      StringReadsBack(s[1..], rest);
      assert [s[0]] + s[1..] == s;
    }
  }

  lemma {:induction false} NumberReadsBack(n: int, rest: string)
    requires rest == [] || !IsDigit(rest[0])
    ensures ReadNumber(IntText(n) + rest) == Some((n, rest))
  {
    var m := if n < 0 then -n else n;
    NatTextReadsBack(m);
    if n < 0 {
      MinusText(NatText(m), rest);
      DigitsAreRead(NatText(m), m, rest, true);
    } else {
      DigitsAreRead(NatText(m), m, rest, false);
    }
  }

  lemma {:induction false} MinusText(digits: string, rest: string)
    ensures "-" + digits + rest == "-" + (digits + rest)
  {
  }

  /** Digits, with a minus sign before them or without one. */
  lemma {:induction false} DigitsAreRead(digits: string, m: nat, rest: string, negative: bool)
    requires digits != [] && AllDigits(digits) && NatValue(digits) == m && (rest == [] || !IsDigit(rest[0]))
    ensures var n: int := m;
            ReadNumber((if negative then "-" else "") + (digits + rest)) == Some((if negative then -n else n, rest))
  {
    var tail := digits + rest;
    var s := (if negative then "-" else "") + tail;
    DigitRunOfText(digits, rest);
    assert digits[0] in digits && tail[0] == digits[0];
    assert tail[..|digits|] == digits && tail[|digits|..] == rest;
    assert s[if negative then 1 else 0..] == tail;
  }

  lemma {:induction false} ConstantsReadBack(rest: string)
    ensures Read("null" + rest) == Some((Null, rest))
    ensures Read("true" + rest) == Some((Bool(true), rest))
    ensures Read("false" + rest) == Some((Bool(false), rest))
  {
    assert ("null" + rest)[4..] == rest;
    assert ("true" + rest)[4..] == rest;
    assert ("false" + rest)[5..] == rest;
  }

  lemma {:induction false} QuotedReadsBack(t: string, rest: string)
    ensures Read(PrintString(t) + rest) == Some((Str(t), rest))
  {
    var s := PrintString(t) + rest;
    assert s == "\"" + (Escape(t) + "\"" + rest);
    assert s[1..] == Escape(t) + "\"" + rest;
    StringReadsBack(t, rest);
  }

  /** The canonical text of a value, followed by anything that cannot extend it, reads as the value. */
  lemma {:induction false} PrintedReadsBack(v: Json, rest: string)
    requires rest == [] || !IsDigit(rest[0])
    ensures Read(Print(v) + rest) == Some((v, rest))
    decreases v, 1, 0
  {
    match v
    case Null => ConstantsReadBack(rest);
    case Bool(b) => ConstantsReadBack(rest);
    case Num(n) =>
      NumberReadsBack(n, rest);
      NumberStarts(n);
    case Str(t) => QuotedReadsBack(t, rest);
    case Arr(_) => ArrayReadsBack(v, rest);
    case Obj(_) => ObjectReadsBack(v, rest);
  }

  lemma {:induction false} EmptyContainersReadBack(rest: string)
    ensures Read("[" + [] + "]" + rest) == Some((Arr([]), rest))
    ensures Read("{" + [] + "}" + rest) == Some((Obj(map[]), rest))
  {
    assert ("[" + [] + "]" + rest)[2..] == rest;
    assert ("{" + [] + "}" + rest)[2..] == rest;
  }

  lemma {:induction false} ArrayReadsBack(v: Json, rest: string)
    requires v.Arr?
    ensures Read(Print(v) + rest) == Some((v, rest))
    decreases v, 0, |v.items| + 1
  {
    if v.items == [] {
      EmptyContainersReadBack(rest);
    } else {
      PrintedStarts(v.items[0]);
      ItemsReadBack(v, 0, rest);
      assert v.items[0..] == v.items;
      BracketedItems(PrintItems(v, 0), v.items, rest);
    }
  }

  lemma {:induction false} BracketedItems(body: string, items: seq<Json>, rest: string)
    requires body != [] && body[0] != ']'
    requires ReadItems(body + "]" + rest) == Some((items, rest))
    ensures Read("[" + body + "]" + rest) == Some((Arr(items), rest))
  {
    var s := "[" + body + "]" + rest;
    assert s[1..] == body + "]" + rest;
  }

  lemma {:induction false} ObjectReadsBack(v: Json, rest: string)
    requires v.Obj?
    ensures Read(Print(v) + rest) == Some((v, rest))
    decreases v, 0, |v.fields| + 1
  {
    var keys := Listing(v.fields.Keys);
    ListedFields(v, keys);
    if keys == [] {
      EmptyContainersReadBack(rest);
    } else {
      MembersReadBack(v, keys, rest);
      MembersStart(v, keys);
      BracedMembers(PrintMembers(v, keys), v.fields, rest);
    }
  }

  lemma {:induction false} ListedFields(v: Json, keys: seq<string>)
    requires v.Obj? && keys == Listing(v.fields.Keys)
    ensures forall k | k in keys :: k in v.fields
    ensures (map k | k in keys :: v.fields[k]) == v.fields
    ensures keys == [] ==> v.fields == map[]
  {
    SameMembers(keys, v.fields.Keys);
    FieldsOfKeys(v.fields, keys);
  }

  lemma {:induction false} SameMembers(keys: seq<string>, all: set<string>)
    requires Members(keys) == all
    ensures forall k :: k in keys <==> k in all
  {
    forall k ensures k in keys <==> k in all {
      assert k in Members(keys) <==> k in keys;
    }
  }

  lemma {:induction false} FieldsOfKeys(fields: map<string, Json>, keys: seq<string>)
    requires forall k :: k in keys <==> k in fields
    ensures (map k | k in keys :: fields[k]) == fields
    ensures keys == [] ==> fields == map[]
  {
    assert keys == [] ==> forall k :: k !in fields;
  }

  lemma {:induction false} BracedMembers(body: string, fields: map<string, Json>, rest: string)
    requires ReadMembers(body + "}" + rest) == Some((fields, rest))
    requires body != [] && body[0] == '"'
    ensures Read("{" + body + "}" + rest) == Some((Obj(fields), rest))
  {
    var s := "{" + body + "}" + rest;
    assert s[1..] == body + "}" + rest;
  }

  lemma {:induction false} NumberStarts(n: int)
    ensures IntText(n) != [] && (IntText(n)[0] == '-' || IsDigit(IntText(n)[0]))
  {
    NatTextReadsBack(if n < 0 then -n else n);
  }

  /** No value starts like the end of an array. */
  lemma {:induction false} PrintedStarts(v: Json)
    ensures Print(v) != [] && Print(v)[0] != ']'
  {
    if v.Num? { NumberStarts(v.n); }
  }

  lemma {:induction false} ItemsReadBack(v: Json, i: nat, rest: string)
    requires v.Arr? && i < |v.items|
    ensures ReadItems(PrintItems(v, i) + "]" + rest) == Some((v.items[i..], rest))
    decreases v, 0, |v.items| - i
  {
    var text := Print(v.items[i]);
    if i + 1 == |v.items| {
      PrintedReadsBack(v.items[i], "]" + rest);
      LastItem(text, v.items[i], rest);
      assert text + [] == text;
      assert v.items[i..] == [v.items[i]];
    } else {
      var body := PrintItems(v, i + 1);
      PrintedReadsBack(v.items[i], "," + (body + "]" + rest));
      ItemsReadBack(v, i + 1, rest);
      ItemBeforeOthers(text, v.items[i], body, v.items[i + 1..], rest);
      assert v.items[i..] == [v.items[i]] + v.items[i + 1..];
    }
  }

  lemma {:induction false} LastItem(text: string, x: Json, rest: string)
    requires Read(text + ("]" + rest)) == Some((x, "]" + rest))
    ensures ReadItems(text + "]" + rest) == Some(([x], rest))
  {
    assert text + "]" + rest == text + ("]" + rest);
    assert ("]" + rest)[1..] == rest;
  }

  lemma {:induction false} ItemBeforeOthers(text: string, x: Json, body: string, xs: seq<Json>, rest: string)
    requires var tail := "," + (body + "]" + rest); Read(text + tail) == Some((x, tail))
    requires ReadItems(body + "]" + rest) == Some((xs, rest))
    ensures ReadItems(text + ("," + body) + "]" + rest) == Some(([x] + xs, rest))
  {
    var tail := "," + (body + "]" + rest);
    Regroup(text, body, "]", rest);
    assert tail[1..] == body + "]" + rest;
  }

  lemma {:induction false} Regroup(text: string, body: string, close: string, rest: string)
    ensures text + ("," + body) + close + rest == text + ("," + (body + close + rest))
  {
  }

  lemma {:induction false} MembersReadBack(v: Json, keys: seq<string>, rest: string)
    requires v.Obj? && keys != [] && forall k | k in keys :: k in v.fields
    ensures ReadMembers(PrintMembers(v, keys) + "}" + rest) == Some((map k | k in keys :: v.fields[k], rest))
    decreases v, 0, |keys|
  {
    var text := PrintMember(v, keys[0]);
    if |keys| == 1 {
      MemberReadsBack(v, keys[0], "}" + rest);
      LastMember(text, keys[0], v.fields[keys[0]], rest);
      assert text + [] == text;
      MapOfOne(v, keys);
    } else {
      var body := PrintMembers(v, keys[1..]);
      MapOfTail(v, keys);
      MemberReadsBack(v, keys[0], "," + (body + "}" + rest));
      MembersReadBack(v, keys[1..], rest);
      MemberBeforeOthers(text, keys[0], v.fields[keys[0]], body, map j | j in keys[1..] :: v.fields[j], rest);
    }
  }

  lemma {:induction false} MembersStart(v: Json, keys: seq<string>)
    requires v.Obj? && keys != [] && forall k | k in keys :: k in v.fields
    ensures PrintMembers(v, keys) != [] && PrintMembers(v, keys)[0] == '"'
  {
  }

  lemma {:induction false} LastMember(text: string, k: string, x: Json, rest: string)
    requires ReadMember(text + ("}" + rest)) == Some(((k, x), "}" + rest))
    ensures ReadMembers(text + "}" + rest) == Some((map[k := x], rest))
  {
    assert text + "}" + rest == text + ("}" + rest);
    assert ("}" + rest)[1..] == rest;
  }

  lemma {:induction false} MemberBeforeOthers(
      text: string, k: string, x: Json, body: string, others: map<string, Json>, rest: string)
    requires var tail := "," + (body + "}" + rest); ReadMember(text + tail) == Some(((k, x), tail))
    requires ReadMembers(body + "}" + rest) == Some((others, rest))
    ensures ReadMembers(text + ("," + body) + "}" + rest) == Some((map[k := x] + others, rest))
  {
    var tail := "," + (body + "}" + rest);
    assert text + ("," + body) + "}" + rest == text + tail;
    assert tail[1..] == body + "}" + rest;
  }

  lemma {:induction false} MapOfOne(v: Json, keys: seq<string>)
    requires v.Obj? && |keys| == 1 && keys[0] in v.fields
    ensures (map j | j in keys :: v.fields[j]) == map[keys[0] := v.fields[keys[0]]]
  {
  }

  lemma {:induction false} MapOfTail(v: Json, keys: seq<string>)
    requires v.Obj? && keys != [] && forall k | k in keys :: k in v.fields
    ensures (map j | j in keys :: v.fields[j])
         == map[keys[0] := v.fields[keys[0]]] + (map j | j in keys[1..] :: v.fields[j])
  {
    assert forall j :: j in keys <==> j == keys[0] || j in keys[1..];
  }

  lemma {:induction false} MemberReadsBack(v: Json, k: string, rest: string)
    requires v.Obj? && k in v.fields
    requires rest != [] && !IsDigit(rest[0])
    ensures ReadMember(PrintMember(v, k) + rest) == Some(((k, v.fields[k]), rest))
    decreases v, 0, 0
  {
    var text := Print(v.fields[k]);
    var tail := ":" + (text + rest);
    PrintedReadsBack(v.fields[k], rest);
    StringReadsBack(k, tail);
    KeyBeforeValue(k, Escape(k) + "\"" + tail, text + rest, v.fields[k], rest);
    MemberText(Escape(k), text, rest);
  }

  lemma {:induction false} MemberText(key: string, text: string, rest: string)
    ensures "\"" + key + "\"" + (":" + text) + rest == "\"" + (key + "\"" + (":" + (text + rest)))
  {
  }

  lemma {:induction false} KeyBeforeValue(k: string, chars: string, value: string, x: Json, rest: string)
    requires ReadChars(chars) == Some((k, ":" + value))
    requires Read(value) == Some((x, rest))
    ensures ReadMember("\"" + chars) == Some(((k, x), rest))
  {
    assert ("\"" + chars)[1..] == chars;
    assert (":" + value)[1..] == value;
  }

  lemma {:induction false} ParsePrint(v: Json)
    ensures Parse(Print(v)) == Some(v)
  {
    assert Print(v) + [] == Print(v);
    PrintedReadsBack(v, []);
  }
}
