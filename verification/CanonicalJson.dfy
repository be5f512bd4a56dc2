/**
  * What the canonical text of a value is, said without writing it: a grammar of texts in which members stand in
  * ascending order at every depth and every character, number and separator has one spelling.
  */
module CanonicalJson {
  import opened Prelude
  import opened Text
  import opened Json
  import opened Uuids
  import opened Params

  // ---- Numbers ----

  /** Decimal digits of `n`, without leading zeros. */
  predicate SpellsNat(text: string, n: nat) {
    text != [] && AllDigits(text) && NatValue(text) == n && (text[0] == '0' ==> |text| == 1)
  }

  predicate SpellsInt(text: string, n: int) {
    if n < 0 then text != [] && text[0] == '-' && SpellsNat(text[1..], -n) else SpellsNat(text, n)
  }

  // ---- Strings ----

  /** The characters with an escape of two characters. */
  const SHORT: map<char, char> := map[
    '"' := '"', '\\' := '\\', 8 as char := 'b', 9 as char := 't', 10 as char := 'n', 12 as char := 'f',
    13 as char := 'r']

  /** Four hexadecimal digits, letters in lower case, with the value `n`. */
  predicate SpellsUnit(text: string, n: int) {
    |text| == 4 && (forall c | c in text :: IsDigit(c) || 'a' <= c <= 'f') && ReadHex4(text) == Some(n)
  }

  /** A short escape where there is one, itself if printable, otherwise one code unit or two surrogates. */
  predicate SpellsChar(text: string, c: char) {
    if c in SHORT then text == ['\\', SHORT[c]]
    else if ' ' <= c <= '~' then text == [c]
    else if c as int < 0x10000 then |text| == 6 && text[..2] == "\\u" && SpellsUnit(text[2..], c as int)
    else SpellsPair(text, HighSurrogate(c), LowSurrogate(c))
  }

  predicate SpellsPair(text: string, hi: int, lo: int) {
    |text| == 12 && text[..2] == "\\u" && SpellsUnit(text[2..6], hi) && text[6..8] == "\\u" && SpellsUnit(text[8..], lo)
  }

  function HighSurrogate(c: char): int {
    0xD800 + (c as int - 0x10000) / 0x400
  }

  function LowSurrogate(c: char): int {
    0xDC00 + (c as int - 0x10000) % 0x400
  }

  function Concat(parts: seq<string>): string {
    if parts == [] then [] else parts[0] + Concat(parts[1..])
  }

  ghost predicate SpellsChars(parts: seq<string>, s: string) {
    |parts| == |s| && forall i | 0 <= i < |s| :: SpellsChar(parts[i], s[i])
  }

  ghost predicate SpellsString(text: string, s: string) {
    exists parts :: SpellsChars(parts, s) && text == "\"" + Concat(parts) + "\""
  }

  // ---- Values ----

  function Joined(parts: seq<string>): string {
    if parts == [] then []
    else parts[0] + (if |parts| == 1 then [] else "," + Joined(parts[1..]))
  }

  /** One text for each item, in order. */
  ghost predicate SpellsItems(parts: seq<string>, v: Json)
    requires v.Arr?
    decreases v, 0
  {
    |parts| == |v.items| && forall i | 0 <= i < |v.items| :: Spells(parts[i], v.items[i])
  }

  ghost predicate SpellsMember(text: string, v: Json, key: string)
    requires v.Obj? && key in v.fields
    decreases v, 0
  {
    exists name, value :: SpellsString(name, key) && Spells(value, v.fields[key]) && text == name + (":" + value)
  }

  /** One text for each member, the keys in strictly ascending order. */
  ghost predicate SpellsMembers(parts: seq<string>, keys: seq<string>, v: Json)
    requires v.Obj?
    decreases v, 1
  {
    && StrictlyAscending(keys) && |parts| == |keys| && (forall k :: k in keys <==> k in v.fields)
    && forall i | 0 <= i < |keys| :: keys[i] in v.fields && SpellsMember(parts[i], v, keys[i])
  }

  ghost predicate Spells(text: string, v: Json)
    decreases v, 2
  {
    match v
    case Null => text == "null"
    case Bool(b) => text == if b then "true" else "false"
    case Num(n) => SpellsInt(text, n)
    case Str(s) => SpellsString(text, s)
    case Arr(_) => exists parts :: SpellsItems(parts, v) && text == "[" + Joined(parts) + "]"
    case Obj(_) => exists parts, keys :: SpellsMembers(parts, keys, v) && text == "{" + Joined(parts) + "}"
  }

  // ---- One spelling ----

  lemma {:induction false} NatSpelling(text: string, n: nat)
    requires SpellsNat(text, n)
    ensures text == NatText(n)
  {
    var init, last := text[..|text| - 1], text[|text| - 1];
    assert text == init + [last] && last in text;
    assert NatValue(text) == NatValue(init) * 10 + (last as int - '0' as int);
    assert last == Digit(n % 10);
    if init == [] {
      assert n < 10;
    } else {
      NatValueIsPositive(init);
      assert init[0] == text[0] && AllDigits(init);
      NatSpelling(init, n / 10);
    }
  }

  lemma {:induction false} NatValueIsPositive(text: string)
    requires text != [] && AllDigits(text) && text[0] != '0'
    ensures NatValue(text) > 0
  {
    assert text[0] in text && text[|text| - 1] in text;
    if |text| > 1 {
      assert text[..|text| - 1][0] == text[0];
      NatValueIsPositive(text[..|text| - 1]);
    }
  }

  lemma {:induction false} NatIsSpelled(n: nat)
    ensures SpellsNat(NatText(n), n)
  {
    NatTextReadsBack(n);
    NoLeadingZero(n);
  }

  lemma {:induction false} NoLeadingZero(n: nat)
    ensures NatText(n) != [] && (NatText(n)[0] == '0' ==> n == 0 && |NatText(n)| == 1)
  {
    if n >= 10 {
      NoLeadingZero(n / 10);
    }
  }

  lemma {:induction false} IntHasOneSpelling(text: string, n: int)
    ensures SpellsInt(text, n) <==> text == IntText(n)
  {
    if n < 0 {
      NatIsSpelled(-n);
      assert ("-" + NatText(-n))[1..] == NatText(-n);
      if SpellsInt(text, n) {
        NatSpelling(text[1..], -n);
        assert text == [text[0]] + text[1..];
      }
    } else {
      NatIsSpelled(n);
      if SpellsInt(text, n) {
        NatSpelling(text, n);
      }
    }
  }

  /** A lower-case hexadecimal digit is the one its value is written as. */
  lemma {:induction false} HexSpelling(c: char, n: nat)
    requires n < 16 && (IsDigit(c) || 'a' <= c <= 'f')
    ensures HexValue(c) == Some(n) <==> c == HexDigit(n)
  {
    HexDigitHasItsValue(n);
  }

  lemma {:induction false} FourDigits(a: nat, b: nat, c: nat, d: nat, n: nat)
    requires a < 16 && b < 16 && c < 16 && d < 16 && a * 4096 + b * 256 + c * 16 + d == n
    ensures n < 0x10000 && a == n / 4096 && b == n / 256 % 16 && c == n / 16 % 16 && d == n % 16
  {
    assert n / 16 == a * 256 + b * 16 + c && n % 16 == d;
    assert n / 256 == n / 16 / 16 == a * 16 + b;
    assert n / 4096 == n / 256 / 16;
  }

  lemma {:induction false} UnitHasOneSpelling(text: string, n: nat)
    requires n < 0x10000
    ensures SpellsUnit(text, n) <==> text == Hex4(n)
  {
    if SpellsUnit(text, n) {
      UnitSpelling(text, n);
    }
    Hex4ReadsBack(n, []);
    assert Hex4(n) + [] == Hex4(n);
    LowerHex(n);
  }

  lemma {:induction false} LowerHex(n: nat)
    requires n < 0x10000
    ensures forall c | c in Hex4(n) :: IsDigit(c) || 'a' <= c <= 'f'
  {
    LowerDigit(n / 4096);
    LowerDigit(n / 256 % 16);
    LowerDigit(n / 16 % 16);
    LowerDigit(n % 16);
  }

  lemma {:induction false} LowerDigit(n: nat)
    requires n < 16
    ensures IsDigit(HexDigit(n)) || 'a' <= HexDigit(n) <= 'f'
  {
  }

  lemma {:induction false} UnitSpelling(text: string, n: nat)
    requires n < 0x10000 && SpellsUnit(text, n)
    ensures text == Hex4(n)
  {
    var a, b, c, d := HexValue(text[0]), HexValue(text[1]), HexValue(text[2]), HexValue(text[3]);
    assert text[0] in text && text[1] in text && text[2] in text && text[3] in text;
    FourDigits(a.value, b.value, c.value, d.value, n);
    HexSpelling(text[0], a.value);
    HexSpelling(text[1], b.value);
    HexSpelling(text[2], c.value);
    HexSpelling(text[3], d.value);
  }

  lemma {:induction false} ShortEscapes(c: char)
    ensures c in SHORT ==> EscapeChar(c) == ['\\', SHORT[c]]
    ensures c !in SHORT && ' ' <= c <= '~' ==> EscapeChar(c) == [c]
    ensures c !in SHORT && !(' ' <= c <= '~') && c as int < 0x10000 ==> EscapeChar(c) == CodeUnit(c as int)
  {
  }

  lemma {:induction false} CharHasOneSpelling(text: string, c: char)
    ensures SpellsChar(text, c) <==> text == EscapeChar(c)
  {
    ShortEscapes(c);
    if c !in SHORT && !(' ' <= c <= '~') {
      if c as int < 0x10000 {
        EscapedUnit(text, c as int);
      } else {
        AstralHasOneSpelling(text, c);
      }
    }
  }

  lemma {:induction false} AstralHasOneSpelling(text: string, c: char)
    requires c as int >= 0x10000
    ensures SpellsChar(text, c) <==> text == EscapeChar(c)
  {
    SurrogatesOf(c);
    EscapedPair(text, HighSurrogate(c), LowSurrogate(c));
  }

  lemma {:induction false} SurrogatesOf(c: char)
    requires c as int >= 0x10000
    ensures 0 <= HighSurrogate(c) < 0x10000 && 0 <= LowSurrogate(c) < 0x10000
    ensures EscapeChar(c) == CodeUnit(HighSurrogate(c)) + CodeUnit(LowSurrogate(c))
    ensures c !in SHORT
  {
    PairEscape(c);
    HighAndLow(c as int - 0x10000);
  }

  lemma {:induction false} EscapedUnit(text: string, n: nat)
    requires n < 0x10000
    ensures |text| == 6 && text[..2] == "\\u" && SpellsUnit(text[2..], n) <==> text == CodeUnit(n)
  {
    if |text| == 6 {
      UnitHasOneSpelling(text[2..], n);
      assert text == text[..2] + text[2..];
    }
    assert CodeUnit(n)[..2] == "\\u" && CodeUnit(n)[2..] == Hex4(n);
  }

  lemma {:induction false} EscapedPair(text: string, hi: nat, lo: nat)
    requires hi < 0x10000 && lo < 0x10000
    ensures SpellsPair(text, hi, lo) <==> text == CodeUnit(hi) + CodeUnit(lo)
  {
    if |text| == 12 {
      UnitHasOneSpelling(text[2..6], hi);
      UnitHasOneSpelling(text[8..], lo);
      assert text == text[..2] + text[2..6] + text[6..8] + text[8..];
      assert CodeUnit(hi) + CodeUnit(lo) == "\\u" + Hex4(hi) + "\\u" + Hex4(lo);
    }
    PairParts(Hex4(hi), Hex4(lo));
  }

  lemma {:induction false} PairParts(hi: string, lo: string)
    requires |hi| == 4 && |lo| == 4
    ensures var text := "\\u" + hi + ("\\u" + lo);
            text[..2] == "\\u" && text[2..6] == hi && text[6..8] == "\\u" && text[8..] == lo
  {
  }

  // ---- Strings ----

  lemma {:induction false} EscapedParts(parts: seq<string>, s: string)
    requires SpellsChars(parts, s)
    ensures Concat(parts) == Escape(s)
  {
    if s != [] {
      CharHasOneSpelling(parts[0], s[0]);
      EscapedParts(parts[1..], s[1..]);
    }
  }

  function CharParts(s: string): (parts: seq<string>)
    ensures |parts| == |s| && forall i | 0 <= i < |s| :: parts[i] == EscapeChar(s[i])
  {
    seq(|s|, i requires 0 <= i < |s| => EscapeChar(s[i]))
  }

  lemma {:induction false} StringHasOneSpelling(text: string, s: string)
    ensures SpellsString(text, s) <==> text == PrintString(s)
  {
    var parts := CharParts(s);
    forall i | 0 <= i < |s| ensures SpellsChar(parts[i], s[i]) {
      CharHasOneSpelling(parts[i], s[i]);
    }
    assert SpellsChars(parts, s);
    EscapedParts(parts, s);
    if SpellsString(text, s) {
      var others :| SpellsChars(others, s) && text == "\"" + Concat(others) + "\"";
      EscapedParts(others, s);
    }
  }

  // ---- Values ----

  /** Writing a value spells it. */
  lemma {:induction false} PrintedIsSpelled(v: Json)
    ensures Spells(Print(v), v)
    decreases v, 2
  {
    match v
    case Null =>
    case Bool(_) =>
    case Num(n) => IntHasOneSpelling(Print(v), n);
    case Str(s) => StringHasOneSpelling(Print(v), s);
    case Arr(_) => PrintedItems(v);
    case Obj(_) => PrintedMembers(v);
  }

  function ItemParts(v: Json, i: nat): (parts: seq<string>)
    requires v.Arr? && i <= |v.items|
    ensures |parts| == |v.items| - i && forall j | 0 <= j < |parts| :: parts[j] == Print(v.items[i + j])
    decreases |v.items| - i
  {
    if i == |v.items| then [] else [Print(v.items[i])] + ItemParts(v, i + 1)
  }

  lemma {:induction false} JoinedHead(part: string, rest: seq<string>)
    ensures Joined([part] + rest) == part + (if rest == [] then [] else "," + Joined(rest))
  {
    assert ([part] + rest)[1..] == rest;
  }

  lemma {:induction false} JoinedItems(v: Json, i: nat)
    requires v.Arr? && i <= |v.items|
    ensures Joined(ItemParts(v, i)) == PrintItems(v, i)
    decreases |v.items| - i
  {
    if i < |v.items| {
      JoinedItems(v, i + 1);
      JoinedHead(Print(v.items[i]), ItemParts(v, i + 1));
    }
  }

  lemma {:induction false} PrintedItems(v: Json)
    requires v.Arr?
    ensures Spells(Print(v), v)
    decreases v, 1
  {
    var parts := ItemParts(v, 0);
    JoinedItems(v, 0);
    forall i | 0 <= i < |v.items| ensures Spells(parts[i], v.items[i]) {
      PrintedIsSpelled(v.items[i]);
    }
    assert SpellsItems(parts, v);
  }

  function MemberParts(v: Json, keys: seq<string>): (parts: seq<string>)
    requires v.Obj? && forall k | k in keys :: k in v.fields
    ensures |parts| == |keys| && forall i | 0 <= i < |keys| :: parts[i] == PrintMember(v, keys[i])
  {
    if keys == [] then [] else [PrintMember(v, keys[0])] + MemberParts(v, keys[1..])
  }

  lemma {:induction false} JoinedMembers(v: Json, keys: seq<string>)
    requires v.Obj? && forall k | k in keys :: k in v.fields
    ensures Joined(MemberParts(v, keys)) == PrintMembers(v, keys)
  {
    if keys != [] {
      JoinedMembers(v, keys[1..]);
      JoinedHead(PrintMember(v, keys[0]), MemberParts(v, keys[1..]));
    }
  }

  lemma {:induction false} PrintedMember(v: Json, key: string)
    requires v.Obj? && key in v.fields
    ensures SpellsMember(PrintMember(v, key), v, key)
    decreases v, 0
  {
    StringHasOneSpelling(PrintString(key), key);
    PrintedIsSpelled(v.fields[key]);
  }

  lemma {:induction false} PrintedMembers(v: Json)
    requires v.Obj?
    ensures Spells(Print(v), v)
    decreases v, 1
  {
    var keys := Listing(v.fields.Keys);
    ListedFields(v, keys);
    SameMembers(keys, v.fields.Keys);
    var parts := MemberParts(v, keys);
    JoinedMembers(v, keys);
    forall i | 0 <= i < |keys| ensures keys[i] in v.fields && SpellsMember(parts[i], v, keys[i]) {
      assert keys[i] in keys;
      PrintedMember(v, keys[i]);
    }
    assert SpellsMembers(parts, keys, v);
  }

  /** There is one spelling of a value. */
  lemma {:induction false} SpellingIsUnique(s: string, t: string, v: Json)
    requires Spells(s, v) && Spells(t, v)
    ensures s == t
    decreases v, 2
  {
    match v
    case Null =>
    case Bool(_) =>
    case Num(n) =>
      IntHasOneSpelling(s, n);
      IntHasOneSpelling(t, n);
    case Str(x) =>
      StringHasOneSpelling(s, x);
      StringHasOneSpelling(t, x);
    case Arr(_) =>
      var a :| SpellsItems(a, v) && s == "[" + Joined(a) + "]";
      var b :| SpellsItems(b, v) && t == "[" + Joined(b) + "]";
      ItemsAreUnique(a, b, v);
    case Obj(_) =>
      var a, ks :| SpellsMembers(a, ks, v) && s == "{" + Joined(a) + "}";
      var b, ls :| SpellsMembers(b, ls, v) && t == "{" + Joined(b) + "}";
      MembersAreUnique(a, ks, b, ls, v);
  }

  lemma {:induction false} ItemsAreUnique(a: seq<string>, b: seq<string>, v: Json)
    requires v.Arr? && SpellsItems(a, v) && SpellsItems(b, v)
    ensures a == b
    decreases v, 1
  {
    forall i | 0 <= i < |v.items| ensures a[i] == b[i] {
      SpellingIsUnique(a[i], b[i], v.items[i]);
    }
  }

  lemma {:induction false} MemberIsUnique(a: string, b: string, v: Json, key: string)
    requires v.Obj? && key in v.fields && SpellsMember(a, v, key) && SpellsMember(b, v, key)
    ensures a == b
    decreases v, 0
  {
    var n, x :| SpellsString(n, key) && Spells(x, v.fields[key]) && a == n + (":" + x);
    var m, y :| SpellsString(m, key) && Spells(y, v.fields[key]) && b == m + (":" + y);
    StringHasOneSpelling(n, key);
    StringHasOneSpelling(m, key);
    SpellingIsUnique(x, y, v.fields[key]);
  }

  lemma {:induction false} MembersAreUnique(a: seq<string>, ks: seq<string>, b: seq<string>, ls: seq<string>, v: Json)
    requires v.Obj? && SpellsMembers(a, ks, v) && SpellsMembers(b, ls, v)
    ensures a == b
    decreases v, 1
  {
    assert Members(ks) == Members(ls);
    AscendingIsUnique(ks, ls);
    forall i | 0 <= i < |ks| ensures a[i] == b[i] {
      MemberIsUnique(a[i], b[i], v, ks[i]);
    }
  }

  /** The text that is hashed is the one spelling of the value: sorted, compact, in ASCII. */
  lemma {:induction false} PrintIsTheSpelling(text: string, v: Json)
    ensures Spells(text, v) <==> text == Print(v)
  {
    PrintedIsSpelled(v);
    if Spells(text, v) {
      SpellingIsUnique(text, Print(v), v);
    }
  }

  /** A text in canonical form is read as the value it spells, and spells no other. */
  lemma {:induction false} SpellingIsRead(text: string, v: Json)
    requires Spells(text, v)
    ensures forall w :: Parse(text) == Some(w) <==> Spells(text, w)
  {
    forall w ensures Parse(text) == Some(w) <==> Spells(text, w) {
      PrintIsTheSpelling(text, v);
      PrintIsTheSpelling(text, w);
      ParsePrint(v);
      ParsePrint(w);
    }
  }

  // ---- The text of the parameters ----

  /** A member of the hashed text: its name and the text of its value. */
  datatype Entry = Entry(key: string, value: string)

  function EntryTexts(entries: seq<Entry>): (parts: seq<string>)
    ensures |parts| == |entries|
    ensures forall i | 0 <= i < |entries| :: parts[i] == PrintString(entries[i].key) + (":" + entries[i].value)
  {
    seq(|entries|, i requires 0 <= i < |entries| => PrintString(entries[i].key) + (":" + entries[i].value))
  }

  function EntryKeys(entries: seq<Entry>): (keys: seq<string>)
    ensures |keys| == |entries|
    ensures forall i | 0 <= i < |entries| :: keys[i] == entries[i].key
  {
    seq(|entries|, i requires 0 <= i < |entries| => entries[i].key)
  }

  /** The members of the hashed text, in its order; the two optional ones are left out when absent. */
  function Entries(k: Keys, p: Params): seq<Entry> {
    [Entry(k.actionType, PrintString(p.actionType))]
    + (if p.targetVersion.Some? then [Entry(k.version, IntText(p.targetVersion.value))] else [])
    + [Entry(k.payload, Print(Obj(p.payload)))]
    + (if p.projectId.Some? then [Entry(k.project, PrintString(UuidText(p.projectId.value)))] else [])
    + [Entry(k.targetId, PrintString(UuidText(p.targetId))), Entry(k.targetType, PrintString(p.targetType))]
  }

  predicate Ascending(k: Keys) {
    && Less(k.actionType, k.version) && Less(k.version, k.payload) && Less(k.actionType, k.payload)
    && Less(k.payload, k.project) && Less(k.project, k.targetId) && Less(k.payload, k.targetId)
    && Less(k.targetId, k.targetType)
  }

  lemma {:induction false} LessAfterPrefix(prefix: string, a: string, b: string)
    ensures Less(prefix + a, prefix + b) == Less(a, b)
  {
    if prefix == [] {
      assert prefix + a == a && prefix + b == b;
    } else {
      assert (prefix + a)[1..] == prefix[1..] + a && (prefix + b)[1..] == prefix[1..] + b;
      LessAfterPrefix(prefix[1..], a, b);
    }
  }

  lemma {:induction false} KeysAscend()
    ensures Ascending(KEYS)
  {
    LessAfterPrefix("p", "ayload", "roject_id");
    assert "p" + "ayload" == KEYS.payload && "p" + "roject_id" == KEYS.project;
    LessAfterPrefix("target_object_", "id", "type");
    assert "target_object_" + "id" == KEYS.targetId && "target_object_" + "type" == KEYS.targetType;
  }

  ghost predicate AscendsAt(s: seq<string>, i: nat)
    requires i < |s| - 1
  {
    Less(s[i], s[i + 1])
  }

  lemma {:induction false} StepwiseAscending(s: seq<string>)
    requires forall i | 0 <= i < |s| - 1 :: AscendsAt(s, i)
    ensures StrictlyAscending(s)
  {
    forall i, j | 0 <= i < j < |s| ensures Less(s[i], s[j]) {
      AscendsTo(s, i, j);
    }
  }

  lemma {:induction false} AscendsTo(s: seq<string>, i: nat, j: nat)
    requires i < j < |s| && forall k | 0 <= k < |s| - 1 :: AscendsAt(s, k)
    ensures Less(s[i], s[j])
    decreases j
  {
    assert AscendsAt(s, j - 1);
    if i < j - 1 {
      AscendsTo(s, i, j - 1);
      LessIsTransitive(s[i], s[j - 1], s[j]);
    }
  }

  lemma {:induction false} EntriesAscend(k: Keys, p: Params)
    requires Ascending(k)
    ensures StrictlyAscending(EntryKeys(Entries(k, p)))
  {
    var keys := EntryKeys(Entries(k, p));
    forall i | 0 <= i < |keys| - 1 ensures AscendsAt(keys, i) {
    }
    StepwiseAscending(keys);
  }

  lemma {:induction false} EntriesNameFields(k: Keys, p: Params)
    ensures forall x :: x in Fields(k, p) <==> exists e :: e in Entries(k, p) && e.key == x
  {
    var entries := Entries(k, p);
    EntriesHaveNames(k, p);
    forall x | x in Fields(k, p) ensures exists e :: e in entries && e.key == x {
      FieldNames(k, p, x);
    }
    forall e | e in entries ensures e.key in Fields(k, p) {
      FieldNames(k, p, e.key);
    }
  }

  predicate IsFieldName(k: Keys, p: Params, x: string) {
    || x == k.actionType || x == k.payload || x == k.targetId || x == k.targetType
    || (x == k.project && p.projectId.Some?) || (x == k.version && p.targetVersion.Some?)
  }

  lemma {:induction false} FieldNames(k: Keys, p: Params, x: string)
    ensures x in Fields(k, p) <==> IsFieldName(k, p, x)
  {
  }

  lemma {:induction false} EntriesHaveNames(k: Keys, p: Params)
    ensures forall e | e in Entries(k, p) :: IsFieldName(k, p, e.key)
    ensures forall x | IsFieldName(k, p, x) :: exists e :: e in Entries(k, p) && e.key == x
  {
    var entries := Entries(k, p);
    assert Entry(k.actionType, PrintString(p.actionType)) in entries;
    assert p.targetVersion.Some? ==> Entry(k.version, IntText(p.targetVersion.value)) in entries;
    assert Entry(k.payload, Print(Obj(p.payload))) in entries;
    assert p.projectId.Some? ==> Entry(k.project, PrintString(UuidText(p.projectId.value))) in entries;
    assert Entry(k.targetId, PrintString(UuidText(p.targetId))) in entries;
    assert Entry(k.targetType, PrintString(p.targetType)) in entries;
  }

  lemma {:induction false} EntryIsSpelled(v: Json, key: string)
    requires v.Obj? && key in v.fields
    ensures SpellsMember(PrintString(key) + (":" + Print(v.fields[key])), v, key)
  {
    StringHasOneSpelling(PrintString(key), key);
    PrintedIsSpelled(v.fields[key]);
  }

  /** What stands under each name. */
  lemma {:induction false} FieldValues(k: Keys, p: Params)
    requires Distinct(k)
    ensures var f := Fields(k, p);
            && k.actionType in f && f[k.actionType] == Str(p.actionType)
            && k.payload in f && f[k.payload] == Obj(p.payload)
            && k.targetId in f && f[k.targetId] == Str(UuidText(p.targetId))
            && k.targetType in f && f[k.targetType] == Str(p.targetType)
            && (p.projectId.Some? ==> k.project in f && f[k.project] == Str(UuidText(p.projectId.value)))
            && (p.targetVersion.Some? ==> k.version in f && f[k.version] == Num(p.targetVersion.value))
  {
  }

  /** The entry stands in the dictionary that is serialised. */
  predicate IsEntry(f: map<string, Json>, e: Entry) {
    e.key in f && Print(f[e.key]) == e.value
  }

  lemma {:induction false} FieldIsEntry(f: map<string, Json>, key: string, v: Json)
    requires key in f && f[key] == v
    ensures v.Str? ==> IsEntry(f, Entry(key, PrintString(v.s)))
    ensures v.Num? ==> IsEntry(f, Entry(key, IntText(v.n)))
    ensures v.Obj? ==> IsEntry(f, Entry(key, Print(v)))
  {
  }

  lemma {:induction false} FieldEntries(k: Keys, p: Params)
    requires Distinct(k)
    ensures var f := Fields(k, p);
            && IsEntry(f, Entry(k.actionType, PrintString(p.actionType)))
            && IsEntry(f, Entry(k.payload, Print(Obj(p.payload))))
            && IsEntry(f, Entry(k.targetId, PrintString(UuidText(p.targetId))))
            && IsEntry(f, Entry(k.targetType, PrintString(p.targetType)))
            && (p.projectId.Some? ==> IsEntry(f, Entry(k.project, PrintString(UuidText(p.projectId.value)))))
            && (p.targetVersion.Some? ==> IsEntry(f, Entry(k.version, IntText(p.targetVersion.value))))
  {
    var f := Fields(k, p);
    FieldValues(k, p);
    FieldIsEntry(f, k.actionType, Str(p.actionType));
    FieldIsEntry(f, k.payload, Obj(p.payload));
    FieldIsEntry(f, k.targetId, Str(UuidText(p.targetId)));
    FieldIsEntry(f, k.targetType, Str(p.targetType));
    if p.projectId.Some? {
      FieldIsEntry(f, k.project, Str(UuidText(p.projectId.value)));
    }
    if p.targetVersion.Some? {
      FieldIsEntry(f, k.version, Num(p.targetVersion.value));
    }
  }

  lemma {:induction false} EntriesAreFields(k: Keys, p: Params)
    requires Distinct(k)
    ensures forall e | e in Entries(k, p) :: IsEntry(Fields(k, p), e)
  {
    FieldEntries(k, p);
    EntriesListed(k, p);
  }

  lemma {:induction false} EntriesListed(k: Keys, p: Params)
    ensures forall e | e in Entries(k, p) ::
              || e == Entry(k.actionType, PrintString(p.actionType))
              || e == Entry(k.payload, Print(Obj(p.payload)))
              || e == Entry(k.targetId, PrintString(UuidText(p.targetId)))
              || e == Entry(k.targetType, PrintString(p.targetType))
              || (p.projectId.Some? && e == Entry(k.project, PrintString(UuidText(p.projectId.value))))
              || (p.targetVersion.Some? && e == Entry(k.version, IntText(p.targetVersion.value)))
  {
  }

  /** The hashed text, member by member. */
  lemma {:induction false} CanonicalTextLayout(p: Params)
    ensures CanonicalText(p) == "{" + Joined(EntryTexts(Entries(KEYS, p))) + "}"
  {
    KeysAreDistinct();
    KeysAscend();
    LayoutOf(KEYS, p);
  }

  lemma {:induction false} LayoutOf(k: Keys, p: Params)
    requires Distinct(k) && Ascending(k)
    ensures Print(Obj(Fields(k, p))) == "{" + Joined(EntryTexts(Entries(k, p))) + "}"
  {
    EntriesAscend(k, p);
    EntriesNameFields(k, p);
    EntriesAreFields(k, p);
    EntriesSpell(Obj(Fields(k, p)), Entries(k, p));
    PrintIsTheSpelling("{" + Joined(EntryTexts(Entries(k, p))) + "}", Obj(Fields(k, p)));
  }

  lemma {:induction false} EntriesSpell(v: Json, entries: seq<Entry>)
    requires v.Obj? && StrictlyAscending(EntryKeys(entries))
    requires forall x :: x in v.fields <==> exists e :: e in entries && e.key == x
    requires forall e | e in entries :: IsEntry(v.fields, e)
    ensures Spells("{" + Joined(EntryTexts(entries)) + "}", v)
  {
    var keys, parts := EntryKeys(entries), EntryTexts(entries);
    forall i | 0 <= i < |keys| ensures keys[i] in v.fields && SpellsMember(parts[i], v, keys[i]) {
      assert entries[i] in entries && IsEntry(v.fields, entries[i]);
      EntryIsSpelled(v, keys[i]);
    }
    forall x ensures x in keys <==> x in v.fields {
      if x in v.fields {
        var e :| e in entries && e.key == x;
        var i :| 0 <= i < |entries| && entries[i] == e;
        assert keys[i] == x;
      }
    }
    assert SpellsMembers(parts, keys, v);
  }
}
