/** The (created_at, id) cursor of the listings: ISO time and UUID in a JSON object, in base64url. */
module Cursors {
  import opened Prelude
  import opened Text
  import opened Json
  import opened Uuids
  import opened Timestamps
  import B = Base64Url

  /** json.dumps({"t": ..., "i": ...}): the members stay in this order, they are not sorted. */
  function CursorJson(t: Stamp, id: Uuid): (v: Json)
    requires ValidStamp(t)
    ensures v.Obj? && forall k | k in ["t", "i"] :: k in v.fields
  {
    Obj(map["t" := Str(IsoText(t)), "i" := Str(UuidText(id))])
  }

  function CursorPayload(t: Stamp, id: Uuid): string
    requires ValidStamp(t)
  {
    "{" + PrintMembers(CursorJson(t, id), ["t", "i"]) + "}"
  }

  /** encode_created_id_cursor. */
  function EncodeCursor(t: Stamp, id: Uuid): string
    requires ValidStamp(t)
  {
    PayloadIsAscii(t, id);
    B.Encode(CursorPayload(t, id))
  }

  function CursorOf(v: Json): Result<(Stamp, Uuid)> {
    if !v.Obj? || "t" !in v.fields || "i" !in v.fields then Err(InvalidCursor)
    else if !v.fields["t"].Str? || !v.fields["i"].Str? then Err(InvalidCursor)
    else
      var t, id := ParseIso(v.fields["t"].s), ParseUuid(v.fields["i"].s);
      if t.None? || id.None? then Err(InvalidCursor) else Ok((t.value, id.value))
  }

  /** decode_created_id_cursor, on the texts the encoder writes; see "Left out" for the others. */
  function DecodeCursor(cursor: string): Result<(Stamp, Uuid)> {
    var raw := B.Decode(cursor);
    if raw.None? then Err(InvalidCursor)
    else
      var data := Parse(raw.value);
      if data.None? then Err(InvalidCursor) else CursorOf(data.value)
  }

  /** The text behind a cursor: the time first, then the id. */
  lemma {:induction false} CursorPayloadLayout(t: Stamp, id: Uuid)
    requires ValidStamp(t)
    ensures CursorPayload(t, id) ==
              "{" + (PrintString("t") + (":" + PrintString(IsoText(t)))
                     + ("," + (PrintString("i") + (":" + PrintString(UuidText(id)))))) + "}"
  {
    var v := CursorJson(t, id);
    assert ["t", "i"][1..] == ["i"];
    assert PrintMembers(v, ["i"]) == PrintMember(v, "i") + [];
    assert PrintMember(v, "i") == PrintString("i") + (":" + PrintString(UuidText(id)));
    assert PrintMember(v, "t") == PrintString("t") + (":" + PrintString(IsoText(t)));
    assert PrintMembers(v, ["t", "i"]) == PrintMember(v, "t") + ("," + PrintMembers(v, ["i"]));
  }

  // ---- Round trip ----

  lemma {:induction false} EscapeIsAscii(s: string)
    ensures B.IsAscii(Escape(s))
  {
    if s != [] {
      EscapeIsAscii(s[1..]);
      EscapeCharIsAscii(s[0]);
    }
  }

  lemma {:induction false} EscapeCharIsAscii(c: char)
    ensures B.IsAscii(EscapeChar(c))
  {
    assert forall n: nat | n < 16 :: HexDigit(n) as int < 128;
  }

  lemma {:induction false} PayloadIsAscii(t: Stamp, id: Uuid)
    requires ValidStamp(t)
    ensures B.IsAscii(CursorPayload(t, id))
  {
    var v := CursorJson(t, id);
    EscapeIsAscii("t");
    EscapeIsAscii("i");
    EscapeIsAscii(IsoText(t));
    EscapeIsAscii(UuidText(id));
    MemberIsAscii(v, "t");
    MemberIsAscii(v, "i");
    assert ["t", "i"][1..] == ["i"];
    assert PrintMembers(v, ["i"]) == PrintMember(v, "i") + [];
    assert PrintMembers(v, ["t", "i"]) == PrintMember(v, "t") + ("," + PrintMembers(v, ["i"]));
  }

  lemma {:induction false} MemberIsAscii(v: Json, k: string)
    requires v.Obj? && k in v.fields && v.fields[k].Str?
    ensures B.IsAscii(PrintMember(v, k))
  {
    EscapeIsAscii(k);
    EscapeIsAscii(v.fields[k].s);
    assert Print(v.fields[k]) == PrintString(v.fields[k].s);
  }

  lemma {:induction false} PayloadParses(t: Stamp, id: Uuid)
    requires ValidStamp(t)
    ensures Parse(CursorPayload(t, id)) == Some(CursorJson(t, id))
  {
    var v := CursorJson(t, id);
    var keys := ["t", "i"];
    MembersReadBack(v, keys, []);
    assert (map k | k in keys :: v.fields[k]) == v.fields;
    BracedMembers(PrintMembers(v, keys), v.fields, []);
    assert CursorPayload(t, id) + [] == CursorPayload(t, id);
  }

  /** A cursor names exactly the row it was made from, for every aware timestamp and every UUID. */
  lemma {:induction false} CursorRoundTrip(t: Stamp, id: Uuid)
    requires ValidStamp(t)
    ensures DecodeCursor(EncodeCursor(t, id)) == Ok((t, id))
  {
    PayloadIsAscii(t, id);
    B.DecodeEncode(CursorPayload(t, id));
    PayloadParses(t, id);
    ParseIsoText(t);
    ParseText(id);
    assert CursorOf(CursorJson(t, id)) == Ok((t, id));
  }
}
