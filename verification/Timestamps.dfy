/** Aware datetimes, the text datetime.isoformat() writes for them and the reader of that text. */
module Timestamps {
  import opened Prelude
  import opened Text

  datatype Stamp = Stamp(
    year: nat, month: nat, day: nat, hour: nat, minute: nat, second: nat, micro: nat, offset: int)

  predicate IsLeap(year: nat) {
    year % 4 == 0 && (year % 100 != 0 || year % 400 == 0)
  }

  function DaysInMonth(year: nat, month: nat): nat {
    if month == 2 then if IsLeap(year) then 29 else 28
    else if month in {4, 6, 9, 11} then 30
    else 31
  }

  /** The UTC offset is in microseconds and less than a day. */
  predicate ValidOffset(offset: int) {
    -86400000000 < offset < 86400000000
  }

  /** The values datetime can hold. */
  predicate ValidStamp(t: Stamp) {
    1 <= t.year <= 9999 && 1 <= t.month <= 12 && 1 <= t.day <= DaysInMonth(t.year, t.month) &&
    t.hour < 24 && t.minute < 60 && t.second < 60 && t.micro < 1000000 && ValidOffset(t.offset)
  }

  // ---- The instant, in microseconds since 0001-01-01T00:00:00 UTC ----

  function DaysBeforeMonth(year: nat, month: nat): nat {
    if month <= 1 then 0 else DaysBeforeMonth(year, month - 1) + DaysInMonth(year, month - 1)
  }

  /** Days since the first one. */
  function DayNumber(year: nat, month: nat, day: nat): int {
    var y := year - 1;
    y * 365 + y / 4 - y / 100 + y / 400 + DaysBeforeMonth(year, month) + day - 1
  }

  function Instant(t: Stamp): int {
    (((DayNumber(t.year, t.month, t.day) * 24 + t.hour) * 60 + t.minute) * 60 + t.second) * 1000000 + t.micro - t.offset
  }

  /** The same time of day on the day after. */
  function NextDay(t: Stamp): Stamp
    requires ValidStamp(t)
  {
    if t.day < DaysInMonth(t.year, t.month) then t.(day := t.day + 1)
    else if t.month < 12 then t.(month := t.month + 1, day := 1)
    else t.(year := t.year + 1, month := 1, day := 1)
  }

  lemma {:induction false} MonthsOfYear(year: nat)
    ensures DaysBeforeMonth(year, 12) == if IsLeap(year) then 335 else 334
  {
    var feb := DaysInMonth(year, 2);
    assert DaysBeforeMonth(year, 2) == 31;
    assert DaysBeforeMonth(year, 3) == 31 + feb;
    assert DaysBeforeMonth(year, 4) == 62 + feb;
    assert DaysBeforeMonth(year, 5) == 92 + feb;
    assert DaysBeforeMonth(year, 6) == 123 + feb;
    assert DaysBeforeMonth(year, 7) == 153 + feb;
    assert DaysBeforeMonth(year, 8) == 184 + feb;
    assert DaysBeforeMonth(year, 9) == 215 + feb;
    assert DaysBeforeMonth(year, 10) == 245 + feb;
    assert DaysBeforeMonth(year, 11) == 276 + feb;
  }

  lemma {:induction false} LeapYears(y: nat)
    ensures (y + 1) / 4 - (y + 1) / 100 + (y + 1) / 400 ==
              y / 4 - y / 100 + y / 400 + (if IsLeap(y + 1) then 1 else 0)
  {
    Quotient(y, 4);
    Quotient(y, 100);
    Quotient(y, 400);
  }

  lemma {:induction false} Quotient(y: nat, d: nat)
    requires d > 1
    ensures (y + 1) / d == y / d + (if (y + 1) % d == 0 then 1 else 0)
  {
    var q, r := y / d, y % d;
    assert y + 1 == q * d + (r + 1);
    if r + 1 == d {
      assert y + 1 == (q + 1) * d;
      DivisionIs(y + 1, d, q + 1, 0);
    } else {
      DivisionIs(y + 1, d, q, r + 1);
    }
  }

  lemma {:induction false} DivisionIs(n: nat, d: nat, q: nat, r: nat)
    requires d > 0 && n == q * d + r && r < d
    ensures n / d == q && n % d == r
  {
    var p, s := n / d, n % d;
    assert p * d + s == q * d + r;
    if p < q {
      TimesGrows(p + 1, q, d);
    } else if p > q {
      TimesGrows(q + 1, p, d);
    }
  }

  lemma {:induction false} TimesGrows(a: nat, b: nat, d: nat)
    requires a <= b
    ensures a * d <= b * d
  {
  }

  /** Days are counted one by one, through months and leap years. */
  lemma {:induction false} InstantCountsDays(t: Stamp)
    requires ValidStamp(t)
    ensures Instant(NextDay(t)) == Instant(t) + 86400000000
  {
    DaysAreCounted(t);
  }

  lemma {:induction false} DaysAreCounted(t: Stamp)
    requires ValidStamp(t)
    ensures var u := NextDay(t); DayNumber(u.year, u.month, u.day) == DayNumber(t.year, t.month, t.day) + 1
  {
    if t.day == DaysInMonth(t.year, t.month) && t.month == 12 {
      MonthsOfYear(t.year);
      LeapYears(t.year - 1);
    }
  }

  /** Within a day microseconds are counted from midnight, and from the first day on. */
  lemma {:induction false} InstantCountsMicroseconds(t: Stamp)
    ensures Instant(t) == Instant(Stamp(t.year, t.month, t.day, 0, 0, 0, 0, 0))
                          + ((t.hour * 60 + t.minute) * 60 + t.second) * 1000000 + t.micro - t.offset
    ensures Instant(Stamp(1, 1, 1, 0, 0, 0, 0, 0)) == 0
  {
    assert DayNumber(1, 1, 1) == 0;
  }

  // ---- Text ----

  lemma {:induction false} PowersOfTen()
    ensures Pow10(2) == 100 && Pow10(4) == 10000 && Pow10(6) == 1000000
  {
    assert Pow10(1) == 10;
    assert Pow10(3) == 1000;
    assert Pow10(5) == 100000;
  }

  function Two(n: nat): (s: string)
    requires n < 100
    ensures |s| == 2
  {
    PowersOfTen();
    Padded(n, 2)
  }

  function DateText(t: Stamp): (s: string)
    requires ValidStamp(t)
    ensures |s| == 10
  {
    PowersOfTen();
    Padded(t.year, 4) + "-" + Two(t.month) + "-" + Two(t.day)
  }

  function ClockText(t: Stamp): (s: string)
    requires ValidStamp(t)
    ensures |s| == 8
  {
    Two(t.hour) + ":" + Two(t.minute) + ":" + Two(t.second)
  }

  function FractionText(micro: nat): (s: string)
    requires micro < 1000000
    ensures |s| == if micro == 0 then 0 else 7
  {
    PowersOfTen();
    if micro == 0 then [] else "." + Padded(micro, 6)
  }

  function OffsetText(offset: int): (s: string)
    requires ValidOffset(offset)
    ensures s != [] && s[0] != '.'
  {
    var u: nat := if offset < 0 then -offset else offset;
    var n := u / 1000000;
    (if offset < 0 then "-" else "+") + Two(n / 3600) + ":" + Two(n / 60 % 60) + OffsetRestText(u)
  }

  /** The part of an offset below the minute. */
  function OffsetRestText(u: nat): string {
    if u % 60000000 == 0 then [] else ":" + Two(u / 1000000 % 60) + FractionText(u % 1000000)
  }

  /** datetime.isoformat(). */
  function IsoText(t: Stamp): string
    requires ValidStamp(t)
  {
    DateText(t) + "T" + ClockText(t) + FractionText(t.micro) + OffsetText(t.offset)
  }

  // ---- Reading ----

  function ReadNat(s: string): Option<nat> {
    if s != [] && AllDigits(s) then Some(NatValue(s)) else None
  }

  function ReadDate(s: string): Option<(nat, nat, nat)>
    requires |s| == 10
  {
    var y, m, d := ReadNat(s[..4]), ReadNat(s[5..7]), ReadNat(s[8..]);
    if y.None? || m.None? || d.None? || s[4] != '-' || s[7] != '-' then None
    else Some((y.value, m.value, d.value))
  }

  function ReadClock(s: string): Option<(nat, nat, nat)>
    requires |s| == 8
  {
    var h, m, c := ReadNat(s[..2]), ReadNat(s[3..5]), ReadNat(s[6..]);
    if h.None? || m.None? || c.None? || s[2] != ':' || s[5] != ':' then None
    else Some((h.value, m.value, c.value))
  }

  function ReadOffset(s: string): Option<int> {
    if |s| < 6 || (s[0] != '+' && s[0] != '-') || s[3] != ':' then None
    else
      var h, m, rest := ReadNat(s[1..3]), ReadNat(s[4..6]), ReadOffsetRest(s[6..]);
      if h.None? || m.None? || rest.None? || m.value >= 60 then None
      else
        var u: int := (h.value * 3600 + m.value * 60) * 1000000 + rest.value;
        Some(if s[0] == '-' then -u else u)
  }

  /** The seconds of an offset and their fraction, in microseconds; nothing when both are zero. */
  function ReadOffsetRest(s: string): Option<nat> {
    if s == [] then Some(0)
    else if (|s| != 3 && |s| != 10) || s[0] != ':' then None
    else
      var c := ReadNat(s[1..3]);
      var u := if |s| == 3 then Some(0) else if s[3] == '.' then ReadNat(s[4..]) else None;
      if c.None? || u.None? || c.value >= 60 || u.value >= 1000000 then None else Some(c.value * 1000000 + u.value)
  }

  /** datetime.fromisoformat() on the texts isoformat() writes for aware datetimes. */
  function ParseIso(s: string): (r: Option<Stamp>)
    ensures r.Some? ==> ValidStamp(r.value)
  {
    if |s| < 19 || s[10] != 'T' then None
    else
      var date, clock, tail := ReadDate(s[..10]), ReadClock(s[11..19]), s[19..];
      var fractional := tail != [] && tail[0] == '.';
      if fractional && |tail| < 7 then None
      else
        var micro := if fractional then ReadNat(tail[1..7]) else Some(0);
        var offset := ReadOffset(if fractional then tail[7..] else tail);
        if date.None? || clock.None? || micro.None? || offset.None? then None
        else
          var (y, m, d) := date.value;
          var (h, mi, c) := clock.value;
          var t := Stamp(y, m, d, h, mi, c, micro.value, offset.value);
          if ValidStamp(t) then Some(t) else None
  }

  // ---- What is written reads back ----

  lemma {:induction false} PaddedIsRead(n: nat, w: nat)
    requires n < Pow10(w) && w > 0
    ensures ReadNat(Padded(n, w)) == Some(n)
  {
    PaddedReadsBack(n, w);
  }

  lemma {:induction false} TwoIsRead(n: nat)
    requires n < 100
    ensures ReadNat(Two(n)) == Some(n)
  {
    PowersOfTen();
    PaddedIsRead(n, 2);
  }

  lemma {:induction false} DateIsRead(t: Stamp)
    requires ValidStamp(t)
    ensures ReadDate(DateText(t)) == Some((t.year, t.month, t.day))
  {
    PowersOfTen();
    var s := DateText(t);
    assert s[..4] == Padded(t.year, 4) && s[5..7] == Two(t.month) && s[8..] == Two(t.day);
    PaddedIsRead(t.year, 4);
    TwoIsRead(t.month);
    TwoIsRead(t.day);
  }

  lemma {:induction false} ClockIsRead(t: Stamp)
    requires ValidStamp(t)
    ensures ReadClock(ClockText(t)) == Some((t.hour, t.minute, t.second))
  {
    var s := ClockText(t);
    assert s[..2] == Two(t.hour) && s[3..5] == Two(t.minute) && s[6..] == Two(t.second);
    TwoIsRead(t.hour);
    TwoIsRead(t.minute);
    TwoIsRead(t.second);
  }

  lemma {:induction false} OffsetRestIsRead(u: nat)
    ensures ReadOffsetRest(OffsetRestText(u)) == Some(u % 60000000)
  {
    PowersOfTen();
    var c, f := u / 1000000 % 60, u % 1000000;
    SecondsAndFraction(u);
    if u % 60000000 != 0 {
      TwoIsRead(c);
      var s := ":" + Two(c) + FractionText(f);
      assert s[1..3] == Two(c);
      if f != 0 {
        PaddedIsRead(f, 6);
        assert s[3] == '.' && s[4..] == Padded(f, 6);
      }
    }
  }

  lemma {:induction false} SecondsAndFraction(u: nat)
    ensures u / 1000000 % 60 * 1000000 + u % 1000000 == u % 60000000
  {
    var n, q := u / 1000000, u / 60000000;
    assert q == n / 60 && n == q * 60 + n % 60;
    assert u == n * 1000000 + u % 1000000;
  }

  lemma {:induction false} OffsetIsRead(offset: int)
    requires ValidOffset(offset)
    ensures ReadOffset(OffsetText(offset)) == Some(offset)
  {
    MagnitudeIsRead(if offset < 0 then "-" else "+", if offset < 0 then -offset else offset);
  }

  lemma {:induction false} MagnitudeIsRead(sign: string, u: nat)
    requires (sign == "-" || sign == "+") && u < 86400000000
    ensures Hours(u) < 100
    ensures var n: int := u;
            ReadOffset(sign + Two(Hours(u)) + ":" + Two(Minutes(u)) + OffsetRestText(u)) ==
            Some(if sign == "-" then -n else n)
  {
    OffsetRestIsRead(u);
    HoursAndMinutes(u);
    HoursInRange(u);
    OffsetPartsAreRead(sign, Hours(u), Minutes(u), OffsetRestText(u), u % 60000000);
  }

  function Hours(u: nat): nat {
    u / 1000000 / 3600
  }

  function Minutes(u: nat): (m: nat)
    ensures m < 60
  {
    u / 1000000 / 60 % 60
  }

  lemma {:induction false} HoursInRange(u: nat)
    requires u < 86400000000
    ensures Hours(u) < 24
  {
  }

  lemma {:induction false} OffsetPartsAreRead(sign: string, h: nat, m: nat, rest: string, below: nat)
    requires sign == "-" || sign == "+"
    requires h < 100 && m < 60 && ReadOffsetRest(rest) == Some(below)
    ensures var u: int := (h * 3600 + m * 60) * 1000000 + below;
            ReadOffset(sign + Two(h) + ":" + Two(m) + rest) == Some(if sign == "-" then -u else u)
  {
    TwoIsRead(h);
    TwoIsRead(m);
    OffsetParts(sign, Two(h), Two(m), rest);
  }

  lemma {:induction false} HoursAndMinutes(u: nat)
    ensures (Hours(u) * 3600 + Minutes(u) * 60) * 1000000 + u % 60000000 == u
  {
    var n, q := u / 1000000, u / 60000000;
    assert q == n / 60 && n / 3600 == q / 60 && q == q / 60 * 60 + q % 60;
    assert u == q * 60000000 + u % 60000000;
  }

  /** Where ReadOffset finds the sign, the hours, the minutes and the rest. */
  lemma {:induction false} OffsetParts(sign: string, h: string, m: string, rest: string)
    requires |sign| == 1 && |h| == |m| == 2
    ensures var s := sign + h + ":" + m + rest;
            |s| >= 6 && s[0] == sign[0] && s[3] == ':' && s[1..3] == h && s[4..6] == m && s[6..] == rest
  {
  }

  lemma {:induction false} ParseIsoText(t: Stamp)
    requires ValidStamp(t)
    ensures ParseIso(IsoText(t)) == Some(t)
  {
    DateIsRead(t);
    ClockIsRead(t);
    OffsetIsRead(t.offset);
    IsoParts(DateText(t), ClockText(t), FractionText(t.micro) + OffsetText(t.offset));
    assert IsoText(t) == DateText(t) + "T" + ClockText(t) + (FractionText(t.micro) + OffsetText(t.offset));
    FractionIsRead(t.micro, OffsetText(t.offset));
  }

  lemma {:induction false} IsoParts(date: string, clock: string, tail: string)
    requires |date| == 10 && |clock| == 8
    ensures var s := date + "T" + clock + tail;
            |s| >= 19 && s[..10] == date && s[10] == 'T' && s[11..19] == clock && s[19..] == tail
  {
  }

  lemma {:induction false} FractionIsRead(micro: nat, offset: string)
    requires micro < 1000000 && offset != [] && offset[0] != '.'
    ensures var tail := FractionText(micro) + offset;
            if micro == 0 then tail == offset
            else |tail| >= 7 && tail[0] == '.' && ReadNat(tail[1..7]) == Some(micro) && tail[7..] == offset
  {
    PowersOfTen();
    var tail := FractionText(micro) + offset;
    if micro != 0 {
      PaddedIsRead(micro, 6);
      assert tail[1..7] == Padded(micro, 6);
    }
  }
}
