/** From local wall-clock time to an instant (parseOffsetMinutes and localDateTimeToUtc of
    skill/src/utils/cohortSchedule.ts).  Instants are in milliseconds. */
module ZoneOffset {
  import opened Prelude
  import opened CivilDate

  const MINUTE_MS := 60000

  /** The outcome of getOffsetMinutes at every instant; None where it throws. */
  type Zone = int -> Option<int>

  // ---- the offset text ----

  predicate StartsWithSign(s: string) {
    |s| >= 5 && s[..3] == "GMT" && (s[3] == '+' || s[3] == '-')
  }

  function Signed(s: string, minutes: int): int
    requires |s| > 3
  {
    if s[3] == '-' then -minutes else minutes
  }

  /** parseOffsetMinutes: GMT, a sign, one or two digits of hours and optionally a colon and two
      digits of minutes; any other text makes it throw. */
  function ParseOffsetMinutes(s: string): Option<int> {
    if !StartsWithSign(s) || !IsDigit(s[4]) then None
    else if |s| == 5 then Some(Signed(s, 60 * DigitValue(s[4])))
    else if |s| == 6 && IsDigit(s[5]) then Some(Signed(s, 60 * Value2(s, 4)))
    else if |s| == 8 && s[5] == ':' && IsDigit(s[6]) && IsDigit(s[7]) then
      Some(Signed(s, 60 * DigitValue(s[4]) + Value2(s, 6)))
    else if |s| == 9 && IsDigit(s[5]) && s[6] == ':' && IsDigit(s[7]) && IsDigit(s[8]) then
      Some(Signed(s, 60 * Value2(s, 4) + Value2(s, 7)))
    else None
  }

  predicate AllDigits(s: string) {
    forall i :: 0 <= i < |s| ==> IsDigit(s[i])
  }

  function Number(s: string): int
    requires AllDigits(s)
  {
    if s == [] then 0 else 10 * Number(s[..|s| - 1]) + DigitValue(s[|s| - 1])
  }

  /** GMT, the sign, one or two digits of hours, and none or two of minutes after a colon. */
  predicate IsOffsetText(s: string, negative: bool, hours: string, minutes: string) {
    && 1 <= |hours| <= 2 && AllDigits(hours) && (|minutes| == 0 || |minutes| == 2) && AllDigits(minutes)
    && s == "GMT" + (if negative then "-" else "+") + hours + if minutes == [] then "" else ":" + minutes
  }

  lemma SmallNumber(s: string)
    requires AllDigits(s) && |s| <= 2
    ensures Number(s) == if |s| == 0 then 0 else if |s| == 1 then DigitValue(s[0]) else Value2(s, 0)
  {
    if |s| == 1 {
      assert s[..0] == [];
    } else if |s| == 2 {
      assert s[..1][..0] == [] && s[..1][0] == s[0];
    }
  }

  /** The parser takes every offset text for its minutes. */
  lemma OffsetTextParses(s: string, negative: bool, hours: string, minutes: string)
    requires IsOffsetText(s, negative, hours, minutes)
    ensures ParseOffsetMinutes(s) ==
              Some(if negative then -(60 * Number(hours) + Number(minutes)) else 60 * Number(hours) + Number(minutes))
  {
    SmallNumber(hours);
    SmallNumber(minutes);
    hide Number;
    assert s[..3] == "GMT" && s[3] == (if negative then '-' else '+') && s[4] == hours[0];
    if |minutes| == 2 {
      assert s[4 + |hours|] == ':' && s[5 + |hours|] == minutes[0] && s[6 + |hours|] == minutes[1];
    }
  }

  /** And it takes nothing else: a text that it takes is made of its own hours and minutes. */
  lemma OnlyOffsetTextsParse(s: string)
    requires ParseOffsetMinutes(s).Some?
    ensures |s| >= 5 && IsOffsetText(s, s[3] == '-', HoursOf(s), MinutesOf(s))
  {
    var sign := if s[3] == '-' then "-" else "+";
    if |s| == 5 {
      assert s == "GMT" + sign + HoursOf(s) + "";
    } else if |s| == 6 {
      assert s == "GMT" + sign + HoursOf(s) + "";
    } else if |s| == 8 {
      assert s == "GMT" + sign + HoursOf(s) + (":" + MinutesOf(s));
    } else {
      assert s == "GMT" + sign + HoursOf(s) + (":" + MinutesOf(s));
    }
  }

  /** The hours of an offset text. */
  function HoursOf(s: string): string
    requires |s| >= 5
  {
    if |s| == 5 || |s| == 8 then [s[4]] else [s[4], s[5]]
  }

  /** The minutes of an offset text. */
  function MinutesOf(s: string): string
    requires |s| >= 5
  {
    if |s| <= 6 then [] else [s[|s| - 2], s[|s| - 1]]
  }

  /** The short localized GMT format of Unicode Technical Standard 35: no offset at all for zero,
      no leading zero in the hours, no minutes when they are zero. */
  function ShortOffsetText(minutes: int): string
    requires -6000 < minutes < 6000
  {
    if minutes == 0 then "GMT"
    else
      var a := if minutes < 0 then -minutes else minutes;
      var hours := if a / 60 < 10 then [DigitOf(a / 60)] else Pad2(a / 60);
      ['G', 'M', 'T', if minutes < 0 then '-' else '+'] + hours + if a % 60 == 0 then "" else [':'] + Pad2(a % 60)
  }

  /** The parser reads back every offset but zero, whose text is the bare "GMT". */
  lemma OffsetTextRoundTrip(minutes: int)
    requires -6000 < minutes < 6000
    ensures ParseOffsetMinutes(ShortOffsetText(minutes)) == if minutes == 0 then None else Some(minutes)
  {
    var s := ShortOffsetText(minutes);
    if minutes != 0 {
      var a := if minutes < 0 then -minutes else minutes;
      assert s[..3] == "GMT";
      assert s[3] == if minutes < 0 then '-' else '+';
    }
  }

  /** getOffsetMinutes, given the offset text that Intl prints at every instant. */
  function ZoneOfTexts(texts: int -> string): Zone {
    t => ParseOffsetMinutes(texts(t))
  }

  function OffsetAt(zone: Zone, t: int): Option<int> {
    match zone(t)
    case None => None
    case Some(m) => Some(m * MINUTE_MS)
  }

  // ---- the fixed-point loop ----

  /** n rounds of utc := local - offset(utc). */
  function Rounds(zone: Zone, local: int, utc: int, n: nat): Option<int>
    decreases n
  {
    if n == 0 then Some(utc)
    else match OffsetAt(zone, utc)
      case None => None
      case Some(o) => Rounds(zone, local, local - o, n - 1)
  }

  function LocalToUtc(zone: Zone, local: int): Option<int> {
    Rounds(zone, local, local, 3)
  }

  /** The instant t shows the wall-clock time local in the zone. */
  predicate Shows(zone: Zone, local: int, t: int) {
    OffsetAt(zone, t) == Some(local - t)
  }

  lemma {:induction false} FixedPointStays(zone: Zone, local: int, t: int, n: nat)
    requires Shows(zone, local, t)
    ensures Rounds(zone, local, t, n) == Some(t)
  {
    if n > 0 {
      FixedPointStays(zone, local, t, n - 1);
    }
  }

  /** The loop of localDateTimeToUtc, with its early exit, is three plain rounds: a round that changes
      nothing has found a fixed point, and further rounds would stay there. */
  method LocalDateTimeToUtc(zone: Zone, local: int) returns (r: Option<int>)
    ensures r == LocalToUtc(zone, local)
  {
    var utcMillis := local;
    for i := 0 to 3
      invariant LocalToUtc(zone, local) == Rounds(zone, local, utcMillis, 3 - i)
    {
      var offset := OffsetAt(zone, utcMillis);
      if offset.None? {
        return None;
      }
      var adjusted := local - offset.value;
      if adjusted == utcMillis {
        FixedPointStays(zone, local, utcMillis, 3 - i);
        return Some(utcMillis);
      }
      utcMillis := adjusted;
    }
    r := Some(utcMillis);
  }

  // ---- three rounds are enough around one transition ----

  /** No offset exceeds reach, and within reach of the local time the zone has offset a before the
      instant change and offset b from then on. */
  ghost predicate OneChangeNear(zone: Zone, local: int, reach: int, change: int, a: int, b: int) {
    && (forall t, o :: OffsetAt(zone, t) == Some(o) ==> -reach <= o <= reach)
    && (forall t :: local - reach <= t <= local + reach ==> OffsetAt(zone, t) == Some(if t < change then a else b))
  }

  /** The local times that the clock skips when it goes forward at the change. */
  predicate InGap(local: int, change: int, a: int, b: int) {
    change + a <= local < change + b
  }

  /** localDateTimeToUtc finds an instant that shows the local time whenever there is one, and there
      is one exactly outside the gap.  In the gap the result applies the offset found at the local
      time itself read as UTC; so it does when both offsets would do. */
  lemma ThreeRoundsSuffice(zone: Zone, local: int, reach: int, change: int, a: int, b: int)
    requires reach >= 0 && OneChangeNear(zone, local, reach, change, a, b)
    ensures LocalToUtc(zone, local).Some?
    ensures
      var r := LocalToUtc(zone, local).value;
      && (Shows(zone, local, r) <==> exists t :: Shows(zone, local, t))
      && (Shows(zone, local, r) <==> !InGap(local, change, a, b))
      && (InGap(local, change, a, b) || change + b <= local < change + a ==>
            r == local - (if local < change then a else b))
  {
    var o := if local < change then a else b;
    assert OffsetAt(zone, local) == Some(o);
    var x := local - o;
    var p := if x < change then a else b;
    assert OffsetAt(zone, x) == Some(p);
    var y := local - p;
    var q := if y < change then a else b;
    assert OffsetAt(zone, y) == Some(q);
    assert Rounds(zone, local, local, 3) == Rounds(zone, local, x, 2) == Rounds(zone, local, y, 1) == Some(local - q);
    assert -reach <= q <= reach;
    assert OffsetAt(zone, local - q) == Some(if local - q < change then a else b);
    forall t | Shows(zone, local, t)
      ensures !InGap(local, change, a, b)
    {
      assert -reach <= local - t <= reach;
    }
  }

  // ---- zones in which an offset is zero ----

  /** Intl prints the offset a (in minutes) before the instant change and b from then on, at every
      instant that the loop may look up. */
  ghost predicate PrintsOneChange(texts: int -> string, local: int, change: int, a: int, b: int) {
    && -6000 < a < 6000 && -6000 < b < 6000
    && forall t :: local - 6000 * MINUTE_MS <= t <= local + 6000 * MINUTE_MS ==>
         texts(t) == ShortOffsetText(if t < change then a else b)
  }

  lemma PrintedOffset(texts: int -> string, local: int, change: int, a: int, b: int, t: int)
    requires PrintsOneChange(texts, local, change, a, b)
    requires local - 6000 * MINUTE_MS <= t <= local + 6000 * MINUTE_MS
    ensures
      var o := if t < change then a else b;
      OffsetAt(ZoneOfTexts(texts), t) == if o == 0 then None else Some(o * MINUTE_MS)
  {
    hide ParseOffsetMinutes, ShortOffsetText;
    OffsetTextRoundTrip(if t < change then a else b);
  }

  /** The conversion succeeds exactly when neither the offset at the local time read as UTC nor the
      offset at the instant that this one leads to is zero. */
  lemma ConvertsIff(texts: int -> string, local: int, change: int, a: int, b: int)
    requires PrintsOneChange(texts, local, change, a, b)
    ensures
      var o := if local < change then a else b;
      LocalToUtc(ZoneOfTexts(texts), local).Some? <==>
        o != 0 && (if local - o * MINUTE_MS < change then a else b) != 0
  {
    hide ParseOffsetMinutes, ShortOffsetText, OffsetAt, ZoneOfTexts;
    var zone, o := ZoneOfTexts(texts), if local < change then a else b;
    PrintedOffset(texts, local, change, a, b, local);
    if o != 0 {
      var x := local - o * MINUTE_MS;
      var p := if x < change then a else b;
      PrintedOffset(texts, local, change, a, b, x);
      if p != 0 {
        PrintedOffset(texts, local, change, a, b, local - p * MINUTE_MS);
        assert Rounds(zone, local, local, 3) == Rounds(zone, local, x, 2);
        assert Rounds(zone, local, x, 2) == Rounds(zone, local, local - p * MINUTE_MS, 1);
      } else {
        assert Rounds(zone, local, local, 3) == Rounds(zone, local, x, 2) == None;
      }
    }
  }

  /** What that means for a zone with a zero offset on one side of the change, such as London's.  From
      an offset of zero, no local time converts that lies before the change, read as UTC, or in the gap
      that the change opens; to an offset of zero, none that lies in the gap or from the change on.
      What does convert shows the local time. */
  lemma ZeroOnOneSide(texts: int -> string, local: int, change: int, a: int, b: int)
    requires PrintsOneChange(texts, local, change, a, b)
    ensures
      var r := LocalToUtc(ZoneOfTexts(texts), local);
      && (a == 0 && b == 0 ==> r.None?)
      && (a != 0 && b != 0 ==> r.Some?)
      && (a == 0 && b != 0 ==> (r.Some? <==> local >= change + (if b > 0 then b else 0) * MINUTE_MS))
      && (a != 0 && b == 0 ==> (r.Some? <==> local < change + (if a < 0 then a else 0) * MINUTE_MS))
      && ((a == 0) != (b == 0) && r.Some? ==> Shows(ZoneOfTexts(texts), local, r.value))
  {
    hide ParseOffsetMinutes, ShortOffsetText, LocalToUtc, ZoneOfTexts, OffsetAt;
    ConvertsIff(texts, local, change, a, b);
    var o := if local < change then a else b;
    if (a == 0) != (b == 0) && LocalToUtc(ZoneOfTexts(texts), local).Some? {
      PrintedOffset(texts, local, change, a, b, local);
      PrintedOffset(texts, local, change, a, b, local - o * MINUTE_MS);
      TwoRounds(ZoneOfTexts(texts), local, o * MINUTE_MS);
    }
  }

  lemma TwoRounds(zone: Zone, local: int, o: int)
    requires OffsetAt(zone, local) == Some(o) && OffsetAt(zone, local - o) == Some(o)
    ensures LocalToUtc(zone, local) == Some(local - o) && Shows(zone, local, local - o)
  {
    FixedPointStays(zone, local, local - o, 2);
  }
}
