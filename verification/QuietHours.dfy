/**
 Quiet hours: a window of the user's local day, kept as "HH:mm" texts, moved to UTC and tested there
 (quiet-hours.ts), and the instant to which an alert inside the window is put off
 (alert-detection.job.ts).
 */
module QuietHours {
  import opened Wrappers
  import opened Digits
  import opened Calendar

  const MS_PER_MINUTE: int := 60_000
  const MINUTES: int := 1440

  // ---- Times as text --------------------------------------------------------------------

  function Split(s: string, c: char): (parts: seq<string>)
    ensures |parts| >= 1
  {
    if s == "" then [""]
    else
      var rest := Split(s[1..], c);
      if s[0] == c then [""] + rest else [[s[0]] + rest[0]] + rest[1..]
  }

  /** The number a text of plain digits stands for; the empty text is 0 and None is NaN. */
  function Number(s: string): Option<nat> {
    if AllDigits(s) then Some(ValueOf(s)) else None
  }

  /** A missing part is undefined, which Number would make NaN as well. */
  function Part(parts: seq<string>, k: nat): Option<nat> {
    if k < |parts| then Number(parts[k]) else None
  }

  /** The first two parts between colons, as hours and minutes. */
  function MinutesOf(text: string): Option<nat> {
    var parts := Split(text, ':');
    var (h, m) := (Part(parts, 0), Part(parts, 1));
    if h.None? || m.None? then None else Some(h.value * 60 + m.value)
  }

  /** The offset of a text such as "+01:00" or "-05:00", in minutes east of UTC. */
  function OffsetOf(offset: string): Option<int> {
    var m := MinutesOf(if offset == "" then "" else offset[1..]);
    if m.None? then None else
    var sign := if offset != "" && offset[0] == '-' then -1 else 1;
    Some(sign * m.value)
  }

  function ClockText(m: nat): string {
    Padded(Decimal(m / 60), 2) + ":" + Padded(Decimal(m % 60), 2)
  }

  /** The remainder with the sign of the dividend. */
  function Rem(a: int, b: int): int
    requires b > 0
  {
    if a >= 0 then a % b else -((-a) % b)
  }

  function WrapDay(total: int): int {
    Rem(Rem(Rem(total, MINUTES), MINUTES) + MINUTES, MINUTES)
  }

  /** Wrapping gives a minute of the day whatever the sign. */
  lemma WrapDayInRange(total: int)
    ensures WrapDay(total) == total % MINUTES
  {
    RemResidue(total);
    var r := Rem(total, MINUTES);
    RemResidue(r);
    assert Rem(r + MINUTES, MINUTES) == (r + MINUTES) % MINUTES;
    hide Rem;
    SameResidue(total, r + MINUTES);
  }

  lemma RemResidue(a: int)
    ensures var r := Rem(a, MINUTES); -MINUTES < r < MINUTES && (a - r) % MINUTES == 0
    ensures -MINUTES < a < MINUTES ==> Rem(a, MINUTES) == a
  {
    if a < 0 {
      var q := (-a) / MINUTES;
      assert a - Rem(a, MINUTES) == -q * MINUTES;
    }
  }

  function ConvertToUTC(localTime: string, offset: string): string {
    var (local, off) := (MinutesOf(localTime), OffsetOf(offset));
    if local.None? || off.None? then "NaN:NaN" else ClockText(WrapDay(local.value - off.value))
  }

  // ---- The test -------------------------------------------------------------------------

  function UTCHours(t: int): int { t / 3_600_000 % 24 }

  function UTCMinutes(t: int): int { t / MS_PER_MINUTE % 60 }

  predicate IsWithinQuietHours(currentTime: int, quietStart: string, quietEnd: string) {
    var current := UTCHours(currentTime) * 60 + UTCMinutes(currentTime);
    var (start, end) := (MinutesOf(quietStart), MinutesOf(quietEnd));
    if quietStart == "00:00" && quietEnd == "00:00" then true
    else if start.None? || end.None? then false // every comparison with NaN is false
    else if start.value == end.value then false
    else if start.value > end.value then current >= start.value || current < end.value
    else start.value <= current < end.value
  }

  // ---- What the texts mean --------------------------------------------------------------

  lemma {:induction false} SplitPair(a: string, b: string, c: char)
    requires c !in a && c !in b
    ensures Split(a + [c] + b, c) == [a, b]
    decreases |a|
  {
    var s := a + [c] + b;
    if a == "" {
      SplitNone(b, c);
      assert s[1..] == b;
    } else {
      assert s[1..] == a[1..] + [c] + b;
      SplitPair(a[1..], b, c);
      assert [a[0]] + a[1..] == a && [a[1..], b][1..] == [b];
    }
  }

  lemma {:induction false} SplitNone(b: string, c: char)
    requires c !in b
    ensures Split(b, c) == [b]
  {
    if b != "" {
      SplitNone(b[1..], c);
      assert [b[0]] + b[1..] == b && [b[1..]][1..] == [];
    }
  }

  lemma DigitsHaveNoColon(s: string)
    requires AllDigits(s)
    ensures ':' !in s
  {
  }

  /** A printed time reads back. */
  lemma ClockReadsBack(m: nat)
    ensures MinutesOf(ClockText(m)) == Some(m)
  {
    hide Padded, Decimal, ValueOf, Split;
    var (h, r) := (Padded(Decimal(m / 60), 2), Padded(Decimal(m % 60), 2));
    DigitsHaveNoColon(h);
    DigitsHaveNoColon(r);
    assert h + ":" + r == h + [':'] + r;
    SplitPair(h, r, ':');
    PaddedValue(m / 60, 2);
    PaddedValue(m % 60, 2);
  }

  /** An offset is minutes east of UTC, and a minus sign turns it west. */
  lemma OffsetReadsBack(m: nat)
    ensures OffsetOf("+" + ClockText(m)) == Some(m as int)
    ensures OffsetOf("-" + ClockText(m)) == Some(0 - m as int)
  {
    ClockReadsBack(m);
    hide MinutesOf, ClockText;
    assert ("+" + ClockText(m))[1..] == ClockText(m) && ("-" + ClockText(m))[1..] == ClockText(m);
  }

  lemma ClockOfZero(m: nat)
    ensures ClockText(m) == "00:00" <==> m == 0
  {
    if m == 0 {
      assert Decimal(0) == "0";
      assert Zeros(1) == "0" + Zeros(0);
    } else if ClockText(m) == "00:00" {
      ClockReadsBack(m);
      ClockReadsBack(0);
      ClockOfZero(0);
    }
  }

  // ---- The window as an arc of the day ----------------------------------------------------

  /** Going round from `start`, minute `m` comes before `end`: no case for midnight. */
  predicate InArc(m: int, start: int, end: int) {
    (m - start) % MINUTES < (end - start) % MINUTES
  }

  function LocalMinute(now: int, offset: int): int { (now + offset * MS_PER_MINUTE) / MS_PER_MINUTE }

  lemma MinuteOfDay(t: int)
    ensures UTCHours(t) * 60 + UTCMinutes(t) == t / MS_PER_MINUTE % MINUTES
  {
    var m := t / MS_PER_MINUTE;
    assert t / 3_600_000 == m / 60;
    assert m / 60 % 24 * 60 + m % 60 == m % MINUTES;
  }

  lemma CaseSplitIsArc(m: int, start: int, end: int)
    requires 0 <= start < MINUTES && 0 <= end < MINUTES && start != end
    ensures var c := m % MINUTES;
            (if start > end then c >= start || c < end else start <= c < end) <==> InArc(m, start, end)
  {
    var c := m % MINUTES;
    assert (m - start) % MINUTES == if c >= start then c - start else c - start + MINUTES;
    assert (end - start) % MINUTES == if end >= start then end - start else end - start + MINUTES;
  }

  /** The test on two printed times. */
  lemma TestOnClockTexts(now: int, start: nat, end: nat)
    requires start < MINUTES && end < MINUTES
    ensures IsWithinQuietHours(now, ClockText(start), ClockText(end))
            <==> if start == end then start == 0 else InArc(now / MS_PER_MINUTE, start, end)
  {
    ClockReadsBack(start);
    ClockReadsBack(end);
    ClockOfZero(start);
    ClockOfZero(end);
    MinuteOfDay(now);
    hide ClockText, MinutesOf, UTCHours, UTCMinutes, InArc;
    if start != end { CaseSplitIsArc(now / MS_PER_MINUTE, start, end); }
  }

  lemma ArcMoves(m: int, start: int, end: int, offset: int)
    ensures InArc(m, (start - offset) % MINUTES, (end - offset) % MINUTES) <==> InArc(m + offset, start, end)
  {
    var (s, e) := ((start - offset) % MINUTES, (end - offset) % MINUTES);
    SameResidue(m - s, m + offset - start);
    SameResidue(e - s, end - start);
  }

  lemma SameResidue(a: int, b: int)
    requires (a - b) % MINUTES == 0
    ensures a % MINUTES == b % MINUTES
  {
  }

  lemma DifferentEnds(start: int, end: int, offset: int)
    ensures (start - offset) % MINUTES == (end - offset) % MINUTES <==> (start - end) % MINUTES == 0
  {
    if (start - end) % MINUTES == 0 { SameResidue(start - offset, end - offset); }
  }

  /**
   The UTC test of the converted window is the local test of the window, at every offset, around
   midnight too. A window whose ends coincide is quiet always or never, as the offset decides.
   */
  lemma WindowMovesWithOffset(now: int, quietStart: string, quietEnd: string, timezone: string,
                              start: nat, end: nat, offset: int)
    requires MinutesOf(quietStart) == Some(start) && MinutesOf(quietEnd) == Some(end) && OffsetOf(timezone) == Some(offset)
    ensures IsWithinQuietHours(now, ConvertToUTC(quietStart, timezone), ConvertToUTC(quietEnd, timezone))
            <==> if (start - end) % MINUTES != 0 then InArc(LocalMinute(now, offset), start, end)
                 else (start - offset) % MINUTES == 0
  {
    hide MinutesOf, OffsetOf, IsWithinQuietHours, InArc, ClockText, WrapDay;
    WrapDayInRange(start - offset);
    WrapDayInRange(end - offset);
    TestOnClockTexts(now, (start - offset) % MINUTES, (end - offset) % MINUTES);
    ArcMoves(now / MS_PER_MINUTE, start, end, offset);
    DifferentEnds(start, end, offset);
  }

  lemma LocalTest(now: int, start: nat, end: nat, offset: int)
    requires start < MINUTES && end < MINUTES
    ensures IsWithinQuietHours(now + offset * MS_PER_MINUTE, ClockText(start), ClockText(end))
            <==> if start == end then start == 0 else InArc(LocalMinute(now, offset), start, end)
  {
    hide IsWithinQuietHours, InArc, ClockText;
    TestOnClockTexts(now + offset * MS_PER_MINUTE, start, end);
  }

  lemma SameMinute(start: nat, other: int)
    requires start < MINUTES
    ensures (start - other) % MINUTES == 0 <==> start == other % MINUTES
  {
    if (start - other) % MINUTES == 0 { SameResidue(start, other); } else { assert start != other % MINUTES; }
  }

  lemma UTCTest(now: int, start: nat, end: nat, timezone: string, offset: int)
    requires start < MINUTES && end < MINUTES && OffsetOf(timezone) == Some(offset)
    ensures IsWithinQuietHours(now, ConvertToUTC(ClockText(start), timezone), ConvertToUTC(ClockText(end), timezone))
            <==> if start == end then start == offset % MINUTES else InArc(LocalMinute(now, offset), start, end)
  {
    ClockReadsBack(start);
    ClockReadsBack(end);
    hide MinutesOf, OffsetOf, IsWithinQuietHours, InArc, ClockText, ConvertToUTC, LocalMinute;
    SameMinute(start, end);
    SameMinute(start, offset);
    WindowMovesWithOffset(now, ClockText(start), ClockText(end), timezone, start, end, offset);
  }

  /**
   On times as the settings store them, testing in UTC and testing in local time agree exactly when
   the ends differ, or when starting at midnight and starting at the offset are the same thing.
   The sentinel 00:00 to 00:00, meant as always quiet, is lost at every other offset.
   */
  lemma LocalTestAgreesIff(now: int, start: nat, end: nat, timezone: string, offset: int)
    requires start < MINUTES && end < MINUTES && OffsetOf(timezone) == Some(offset)
    ensures (IsWithinQuietHours(now, ConvertToUTC(ClockText(start), timezone), ConvertToUTC(ClockText(end), timezone))
             <==> IsWithinQuietHours(now + offset * MS_PER_MINUTE, ClockText(start), ClockText(end)))
            <==> start != end || (start == 0 <==> start == offset % MINUTES)
  {
    hide MinutesOf, OffsetOf, IsWithinQuietHours, InArc, ClockText, ConvertToUTC, LocalMinute;
    LocalTest(now, start, end, offset);
    UTCTest(now, start, end, timezone, offset);
  }

  /** A time or zone that does not read as a number, such as a zone given by name, is never quiet. */
  lemma UnreadableIsNeverQuiet(now: int, quietStart: string, quietEnd: string, timezone: string)
    requires OffsetOf(timezone).None? || MinutesOf(quietStart).None? || MinutesOf(quietEnd).None?
    ensures !IsWithinQuietHours(now, ConvertToUTC(quietStart, timezone), ConvertToUTC(quietEnd, timezone))
  {
    NaNIsUnreadable();
    hide MinutesOf, OffsetOf, ClockText, UTCHours, UTCMinutes;
  }

  lemma NaNIsUnreadable()
    ensures MinutesOf("NaN:NaN").None?
  {
    SplitPair("NaN", "NaN", ':');
    assert "NaN" + [':'] + "NaN" == "NaN:NaN";
    assert !IsDigit("NaN"[0]);
  }

  // ---- Which texts are readable -----------------------------------------------------------------

  /** Digits, a colon, and digits up to the end or to another colon; either run of digits may be empty. */
  predicate ShapedAt(text: string, i: nat, j: nat) {
    && i < j <= |text| && text[i] == ':' && AllDigits(text[..i]) && AllDigits(text[i + 1..j])
    && (j == |text| || text[j] == ':')
  }

  ghost predicate ClockShaped(text: string) { exists i: nat, j: nat :: ShapedAt(text, i, j) }

  function FirstColon(s: string): (k: nat)
    ensures k <= |s| && ':' !in s[..k] && (k < |s| ==> s[k] == ':')
  {
    if s == "" || s[0] == ':' then 0 else
    var k := FirstColon(s[1..]);
    assert s[..k + 1] == [s[0]] + s[1..][..k];
    k + 1
  }

  lemma {:induction false} SplitAtColon(s: string)
    ensures var (parts, k) := (Split(s, ':'), FirstColon(s));
            && parts[0] == s[..k]
            && (k < |s| ==> parts[1..] == Split(s[k + 1..], ':')) && (k == |s| ==> |parts| == 1)
  {
    if s != "" {
      var k := FirstColon(s[1..]);
      SplitAtColon(s[1..]);
      if s[0] == ':' {
        assert s[..0] == "";
      } else {
        assert s[..k + 1] == [s[0]] + s[1..][..k];
        if k < |s[1..]| { assert s[1..][k + 1..] == s[k + 2..]; }
      }
    } else {
      assert s[..0] == "";
    }
  }

  lemma DigitsThenColon(s: string, i: nat)
    requires i <= |s| && AllDigits(s[..i]) && (i == |s| || s[i] == ':')
    ensures FirstColon(s) == i
  {
    var k := FirstColon(s);
    DigitsHaveNoColon(s[..i]);
    assert forall x :: 0 <= x < i ==> s[..i][x] == s[x];
    assert forall x :: 0 <= x < k ==> s[..k][x] == s[x];
  }

  predicate LeadingDigits(text: string) { AllDigits(text[..FirstColon(text)]) }

  /** Digits before the first colon, and between it and the next. */
  predicate TwoNumbers(text: string) {
    var k := FirstColon(text);
    k < |text| && LeadingDigits(text) && LeadingDigits(text[k + 1..])
  }

  lemma PartsAreNumbers(text: string)
    ensures MinutesOf(text).Some? <==> TwoNumbers(text)
  {
    hide ValueOf, Split, AllDigits;
    SplitAtColon(text);
    var k := FirstColon(text);
    if k < |text| {
      SplitAtColon(text[k + 1..]);
      assert Split(text, ':')[1] == Split(text[k + 1..], ':')[0];
    }
  }

  lemma NumbersAreShaped(text: string)
    requires TwoNumbers(text)
    ensures ClockShaped(text)
  {
    var k := FirstColon(text);
    var m := FirstColon(text[k + 1..]);
    assert text[k + 1..k + 1 + m] == text[k + 1..][..m];
    hide AllDigits;
    assert ShapedAt(text, k, k + 1 + m);
  }

  lemma ShapedAreNumbers(text: string, i: nat, j: nat)
    requires ShapedAt(text, i, j)
    ensures TwoNumbers(text)
  {
    DigitsThenColon(text, i);
    assert text[i + 1..][..j - i - 1] == text[i + 1..j];
    DigitsThenColon(text[i + 1..], j - i - 1);
  }

  /** A time text is readable exactly when its characters have that shape. */
  lemma ReadableIff(text: string)
    ensures MinutesOf(text).Some? <==> ClockShaped(text)
  {
    PartsAreNumbers(text);
    if TwoNumbers(text) { NumbersAreShaped(text); }
    hide MinutesOf, TwoNumbers;
    if i: nat, j: nat :| ShapedAt(text, i, j) { ShapedAreNumbers(text, i, j); }
  }

  /** A zone without its first character, which is read as the sign. */
  function Unsigned(timezone: string): string { if timezone == "" then "" else timezone[1..] }

  lemma ZoneReadableIff(timezone: string)
    ensures OffsetOf(timezone).Some? <==> ClockShaped(Unsigned(timezone))
  {
    hide MinutesOf;
    ReadableIff(Unsigned(timezone));
  }

  /** A zone given by name, such as Africa/Lagos, or any text without a colon after its first character. */
  lemma NamedZoneIsUnreadable(timezone: string)
    requires ':' !in Unsigned(timezone)
    ensures OffsetOf(timezone).None?
  {
    SplitNone(Unsigned(timezone), ':');
  }

  /**
   A user has quiet hours at some time exactly when both times and the zone are shaped like clock times,
   and the window has different ends or starts at the offset. It is a matter of characters and numbers.
   */
  lemma EverQuietIff(quietStart: string, quietEnd: string, timezone: string)
    ensures (exists now :: IsWithinQuietHours(now, ConvertToUTC(quietStart, timezone), ConvertToUTC(quietEnd, timezone)))
            <==> && ClockShaped(quietStart) && ClockShaped(quietEnd) && ClockShaped(Unsigned(timezone))
                 && var (start, end, offset) := (MinutesOf(quietStart), MinutesOf(quietEnd), OffsetOf(timezone));
                    && start.Some? && end.Some? && offset.Some?
                    && ((start.value - end.value) % MINUTES != 0 || (start.value - offset.value) % MINUTES == 0)
  {
    ReadableIff(quietStart);
    ReadableIff(quietEnd);
    ZoneReadableIff(timezone);
    hide IsWithinQuietHours, MinutesOf, OffsetOf, ConvertToUTC, ClockShaped;
    var (start, end, offset) := (MinutesOf(quietStart), MinutesOf(quietEnd), OffsetOf(timezone));
    if start.Some? && end.Some? && offset.Some? {
      QuietSometime(quietStart, quietEnd, timezone, start.value, end.value, offset.value);
    } else {
      forall now ensures !IsWithinQuietHours(now, ConvertToUTC(quietStart, timezone), ConvertToUTC(quietEnd, timezone)) {
        UnreadableIsNeverQuiet(now, quietStart, quietEnd, timezone);
      }
    }
  }

  lemma QuietSometime(quietStart: string, quietEnd: string, timezone: string, start: nat, end: nat, offset: int)
    requires MinutesOf(quietStart) == Some(start) && MinutesOf(quietEnd) == Some(end) && OffsetOf(timezone) == Some(offset)
    ensures (exists now :: IsWithinQuietHours(now, ConvertToUTC(quietStart, timezone), ConvertToUTC(quietEnd, timezone)))
            <==> (start - end) % MINUTES != 0 || (start - offset) % MINUTES == 0
  {
    hide IsWithinQuietHours, MinutesOf, OffsetOf, ConvertToUTC, InArc, LocalMinute;
    var first := (start - offset) * MS_PER_MINUTE;
    forall now
      ensures IsWithinQuietHours(now, ConvertToUTC(quietStart, timezone), ConvertToUTC(quietEnd, timezone))
              ==> (start - end) % MINUTES != 0 || (start - offset) % MINUTES == 0
    {
      WindowMovesWithOffset(now, quietStart, quietEnd, timezone, start, end, offset);
    }
    WindowMovesWithOffset(first, quietStart, quietEnd, timezone, start, end, offset);
    StartIsInside(start, end, offset);
  }

  lemma StartIsInside(start: nat, end: nat, offset: int)
    ensures (start - end) % MINUTES != 0 ==> InArc(LocalMinute((start - offset) * MS_PER_MINUTE, offset), start, end)
  {
    assert LocalMinute((start - offset) * MS_PER_MINUTE, offset) == start;
    if (end - start) % MINUTES == 0 { SameResidue(start - end, 0); }
  }

  /**
   The sentinel at a failing input: in a zone an hour ahead, 00:00 to 00:00 is never quiet, though on the
   local clock it always is; and 01:00 to 01:00, which should be empty, is always quiet.
   */
  lemma SentinelIsLost(now: int)
    ensures !IsWithinQuietHours(now, ConvertToUTC("00:00", "+01:00"), ConvertToUTC("00:00", "+01:00"))
    ensures IsWithinQuietHours(now + 60 * MS_PER_MINUTE, "00:00", "00:00")
    ensures IsWithinQuietHours(now, ConvertToUTC("01:00", "+01:00"), ConvertToUTC("01:00", "+01:00"))
    ensures !IsWithinQuietHours(now + 60 * MS_PER_MINUTE, "01:00", "01:00")
  {
    ClockOfZero(0);
    ClockOfSixty();
    ClockReadsBack(0);
    ClockReadsBack(60);
    assert "+01:00"[1..] == "01:00";
    assert OffsetOf("+01:00") == Some(60) by { hide MinutesOf; }
    hide IsWithinQuietHours, ConvertToUTC, OffsetOf, MinutesOf, InArc, LocalMinute, ClockText;
    UTCTest(now, 0, 0, "+01:00", 60);
    UTCTest(now, 60, 60, "+01:00", 60);
    LocalTest(now, 0, 0, 60);
    LocalTest(now, 60, 60, 60);
  }

  lemma ClockOfSixty()
    ensures ClockText(60) == "01:00"
  {
    assert Decimal(0) == "0" && Decimal(1) == "1";
    assert Zeros(1) == "0" + Zeros(0);
  }

  // ---- The deferral instant ---------------------------------------------------------------

  /** The given UTC time, to the second, on the UTC day of `t`. */
  function SetUTCHours(t: int, h: int, m: int): int {
    MakeDate(Day(t), h * 3_600_000 + m * MS_PER_MINUTE)
  }

  /** The same UTC time on the next UTC date. */
  function NextUTCDate(t: int): int {
    MakeDate(MakeDay(YearOf(Day(t)), MonthOf(Day(t)), DateOf(Day(t)) + 1), TimeWithinDay(t))
  }

  /** Where a deferred alert is scheduled; None is an invalid Date. */
  function DeferredInstant(now: int, utcEnd: string): Option<int> {
    var parts := Split(utcEnd, ':');
    var (h, m) := (Part(parts, 0), Part(parts, 1));
    if h.None? || m.None? then None else
    var at := SetUTCHours(now, h.value, m.value);
    Some(if at <= now then NextUTCDate(at) else at)
  }

  lemma NextDateIsNextDay(t: int)
    ensures NextUTCDate(t) == t + MS_PER_DAY
  {
    MakeDayInverts(Day(t), 1);
    hide MakeDay, YearOf, MonthOf, DateOf;
  }

  /** The deferral instant is the first instant after `now` at which the clock shows `end`. */
  lemma DeferredToNextEnd(now: int, end: nat)
    requires end < MINUTES
    ensures var at := DeferredInstant(now, ClockText(end));
            && at.Some? && now < at.value <= now + MS_PER_DAY && at.value % MS_PER_DAY == end * MS_PER_MINUTE
  {
    ClockReadsBack(end);
    hide ClockText, Split, NextUTCDate, Part, SetUTCHours;
    var parts := Split(ClockText(end), ':');
    var (h, m) := (Part(parts, 0).value, Part(parts, 1).value);
    NextDateIsNextDay(SetUTCHours(now, h, m));
    EndWithinDay(now, h, m, end);
  }

  lemma EndWithinDay(now: int, h: int, m: int, end: nat)
    requires end < MINUTES && h * 60 + m == end
    ensures var at := SetUTCHours(now, h, m);
            && now - MS_PER_DAY < at <= now + MS_PER_DAY
            && at % MS_PER_DAY == end * MS_PER_MINUTE && (at + MS_PER_DAY) % MS_PER_DAY == end * MS_PER_MINUTE
  {
  }

  lemma MinuteOfInstant(at: int, end: nat)
    requires end < MINUTES && at % MS_PER_DAY == end * MS_PER_MINUTE
    ensures at % MS_PER_MINUTE == 0 && at / MS_PER_MINUTE % MINUTES == end
  {
    var d := at / MS_PER_DAY;
    assert at == (d * MINUTES + end) * MS_PER_MINUTE;
    assert at / MS_PER_MINUTE == d * MINUTES + end;
  }

  lemma EndIsOutside(k: int, start: int, end: int)
    requires k % MINUTES == end % MINUTES
    ensures !InArc(k, start, end)
  {
    SameResidue(k - start, end - start);
  }

  lemma NextMinute(m: int, start: int)
    ensures (m + 1 - start) % MINUTES == (if (m - start) % MINUTES == MINUTES - 1 then 0 else (m - start) % MINUTES + 1)
  {
  }

  lemma ArcStep(m: int, start: int, end: int)
    requires InArc(m, start, end) && (m + 1) % MINUTES != end % MINUTES
    ensures InArc(m + 1, start, end)
  {
    NextMinute(m, start);
    var (a, b) := ((m - start) % MINUTES, (end - start) % MINUTES);
    assert a < b < MINUTES;
    if a + 1 == b { LastMinute(m, start, end); }
  }

  lemma LastMinute(m: int, start: int, end: int)
    requires (m - start) % MINUTES + 1 == (end - start) % MINUTES
    ensures (m + 1) % MINUTES == end % MINUTES
  {
    assert (m + 1 - end) % MINUTES == 0;
    SameResidue(m + 1, end);
  }

  /** From inside an arc, every minute before the next arrival at its end is inside. */
  lemma {:induction false} ArcUntilEnd(m: int, j: int, start: int, end: int)
    requires InArc(m, start, end) && m <= j
    requires forall i :: m < i <= j ==> i % MINUTES != end % MINUTES
    ensures InArc(j, start, end)
    decreases j - m
  {
    hide InArc;
    if j > m {
      ArcUntilEnd(m, j - 1, start, end);
      ArcStep(j - 1, start, end);
    }
  }

  /** `at` is the first instant from `now` on at which the window no longer holds. */
  ghost predicate FirstOutside(now: int, at: int, quietStart: string, quietEnd: string) {
    && !IsWithinQuietHours(at, quietStart, quietEnd)
    && forall t :: now <= t < at ==> IsWithinQuietHours(t, quietStart, quietEnd)
  }

  lemma NoEarlierEnd(m: int, k: int, end: int)
    requires m <= k <= m + MINUTES && k % MINUTES == end
    ensures forall j :: m < j < k ==> j % MINUTES != end
  {
  }

  lemma InsideUntilEnd(m: int, k: int, j: int, start: int, end: int)
    requires InArc(m, start, end) && m <= j < k <= m + MINUTES && k % MINUTES == end % MINUTES
    ensures InArc(j, start, end)
  {
    hide InArc;
    NoEarlierEnd(m, k, end % MINUTES);
    if j > m { ArcUntilEnd(m, j, start, end); }
  }

  lemma DeferredPastWindow(now: int, start: nat, end: nat)
    requires start < MINUTES && end < MINUTES && start != end
    requires IsWithinQuietHours(now, ClockText(start), ClockText(end))
    ensures var at := DeferredInstant(now, ClockText(end));
            && at.Some? && now < at.value < now + MS_PER_DAY
            && FirstOutside(now, at.value, ClockText(start), ClockText(end))
  {
    hide IsWithinQuietHours, ClockText, DeferredInstant, InArc;
    DeferredToNextEnd(now, end);
    var at := DeferredInstant(now, ClockText(end)).value;
    MinuteOfInstant(at, end);
    var (m, k) := (now / MS_PER_MINUTE, at / MS_PER_MINUTE);
    TestOnClockTexts(now, start, end);
    TestOnClockTexts(at, start, end);
    EndIsOutside(k, start, end);
    if at == now + MS_PER_DAY { EndIsOutside(m, start, end); }
    forall t | now <= t < at ensures IsWithinQuietHours(t, ClockText(start), ClockText(end)) {
      TestOnClockTexts(t, start, end);
      InsideUntilEnd(m, k, t / MS_PER_MINUTE, start, end);
    }
  }

  /**
   An alert put off is scheduled within a day, at the first later instant outside the user's window;
   when the window has no outside because its ends coincide, it still goes out within a day.
   */
  lemma DeferredToFirstOutside(now: int, quietStart: string, quietEnd: string, timezone: string)
    ensures var (utcStart, utcEnd) := (ConvertToUTC(quietStart, timezone), ConvertToUTC(quietEnd, timezone));
            var at := DeferredInstant(now, utcEnd);
            IsWithinQuietHours(now, utcStart, utcEnd) ==>
              && at.Some? && now < at.value <= now + MS_PER_DAY
              && (if utcStart != utcEnd then at.value < now + MS_PER_DAY && FirstOutside(now, at.value, utcStart, utcEnd)
                  else forall t :: IsWithinQuietHours(t, utcStart, utcEnd))
  {
    hide MinutesOf, OffsetOf, IsWithinQuietHours, ClockText, DeferredInstant, FirstOutside, WrapDay;
    if OffsetOf(timezone).None? || MinutesOf(quietStart).None? || MinutesOf(quietEnd).None? {
      UnreadableIsNeverQuiet(now, quietStart, quietEnd, timezone);
    } else if IsWithinQuietHours(now, ConvertToUTC(quietStart, timezone), ConvertToUTC(quietEnd, timezone)) {
      var offset := OffsetOf(timezone).value;
      var (start, end) := ((MinutesOf(quietStart).value - offset) % MINUTES, (MinutesOf(quietEnd).value - offset) % MINUTES);
      WrapDayInRange(MinutesOf(quietStart).value - offset);
      WrapDayInRange(MinutesOf(quietEnd).value - offset);
      DeferralOnClockTexts(now, start, end);
    }
  }

  lemma DeferralOnClockTexts(now: int, start: nat, end: nat)
    requires start < MINUTES && end < MINUTES
    requires IsWithinQuietHours(now, ClockText(start), ClockText(end))
    ensures var at := DeferredInstant(now, ClockText(end));
            && at.Some? && now < at.value <= now + MS_PER_DAY
            && (if ClockText(start) != ClockText(end)
                then at.value < now + MS_PER_DAY && FirstOutside(now, at.value, ClockText(start), ClockText(end))
                else forall t :: IsWithinQuietHours(t, ClockText(start), ClockText(end)))
  {
    hide IsWithinQuietHours, ClockText, DeferredInstant, FirstOutside, InArc;
    if start != end {
      DeferredPastWindow(now, start, end);
      ClockReadsBack(start);
      ClockReadsBack(end);
    } else {
      DeferredToNextEnd(now, end);
      TestOnClockTexts(now, start, end);
      forall t ensures IsWithinQuietHours(t, ClockText(start), ClockText(end)) { TestOnClockTexts(t, start, end); }
    }
  }
}
