/**
 * Reset times: the first "reset"/"renew" line in a 14-line window, read as
 * a relative duration ("2d 3h 10m") or, failing that, as an absolute time
 * of day or full date in the zone named in parentheses (main.go
 * `parseResetTime`, `parseAbsoluteTime`).
 */
module ResetTime {
  import opened Wrappers
  import opened Text
  import opened Model
  import opened Captures

  const ScanWindow: nat := 14

  /** am/pm to the 24-hour clock: 12am is 0, 12pm is 12, other pm hours gain 12. */
  function To24Hour(hour: nat, pm: bool): (r: nat)
    ensures 1 <= hour <= 12 ==> r <= 23 && (r >= 12 <==> pm) && r % 12 == hour % 12
    ensures hour == 0 ==> r == (if pm then 12 else 0)
    ensures hour > 12 ==> r == (if pm then hour + 12 else hour)
  {
    if pm && hour != 12 then hour + 12
    else if !pm && hour == 12 then 0
    else hour
  }

  /** On the hours 1-12 the conversion loses nothing: distinct clock readings stay distinct. */
  lemma To24HourInjective(h1: nat, pm1: bool, h2: nat, pm2: bool)
    requires 1 <= h1 <= 12 && 1 <= h2 <= 12
    requires To24Hour(h1, pm1) == To24Hour(h2, pm2)
    ensures h1 == h2 && pm1 == pm2
  {
    var r := To24Hour(h1, pm1);
    assert r % 12 == h1 % 12 && r % 12 == h2 % 12;
    assert h1 % 12 == h2 % 12;
  }

  /** Every hour of the day is reached by exactly the reading the 12-hour clock shows for it. */
  lemma To24HourCovers(h: nat)
    requires h <= 23
    ensures To24Hour(if h % 12 == 0 then 12 else h % 12, h >= 12) == h
  {
  }

  /** Seconds after local midnight of a clock reading. */
  function TimeOfDay(t: ClockTime): nat {
    To24Hour(t.hour, t.pm) * 3600 + t.minute * 60
  }

  /** The start of the local day containing `now`, in a zone `offset` seconds east of UTC. */
  function Midnight(now: int, offset: int): (r: int)
    ensures r <= now < r + 86400
    ensures (r + offset) % 86400 == 0
  {
    now - (now + offset) % 86400
  }

  /**
   * Days from 1970-01-01 to the given proleptic Gregorian date (the day may
   * lie outside the month, as Go's `time.Date` normalises it).
   */
  function DaysFromCivil(year: int, month: MonthNumber, day: int): int {
    var y := if month <= 2 then year - 1 else year;
    var era := y / 400;
    var yoe := y - era * 400;
    var mp := if month > 2 then month - 3 else month + 9;
    var doy := (153 * mp + 2) / 5 + day - 1;
    var doe := yoe * 365 + yoe / 4 - yoe / 100 + doy;
    era * 146097 + doe - 719468
  }

  lemma DaysFromCivilAnchors()
    ensures DaysFromCivil(1970, 1, 1) == 0
    ensures DaysFromCivil(2000, 3, 1) == 11017
    ensures DaysFromCivil(2026, 1, 4) == 20457
  {
  }

  /** The Gregorian leap-year rule. */
  predicate IsLeapYear(year: int) {
    year % 4 == 0 && (year % 100 != 0 || year % 400 == 0)
  }

  /** The number of days of a month. */
  function MonthLength(year: int, month: MonthNumber): int {
    if month == 2 then (if IsLeapYear(year) then 29 else 28)
    else if month == 4 || month == 6 || month == 9 || month == 11 then 30
    else 31
  }

  /** Consecutive days of a month are consecutive day counts. */
  lemma DaysFromCivilNextDay(year: int, month: MonthNumber, day: int)
    ensures DaysFromCivil(year, month, day + 1) == DaysFromCivil(year, month, day) + 1
  {
  }

  /** The day after the last of a month is the first of the next month, or of the next year. */
  lemma DaysFromCivilRollover(year: int, month: MonthNumber)
    ensures month < 12 ==> DaysFromCivil(year, month, MonthLength(year, month) + 1) == DaysFromCivil(year, month + 1, 1)
    ensures month == 12 ==> DaysFromCivil(year, 12, 32) == DaysFromCivil(year + 1, 1, 1)
  {
    if month == 2 {
      FebruaryRollover(year);
    }
  }

  /** March 1st follows the last day of February, across the 400-year eras too. */
  lemma FebruaryRollover(year: int)
    ensures DaysFromCivil(year, 2, MonthLength(year, 2) + 1) == DaysFromCivil(year, 3, 1)
  {
    var era := (year - 1) / 400;
    var yoe := year - 1 - era * 400;
    var feb := MonthLength(year, 2);
    FebruaryEnd(year);
    MarchFirst(year);
    if yoe == 399 {
      assert year / 400 == era + 1 && year - year / 400 * 400 == 0;
      assert IsLeapYear(year) by { LeapInEra(year, era + 1, 0); }
    } else {
      assert year / 400 == era && year - year / 400 * 400 == yoe + 1;
      LeapInEra(year, era, yoe + 1);
      DayOfEraStep(yoe);
    }
  }

  /** The day count of the day after February's last, within the era of the year before. */
  lemma FebruaryEnd(year: int)
    ensures var era := (year - 1) / 400;
            DaysFromCivil(year, 2, MonthLength(year, 2) + 1)
            == era * 146097 + DayOfEra(year - 1 - era * 400) + 337 + MonthLength(year, 2) - 719468
  {
  }

  /** The day count of March 1st, within the era of the year. */
  lemma MarchFirst(year: int)
    ensures DaysFromCivil(year, 3, 1) == year / 400 * 146097 + DayOfEra(year - year / 400 * 400) - 719468
  {
  }

  /** Days from the start of a 400-year era to March 1st of its year `yoe`. */
  function DayOfEra(yoe: int): int {
    yoe * 365 + yoe / 4 - yoe / 100
  }

  /** One more year of an era adds 365 days, and one more in the leap years. */
  lemma DayOfEraStep(yoe: int)
    requires 0 <= yoe < 399
    ensures DayOfEra(yoe + 1) == DayOfEra(yoe) + 365 + (if (yoe + 1) % 4 == 0 && (yoe + 1) % 100 != 0 then 1 else 0)
  {
  }

  /** Inside an era, the leap rule depends only on the year of the era. */
  lemma LeapInEra(year: int, era: int, yoe: int)
    requires year == era * 400 + yoe && 0 <= yoe < 400
    ensures IsLeapYear(year) <==> yoe % 4 == 0 && (yoe % 100 != 0 || yoe == 0)
  {
    var d4 := year / 4 - (100 * era + yoe / 4);
    assert 4 * d4 == yoe % 4 - year % 4;
    var d100 := year / 100 - (4 * era + yoe / 100);
    assert 100 * d100 == yoe % 100 - year % 100;
    var d400 := year / 400 - era;
    assert 400 * d400 == yoe - year % 400;
  }

  /** The instant of a time-only reading: today at that time, or tomorrow once it has passed. */
  function TimeOnlyInstant(t: ClockTime, now: int, offset: int): (r: int)
    ensures now <= r
    ensures TimeOfDay(t) < 86400 ==> r < now + 86400
    ensures (r + offset) % 86400 == TimeOfDay(t) % 86400
  {
    var today := Midnight(now, offset) + TimeOfDay(t);
    if today < now then today + 86400 else today
  }

  /** The instant of a full date and time in a zone `offset` seconds east of UTC. */
  function FullDateInstant(d: DateTime, offset: int): (r: int)
    ensures (r + offset) % 86400 == TimeOfDay(d.time) % 86400
  {
    var days := DaysFromCivil(d.year, d.month, 1) + d.day - 1;
    DayShift(days, TimeOfDay(d.time));
    days * 86400 + TimeOfDay(d.time) - offset
  }

  /** Whole days do not change the time of day. */
  lemma DayShift(days: int, t: int)
    ensures (days * 86400 + t) % 86400 == t % 86400
  {
    var q := t / 86400;
    assert t == 86400 * q + t % 86400;
    var d := (days * 86400 + t) / 86400 - (days + q);
    assert 86400 * d == t % 86400 - (days * 86400 + t) % 86400;
  }

  /** The zone of the leftmost parenthesised name; the local zone when there is none or the zone table does not know it. */
  function ZoneOffset(line: string, clock: Clock): int {
    match Find(line, ZoneNameAt)
    case Some(name) => clock.zoneOffset(name).GetOr(clock.localOffset)
    case None => clock.localOffset
  }

  /** Whole seconds until `at`, when that is positive. */
  function Remaining(at: int, now: int): (r: Option<int>)
    ensures r.Some? <==> at > now
    ensures r.Some? ==> r.value > 0 && now + r.value == at
  {
    if at - now > 0 then Some(at - now) else None
  }

  datatype AbsoluteTime = AbsoluteTime(at: int, seconds: Option<int>)

  /** `parseAbsoluteTime`: a full date first, then a bare time of day. */
  function ParseAbsoluteTime(line: string, clock: Clock): (r: Option<AbsoluteTime>)
    ensures r.None? <==> Find(line, FullDateAt).None? && Find(line, TimeOnlyAt).None?
    ensures r.Some? ==> r.value.seconds == Remaining(r.value.at, clock.now)
    ensures r.Some? && Find(line, FullDateAt).None? ==> clock.now <= r.value.at
    ensures Find(line, FullDateAt).Some? ==>
              r.Some? && r.value.at == FullDateInstant(Find(line, FullDateAt).value, ZoneOffset(line, clock))
    ensures Find(line, FullDateAt).None? && Find(line, TimeOnlyAt).Some? ==>
              var t := Find(line, TimeOnlyAt).value;
              r.Some? && r.value.at == TimeOnlyInstant(t, clock.now, ZoneOffset(line, clock))
              && (r.value.at + ZoneOffset(line, clock)) % 86400 == TimeOfDay(t) % 86400
              && (TimeOfDay(t) < 86400 ==> r.value.at < clock.now + 86400)
  {
    var offset := ZoneOffset(line, clock);
    match Find(line, FullDateAt)
    case Some(d) =>
      var at := FullDateInstant(d, offset);
      Some(AbsoluteTime(at, Remaining(at, clock.now)))
    case None =>
      match Find(line, TimeOnlyAt)
      case Some(t) =>
        var at := TimeOnlyInstant(t, clock.now, offset);
        Some(AbsoluteTime(at, Remaining(at, clock.now)))
      case None => None
  }

  /**
   * A bare time of day names today's instant at that time, moved forward
   * exactly one day when it is already past.
   */
  lemma TimeOnlyRollover(t: ClockTime, now: int, offset: int)
    ensures var today := Midnight(now, offset) + TimeOfDay(t);
            var at := TimeOnlyInstant(t, now, offset);
            (at == today <==> now <= today) && (at == today + 86400 <==> today < now)
  {
  }

  /**
   * A bare time of day read on the 12-hour clock names an instant within the
   * coming day, and that instant shows the printed time in its zone.
   */
  lemma TimeOnlyWithinADay(t: ClockTime, now: int, offset: int)
    requires 1 <= t.hour <= 12 && t.minute <= 59
    ensures var at := TimeOnlyInstant(t, now, offset);
            now <= at < now + 86400 && (at + offset) % 86400 == TimeOfDay(t)
  {
    assert To24Hour(t.hour, t.pm) <= 23;
    assert TimeOfDay(t) < 86400;
  }

  // ---------------------------------------------------------------------
  // The line scan

  /** What a reset line yields: its text, the instant and the seconds remaining. */
  datatype ResetInfo = ResetInfo(text: string, resetsAt: Option<int>, seconds: Option<int>)

  const NoReset := ResetInfo("", None, None)

  /** A remaining time, when there is one, is positive and leads from `now` to the reset instant. */
  predicate Timed(r: ResetInfo, now: int) {
    r.seconds.Some? ==> r.seconds.value > 0 && r.resetsAt == Some(now + r.seconds.value)
  }

  predicate IsResetLine(line: string) {
    Contains(Lower(line), "reset") || Contains(Lower(line), "renew")
  }

  function MatchedOr0(m: Option<nat>): nat { m.GetOr(0) }

  /** days·86400 + hours·3600 + minutes·60, each from its first occurrence, absent as 0. */
  function RelativeSeconds(line: string): nat {
    MatchedOr0(Find(line, DaysAt)) * 86400
    + MatchedOr0(Find(line, HoursAt)) * 3600
    + MatchedOr0(Find(line, MinutesAt)) * 60
  }

  /** The reading of one reset line: relative first, absolute as the fallback. */
  function ResetFromLine(line: string, clock: Clock): (r: ResetInfo)
    ensures r.text == line
    ensures RelativeSeconds(line) > 0 ==>
              r.seconds == Some(RelativeSeconds(line)) && r.resetsAt == Some(clock.now + RelativeSeconds(line))
    ensures Timed(r, clock.now)
    ensures r.resetsAt.None? <==> RelativeSeconds(line) == 0 && ParseAbsoluteTime(line, clock).None?
  {
    var relative := RelativeSeconds(line);
    if relative > 0 then ResetInfo(line, Some(clock.now + relative), Some(relative))
    else AbsoluteReset(line, ParseAbsoluteTime(line, clock), clock.now)
  }

  /** A reset line without a relative duration: the absolute reading, if any. */
  function AbsoluteReset(line: string, a: Option<AbsoluteTime>, now: int): (r: ResetInfo)
    requires a.Some? ==> a.value.seconds == Remaining(a.value.at, now)
    ensures r.text == line && Timed(r, now)
    ensures r.resetsAt.None? <==> a.None?
  {
    match a
    case Some(t) => ResetInfo(line, Some(t.at), t.seconds)
    case None => ResetInfo(line, None, None)
  }

  lemma RelativeReading(line: string, clock: Clock)
    requires RelativeSeconds(line) > 0
    ensures ResetFromLine(line, clock) ==
              ResetInfo(line, Some(clock.now + RelativeSeconds(line)), Some(RelativeSeconds(line)))
  {
  }

  lemma AbsoluteReading(line: string, clock: Clock)
    requires RelativeSeconds(line) == 0
    ensures var a := ParseAbsoluteTime(line, clock);
            ResetFromLine(line, clock) ==
              if a.Some? then ResetInfo(line, Some(a.value.at), a.value.seconds) else ResetInfo(line, None, None)
  {
  }

  function ScanEnd(lines: seq<string>, start: nat): (e: nat)
    ensures e <= |lines| && e <= start + ScanWindow
  {
    if start + ScanWindow > |lines| then |lines| else start + ScanWindow
  }

  /** The first reset line in [i, end). */
  function FirstResetLine(lines: seq<string>, i: nat, end: nat): (r: Option<nat>)
    requires end <= |lines|
    decreases end - i
    ensures r.Some? ==> i <= r.value < end
  {
    if i >= end then None
    else if IsResetLine(lines[i]) then Some(i)
    else FirstResetLine(lines, i + 1, end)
  }

  lemma {:induction false} FirstResetLineIsFirst(lines: seq<string>, i: nat, end: nat)
    requires end <= |lines|
    decreases end - i
    ensures var r := FirstResetLine(lines, i, end);
            (r.Some? ==> IsResetLine(lines[r.value]) && forall k :: i <= k < r.value ==> !IsResetLine(lines[k]))
            && (r.None? ==> forall k :: i <= k < end ==> !IsResetLine(lines[k]))
  {
    if i < end && !IsResetLine(lines[i]) {
      FirstResetLineIsFirst(lines, i + 1, end);
    }
  }

  /**
   * `parseResetTime`: only lines [start, min(start+14, len)) are looked at;
   * the first reset line decides, and without one the result is empty.
   */
  function ResetScan(lines: seq<string>, start: nat, clock: Clock): (r: ResetInfo)
    ensures Timed(r, clock.now)
  {
    match FirstResetLine(lines, start, ScanEnd(lines, start))
    case Some(k) => ResetFromLine(lines[k], clock)
    case None => NoReset
  }

  /** The scan reads exactly the first reset line of its window, or yields nothing. */
  lemma ResetScanWindow(lines: seq<string>, start: nat, clock: Clock)
    ensures var r := ResetScan(lines, start, clock);
            (r.text == "" <==> forall k :: start <= k < ScanEnd(lines, start) ==> !IsResetLine(lines[k]))
            && (r.text == "" ==> r == NoReset)
            && (r.text != "" ==>
                  exists k :: start <= k < ScanEnd(lines, start) && IsResetLine(lines[k])
                    && r == ResetFromLine(lines[k], clock)
                    && forall j :: start <= j < k ==> !IsResetLine(lines[j]))
  {
    FirstResetLineIsFirst(lines, start, ScanEnd(lines, start));
    match FirstResetLine(lines, start, ScanEnd(lines, start))
    case Some(k) =>
      EmptyIsNotResetLine();
      assert lines[k] != "";
    case None =>
  }

  lemma EmptyIsNotResetLine()
    ensures !IsResetLine("")
  {
    assert Lower("") == "";
    assert !StartsAt("", 0, "reset") && !StartsAt("", 0, "renew");
  }

  /** The relative part of a reset line, accumulated component by component. */
  method SumRelative(line: string) returns (totalSeconds: nat)
    ensures totalSeconds == RelativeSeconds(line)
  {
    totalSeconds := 0;
    var days := Find(line, DaysAt);
    if days.Some? {
      totalSeconds := totalSeconds + days.value * 86400;
    }
    var hours := Find(line, HoursAt);
    if hours.Some? {
      totalSeconds := totalSeconds + hours.value * 3600;
    }
    var minutes := Find(line, MinutesAt);
    if minutes.Some? {
      totalSeconds := totalSeconds + minutes.value * 60;
    }
  }

  /** The reading of one reset line, relative duration first. */
  method ReadResetLine(line: string, clock: Clock) returns (r: ResetInfo)
    ensures r == ResetFromLine(line, clock)
  {
    var totalSeconds := SumRelative(line);
    if totalSeconds > 0 {
      RelativeReading(line, clock);
      return ResetInfo(line, Some(clock.now + totalSeconds), Some(totalSeconds));
    }
    var absolute := ParseAbsoluteTime(line, clock);
    AbsoluteReading(line, clock);
    if absolute.Some? {
      return ResetInfo(line, Some(absolute.value.at), absolute.value.seconds);
    }
    return ResetInfo(line, None, None);
  }

  /** `parseResetTime`, scanning the window line by line and summing the relative parts. */
  method ParseResetTime(lines: seq<string>, start: nat, clock: Clock) returns (r: ResetInfo)
    ensures r == ResetScan(lines, start, clock)
  {
    var endIdx := start + ScanWindow;
    if endIdx > |lines| {
      endIdx := |lines|;
    }
    var i := start;
    while i < endIdx
      invariant endIdx == ScanEnd(lines, start)
      invariant start <= i && (i <= endIdx || i == start)
      invariant FirstResetLine(lines, start, endIdx) == FirstResetLine(lines, i, endIdx)
    {
      if IsResetLine(lines[i]) {
        ScanFindsLine(lines, start, i, clock);
        r := ReadResetLine(lines[i], clock);
        return;
      }
      i := i + 1;
    }
    return NoReset;
  }

  lemma ScanFindsLine(lines: seq<string>, start: nat, k: nat, clock: Clock)
    requires k < |lines|
    requires FirstResetLine(lines, start, ScanEnd(lines, start)) == Some(k)
    ensures ResetScan(lines, start, clock) == ResetFromLine(lines[k], clock)
  {
  }

  /**
   * The scan has no notion of sections: a quota without a reset line of its
   * own takes the reset line of whatever follows within the window, even
   * across the next section's label.
   */
  lemma ScanCrossesSections(lines: seq<string>, start: nat, k: nat, clock: Clock)
    requires start <= k < |lines| && k < start + ScanWindow
    requires IsResetLine(lines[k])
    requires forall j :: start <= j < k ==> !IsResetLine(lines[j])
    ensures ResetScan(lines, start, clock) == ResetFromLine(lines[k], clock)
  {
    FirstResetLineAt(lines, start, ScanEnd(lines, start), k);
    ScanFindsLine(lines, start, k, clock);
  }

  /** The first reset line of [i, end) is k when k is one and none comes before it. */
  lemma {:induction false} FirstResetLineAt(lines: seq<string>, i: nat, end: nat, k: nat)
    requires i <= k < end <= |lines|
    requires IsResetLine(lines[k])
    requires forall j :: i <= j < k ==> !IsResetLine(lines[j])
    decreases k - i
    ensures FirstResetLine(lines, i, end) == Some(k)
  {
    if i < k {
      FirstResetLineAt(lines, i + 1, end, k);
    }
  }
}
