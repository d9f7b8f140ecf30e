/**
 * Human-readable durations ("2d 3h 10m") and their recomputation against
 * the current instant (main.go `formatDuration`, `recalculateTimeRemaining`).
 */
module Duration {
  import opened Wrappers
  import opened Text

  /** Days, hours below 24 and minutes below 60 of a positive number of seconds. */
  function Days(s: nat): nat { s / 86400 }
  function Hours(s: nat): nat { s % 86400 / 3600 }
  function Minutes(s: nat): nat { s % 3600 / 60 }

  /** One component: a decimal count followed by its unit letter. */
  function Part(n: nat, unit: char): (p: string)
    requires UnitSeconds(unit).Some?
    ensures ' ' !in p && |p| >= 2 && p[|p| - 1] == unit
    ensures forall c :: c in p ==> DurationChar(c)
  {
    var digits := NatToString(n);
    assert forall k :: 0 <= k < |digits| ==> digits[k] != ' ';
    digits + [unit]
  }

  /** The characters a duration text is written with. */
  predicate DurationChar(c: char) {
    IsDigit(c) || c == 'd' || c == 'h' || c == 'm' || c == ' '
  }

  /** A component when it is shown, nothing otherwise. */
  function OptionalPart(shown: bool, n: nat, unit: char): (r: seq<string>)
    requires UnitSeconds(unit).Some?
    ensures |r| == (if shown then 1 else 0)
    ensures forall k :: 0 <= k < |r| ==> ' ' !in r[k]
    ensures forall k :: 0 <= k < |r| ==> forall c :: c in r[k] ==> DurationChar(c)
  {
    if shown then [Part(n, unit)] else []
  }

  /** The non-zero components in the order days, hours, minutes; minutes alone when all are zero. */
  function DurationParts(s: nat): (r: seq<string>)
    ensures 1 <= |r| <= 3
    ensures forall k :: 0 <= k < |r| ==> ' ' !in r[k]
    ensures forall k :: 0 <= k < |r| ==> forall c :: c in r[k] ==> DurationChar(c)
  {
    OptionalPart(Days(s) > 0, Days(s), 'd')
    + OptionalPart(Hours(s) > 0, Hours(s), 'h')
    + OptionalPart(Minutes(s) > 0 || (Days(s) == 0 && Hours(s) == 0), Minutes(s), 'm')
  }

  /** The text `formatDuration` produces. */
  function DurationText(seconds: int): (r: string)
    ensures r != []
    ensures seconds <= 0 ==> r == "0m"
    ensures forall c :: c in r ==> DurationChar(c)
  {
    if seconds <= 0 then "0m"
    else
      JoinChars(DurationParts(seconds), ' ', DurationChar);
      Join(DurationParts(seconds), ' ')
  }

  /** `formatDuration`, dividing out days, then hours, then minutes. */
  method FormatDuration(seconds: int) returns (text: string)
    ensures text == DurationText(seconds)
  {
    if seconds <= 0 {
      return "0m";
    }
    var rest := seconds;
    var days := rest / 86400;
    rest := rest % 86400;
    var hours := rest / 3600;
    rest := rest % 3600;
    var minutes := rest / 60;
    assert days == Days(seconds) && hours == Hours(seconds);
    ModOfMod(seconds);
    assert minutes == Minutes(seconds);

    var parts: seq<string> := [];
    if days > 0 {
      parts := parts + [Part(days, 'd')];
    }
    if hours > 0 {
      parts := parts + [Part(hours, 'h')];
    }
    if minutes > 0 || |parts| == 0 {
      parts := parts + [Part(minutes, 'm')];
    }
    assert parts == DurationParts(seconds);
    return Join(parts, ' ');
  }

  lemma ModOfMod(s: nat)
    ensures s % 86400 % 3600 == s % 3600
  {
    var r := s % 86400;
    assert s == 86400 * (s / 86400) + r;
    assert r == 3600 * (r / 3600) + r % 3600;
    HourRemainder(s, 24 * (s / 86400) + r / 3600, r % 3600);
  }

  /** The remainder modulo an hour is the r of any a == 3600k + r with 0 <= r < 3600. */
  lemma HourRemainder(a: int, k: int, r: int)
    requires a == 3600 * k + r && 0 <= r < 3600
    ensures a % 3600 == r
  {
    var d := a / 3600 - k;
    assert 3600 * d == r - a % 3600;
  }

  /** The remainder modulo a minute is the r of any a == 60k + r with 0 <= r < 60. */
  lemma MinuteRemainder(a: int, k: int, r: int)
    requires a == 60 * k + r && 0 <= r < 60
    ensures a % 60 == r
  {
    var d := a / 60 - k;
    assert 60 * d == r - a % 60;
  }

  // ---------------------------------------------------------------------
  // Reading a duration back

  function UnitSeconds(unit: char): Option<nat> {
    if unit == 'd' then Some(86400)
    else if unit == 'h' then Some(3600)
    else if unit == 'm' then Some(60)
    else None
  }

  /** The seconds one component stands for. */
  function ReadPart(p: string): Option<nat> {
    if |p| >= 2 && AllDigits(p[..|p| - 1]) then
      var unit :- UnitSeconds(p[|p| - 1]);
      Some(DecimalValue(p[..|p| - 1]) * unit)
    else None
  }

  function ReadParts(ps: seq<string>): Option<nat> {
    if ps == [] then Some(0)
    else
      var first :- ReadPart(ps[0]);
      var rest :- ReadParts(ps[1..]);
      Some(first + rest)
  }

  /** The number of seconds a duration text stands for. */
  function ReadDuration(text: string): Option<nat> {
    ReadParts(Split(text, ' '))
  }

  lemma ReadPartOf(n: nat, unit: char)
    requires UnitSeconds(unit).Some?
    ensures ReadPart(Part(n, unit)) == Some(n * UnitSeconds(unit).value)
  {
    var p := Part(n, unit);
    assert p[..|p| - 1] == NatToString(n);
    NatToStringValue(n);
  }

  lemma {:induction false} ReadPartsAppend(a: seq<string>, b: seq<string>)
    requires ReadParts(a).Some? && ReadParts(b).Some?
    ensures ReadParts(a + b) == Some(ReadParts(a).value + ReadParts(b).value)
    decreases |a|
  {
    if a == [] {
      assert a + b == b;
    } else {
      assert (a + b)[0] == a[0];
      assert (a + b)[1..] == a[1..] + b;
      ReadPartsAppend(a[1..], b);
    }
  }

  lemma ReadOptionalPart(present: bool, n: nat, unit: char)
    requires UnitSeconds(unit).Some?
    ensures ReadParts(OptionalPart(present, n, unit)) == Some(if present then n * UnitSeconds(unit).value else 0)
  {
    if present {
      ReadPartOf(n, unit);
      assert [Part(n, unit)][1..] == [];
    }
  }

  lemma SplitSeconds(s: nat)
    ensures Days(s) * 86400 + Hours(s) * 3600 + Minutes(s) * 60 == s - s % 60
  {
    ModOfMod(s);
    var r1 := s % 86400;
    var r2 := s % 3600;
    var r3 := r2 % 60;
    assert s == 86400 * Days(s) + r1;
    assert r1 == 3600 * Hours(s) + r2;
    assert r2 == 60 * Minutes(s) + r3;
    MinuteRemainder(s, 1440 * Days(s) + 60 * Hours(s) + Minutes(s), r3);
  }

  /**
   * Reading the text back gives the duration rounded down to whole minutes:
   * the text loses only the seconds below a minute.
   */
  lemma DurationRoundTrip(seconds: int)
    ensures ReadDuration(DurationText(seconds)) == Some(if seconds <= 0 then 0 else seconds - seconds % 60)
  {
    if seconds <= 0 {
      SplitSingle("0m", ' ');
      ReadPartOf(0, 'm');
      assert Part(0, 'm') == "0m";
      assert ["0m"][1..] == [];
    } else {
      PositiveRoundTrip(seconds);
    }
  }

  lemma PositiveRoundTrip(s: nat)
    requires s > 0
    ensures ReadDuration(DurationText(s)) == Some(s - s % 60)
  {
    var parts := DurationParts(s);
    ReadJoined(parts);
    ReadDurationParts(s);
    SplitSeconds(s);
  }

  /** Joining space-free components with single spaces and reading them back gives their sum. */
  lemma ReadJoined(parts: seq<string>)
    requires |parts| >= 1
    requires forall k :: 0 <= k < |parts| ==> ' ' !in parts[k]
    ensures ReadDuration(Join(parts, ' ')) == ReadParts(parts)
  {
    SplitJoin(parts, ' ');
  }

  lemma ReadDurationParts(s: nat)
    ensures ReadParts(DurationParts(s)) == Some(Days(s) * 86400 + Hours(s) * 3600 + Minutes(s) * 60)
  {
    var d, h, m := Days(s), Hours(s), Minutes(s);
    ReadThreeParts(d, h, m, m > 0 || (d == 0 && h == 0));
  }

  lemma ReadThreeParts(d: nat, h: nat, m: nat, showMinutes: bool)
    requires showMinutes || m == 0
    ensures ReadParts(OptionalPart(d > 0, d, 'd') + OptionalPart(h > 0, h, 'h') + OptionalPart(showMinutes, m, 'm'))
            == Some(d * 86400 + h * 3600 + m * 60)
  {
    var dp := OptionalPart(d > 0, d, 'd');
    var hp := OptionalPart(h > 0, h, 'h');
    var mp := OptionalPart(showMinutes, m, 'm');
    ReadOptionalPart(d > 0, d, 'd');
    ReadOptionalPart(h > 0, h, 'h');
    ReadOptionalPart(showMinutes, m, 'm');
    ReadPartsAppend(dp, hp);
    ReadPartsAppend(dp + hp, mp);
  }

  /** Distinct whole-minute durations get distinct texts. */
  lemma DurationTextInjective(a: int, b: int)
    requires a > 0 && b > 0 && a % 60 == 0 && b % 60 == 0
    requires DurationText(a) == DurationText(b)
    ensures a == b
  {
    DurationRoundTrip(a);
    DurationRoundTrip(b);
  }

  // ---------------------------------------------------------------------
  // Recomputing against the current instant

  /**
   * `recalculateTimeRemaining`: "unknown" without a reset instant, "0m" once
   * it has passed, the formatted remainder otherwise.
   */
  function RecalculateTimeRemaining(resetsAt: Option<int>, now: int): (r: string)
    ensures r == "unknown" <==> resetsAt.None?
    ensures resetsAt.Some? && resetsAt.value <= now ==> r == "0m"
  {
    // a remainder of zero or less reads "0m", which `DurationText` already yields
    match resetsAt
    case None => "unknown"
    case Some(at) =>
      DurationTextNotUnknown(at - now);
      DurationText(at - now)
  }

  /** Every duration text starts with a digit, so none reads "unknown". */
  lemma DurationTextStartsWithDigit(seconds: int)
    ensures IsDigit(DurationText(seconds)[0])
  {
    if seconds > 0 {
      var parts := DurationParts(seconds);
      var first := parts[0];
      assert Join(parts, ' ')[0] == first[0];
      assert first == Part(Days(seconds), 'd') || first == Part(Hours(seconds), 'h')
             || first == Part(Minutes(seconds), 'm');
    }
  }

  lemma DurationTextNotUnknown(seconds: int)
    ensures DurationText(seconds) != "unknown"
  {
    DurationTextStartsWithDigit(seconds);
  }

  /** The whole minutes left until `at`, none once it has passed. */
  function MinutesLeft(at: int, now: int): nat {
    if at - now > 0 then (at - now) - (at - now) % 60 else 0
  }

  /**
   * A recomputed remaining time reads back as the time left until the reset,
   * in whole minutes, and as nothing once the reset has passed.
   */
  lemma RecalculatedReadsBack(resetsAt: Option<int>, now: int)
    requires resetsAt.Some?
    ensures ReadDuration(RecalculateTimeRemaining(resetsAt, now)) == Some(MinutesLeft(resetsAt.value, now))
  {
    RecalculatedText(resetsAt, now);
    DurationRoundTrip(resetsAt.value - now);
  }

  /** Fewer whole minutes are left at a later instant. */
  lemma MinutesLeftShrinks(at: int, earlier: int, later: int)
    requires earlier <= later
    ensures MinutesLeft(at, later) <= MinutesLeft(at, earlier)
  {
    if at - later > 0 {
      WholeMinutesMonotone(at - earlier, at - later);
    }
  }

  /** A recomputed remaining time is written in the canonical form. */
  lemma RecalculatedCanonical(resetsAt: Option<int>, now: int)
    requires resetsAt.Some?
    ensures CanonicalParts(Split(RecalculateTimeRemaining(resetsAt, now), ' '))
  {
    RecalculatedText(resetsAt, now);
    DurationTextCanonical(resetsAt.value - now);
  }

  /** With a reset instant, the recomputed text is the duration text of what is left. */
  lemma RecalculatedText(resetsAt: Option<int>, now: int)
    requires resetsAt.Some?
    ensures RecalculateTimeRemaining(resetsAt, now) == DurationText(resetsAt.value - now)
  {
  }

  lemma WholeMinutesMonotone(a: int, b: int)
    requires 0 < b <= a
    ensures b - b % 60 <= a - a % 60
  {
    assert b / 60 <= a / 60;
    assert b - b % 60 == b / 60 * 60 && a - a % 60 == a / 60 * 60;
  }

  /**
   * As time passes the remaining time shown for a reset instant never grows:
   * at a later `now` the text reads back as at most the earlier one.
   */
  lemma RemainingShrinks(resetsAt: Option<int>, earlier: int, later: int)
    requires resetsAt.Some? && earlier <= later
    ensures ReadDuration(RecalculateTimeRemaining(resetsAt, earlier)).Some?
    ensures ReadDuration(RecalculateTimeRemaining(resetsAt, later)).Some?
    ensures ReadDuration(RecalculateTimeRemaining(resetsAt, later)).value
            <= ReadDuration(RecalculateTimeRemaining(resetsAt, earlier)).value
  {
    RecalculatedReadsBack(resetsAt, earlier);
    RecalculatedReadsBack(resetsAt, later);
    MinutesLeftShrinks(resetsAt.value, earlier, later);
  }

  // ---------------------------------------------------------------------
  // The canonical form of a duration text

  /** The digits of a component, before its unit letter. */
  function Numeral(p: string): string {
    if p == [] then [] else p[..|p| - 1]
  }

  /** The unit letter of a component. */
  function UnitOf(p: string): char {
    if p == [] then ' ' else p[|p| - 1]
  }

  /** The position of a unit in the order days, hours, minutes. */
  function UnitRank(unit: char): nat {
    if unit == 'd' then 0 else if unit == 'h' then 1 else 2
  }

  /** A decimal numeral without leading zeros followed by a unit letter. */
  predicate WellFormedPart(p: string) {
    |p| >= 2 && UnitSeconds(UnitOf(p)).Some? && AllDigits(Numeral(p))
    && (Numeral(p)[0] == '0' ==> Numeral(p) == "0")
  }

  /** The count a well-formed component shows. */
  function PartCount(p: string): nat {
    if WellFormedPart(p) then DecimalValue(Numeral(p)) else 0
  }

  /**
   * The shape `formatDuration` writes: well-formed components with units in
   * the order days, hours, minutes, each at most once, hours below 24,
   * minutes below 60, and no zero component unless the text is just "0m".
   */
  predicate CanonicalParts(ps: seq<string>) {
    (forall k :: 0 <= k < |ps| ==> WellFormedPart(ps[k]))
    && (forall i, j :: 0 <= i < j < |ps| ==> UnitRank(UnitOf(ps[i])) < UnitRank(UnitOf(ps[j])))
    && (forall k :: 0 <= k < |ps| && UnitOf(ps[k]) == 'h' ==> PartCount(ps[k]) < 24)
    && (forall k :: 0 <= k < |ps| && UnitOf(ps[k]) == 'm' ==> PartCount(ps[k]) < 60)
    && (ps == ["0m"] || forall k :: 0 <= k < |ps| ==> PartCount(ps[k]) > 0)
  }

  /** Every duration text splits into its canonical components. */
  lemma DurationTextCanonical(seconds: int)
    ensures CanonicalParts(Split(DurationText(seconds), ' '))
  {
    if seconds <= 0 {
      SplitSingle("0m", ' ');
      PartShape(0, 'm');
      assert Part(0, 'm') == "0m";
    } else {
      var parts := DurationParts(seconds);
      SplitJoin(parts, ' ');
      CanonicalThree(Days(seconds), Hours(seconds), Minutes(seconds), Minutes(seconds) > 0 || (Days(seconds) == 0 && Hours(seconds) == 0));
    }
  }

  /** A rendered component is well formed and shows its count and unit. */
  lemma PartShape(n: nat, unit: char)
    requires UnitSeconds(unit).Some?
    ensures WellFormedPart(Part(n, unit)) && UnitOf(Part(n, unit)) == unit && PartCount(Part(n, unit)) == n
  {
    var p := Part(n, unit);
    assert Numeral(p) == NatToString(n);
    NatToStringValue(n);
    NatToStringNoLeadingZero(n);
  }

  /** `%d` writes no leading zero. */
  lemma {:induction false} NatToStringNoLeadingZero(n: nat)
    ensures NatToString(n)[0] == '0' ==> NatToString(n) == "0"
  {
    if n >= 10 {
      NatToStringNoLeadingZero(n / 10);
      assert NatToString(n)[0] == NatToString(n / 10)[0];
      assert NatToString(n / 10) != "0" by { NatToStringValue(n / 10); }
    }
  }

  lemma CanonicalThree(d: nat, h: nat, m: nat, showMinutes: bool)
    requires h < 24 && m < 60
    requires showMinutes <==> m > 0 || (d == 0 && h == 0)
    ensures CanonicalParts(OptionalPart(d > 0, d, 'd') + OptionalPart(h > 0, h, 'h') + OptionalPart(showMinutes, m, 'm'))
  {
    PartShape(d, 'd');
    PartShape(h, 'h');
    PartShape(m, 'm');
    if d > 0 {
      CanonicalWithDays(Part(d, 'd'), OptionalPart(h > 0, h, 'h'), OptionalPart(showMinutes, m, 'm'), h, m, showMinutes);
    } else {
      CanonicalNoDays(OptionalPart(h > 0, h, 'h'), OptionalPart(showMinutes, m, 'm'), h, m, showMinutes);
      assert OptionalPart(d > 0, d, 'd') == [];
    }
  }

  lemma CanonicalWithDays(pd: string, hp: seq<string>, mp: seq<string>, h: nat, m: nat, showMinutes: bool)
    requires BoundedPart(pd) && PartCount(pd) > 0 && UnitOf(pd) == 'd'
    requires h < 24 && m < 60 && (showMinutes <==> m > 0)
    requires hp == OptionalPart(h > 0, h, 'h') && mp == OptionalPart(showMinutes, m, 'm')
    requires WellFormedPart(Part(h, 'h')) && UnitOf(Part(h, 'h')) == 'h' && PartCount(Part(h, 'h')) == h
    requires WellFormedPart(Part(m, 'm')) && UnitOf(Part(m, 'm')) == 'm' && PartCount(Part(m, 'm')) == m
    ensures CanonicalParts([pd] + hp + mp)
  {
    var ph, pm := Part(h, 'h'), Part(m, 'm');
    if h > 0 && showMinutes {
      assert [pd] + hp + mp == [pd, ph, pm];
      CanonicalTriple(pd, ph, pm);
    } else if h > 0 {
      assert [pd] + hp + mp == [pd, ph];
      CanonicalPair(pd, ph);
    } else if showMinutes {
      assert [pd] + hp + mp == [pd, pm];
      CanonicalPair(pd, pm);
    } else {
      assert [pd] + hp + mp == [pd];
      CanonicalSingle(pd);
    }
  }

  lemma CanonicalNoDays(hp: seq<string>, mp: seq<string>, h: nat, m: nat, showMinutes: bool)
    requires h < 24 && m < 60 && (showMinutes <==> m > 0 || h == 0)
    requires hp == OptionalPart(h > 0, h, 'h') && mp == OptionalPart(showMinutes, m, 'm')
    requires WellFormedPart(Part(h, 'h')) && UnitOf(Part(h, 'h')) == 'h' && PartCount(Part(h, 'h')) == h
    requires WellFormedPart(Part(m, 'm')) && UnitOf(Part(m, 'm')) == 'm' && PartCount(Part(m, 'm')) == m
    ensures CanonicalParts([] + hp + mp)
  {
    var ph, pm := Part(h, 'h'), Part(m, 'm');
    if h > 0 && showMinutes {
      assert [] + hp + mp == [ph, pm];
      CanonicalPair(ph, pm);
    } else if h > 0 {
      assert [] + hp + mp == [ph];
      CanonicalSingle(ph);
    } else {
      assert [] + hp + mp == [pm];
      assert m == 0 ==> pm == "0m";
      CanonicalSingle(pm);
    }
  }

  /** A component the canonical form admits anywhere: well formed and within its unit's bound. */
  predicate BoundedPart(p: string) {
    WellFormedPart(p) && (UnitOf(p) == 'h' ==> PartCount(p) < 24) && (UnitOf(p) == 'm' ==> PartCount(p) < 60)
  }

  lemma CanonicalSingle(p: string)
    requires BoundedPart(p) && (PartCount(p) > 0 || p == "0m")
    ensures CanonicalParts([p])
  {
  }

  lemma CanonicalPair(p: string, q: string)
    requires BoundedPart(p) && BoundedPart(q) && PartCount(p) > 0 && PartCount(q) > 0
    requires UnitRank(UnitOf(p)) < UnitRank(UnitOf(q))
    ensures CanonicalParts([p, q])
  {
    assert [p, q] != ["0m"] || PartCount(p) > 0;
  }

  lemma CanonicalTriple(p: string, q: string, r: string)
    requires BoundedPart(p) && BoundedPart(q) && BoundedPart(r)
    requires PartCount(p) > 0 && PartCount(q) > 0 && PartCount(r) > 0
    requires UnitRank(UnitOf(p)) < UnitRank(UnitOf(q)) < UnitRank(UnitOf(r))
    ensures CanonicalParts([p, q, r])
  {
  }
}
