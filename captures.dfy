/**
 * The patterns whose submatches the parser reads (`FindStringSubmatch`).
 * Go returns the leftmost match, and where several matches begin at that
 * start, the one its leftmost-first (Perl-like, greedy) semantics prefers.
 * Each `...At(s, i)` yields the submatches of that preferred match starting
 * at i, if there is one, and `Find` takes the first start that has one.
 */
module Captures {
  import opened Wrappers
  import opened Text

  /** The first start position at or after i with a match, and its submatches. */
  function FirstFrom<T>(s: string, i: nat, at: (string, nat) -> Option<T>): Option<(nat, T)>
    decreases |s| + 1 - i
  {
    if i > |s| then None
    else match at(s, i)
      case Some(v) => Some((i, v))
      case None => FirstFrom(s, i + 1, at)
  }

  lemma {:induction false} FirstFromIsFirst<T>(s: string, i: nat, at: (string, nat) -> Option<T>)
    decreases |s| + 1 - i
    ensures var r := FirstFrom(s, i, at);
            (r.Some? ==> i <= r.value.0 <= |s| && at(s, r.value.0) == Some(r.value.1)
                         && forall k :: i <= k < r.value.0 ==> at(s, k).None?)
            && (r.None? ==> forall k :: i <= k <= |s| ==> at(s, k).None?)
  {
    if i <= |s| && at(s, i).None? {
      FirstFromIsFirst(s, i + 1, at);
    }
  }

  /** The submatches of the leftmost match. */
  function Find<T>(s: string, at: (string, nat) -> Option<T>): Option<T> {
    match FirstFrom(s, 0, at)
    case Some(m) => Some(m.1)
    case None => None
  }

  /** `Find` is the leftmost match: a match at some k with none before it, or no match at all. */
  lemma FindIsLeftmost<T>(s: string, at: (string, nat) -> Option<T>)
    ensures Find(s, at).Some? ==>
              exists k :: 0 <= k <= |s| && at(s, k) == Find(s, at) && forall j :: 0 <= j < k ==> at(s, j).None?
    ensures Find(s, at).None? <==> forall k :: 0 <= k <= |s| ==> at(s, k).None?
  {
    FirstFromIsFirst(s, 0, at);
    var r := FirstFrom(s, 0, at);
    if r.Some? {
      assert at(s, r.value.0) == Find(s, at);
    }
  }

  /** The leftmost match of a pattern is the one at k when k matches and nothing before it does. */
  lemma FindAt<T>(s: string, at: (string, nat) -> Option<T>, k: nat)
    requires k <= |s| && at(s, k).Some?
    requires forall j :: 0 <= j < k ==> at(s, j).None?
    ensures Find(s, at) == at(s, k)
  {
    FirstFromIsFirst(s, 0, at);
  }

  /** `DecimalValue` of the digits s[i..i+n]. */
  function DigitsValue(s: string, i: nat, n: nat): nat
    requires i + n <= |s| && forall k :: i <= k < i + n ==> IsDigit(s[k])
  {
    DecimalValue(s[i..i + n])
  }

  // ---------------------------------------------------------------------
  // `(\d{1,3})\s*%\s*(used|left)`

  datatype PercentMatch = PercentMatch(value: nat, used: bool)

  function PercentAt(s: string, i: nat): (r: Option<PercentMatch>)
    ensures r.Some? ==> r.value.value <= 999
  {
    var n := DigitRun(s, i);
    if n < 1 || n > 3 then None
    else
      var j := SkipSpaces(s, i + n);
      if j < |s| && s[j] == '%' then
        var k := SkipSpaces(s, j + 1);
        DecimalBound(s[i..i + n]);
        if StartsAt(s, k, "used") then Some(PercentMatch(DigitsValue(s, i, n), true))
        else if StartsAt(s, k, "left") then Some(PercentMatch(DigitsValue(s, i, n), false))
        else None
      else None
  }

  lemma DecimalBound(d: string)
    requires AllDigits(d) && |d| <= 3
    ensures DecimalValue(d) <= 999
  {
    DecimalBelowPower(d);
  }

  // ---------------------------------------------------------------------
  // `(\d+)\s*d(?:ays?)?`, `(\d+)\s*h(?:ours?|r)?`, `(\d+)\s*m(?:in(?:utes?)?)?`
  // (the optional suffixes never change whether or where a match is found)

  function NumberBeforeUnit(s: string, i: nat, unit: char): Option<nat> {
    var n := DigitRun(s, i);
    var j := SkipSpaces(s, i + n);
    if n >= 1 && j < |s| && s[j] == unit then Some(DigitsValue(s, i, n)) else None
  }

  function DaysAt(s: string, i: nat): Option<nat> { NumberBeforeUnit(s, i, 'd') }
  function HoursAt(s: string, i: nat): Option<nat> { NumberBeforeUnit(s, i, 'h') }
  function MinutesAt(s: string, i: nat): Option<nat> { NumberBeforeUnit(s, i, 'm') }

  // ---------------------------------------------------------------------
  // Clock times: `(\d{1,2})(?::(\d{2}))?(am|pm)\b`

  /** An hour and minute on the 12-hour clock, with its am/pm marker. */
  datatype ClockTime = ClockTime(hour: nat, minute: nat, pm: bool)

  /** `(am|pm)\b` at j: whether it is pm. */
  function Meridiem(s: string, j: nat): Option<bool> {
    if StartsAt(s, j, "am") && WordBoundary(s, j + 2) then Some(false)
    else if StartsAt(s, j, "pm") && WordBoundary(s, j + 2) then Some(true)
    else None
  }

  /** `(\d{1,2})(?::(\d{2}))?(am|pm)\b` at i. */
  function ClockTimeAt(s: string, i: nat): Option<ClockTime> {
    var n := DigitRun(s, i);
    if n < 1 || n > 2 then None
    else
      var h := DigitsValue(s, i, n);
      var j := i + n;
      if j < |s| && s[j] == ':' then
        if DigitRun(s, j + 1) >= 2 then
          var pm :- Meridiem(s, j + 3);
          Some(ClockTime(h, DigitsValue(s, j + 1, 2), pm))
        else None
      else
        var pm :- Meridiem(s, j);
        Some(ClockTime(h, 0, pm))
  }

  /** `\b(\d{1,2})(?::(\d{2}))?(am|pm)\b`: a bare time of day. */
  function TimeOnlyAt(s: string, i: nat): Option<ClockTime> {
    if WordBoundary(s, i) then ClockTimeAt(s, i) else None
  }

  // ---------------------------------------------------------------------
  // `\b(Jan|...|Dec)\s+(\d{1,2}),?\s+(\d{4}),?\s+(\d{1,2})(?::(\d{2}))?(am|pm)\b`

  /** A month number, January being 1. */
  type MonthNumber = m: nat | 1 <= m <= 12 witness 1

  datatype DateTime = DateTime(year: nat, month: MonthNumber, day: nat, time: ClockTime)

  const MonthNames: seq<string> :=
    ["Jan", "Feb", "Mar", "Apr", "May", "Jun", "Jul", "Aug", "Sep", "Oct", "Nov", "Dec"]

  /** The month (1-12) whose three-letter name starts at i. */
  function MonthAt(s: string, i: nat): Option<MonthNumber> {
    match MonthFrom(s, i, 0)
    case Some(m) => Some(m)
    case None => None
  }

  function MonthFrom(s: string, i: nat, m: nat): (r: Option<nat>)
    requires m <= 12
    decreases 12 - m
    ensures r.Some? ==> m + 1 <= r.value <= 12
  {
    if m == 12 then None
    else if StartsAt(s, i, MonthNames[m]) then Some(m + 1)
    else MonthFrom(s, i, m + 1)
  }

  /** `,?\s+` at j. */
  function CommaSpaces(s: string, j: nat): Option<nat> {
    Spaces1(s, if j < |s| && s[j] == ',' then j + 1 else j)
  }

  function FullDateAt(s: string, i: nat): Option<DateTime> {
    if !WordBoundary(s, i) then None
    else
      var month :- MonthAt(s, i);
      var a :- Spaces1(s, i + 3);
      var dn := DigitRun(s, a);
      if dn < 1 || dn > 2 then None
      else
        var b :- CommaSpaces(s, a + dn);
        if DigitRun(s, b) != 4 then None
        else
          var c :- CommaSpaces(s, b + 4);
          var time :- ClockTimeAt(s, c);
          Some(DateTime(DigitsValue(s, b, 4), month, DigitsValue(s, a, dn), time))
  }

  // ---------------------------------------------------------------------
  // `\(([^)]+)\)`: the zone name in parentheses

  function ZoneNameAt(s: string, i: nat): Option<string> {
    if i < |s| && s[i] == '(' then
      var close :- IndexFrom(s, ")", i + 1);
      if close > i + 1 then Some(s[i + 1..close]) else None
    else None
  }

  // ---------------------------------------------------------------------
  // E-mail addresses

  predicate NotSpaceOrAt(c: char) { !IsRegexSpace(c) && c != '@' }
  predicate NotSpaceAtOrQuote(c: char) { !IsRegexSpace(c) && c != '@' && c != '\'' }

  /** What an address capture holds: an at sign and no white space. */
  predicate AddressShape(a: string) {
    '@' in a && forall c :: c in a ==> !IsRegexSpace(c)
  }

  /** `([^\s@]+@D+)` at g, where D is the class of domain characters. */
  function AddressAt(s: string, g: nat, domainChar: char -> bool): (r: Option<string>)
    requires forall c :: domainChar(c) ==> NotSpaceOrAt(c)
    ensures r.Some? ==> AddressShape(r.value)
  {
    var at := RunOf(s, g, NotSpaceOrAt);
    if g < at < |s| && s[at] == '@' then
      var end := RunOf(s, at + 1, domainChar);
      if end > at + 1 then
        assert s[g..end][at - g] == '@';
        Some(s[g..end])
      else None
    else None
  }

  /** `(?i)·\s*Claude\s+(?:Max|Pro)\s*·\s*([^\s@]+@[^\s@']+)` at i. */
  function EmailHeaderAt(s: string, i: nat): (r: Option<string>)
    ensures r.Some? ==> AddressShape(r.value)
  {
    var t := Lower(s);
    var a :- Lit(t, i, "·");
    var b :- Lit(t, SkipSpaces(t, a), "claude");
    var c :- Spaces1(t, b);
    var d :- Or(Lit(t, c, "max"), Lit(t, c, "pro"));
    var e :- Lit(t, SkipSpaces(t, d), "·");
    AddressAt(s, SkipSpaces(s, e), NotSpaceAtOrQuote)
  }

  /** `(?i)(?:Account|Email):\s*([^\s@]+@[^\s@]+)` at i. */
  function EmailLegacyAt(s: string, i: nat): (r: Option<string>)
    ensures r.Some? ==> AddressShape(r.value)
  {
    var t := Lower(s);
    var a :- Or(Lit(t, i, "account:"), Lit(t, i, "email:"));
    AddressAt(s, SkipSpaces(s, a), NotSpaceOrAt)
  }

  // ---------------------------------------------------------------------
  // `(?i)(?:Org|Organization):\s*(.+)`

  predicate NotNewline(c: char) { c != '\n' }

  /** The last position in [lo, hi) that does not hold a newline. */
  function LastNotNewline(s: string, lo: nat, hi: nat): (r: Option<nat>)
    requires hi <= |s|
    decreases hi
    ensures r.Some? ==> lo <= r.value < hi && s[r.value] != '\n'
  {
    if hi <= lo then None
    else if s[hi - 1] != '\n' then Some(hi - 1)
    else LastNotNewline(s, lo, hi - 1)
  }

  function OrgLegacyAt(s: string, i: nat): (r: Option<string>)
    ensures r.Some? ==> r.value != [] && '\n' !in r.value
  {
    var t := Lower(s);
    var a :- Or(Lit(t, i, "org:"), Lit(t, i, "organization:"));
    var g := SkipSpaces(s, a);
    if g < |s| then Some(s[g..RunOf(s, g, NotNewline)])
    else
      // `\s*` reached the end: it gives back characters until `.+` can take one
      var p :- LastNotNewline(s, a, |s|);
      Some(s[p..RunOf(s, p, NotNewline)])
  }

  // ---------------------------------------------------------------------
  // `\$?([\d,]+\.?\d*)\s*/\s*\$?([\d,]+\.?\d*)\s*spent`

  predicate IsDigitOrComma(c: char) { IsDigit(c) || c == ',' }

  /** `[\d,]+\.?\d*` at p: its end. */
  function AmountEnd(s: string, p: nat): (r: Option<nat>)
    ensures r.Some? ==> p < r.value <= |s|
  {
    var q := RunOf(s, p, IsDigitOrComma);
    if q == p then None
    else if q < |s| && s[q] == '.' then Some(q + 1 + DigitRun(s, q + 1))
    else Some(q)
  }

  function SkipDollar(s: string, i: nat): nat {
    if i < |s| && s[i] == '$' then i + 1 else i
  }

  /** A numeral with its thousands separators removed: digits and a decimal point. */
  predicate AmountText(a: string) {
    forall c :: c in a ==> IsDigit(c) || c == '.'
  }

  lemma AmountSlice(s: string, p: nat)
    requires AmountEnd(s, p).Some?
    ensures AmountText(DropCommas(s[p..AmountEnd(s, p).value]))
  {
    var a := s[p..AmountEnd(s, p).value];
    assert forall c :: c in a ==> IsDigitOrComma(c) || c == '.';
  }

  /** The spent and budget numerals, commas removed. */
  function CostAt(s: string, i: nat): (r: Option<(string, string)>)
    ensures r.Some? ==> AmountText(r.value.0) && AmountText(r.value.1)
  {
    var a := SkipDollar(s, i);
    var e1 :- AmountEnd(s, a);
    var slash :- Lit(s, SkipSpaces(s, e1), "/");
    var b := SkipDollar(s, SkipSpaces(s, slash));
    var e2 :- AmountEnd(s, b);
    var spent :- Lit(s, SkipSpaces(s, e2), "spent");
    AmountSlice(s, a);
    AmountSlice(s, b);
    Some((DropCommas(s[a..e1]), DropCommas(s[b..e2])))
  }
}
