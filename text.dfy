/**
 * Character classes, ASCII case mapping, substring search, trimming,
 * splitting and decimal rendering: the pieces of Go's `strings`, `strconv`
 * and `fmt` that the parser and the renderers rely on.
 */
module Text {
  import opened Wrappers

  // ---------------------------------------------------------------------
  // Character classes

  predicate IsDigit(c: char) { '0' <= c <= '9' }

  /** RE2's `\s`: tab, newline, form feed, carriage return and space (not \v). */
  predicate IsRegexSpace(c: char) {
    c == '\t' || c == '\n' || c == '\U{000C}' || c == '\r' || c == ' '
  }

  /** Go's `unicode.IsSpace`, as used by `strings.TrimSpace`. */
  predicate IsUnicodeSpace(c: char) {
    c == '\t' || c == '\n' || c == '\U{000B}' || c == '\U{000C}' || c == '\r' || c == ' '
    || c == '\U{0085}' || c == '\U{00A0}' || c == '\U{1680}'
    || ('\U{2000}' <= c <= '\U{200A}')
    || c == '\U{2028}' || c == '\U{2029}' || c == '\U{202F}' || c == '\U{205F}' || c == '\U{3000}'
  }

  /** RE2's ASCII word characters, which decide `\b`. */
  predicate IsWordChar(c: char) {
    IsDigit(c) || ('a' <= c <= 'z') || ('A' <= c <= 'Z') || c == '_'
  }

  /** `\b` at position i of s. */
  predicate WordBoundary(s: string, i: nat) {
    i <= |s| && ((i > 0 && IsWordChar(s[i - 1])) != (i < |s| && IsWordChar(s[i])))
  }

  // ---------------------------------------------------------------------
  // ASCII case mapping

  function LowerChar(c: char): (r: char)
    ensures 'A' <= c <= 'Z' ==> 'a' <= r <= 'z'
    ensures !('A' <= c <= 'Z') ==> r == c
  {
    if 'A' <= c <= 'Z' then (c as int + 32) as char else c
  }

  /** `strings.ToLower`, restricted to ASCII letters. */
  function Lower(s: string): (r: string)
    ensures |r| == |s|
    ensures forall k :: 0 <= k < |s| ==> r[k] == LowerChar(s[k])
  {
    seq(|s|, k requires 0 <= k < |s| => LowerChar(s[k]))
  }

  lemma LowerSlice(s: string, i: nat, j: nat)
    requires i <= j <= |s|
    ensures Lower(s)[i..j] == Lower(s[i..j])
  {
  }

  // ---------------------------------------------------------------------
  // Substring search

  predicate StartsAt(s: string, i: nat, w: string) {
    i + |w| <= |s| && s[i..i + |w|] == w
  }

  /** The first position at or after `from` where `w` occurs. */
  function IndexFrom(s: string, w: string, from: nat): (r: Option<nat>)
    decreases |s| + 1 - from
    ensures r.Some? ==> from <= r.value && StartsAt(s, r.value, w)
  {
    if from + |w| > |s| then None
    else if StartsAt(s, from, w) then Some(from)
    else IndexFrom(s, w, from + 1)
  }

  /** No occurrence of `w` lies between `from` and the one `IndexFrom` finds. */
  lemma {:induction false} IndexFromIsFirst(s: string, w: string, from: nat)
    decreases |s| + 1 - from
    ensures var r := IndexFrom(s, w, from);
            (r.Some? ==> forall k :: from <= k < r.value ==> !StartsAt(s, k, w))
            && (r.None? ==> forall k :: from <= k ==> !StartsAt(s, k, w))
  {
    if from + |w| <= |s| && !StartsAt(s, from, w) {
      IndexFromIsFirst(s, w, from + 1);
    }
  }

  /** `strings.Index`: the first occurrence, if any. */
  function IndexOf(s: string, w: string): Option<nat> {
    IndexFrom(s, w, 0)
  }

  /** `strings.Contains`. */
  predicate Contains(s: string, w: string) {
    IndexOf(s, w).Some?
  }

  lemma ContainsAt(s: string, w: string, k: nat)
    requires StartsAt(s, k, w)
    ensures Contains(s, w)
  {
    IndexFromIsFirst(s, w, 0);
  }

  lemma ContainsWitness(s: string, w: string)
    requires Contains(s, w)
    ensures StartsAt(s, IndexOf(s, w).value, w)
  {
  }

  // ---------------------------------------------------------------------
  // Runs and trimming

  /** The end of the longest run of characters satisfying p that starts at i. */
  function RunOf(s: string, i: nat, p: char -> bool): (r: nat)
    decreases |s| - i
    ensures i <= |s| ==> i <= r <= |s|
    ensures i > |s| ==> r == i
    ensures forall k :: i <= k < r ==> p(s[k])
    ensures r < |s| ==> !p(s[r])
  {
    if i < |s| && p(s[i]) then RunOf(s, i + 1, p) else i
  }

  /** `\s*`: the end of the run of RE2 spaces starting at i. */
  function SkipSpaces(s: string, i: nat): (r: nat)
    ensures i <= |s| ==> i <= r <= |s|
    ensures i > |s| ==> r == i
    ensures forall k :: i <= k < r ==> IsRegexSpace(s[k])
    ensures r < |s| ==> !IsRegexSpace(s[r])
  {
    RunOf(s, i, IsRegexSpace)
  }

  /** The number of consecutive ASCII digits starting at i. */
  function DigitRun(s: string, i: nat): (r: nat)
    decreases |s| - i
    ensures i + r <= |s| || (i > |s| && r == 0)
    ensures forall k :: i <= k < i + r ==> IsDigit(s[k])
    ensures i + r < |s| ==> !IsDigit(s[i + r])
  {
    if i < |s| && IsDigit(s[i]) then 1 + DigitRun(s, i + 1) else 0
  }

  /** `strings.TrimLeftFunc(s, unicode.IsSpace)` and its right-hand twin. */
  function TrimSpace(s: string): (r: string)
    decreases |s|
    ensures |r| <= |s|
    ensures r != [] ==> !IsUnicodeSpace(r[0]) && !IsUnicodeSpace(r[|r| - 1])
    ensures forall c :: c in r ==> c in s
  {
    if s == [] then s
    else if IsUnicodeSpace(s[0]) then TrimSpace(s[1..])
    else if IsUnicodeSpace(s[|s| - 1]) then TrimSpace(s[..|s| - 1])
    else s
  }

  /** Trimming white space keeps every other character. */
  lemma {:induction false} TrimSpaceKeeps(s: string, c: char)
    requires c in s && !IsUnicodeSpace(c)
    ensures c in TrimSpace(s)
    decreases |s|
  {
    if IsUnicodeSpace(s[0]) {
      assert c in s[1..] by { var k :| 0 <= k < |s| && s[k] == c; assert s[1..][k - 1] == c; }
      TrimSpaceKeeps(s[1..], c);
    } else if IsUnicodeSpace(s[|s| - 1]) {
      assert c in s[..|s| - 1] by { var k :| 0 <= k < |s| && s[k] == c; assert s[..|s| - 1][k] == c; }
      TrimSpaceKeeps(s[..|s| - 1], c);
    }
  }

  /** `strings.Trim(s, cutset)`: drop cutset characters at both ends. */
  function TrimSet(s: string, cutset: set<char>): (r: string)
    decreases |s|
    ensures |r| <= |s|
    ensures r != [] ==> r[0] !in cutset && r[|r| - 1] !in cutset
    ensures forall c :: c in r ==> c in s
  {
    if s == [] then s
    else if s[0] in cutset then TrimSet(s[1..], cutset)
    else if s[|s| - 1] in cutset then TrimSet(s[..|s| - 1], cutset)
    else s
  }

  /** `strings.ReplaceAll(s, ",", "")`. */
  function DropCommas(s: string): (r: string)
    ensures ',' !in r
    ensures forall c :: c in r ==> c in s
  {
    if s == [] then [] else (if s[0] == ',' then [] else [s[0]]) + DropCommas(s[1..])
  }

  // ---------------------------------------------------------------------
  // Matching primitives: each returns the position after what it matched

  /** A literal at position i. */
  function Lit(s: string, i: nat, w: string): (r: Option<nat>)
    ensures r.Some? <==> StartsAt(s, i, w)
    ensures r.Some? ==> r.value == i + |w| <= |s|
  {
    if StartsAt(s, i, w) then Some(i + |w|) else None
  }

  /** `\s+` at position i. */
  function Spaces1(s: string, i: nat): (r: Option<nat>)
    ensures r.Some? <==> i < |s| && IsRegexSpace(s[i])
    ensures r.Some? ==> r.value == SkipSpaces(s, i)
  {
    var j := SkipSpaces(s, i);
    if j > i then Some(j) else None
  }

  /** The first alternative that matched, else the second. */
  function Or(a: Option<nat>, b: Option<nat>): (r: Option<nat>)
    ensures r.Some? <==> a.Some? || b.Some?
  {
    if a.Some? then a else b
  }

  // ---------------------------------------------------------------------
  // Splitting and joining on one separator character

  /** `strings.Split(s, [sep])`: always at least one piece. */
  function Split(s: string, sep: char): (r: seq<string>)
    ensures |r| >= 1
    ensures forall k :: 0 <= k < |r| ==> sep !in r[k]
  {
    if s == [] then [[]]
    else
      var rest := Split(s[1..], sep);
      if s[0] == sep then [[]] + rest else [[s[0]] + rest[0]] + rest[1..]
  }

  /** `strings.Join(parts, [sep])`. */
  function Join(parts: seq<string>, sep: char): string {
    if parts == [] then []
    else if |parts| == 1 then parts[0]
    else parts[0] + [sep] + Join(parts[1..], sep)
  }

  /** A join holds only characters of its parts and the separator. */
  lemma {:induction false} JoinChars(parts: seq<string>, sep: char, p: char -> bool)
    requires p(sep)
    requires forall k :: 0 <= k < |parts| ==> forall c :: c in parts[k] ==> p(c)
    ensures forall c :: c in Join(parts, sep) ==> p(c)
    decreases |parts|
  {
    if |parts| > 1 {
      JoinChars(parts[1..], sep, p);
      assert forall c :: c in parts[0] ==> p(c);
    }
  }

  /** `strings.Split(text, "\n")`. */
  function Lines(text: string): seq<string> {
    Split(text, '\n')
  }

  lemma {:induction false} SplitPrefix(w: string, s: string, sep: char)
    requires sep !in w
    ensures Split(w + s, sep) == [w + Split(s, sep)[0]] + Split(s, sep)[1..]
    decreases |w|
  {
    if w == [] {
      var r := Split(s, sep);
      assert w + s == s && w + r[0] == r[0];
      assert [r[0]] + r[1..] == r;
    } else {
      assert (w + s)[1..] == w[1..] + s;
      assert (w + s)[0] == w[0];
      SplitPrefix(w[1..], s, sep);
      assert [w[0]] + (w[1..] + Split(s, sep)[0]) == w + Split(s, sep)[0];
    }
  }

  lemma {:induction false} SplitSingle(w: string, sep: char)
    requires sep !in w
    ensures Split(w, sep) == [w]
  {
    SplitPrefix(w, [], sep);
    assert w + [] == w;
  }

  /** Splitting a join gives the parts back when no part holds the separator. */
  lemma {:induction false} SplitJoin(parts: seq<string>, sep: char)
    requires |parts| >= 1
    requires forall k :: 0 <= k < |parts| ==> sep !in parts[k]
    ensures Split(Join(parts, sep), sep) == parts
    decreases |parts|
  {
    if |parts| == 1 {
      SplitSingle(parts[0], sep);
    } else {
      var tail := Join(parts[1..], sep);
      SplitJoin(parts[1..], sep);
      var s := [sep] + tail;
      assert Split(s, sep) == [[]] + Split(tail, sep) by {
        assert s[1..] == tail;
      }
      assert parts[0] + [sep] + tail == parts[0] + s;
      SplitPrefix(parts[0], s, sep);
      assert parts[0] + [] == parts[0];
      assert [parts[0]] + parts[1..] == parts;
    }
  }

  // ---------------------------------------------------------------------
  // Decimal numbers

  function DigitValue(c: char): nat
    requires IsDigit(c)
  {
    c as int - '0' as int
  }

  function DigitChar(d: nat): (c: char)
    requires d < 10
    ensures IsDigit(c) && DigitValue(c) == d
  {
    ('0' as int + d) as char
  }

  predicate AllDigits(s: string) {
    forall k :: 0 <= k < |s| ==> IsDigit(s[k])
  }

  /** The value of a string of decimal digits (`strconv.Atoi` without sign). */
  function DecimalValue(s: string): nat
    requires AllDigits(s)
  {
    if s == [] then 0 else 10 * DecimalValue(s[..|s| - 1]) + DigitValue(s[|s| - 1])
  }

  function Pow10(n: nat): (r: nat)
    ensures r >= 1
  {
    if n == 0 then 1 else 10 * Pow10(n - 1)
  }

  /** n digits hold a value below 10^n. */
  lemma {:induction false} DecimalBelowPower(s: string)
    requires AllDigits(s)
    ensures DecimalValue(s) < Pow10(|s|)
  {
    if s != [] {
      DecimalBelowPower(s[..|s| - 1]);
    }
  }

  /** `fmt.Sprintf("%d", n)` for n >= 0. */
  function NatToString(n: nat): (r: string)
    ensures r != [] && AllDigits(r)
  {
    if n < 10 then [DigitChar(n)] else NatToString(n / 10) + [DigitChar(n % 10)]
  }

  /** `fmt.Sprintf("%d", n)`. */
  function IntToString(n: int): (r: string)
    ensures r != []
    ensures forall c :: c in r ==> IsDigit(c) || c == '-'
  {
    if n < 0 then "-" + NatToString(-n) else NatToString(n)
  }

  lemma {:induction false} NatToStringValue(n: nat)
    ensures DecimalValue(NatToString(n)) == n
  {
    if n >= 10 {
      var r := NatToString(n);
      assert r[..|r| - 1] == NatToString(n / 10);
      NatToStringValue(n / 10);
    }
  }

  /** Reads an optional minus sign and a digit string back into an integer. */
  function ReadInt(s: string): Option<int> {
    if s != [] && s[0] == '-' && |s| > 1 && AllDigits(s[1..]) then Some(-(DecimalValue(s[1..]) as int))
    else if s != [] && AllDigits(s) then Some(DecimalValue(s))
    else None
  }

  /** `%d` rendering reads back as the same number. */
  lemma IntToStringRoundTrip(n: int)
    ensures ReadInt(IntToString(n)) == Some(n)
  {
    if n < 0 {
      NatToStringValue(-n);
      assert IntToString(n)[1..] == NatToString(-n);
    } else {
      NatToStringValue(n);
    }
  }
}
