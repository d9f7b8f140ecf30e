/**
 * Removal of terminal escape sequences: one left-to-right pass of the
 * pattern ESC followed either by one byte in @-Z or \-_, or by `[`, any
 * parameter bytes 0-?, any intermediate bytes space-/ and a final byte @-~.
 */
module Ansi {
  import opened Wrappers
  import opened Text

  const Esc: char := '\U{001B}'

  predicate IsParameterByte(c: char) { '0' <= c <= '?' }
  predicate IsIntermediateByte(c: char) { ' ' <= c <= '/' }
  predicate IsFinalByte(c: char) { '@' <= c <= '~' }
  predicate IsShortFinal(c: char) { ('@' <= c <= 'Z') || ('\\' <= c <= '_') }

  /** The length of the escape sequence at the start of s, if one starts there. */
  function EscapeLength(s: string): (r: Option<nat>)
    ensures r.Some? ==> 2 <= r.value <= |s| && s[0] == Esc
  {
    if |s| < 2 || s[0] != Esc then None
    else if IsShortFinal(s[1]) then Some(2)
    else if s[1] != '[' then None
    else
      var p := RunOf(s, 2, IsParameterByte);
      var q := RunOf(s, p, IsIntermediateByte);
      if q < |s| && IsFinalByte(s[q]) then Some(q + 1) else None
  }

  /** `stripANSI`: every match, taken leftmost first and without overlap, is deleted. */
  function StripAnsi(s: string): (r: string)
    decreases |s|
    ensures |r| <= |s|
  {
    if s == [] then []
    else match EscapeLength(s)
      case Some(n) => StripAnsi(s[n..])
      case None => [s[0]] + StripAnsi(s[1..])
  }

  /** a can be obtained from b by deleting characters. */
  predicate IsSubsequence(a: string, b: string)
    decreases |b|
  {
    a == [] || (b != [] && (IsSubsequence(a, b[1..]) || (a[0] == b[0] && IsSubsequence(a[1..], b[1..]))))
  }

  lemma {:induction false} SubsequenceOfLonger(a: string, p: string, b: string)
    requires IsSubsequence(a, b)
    ensures IsSubsequence(a, p + b)
    decreases |p|
  {
    if p != [] {
      SubsequenceOfLonger(a, p[1..], b);
      assert (p + b)[1..] == p[1..] + b;
    } else {
      assert p + b == b;
    }
  }

  /** Stripping only deletes characters; it never rewrites or reorders them. */
  lemma {:induction false} StripIsSubsequence(s: string)
    ensures IsSubsequence(StripAnsi(s), s)
    decreases |s|
  {
    if s != [] {
      match EscapeLength(s)
      case Some(n) =>
        StripIsSubsequence(s[n..]);
        SubsequenceOfLonger(StripAnsi(s[n..]), s[..n], s[n..]);
        assert s[..n] + s[n..] == s;
      case None =>
        StripIsSubsequence(s[1..]);
        var r := StripAnsi(s);
        assert r == [s[0]] + StripAnsi(s[1..]);
        assert r[1..] == StripAnsi(s[1..]);
    }
  }

  /** Text without an ESC character passes through unchanged, as a prefix of anything. */
  lemma {:induction false} StripKeepsPlainPrefix(p: string, s: string)
    requires Esc !in p
    ensures StripAnsi(p + s) == p + StripAnsi(s)
    decreases |p|
  {
    if p != [] {
      assert (p + s)[0] == p[0];
      assert (p + s)[1..] == p[1..] + s;
      StripKeepsPlainPrefix(p[1..], s);
      assert p == [p[0]] + p[1..];
    } else {
      assert p + s == s;
    }
  }

  lemma StripPlainText(s: string)
    requires Esc !in s
    ensures StripAnsi(s) == s
  {
    StripKeepsPlainPrefix(s, []);
    assert s + [] == s;
  }

  /**
   * One pass is not a closure: deleting an inner sequence can join an ESC
   * to the text after it, so stripping twice can remove more.
   */
  lemma StripIsNotIdempotent()
    ensures var s := [Esc, Esc, '[', '0', 'm', '[', '0', 'm'];
            StripAnsi(s) == [Esc, '[', '0', 'm'] && StripAnsi(StripAnsi(s)) == []
  {
    var s := [Esc, Esc, '[', '0', 'm', '[', '0', 'm'];
    assert EscapeLength(s) == None;
    var t := s[1..];
    assert RunOf(t, 2, IsParameterByte) == 3;
    assert RunOf(t, 3, IsIntermediateByte) == 3;
    assert EscapeLength(t) == Some(4);
    assert t[4..] == ['[', '0', 'm'];
    StripPlainText(t[4..]);
    var u := [Esc, '[', '0', 'm'];
    assert RunOf(u, 2, IsParameterByte) == 3;
    assert RunOf(u, 3, IsIntermediateByte) == 3;
    assert EscapeLength(u) == Some(4);
    assert u[4..] == [];
  }
}
