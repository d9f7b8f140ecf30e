/**
 * Extra-usage spending: "Unlimited", or "$S / $B spent" within ten lines of
 * a line mentioning extra usage (main.go `parseCostUsage`).
 */
module Cost {
  import opened Wrappers
  import opened Text
  import opened Model
  import opened Captures
  import opened LineScan

  /** Lines searched from a line mentioning extra usage, that line included. */
  const CostWindow: nat := 10

  predicate MentionsExtraUsage(line: string) {
    Contains(Lower(line), "extra usage")
  }

  /** What one line of the window says: unlimited first, then a spent/budget pair. */
  function LineCost(line: string): (r: Option<CostUsage>)
    ensures r.Some? && r.value.unlimited ==> r.value.spent == "" && r.value.budget == ""
    ensures r.Some? && !r.value.unlimited ==> AmountText(r.value.spent) && AmountText(r.value.budget)
  {
    if Contains(Lower(line), "unlimited") then Some(CostUsage("", "", true))
    else
      FindIsLeftmost(line, CostAt);
      match Find(line, CostAt)
      case Some(amounts) => Some(CostUsage(amounts.0, amounts.1, false))
      case None => None
  }

  function CostOfLine(lines: seq<string>): nat -> Option<CostUsage> {
    (j: nat) => if j < |lines| then LineCost(lines[j]) else None
  }

  function WindowEnd(lines: seq<string>, i: nat): (e: nat)
    ensures e <= |lines| && e <= i + CostWindow
  {
    if i + CostWindow > |lines| then |lines| else i + CostWindow
  }

  /** What a line contributes: the first finding in its window when it mentions extra usage. */
  function WindowCost(lines: seq<string>, i: nat): Option<CostUsage> {
    if i < |lines| && MentionsExtraUsage(lines[i]) then FirstHit(CostOfLine(lines), i, WindowEnd(lines, i))
    else None
  }

  function WindowOfLine(lines: seq<string>): nat -> Option<CostUsage> {
    (i: nat) => WindowCost(lines, i)
  }

  /** The extra usage `parseCostUsage` reports. */
  function CostFrom(text: string): Option<CostUsage> {
    var lower := Lower(text);
    if !Contains(lower, "extra usage") || Contains(lower, "extra usage not enabled") then None
    else
      var lines := Lines(text);
      FirstHit(WindowOfLine(lines), 0, |lines|)
  }

  /** `parseCostUsage`: the windows of the lines mentioning extra usage, in order. */
  method ParseCostUsage(text: string) returns (cost: Option<CostUsage>)
    ensures cost == CostFrom(text)
  {
    var lower := Lower(text);
    if !Contains(lower, "extra usage") || Contains(lower, "extra usage not enabled") {
      return None;
    }
    var lines := Lines(text);
    for i := 0 to |lines|
      invariant FirstHit(WindowOfLine(lines), 0, |lines|) == FirstHit(WindowOfLine(lines), i, |lines|)
    {
      if MentionsExtraUsage(lines[i]) {
        cost := SearchCostWindow(lines, i);
        if cost.Some? {
          return;
        }
      }
    }
    return None;
  }

  /** The inner loop: lines [i, min(i + 10, len)) until one yields a finding. */
  method SearchCostWindow(lines: seq<string>, i: nat) returns (cost: Option<CostUsage>)
    requires i < |lines|
    ensures cost == FirstHit(CostOfLine(lines), i, WindowEnd(lines, i))
  {
    var end := i + CostWindow;
    if end > |lines| {
      end := |lines|;
    }
    var j := i;
    while j < end
      invariant i <= j <= end == WindowEnd(lines, i)
      invariant FirstHit(CostOfLine(lines), i, end) == FirstHit(CostOfLine(lines), j, end)
    {
      var lineLower := Lower(lines[j]);
      if Contains(lineLower, "unlimited") {
        return Some(CostUsage("", "", true));
      }
      var amounts := Find(lines[j], CostAt);
      if amounts.Some? {
        return Some(CostUsage(amounts.value.0, amounts.value.1, false));
      }
      j := j + 1;
    }
    return None;
  }

  /**
   * A reported cost needs extra usage mentioned and not disabled, and is
   * what a line at most nine lines below a mentioning line says, every
   * line between the two saying nothing.
   */
  lemma CostFromShape(text: string)
    ensures CostFrom(text).Some? ==>
              Contains(Lower(text), "extra usage") && !Contains(Lower(text), "extra usage not enabled")
    ensures var lines := Lines(text);
            CostFrom(text).Some? ==>
              exists i, j :: 0 <= i <= j < |lines| && j < i + CostWindow && MentionsExtraUsage(lines[i])
                             && LineCost(lines[j]) == CostFrom(text)
                             && forall k :: i <= k < j ==> LineCost(lines[k]).None?
  {
    var lines := Lines(text);
    if CostFrom(text).Some? {
      ScanShape(lines);
    }
  }

  lemma ScanShape(lines: seq<string>)
    requires FirstHit(WindowOfLine(lines), 0, |lines|).Some?
    ensures exists i, j :: 0 <= i <= j < |lines| && j < i + CostWindow && MentionsExtraUsage(lines[i])
                           && LineCost(lines[j]) == FirstHit(WindowOfLine(lines), 0, |lines|)
                           && forall k :: i <= k < j ==> LineCost(lines[k]).None?
  {
    var f := WindowOfLine(lines);
    FirstHitIsFirst(f, 0, |lines|);
    var i :| 0 <= i < |lines| && f(i) == FirstHit(f, 0, |lines|);
    var j := WindowShape(lines, i);
  }

  /** The line of the window of line i that decides its finding. */
  lemma WindowShape(lines: seq<string>, i: nat) returns (j: nat)
    requires WindowCost(lines, i).Some?
    ensures i < |lines| && MentionsExtraUsage(lines[i])
    ensures i <= j < |lines| && j < i + CostWindow && LineCost(lines[j]) == WindowCost(lines, i)
    ensures forall k :: i <= k < j ==> LineCost(lines[k]).None?
  {
    var g := CostOfLine(lines);
    var end := WindowEnd(lines, i);
    FirstHitIsFirst(g, i, end);
    j :| i <= j < end && g(j) == WindowCost(lines, i) && forall k :: i <= k < j ==> g(k).None?;
    assert forall k :: i <= k < j ==> LineCost(lines[k]) == g(k);
  }

  /** No line of the window of line i, that line included, says anything about the cost. */
  predicate QuietWindow(lines: seq<string>, i: nat) {
    forall j :: i <= j < |lines| && j < i + CostWindow ==> LineCost(lines[j]).None?
  }

  /** A line's window finds nothing iff the line does not mention extra usage or the window is quiet. */
  lemma WindowCostNone(lines: seq<string>, i: nat)
    requires i < |lines|
    ensures WindowCost(lines, i).None? <==> !MentionsExtraUsage(lines[i]) || QuietWindow(lines, i)
  {
    var g := CostOfLine(lines);
    var end := WindowEnd(lines, i);
    FirstHitIsFirst(g, i, end);
    assert forall j :: i <= j < end ==> g(j) == LineCost(lines[j]);
  }

  /** Over the lines, the scan reports nothing iff every mentioning line has a quiet window. */
  lemma ScanNone(lines: seq<string>)
    ensures FirstHit(WindowOfLine(lines), 0, |lines|).None? <==>
              forall i :: 0 <= i < |lines| && MentionsExtraUsage(lines[i]) ==> QuietWindow(lines, i)
  {
    var f := WindowOfLine(lines);
    FirstHitIsFirst(f, 0, |lines|);
    forall i | 0 <= i < |lines|
      ensures f(i).None? <==> !MentionsExtraUsage(lines[i]) || QuietWindow(lines, i)
    {
      WindowCostNone(lines, i);
    }
  }

  /**
   * A scan that reports something reports the window of the first mentioning
   * line whose window is not quiet.
   */
  lemma ScanFirst(lines: seq<string>) returns (i: nat)
    requires FirstHit(WindowOfLine(lines), 0, |lines|).Some?
    ensures i < |lines| && MentionsExtraUsage(lines[i]) && !QuietWindow(lines, i)
    ensures FirstHit(WindowOfLine(lines), 0, |lines|) == WindowCost(lines, i)
    ensures forall k :: 0 <= k < i && MentionsExtraUsage(lines[k]) ==> QuietWindow(lines, k)
  {
    var f := WindowOfLine(lines);
    FirstHitIsFirst(f, 0, |lines|);
    i :| 0 <= i < |lines| && f(i) == FirstHit(f, 0, |lines|) && forall k :: 0 <= k < i ==> f(k).None?;
    WindowCostNone(lines, i);
    forall k | 0 <= k < i && MentionsExtraUsage(lines[k])
      ensures QuietWindow(lines, k)
    {
      assert f(k).None?;
      WindowCostNone(lines, k);
    }
  }

  /**
   * `parseCostUsage` in full: nothing iff extra usage is not mentioned, is
   * disabled, or every mentioning line has a quiet window; otherwise the
   * finding of the first mentioning line whose window is not quiet.
   */
  lemma CostFromComplete(text: string)
    ensures var lines := Lines(text);
            CostFrom(text).None? <==>
              !Contains(Lower(text), "extra usage") || Contains(Lower(text), "extra usage not enabled")
              || forall i :: 0 <= i < |lines| && MentionsExtraUsage(lines[i]) ==> QuietWindow(lines, i)
    ensures var lines := Lines(text);
            CostFrom(text).Some? ==>
              exists i :: 0 <= i < |lines| && MentionsExtraUsage(lines[i]) && !QuietWindow(lines, i)
                          && CostFrom(text) == WindowCost(lines, i)
                          && forall k :: 0 <= k < i && MentionsExtraUsage(lines[k]) ==> QuietWindow(lines, k)
  {
    var lines := Lines(text);
    ScanNone(lines);
    if CostFrom(text).Some? {
      var i := ScanFirst(lines);
    }
  }

  /** A reported cost is either unlimited with no amounts, or two numerals. */
  lemma CostAmounts(text: string)
    requires CostFrom(text).Some?
    ensures var c := CostFrom(text).value;
            if c.unlimited then c.spent == "" && c.budget == "" else AmountText(c.spent) && AmountText(c.budget)
  {
    CostFromShape(text);
  }
}
