/**
 * Quota extraction (main.go `parsePercentage`, `parseQuotas`): every line
 * carrying one of six section labels yields a quota when a percentage shows
 * up on it or within the next four lines; the reset details are read from
 * the percentage line onwards.
 */
module Quotas {
  import opened Wrappers
  import opened Text
  import opened Model
  import opened Captures
  import opened ResetTime
  import opened Duration

  /** Lines [i, i+5) are searched for the percentage of a heading on line i. */
  const PercentWindow: nat := 5

  // ---------------------------------------------------------------------
  // Percentages

  /** `parsePercentage`: the leftmost "N% used" or "N% left", as the percentage remaining. */
  function ParsePercentage(line: string): (r: Option<int>)
    ensures r.Some? <==> Find(line, PercentAt).Some?
    ensures r.Some? ==> -899 <= r.value <= 999
  {
    FindIsLeftmost(line, PercentAt);
    match Find(line, PercentAt)
    case Some(m) => Some(if m.used then 100 - m.value else m.value)
    case None => None
  }

  /**
   * The leftmost match decides: "used" percentages are turned into the
   * remaining share 100 - N (negative above 100, nothing is clamped), "left"
   * percentages are taken as they are.
   */
  lemma PercentageReading(line: string, k: nat)
    requires k <= |line| && PercentAt(line, k).Some?
    requires forall j :: 0 <= j < k ==> PercentAt(line, j).None?
    ensures var m := PercentAt(line, k).value;
            ParsePercentage(line) == Some(if m.used then 100 - m.value else m.value)
    ensures PercentAt(line, k).value.used ==> ParsePercentage(line).value <= 100
    ensures !PercentAt(line, k).value.used ==> ParsePercentage(line).value >= 0
  {
    FindAt(line, PercentAt, k);
  }

  /** A line with no "N% used" or "N% left" anywhere has no percentage. */
  lemma NoPercentage(line: string)
    requires forall k :: 0 <= k <= |line| ==> PercentAt(line, k).None?
    ensures ParsePercentage(line).None?
  {
    FindIsLeftmost(line, PercentAt);
  }

  // ---------------------------------------------------------------------
  // Section labels

  /** A section heading, the quota kind it announces and the model it is about. */
  datatype QuotaLabel = QuotaLabel(text: string, kind: QuotaType, model: string)

  /**
   * The heading table, in the order the scan tries it (the source iterates a
   * hash map, whose order is unspecified).
   */
  const QuotaLabels: seq<QuotaLabel> := [
    QuotaLabel("current session", Session, ""),
    QuotaLabel("current week (all models)", Weekly, ""),
    QuotaLabel("current week (opus)", ModelSpecific, "opus"),
    QuotaLabel("current week (sonnet)", ModelSpecific, "sonnet"),
    QuotaLabel("opus usage", ModelSpecific, "opus"),
    QuotaLabel("sonnet usage", ModelSpecific, "sonnet")
  ]

  /** Exactly the model-specific entries of a table name a model. */
  predicate NamesModels(table: seq<QuotaLabel>) {
    forall n :: 0 <= n < |table| ==> (table[n].model != "" <==> table[n].kind == ModelSpecific)
  }

  lemma LabelModels()
    ensures NamesModels(QuotaLabels)
  {
  }

  /** The first entry at or after position n of the table that the lower-cased line contains. */
  function LabelFrom(lower: string, table: seq<QuotaLabel>, n: nat): (r: Option<QuotaLabel>)
    requires n <= |table|
    decreases |table| - n
  {
    if n == |table| then None
    else if Contains(lower, table[n].text) then Some(table[n])
    else LabelFrom(lower, table, n + 1)
  }

  lemma {:induction false} LabelFromIsFirst(lower: string, table: seq<QuotaLabel>, n: nat)
    requires n <= |table|
    decreases |table| - n
    ensures var r := LabelFrom(lower, table, n);
            (r.Some? ==> exists m :: n <= m < |table| && r.value == table[m]
                           && Contains(lower, table[m].text)
                           && forall p :: n <= p < m ==> !Contains(lower, table[p].text))
            && (r.None? ==> forall m :: n <= m < |table| ==> !Contains(lower, table[m].text))
  {
    if n < |table| && !Contains(lower, table[n].text) {
      LabelFromIsFirst(lower, table, n + 1);
    }
  }

  /** The heading that decides a line, if any. */
  function LineLabel(line: string): Option<QuotaLabel> {
    LabelFrom(Lower(line), QuotaLabels, 0)
  }

  /**
   * When a line holds exactly one entry of a table, that entry decides it,
   * whatever order the table is tried in.
   */
  lemma SingleLabel(lower: string, table: seq<QuotaLabel>, n: nat)
    requires n < |table| && Contains(lower, table[n].text)
    requires forall m :: 0 <= m < |table| && m != n ==> !Contains(lower, table[m].text)
    ensures LabelFrom(lower, table, 0) == Some(table[n])
  {
    LabelFromIsFirst(lower, table, 0);
  }

  /** A line holding no entry of a table decides nothing. */
  lemma NoLabel(lower: string, table: seq<QuotaLabel>)
    requires forall m :: 0 <= m < |table| ==> !Contains(lower, table[m].text)
    ensures LabelFrom(lower, table, 0).None?
  {
    LabelFromIsFirst(lower, table, 0);
  }

  // ---------------------------------------------------------------------
  // One quota per labelled line

  function PercentEnd(lines: seq<string>, i: nat): (e: nat)
    ensures e <= |lines| && e <= i + PercentWindow
  {
    if i + PercentWindow > |lines| then |lines| else i + PercentWindow
  }

  /** The first line in [j, end) with a percentage. */
  function FirstPercentLine(lines: seq<string>, j: nat, end: nat): (r: Option<nat>)
    requires end <= |lines|
    decreases end - j
    ensures r.Some? ==> j <= r.value < end && ParsePercentage(lines[r.value]).Some?
  {
    if j >= end then None
    else if ParsePercentage(lines[j]).Some? then Some(j)
    else FirstPercentLine(lines, j + 1, end)
  }

  lemma {:induction false} FirstPercentLineIsFirst(lines: seq<string>, j: nat, end: nat)
    requires end <= |lines|
    decreases end - j
    ensures var r := FirstPercentLine(lines, j, end);
            (r.Some? ==> ParsePercentage(lines[r.value]).Some?
                           && forall k :: j <= k < r.value ==> ParsePercentage(lines[k]).None?)
            && (r.None? ==> forall k :: j <= k < end ==> ParsePercentage(lines[k]).None?)
  {
    if j < end && ParsePercentage(lines[j]).None? {
      FirstPercentLineIsFirst(lines, j + 1, end);
    }
  }

  /** The human-readable remaining time: the formatted duration, or "" without one. */
  function HumanRemaining(seconds: Option<int>): (r: string)
    ensures seconds.None? <==> r == ""
  {
    match seconds
    case Some(s) => DurationText(s)
    case None => ""
  }

  /** The quota a heading, a percentage and a reset reading make up. */
  function MakeQuota(heading: QuotaLabel, percent: int, reset: ResetInfo): (q: Quota)
    ensures q.kind == heading.kind && q.model == heading.model && q.percentRemaining == percent
    ensures q.resetsAt == reset.resetsAt && q.timeRemainingSeconds == reset.seconds
    ensures q.resetText == TrimSpace(reset.text)
    ensures q.timeRemainingSeconds.Some? ==> q.timeRemainingHuman == DurationText(q.timeRemainingSeconds.value)
    ensures q.timeRemainingSeconds.None? ==> q.timeRemainingHuman == ""
  {
    Quota(heading.kind, heading.model, percent, reset.resetsAt, TrimSpace(reset.text),
          reset.seconds, HumanRemaining(reset.seconds))
  }

  /**
   * What a labelled line i yields: the first percentage in the window
   * [i, min(i+5, len)), with the reset scan started at the percentage line.
   */
  function WindowQuota(lines: seq<string>, i: nat, heading: QuotaLabel, clock: Clock): (r: Option<Quota>)
  {
    var j :- FirstPercentLine(lines, i, PercentEnd(lines, i));
    Some(MakeQuota(heading, ParsePercentage(lines[j]).value, ResetScan(lines, j, clock)))
  }

  /** The quota line i yields, if any. */
  function QuotaAt(lines: seq<string>, i: nat, clock: Clock): Option<Quota> {
    if i >= |lines| then None
    else
      var heading :- LineLabel(lines[i]);
      WindowQuota(lines, i, heading, clock)
  }

  /**
   * A labelled line yields a quota exactly when some line of its window
   * holds a percentage; the quota takes its kind and model from the heading,
   * its percentage from the first such line, and its reset details from the
   * scan starting there.
   */
  lemma WindowReading(lines: seq<string>, i: nat, heading: QuotaLabel, clock: Clock)
    ensures WindowQuota(lines, i, heading, clock).Some? <==>
              exists j :: i <= j < PercentEnd(lines, i) && ParsePercentage(lines[j]).Some?
    ensures WindowQuota(lines, i, heading, clock).Some? ==>
              exists j :: i <= j < PercentEnd(lines, i) && ParsePercentage(lines[j]).Some?
                && (forall k :: i <= k < j ==> ParsePercentage(lines[k]).None?)
                && WindowQuota(lines, i, heading, clock).value ==
                     MakeQuota(heading, ParsePercentage(lines[j]).value, ResetScan(lines, j, clock))
  {
    FirstPercentLineIsFirst(lines, i, PercentEnd(lines, i));
  }

  /** A line yields a quota only when it carries a heading from the table. */
  lemma QuotaNeedsLabel(lines: seq<string>, i: nat, clock: Clock)
    ensures QuotaAt(lines, i, clock).Some? ==>
              i < |lines| &&
              exists m :: 0 <= m < |QuotaLabels| && Contains(Lower(lines[i]), QuotaLabels[m].text)
                && QuotaAt(lines, i, clock) == WindowQuota(lines, i, QuotaLabels[m], clock)
  {
    if i < |lines| {
      LabelFromIsFirst(Lower(lines[i]), QuotaLabels, 0);
    }
  }

  /** What every quota satisfies: its fields agree with the table and the reset scan. */
  predicate WellFormed(q: Quota, now: int) {
    (q.model != "" <==> q.kind == ModelSpecific)
    && (q.timeRemainingSeconds.Some? ==>
          q.timeRemainingSeconds.value > 0
          && q.resetsAt == Some(now + q.timeRemainingSeconds.value)
          && q.timeRemainingHuman == DurationText(q.timeRemainingSeconds.value))
    && (q.timeRemainingSeconds.None? ==> q.timeRemainingHuman == "")
  }

  lemma WindowQuotaWellFormed(lines: seq<string>, i: nat, heading: QuotaLabel, clock: Clock)
    requires heading.model != "" <==> heading.kind == ModelSpecific
    ensures WindowQuota(lines, i, heading, clock).Some? ==> WellFormed(WindowQuota(lines, i, heading, clock).value, clock.now)
  {
    match FirstPercentLine(lines, i, PercentEnd(lines, i))
    case Some(j) =>
      MakeQuotaWellFormed(heading, ParsePercentage(lines[j]).value, ResetScan(lines, j, clock), clock.now);
    case None =>
  }

  lemma MakeQuotaWellFormed(heading: QuotaLabel, percent: int, reset: ResetInfo, now: int)
    requires heading.model != "" <==> heading.kind == ModelSpecific
    requires Timed(reset, now)
    ensures WellFormed(MakeQuota(heading, percent, reset), now)
  {
  }

  lemma QuotaAtWellFormed(lines: seq<string>, i: nat, clock: Clock)
    ensures QuotaAt(lines, i, clock).Some? ==> WellFormed(QuotaAt(lines, i, clock).value, clock.now)
  {
    if i < |lines| {
      var heading := LineLabel(lines[i]);
      if heading.Some? {
        LabelFromIsFirst(Lower(lines[i]), QuotaLabels, 0);
        LabelModels();
        WindowQuotaWellFormed(lines, i, heading.value, clock);
      }
    }
  }

  // ---------------------------------------------------------------------
  // The whole scan

  /** The results of lines [0, n) that are present, in line order. */
  function Collect<T>(f: nat -> Option<T>, n: nat): seq<T> {
    if n == 0 then []
    else Collect(f, n - 1) + match f(n - 1) case Some(x) => [x] case None => []
  }

  /** The lines of [0, n) that have a result, in increasing order. */
  function Hits<T>(f: nat -> Option<T>, n: nat): seq<nat> {
    if n == 0 then []
    else Hits(f, n - 1) + if f(n - 1).Some? then [n - 1] else []
  }

  /**
   * The results come in line order, one per line that has one: the k-th
   * result is the one of the k-th such line, and every such line is listed.
   */
  lemma {:induction false} CollectInLineOrder<T>(f: nat -> Option<T>, n: nat)
    ensures var xs := Collect(f, n);
            var ls := Hits(f, n);
            |xs| == |ls| <= n
            && (forall k :: 0 <= k < |ls| ==> ls[k] < n && f(ls[k]) == Some(xs[k]))
            && (forall k, m :: 0 <= k < m < |ls| ==> ls[k] < ls[m])
            && (forall i :: 0 <= i < n && f(i).Some? ==> i in ls)
  {
    if n > 0 {
      CollectInLineOrder(f, n - 1);
    }
  }

  lemma CollectStep<T>(f: nat -> Option<T>, n: nat)
    ensures Collect(f, n + 1) == Collect(f, n) + if f(n).Some? then [f(n).value] else []
  {
  }

  /** A property every present result has holds of every collected one. */
  lemma {:induction false} CollectAll<T>(f: nat -> Option<T>, n: nat, p: T -> bool)
    requires forall i :: 0 <= i < n && f(i).Some? ==> p(f(i).value)
    ensures forall x :: x in Collect(f, n) ==> p(x)
  {
    if n > 0 {
      CollectAll(f, n - 1, p);
    }
  }

  /** The per-line function of a text's lines. */
  function LineQuota(lines: seq<string>, clock: Clock): nat -> Option<Quota> {
    (i: nat) => QuotaAt(lines, i, clock)
  }

  /** `parseQuotas` on the whole text. */
  function QuotaList(text: string, clock: Clock): seq<Quota> {
    var lines := Lines(text);
    Collect(LineQuota(lines, clock), |lines|)
  }

  /**
   * The quotas of a text are those of its lines in line order, at most one
   * per line, and each is well formed.
   */
  lemma QuotaListShape(text: string, clock: Clock)
    ensures var lines := Lines(text);
            var qs := QuotaList(text, clock);
            var ls := Hits(LineQuota(lines, clock), |lines|);
            |qs| == |ls| <= |lines|
            && (forall k :: 0 <= k < |ls| ==> ls[k] < |lines| && QuotaAt(lines, ls[k], clock) == Some(qs[k]))
            && (forall k, m :: 0 <= k < m < |ls| ==> ls[k] < ls[m])
            && (forall i :: 0 <= i < |lines| && QuotaAt(lines, i, clock).Some? ==> i in ls)
    ensures forall q :: q in QuotaList(text, clock) ==> WellFormed(q, clock.now)
  {
    var lines := Lines(text);
    CollectInLineOrder(LineQuota(lines, clock), |lines|);
    forall i | 0 <= i < |lines| && LineQuota(lines, clock)(i).Some?
      ensures WellFormed(LineQuota(lines, clock)(i).value, clock.now)
    {
      QuotaAtWellFormed(lines, i, clock);
    }
    CollectAll(LineQuota(lines, clock), |lines|, q => WellFormed(q, clock.now));
  }

  /** `parseQuotas`: every line, then the heading table, then the percentage window. */
  method ParseQuotas(text: string, clock: Clock) returns (quotas: seq<Quota>)
    ensures quotas == QuotaList(text, clock)
  {
    var lines := Lines(text);
    quotas := [];
    for i := 0 to |lines|
      invariant quotas == Collect(LineQuota(lines, clock), i)
    {
      var found := QuotaOfLine(lines, i, clock);
      CollectStep(LineQuota(lines, clock), i);
      match found
      case Some(q) => quotas := quotas + [q];
      case None =>
    }
  }

  /** The body of the line loop: try the headings; the first one contained decides the line. */
  method QuotaOfLine(lines: seq<string>, i: nat, clock: Clock) returns (r: Option<Quota>)
    requires i < |lines|
    ensures r == QuotaAt(lines, i, clock)
  {
    var lineLower := Lower(lines[i]);
    var table := QuotaLabels;
    var n := 0;
    while n < |table|
      invariant n <= |table|
      invariant LabelFrom(lineLower, table, 0) == LabelFrom(lineLower, table, n)
    {
      if Contains(lineLower, table[n].text) {
        r := SearchWindow(lines, i, table[n], clock);
        return;
      }
      n := n + 1;
    }
    return None;
  }

  /** The percentage search below a labelled line, and the quota it makes. */
  method SearchWindow(lines: seq<string>, i: nat, heading: QuotaLabel, clock: Clock) returns (r: Option<Quota>)
    requires i < |lines|
    ensures r == WindowQuota(lines, i, heading, clock)
  {
    var found := FindPercentLine(lines, i);
    if found.None? {
      return None;
    }
    var j := found.value;
    var percent := ParsePercentage(lines[j]);
    var quota := BuildQuota(lines, j, heading, percent.value, clock);
    return Some(quota);
  }

  /** The first line of the window [i, min(i+5, len)) that holds a percentage. */
  method FindPercentLine(lines: seq<string>, i: nat) returns (found: Option<nat>)
    requires i < |lines|
    ensures found == FirstPercentLine(lines, i, PercentEnd(lines, i))
  {
    var searchEnd := i + PercentWindow;
    if searchEnd > |lines| {
      searchEnd := |lines|;
    }
    var j := i;
    while j < searchEnd
      invariant i <= j <= searchEnd
      invariant FirstPercentLine(lines, i, searchEnd) == FirstPercentLine(lines, j, searchEnd)
    {
      var percent := ParsePercentage(lines[j]);
      if percent.Some? {
        return Some(j);
      }
      j := j + 1;
    }
    return None;
  }

  /** The quota of a heading and a percentage found on line j: the reset scan starts at j. */
  method BuildQuota(lines: seq<string>, j: nat, heading: QuotaLabel, percent: int, clock: Clock)
    returns (quota: Quota)
    ensures quota == MakeQuota(heading, percent, ResetScan(lines, j, clock))
  {
    var reset := ParseResetTime(lines, j, clock);
    var human := "";
    if reset.seconds.Some? {
      human := FormatDuration(reset.seconds.value);
    }
    quota := Quota(heading.kind, heading.model, percent, reset.resetsAt, TrimSpace(reset.text),
                   reset.seconds, human);
  }
}
