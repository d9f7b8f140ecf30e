/**
 * The daemon's control state (main.go `runDaemon`, `calculateNextResetRefresh`
 * and `DBusService.RefreshNow`): the polling interval with its one-minute
 * retry back-off, the high-usage notification latch, the timer armed for
 * the next quota reset, and the single pending on-demand refresh.
 *
 * Each event handler takes the outcome of the query it runs as an input:
 * the query itself (spawning the CLI, parsing, writing the state file) and
 * the desktop notification are outside the model.
 */
module Daemon {
  import opened Wrappers
  import opened Model

  /** How one query of the daemon ended. */
  datatype QueryOutcome =
    | QueryFailed             // the CLI could not be run or timed out
    | WriteFailed             // parsed, but the state file could not be written
    | Ok(snapshot: UsageSnapshot)

  /** The polling interval while queries fail, in seconds. */
  const RetryInterval: int := 60

  /** Seconds to wait after a reset before querying again. */
  const ResetGrace: int := 60

  // ---------------------------------------------------------------------
  // The reset timer

  predicate PositiveRemaining(q: Quota) {
    q.timeRemainingSeconds.Some? && q.timeRemainingSeconds.value > 0
  }

  /** The smallest positive remaining time among the quotas, if any has one. */
  function MinRemaining(quotas: seq<Quota>): (r: Option<int>)
    ensures r.Some? ==> r.value > 0
  {
    if quotas == [] then None
    else
      var rest := MinRemaining(quotas[..|quotas| - 1]);
      var q := quotas[|quotas| - 1];
      if PositiveRemaining(q) && (rest.None? || q.timeRemainingSeconds.value < rest.value) then q.timeRemainingSeconds
      else rest
  }

  /** The delay of the reset timer: a minute after the earliest reset. */
  function ResetDelay(quotas: seq<Quota>): Option<int> {
    match MinRemaining(quotas)
    case Some(m) => Some(m + ResetGrace)
    case None => None
  }

  lemma {:induction false} MinRemainingIsMin(quotas: seq<Quota>)
    ensures MinRemaining(quotas).None? <==> forall k :: 0 <= k < |quotas| ==> !PositiveRemaining(quotas[k])
    ensures MinRemaining(quotas).Some? ==>
              (exists k :: 0 <= k < |quotas| && PositiveRemaining(quotas[k]) && quotas[k].timeRemainingSeconds == MinRemaining(quotas))
              && forall k :: 0 <= k < |quotas| && PositiveRemaining(quotas[k]) ==>
                   MinRemaining(quotas).value <= quotas[k].timeRemainingSeconds.value
  {
    if quotas != [] {
      var init := quotas[..|quotas| - 1];
      MinRemainingIsMin(init);
      assert forall k :: 0 <= k < |init| ==> init[k] == quotas[k];
    }
  }

  /**
   * No delay exactly when no quota has a positive remaining time; otherwise
   * the delay is some quota's remaining time plus a minute, at most every
   * positive remaining time plus a minute, and so at least 61 seconds.
   */
  lemma ResetDelayBounds(quotas: seq<Quota>)
    ensures ResetDelay(quotas).None? <==> forall k :: 0 <= k < |quotas| ==> !PositiveRemaining(quotas[k])
    ensures ResetDelay(quotas).Some? ==>
              var d := ResetDelay(quotas).value;
              d >= 61
              && (exists k :: 0 <= k < |quotas| && PositiveRemaining(quotas[k]) && d == quotas[k].timeRemainingSeconds.value + 60)
              && forall k :: 0 <= k < |quotas| && PositiveRemaining(quotas[k]) ==> d <= quotas[k].timeRemainingSeconds.value + 60
  {
    MinRemainingIsMin(quotas);
  }

  /** `calculateNextResetRefresh`: one pass keeping the smallest positive remaining time. */
  method CalculateNextResetRefresh(quotas: seq<Quota>) returns (delay: Option<int>)
    ensures delay == ResetDelay(quotas)
  {
    var minSeconds := -1;
    for i := 0 to |quotas|
      invariant if MinRemaining(quotas[..i]).Some? then minSeconds == MinRemaining(quotas[..i]).value else minSeconds == -1
    {
      assert quotas[..i + 1][..i] == quotas[..i];
      var q := quotas[i];
      if q.timeRemainingSeconds.Some? && q.timeRemainingSeconds.value > 0 {
        if minSeconds < 0 || q.timeRemainingSeconds.value < minSeconds {
          minSeconds := q.timeRemainingSeconds.value;
        }
      }
    }
    assert quotas[..|quotas|] == quotas;
    if minSeconds < 0 {
      return None;
    }
    return Some(minSeconds + ResetGrace);
  }

  // ---------------------------------------------------------------------
  // The notification latch

  /** A successful query that shows usage, with notifications enabled. */
  predicate Notifiable(outcome: QueryOutcome, threshold: int) {
    outcome.Ok? && outcome.snapshot.authError.None? && outcome.snapshot.quotas != [] && threshold > 0
  }

  /** Whether the session usage of a notifiable outcome reaches the threshold. */
  predicate OverThreshold(outcome: QueryOutcome, threshold: int)
    requires Notifiable(outcome, threshold)
  {
    UsedPercent(outcome.snapshot.quotas[0]) >= threshold
  }

  /** Whether the query sends a notification: usage at the threshold and none sent yet. */
  predicate SendsNotification(sent: bool, outcome: QueryOutcome, threshold: int) {
    Notifiable(outcome, threshold) && OverThreshold(outcome, threshold) && !sent
  }

  /**
   * The latch after a query, given whether a notification it sends is
   * delivered: it changes only on a notifiable outcome, it sets only on a
   * delivered notification, it does set on one, it stays set while usage
   * stays at or above the threshold, and it clears whenever usage is below it.
   */
  function Latch(sent: bool, outcome: QueryOutcome, threshold: int, delivered: bool): (r: bool)
    ensures r != sent ==> Notifiable(outcome, threshold)
    ensures r && !sent ==> SendsNotification(sent, outcome, threshold) && delivered
    ensures SendsNotification(sent, outcome, threshold) && delivered ==> r
    ensures Notifiable(outcome, threshold) && OverThreshold(outcome, threshold) ==> (r <==> sent || delivered)
    ensures Notifiable(outcome, threshold) && !OverThreshold(outcome, threshold) ==> !r
  {
    if Notifiable(outcome, threshold) then
      if OverThreshold(outcome, threshold) then sent || delivered else false
    else sent
  }

  /**
   * Notifications sent over a run of queries, each delivered, starting from
   * latch state `sent`.
   */
  function SendsOver(sent: bool, outcomes: seq<QueryOutcome>, threshold: int): nat
    decreases |outcomes|
  {
    if outcomes == [] then 0
    else
      (if SendsNotification(sent, outcomes[0], threshold) then 1 else 0)
      + SendsOver(Latch(sent, outcomes[0], threshold, true), outcomes[1..], threshold)
  }

  /**
   * While usage stays at or above the threshold, one notification is sent and
   * then the latch holds: exactly one for a non-empty run from a clear latch,
   * none from a set one.
   */
  lemma {:induction false} NotifiesExactlyOnce(sent: bool, outcomes: seq<QueryOutcome>, threshold: int)
    requires forall k :: 0 <= k < |outcomes| ==>
               Notifiable(outcomes[k], threshold) && OverThreshold(outcomes[k], threshold)
    ensures SendsOver(sent, outcomes, threshold) == if sent || outcomes == [] then 0 else 1
    decreases |outcomes|
  {
    if outcomes != [] {
      NotifiesExactlyOnce(true, outcomes[1..], threshold);
    }
  }

  // ---------------------------------------------------------------------
  // The polling interval

  /** The interval the back-off rule prescribes after a query. */
  function BackoffInterval(succeeded: bool, normal: int): int {
    if succeeded then normal else RetryInterval
  }

  /** A tick changes the ticker only when the query flips between success and failure. */
  function TickInterval(wasOk: bool, ok: bool, current: int, normal: int): int {
    if !ok && wasOk then RetryInterval
    else if ok && !wasOk then normal
    else current
  }

  /** The interval after a run of ticks with the given query results. */
  function IntervalAfterTicks(wasOk: bool, current: int, normal: int, results: seq<bool>): int
    decreases |results|
  {
    if results == [] then current
    else IntervalAfterTicks(results[0], TickInterval(wasOk, results[0], current, normal), normal, results[1..])
  }

  /**
   * From a state that follows the back-off rule, any run of ticks ends on the
   * interval of its last result: failures followed by one success restore
   * the normal interval.
   */
  lemma {:induction false} TicksFollowBackoff(wasOk: bool, current: int, normal: int, results: seq<bool>)
    requires current == BackoffInterval(wasOk, normal)
    requires results != []
    ensures IntervalAfterTicks(wasOk, current, normal, results) == BackoffInterval(results[|results| - 1], normal)
    decreases |results|
  {
    var next := TickInterval(wasOk, results[0], current, normal);
    assert next == BackoffInterval(results[0], normal);
    if |results| > 1 {
      TicksFollowBackoff(results[0], next, normal, results[1..]);
    }
  }

  // ---------------------------------------------------------------------
  // The event loop

  class Scheduler {
    const normalInterval: int
    const threshold: int
    var lastQuerySucceeded: bool
    var tickInterval: int
    var notificationSent: bool
    /** The delay the reset timer was armed with, while it has not fired. */
    var resetDelay: Option<int>
    /** A refresh request sits in the one-slot channel. */
    var refreshPending: bool

    /** The back-off rule, and a timer is only ever armed a minute past a reset. */
    predicate Valid()
      reads this
    {
      normalInterval > 0
      && tickInterval == BackoffInterval(lastQuerySucceeded, normalInterval)
      && (resetDelay.Some? ==> resetDelay.value >= 61)
    }

    /** Start-up: the first query runs at once; a failure starts on the retry interval. */
    constructor Init(interval: int, notifyThreshold: int, outcome: QueryOutcome, delivered: bool)
      requires interval > 0
      ensures Valid()
      ensures normalInterval == interval && threshold == notifyThreshold
      ensures lastQuerySucceeded == outcome.Ok? && !refreshPending
      ensures notificationSent == Latch(false, outcome, notifyThreshold, delivered)
      ensures resetDelay == (if outcome.Ok? then ResetDelay(outcome.snapshot.quotas) else None)
    {
      normalInterval := interval;
      threshold := notifyThreshold;
      lastQuerySucceeded := true;
      tickInterval := interval;
      notificationSent := false;
      resetDelay := None;
      refreshPending := false;
      new;
      var ok, _ := Query(outcome, delivered);
      lastQuerySucceeded := ok;
      if !ok {
        tickInterval := RetryInterval;
      }
    }

    /**
     * `doQuery`: on success the notification latch is updated and the reset
     * timer re-armed; a failed query or write changes neither.
     */
    method Query(outcome: QueryOutcome, delivered: bool) returns (ok: bool, notified: bool)
      requires resetDelay.Some? ==> resetDelay.value >= 61
      modifies this
      ensures ok == outcome.Ok?
      ensures notified == SendsNotification(old(notificationSent), outcome, threshold)
      ensures notificationSent == Latch(old(notificationSent), outcome, threshold, delivered)
      ensures resetDelay == (if outcome.Ok? then ResetDelay(outcome.snapshot.quotas) else old(resetDelay))
      ensures resetDelay.Some? ==> resetDelay.value >= 61
      ensures lastQuerySucceeded == old(lastQuerySucceeded) && tickInterval == old(tickInterval)
      ensures refreshPending == old(refreshPending)
    {
      notified := false;
      match outcome {
        case QueryFailed =>
          return false, false;
        case WriteFailed =>
          return false, false;
        case Ok(snapshot) =>
          if snapshot.authError.None? && |snapshot.quotas| > 0 && threshold > 0 {
            var sessionUsed := UsedPercent(snapshot.quotas[0]);
            if sessionUsed >= threshold {
              if !notificationSent {
                notified := true;
                if delivered {
                  notificationSent := true;
                }
              }
            } else {
              notificationSent := false;
            }
          }
          var delay := CalculateNextResetRefresh(snapshot.quotas);
          ResetDelayBounds(snapshot.quotas);
          resetDelay := delay;
          return true, notified;
      }
    }

    /** The ticker fired: query, and switch interval when the result flips. */
    method OnTick(outcome: QueryOutcome, delivered: bool) returns (notified: bool)
      requires Valid()
      modifies this
      ensures Valid()
      ensures lastQuerySucceeded == outcome.Ok?
      ensures tickInterval == TickInterval(old(lastQuerySucceeded), outcome.Ok?, old(tickInterval), normalInterval)
      ensures notified == SendsNotification(old(notificationSent), outcome, threshold)
      ensures notificationSent == Latch(old(notificationSent), outcome, threshold, delivered)
      ensures resetDelay == (if outcome.Ok? then ResetDelay(outcome.snapshot.quotas) else old(resetDelay))
      ensures refreshPending == old(refreshPending)
    {
      var wasSuccessful := lastQuerySucceeded;
      var ok;
      ok, notified := Query(outcome, delivered);
      lastQuerySucceeded := ok;
      if !ok && wasSuccessful {
        tickInterval := RetryInterval;
      } else if ok && !wasSuccessful {
        tickInterval := normalInterval;
      }
    }

    /** Both the refresh request and the reset timer restart the ticker on the interval the result calls for. */
    method QueryAndRestartTicker(outcome: QueryOutcome, delivered: bool) returns (notified: bool)
      requires Valid()
      modifies this
      ensures Valid()
      ensures lastQuerySucceeded == outcome.Ok?
      ensures notified == SendsNotification(old(notificationSent), outcome, threshold)
      ensures notificationSent == Latch(old(notificationSent), outcome, threshold, delivered)
      ensures resetDelay == (if outcome.Ok? then ResetDelay(outcome.snapshot.quotas) else old(resetDelay))
      ensures refreshPending == old(refreshPending)
    {
      var ok;
      ok, notified := Query(outcome, delivered);
      lastQuerySucceeded := ok;
      if ok {
        tickInterval := normalInterval;
      } else {
        tickInterval := RetryInterval;
      }
    }

    /** A queued refresh request is taken from the channel and served. */
    method OnRefresh(outcome: QueryOutcome, delivered: bool) returns (notified: bool)
      requires Valid() && refreshPending
      modifies this
      ensures Valid() && !refreshPending
      ensures lastQuerySucceeded == outcome.Ok?
      ensures notified == SendsNotification(old(notificationSent), outcome, threshold)
      ensures notificationSent == Latch(old(notificationSent), outcome, threshold, delivered)
      ensures resetDelay == (if outcome.Ok? then ResetDelay(outcome.snapshot.quotas) else old(resetDelay))
    {
      refreshPending := false;
      notified := QueryAndRestartTicker(outcome, delivered);
    }

    /**
     * The armed reset timer fired: it is spent, and only a successful query
     * arms a new one.
     */
    method OnResetTimer(outcome: QueryOutcome, delivered: bool) returns (notified: bool)
      requires Valid() && resetDelay.Some?
      modifies this
      ensures Valid()
      ensures lastQuerySucceeded == outcome.Ok?
      ensures notified == SendsNotification(old(notificationSent), outcome, threshold)
      ensures notificationSent == Latch(old(notificationSent), outcome, threshold, delivered)
      ensures resetDelay == (if outcome.Ok? then ResetDelay(outcome.snapshot.quotas) else None)
      ensures refreshPending == old(refreshPending)
    {
      resetDelay := None;
      notified := QueryAndRestartTicker(outcome, delivered);
    }

    /** `RefreshNow`: queue a refresh unless one is already pending. */
    method RequestRefresh() returns (queued: bool)
      modifies this
      ensures queued == !old(refreshPending) && refreshPending
      ensures lastQuerySucceeded == old(lastQuerySucceeded) && tickInterval == old(tickInterval)
      ensures notificationSent == old(notificationSent) && resetDelay == old(resetDelay)
    {
      queued := !refreshPending;
      refreshPending := true;
    }
  }
}
