/**
 * The snapshot the parser produces and the daemon persists: account tier,
 * identity, quotas, extra-usage cost and the authentication state.
 * Instants are integer seconds since the Unix epoch.
 */
module Model {
  import opened Wrappers

  datatype AccountType = Pro | Max | Api | Unknown

  datatype AuthCode = NotLoggedIn | TokenExpired | NoSubscription | SetupRequired

  datatype AuthError = AuthError(code: AuthCode, message: string)

  datatype QuotaType = Session | Weekly | ModelSpecific

  /**
   * One usage allowance. `resetsAt` is the instant the RFC 3339 text of the
   * snapshot file denotes; `timeRemainingHuman` is "" when absent.
   */
  datatype Quota = Quota(
    kind: QuotaType,
    model: string,
    percentRemaining: int,
    resetsAt: Option<int>,
    resetText: string,
    timeRemainingSeconds: Option<int>,
    timeRemainingHuman: string)

  /** The share of a quota already used, in percent: what is not remaining. */
  function UsedPercent(q: Quota): int {
    100 - q.percentRemaining
  }

  /**
   * Extra-usage spending. The amounts are the matched numerals with their
   * thousands separators removed (the text `strconv.ParseFloat` reads).
   */
  datatype CostUsage = CostUsage(spent: string, budget: string, unlimited: bool)

  datatype UsageSnapshot = UsageSnapshot(
    accountType: AccountType,
    email: string,
    organization: string,
    quotas: seq<Quota>,
    costUsage: Option<CostUsage>,
    authError: Option<AuthError>,
    capturedAt: int,
    rawOutput: string)

  /**
   * Where the parser reads the clock: the current instant, the offset of the
   * local zone, and the offset of each zone name the zone database knows.
   */
  datatype Clock = Clock(now: int, localOffset: int, zoneOffset: string -> Option<int>)
}
