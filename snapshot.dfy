/**
 * One parse of the captured screen into a snapshot (main.go
 * `parseClaudeOutput`): every extractor reads the text with its escape
 * sequences removed.
 */
module Snapshot {
  import opened Wrappers
  import opened Text
  import opened Model
  import opened Ansi
  import opened Captures
  import opened Auth
  import opened Quotas
  import opened Identity
  import opened Cost

  /**
   * The snapshot of one capture. `clock.now` is the capture instant; the raw
   * text is kept, escape sequences removed, only when `includeRaw` asks.
   */
  function ParseClaudeOutput(raw: string, includeRaw: bool, clock: Clock): (s: UsageSnapshot)
    ensures s.authError == DetectAuthError(StripAnsi(raw))
    ensures s.email == ParseEmail(StripAnsi(raw)) && s.organization == OrgFrom(StripAnsi(raw))
    ensures s.costUsage == CostFrom(StripAnsi(raw))
    ensures DetectAuthError(StripAnsi(raw)).Some? && QuotaList(StripAnsi(raw), clock) == [] ==> s.accountType == Unknown
    ensures s.accountType != Unknown ==> s.accountType == DetectAccountType(StripAnsi(raw))
    ensures s.quotas != [] || s.authError.None? ==> s.accountType == DetectAccountType(StripAnsi(raw))
    ensures s.capturedAt == clock.now
    ensures s.rawOutput == if includeRaw then StripAnsi(raw) else ""
  {
    var clean := StripAnsi(raw);
    var parsed := UsageSnapshot(
      DetectAccountType(clean),
      ParseEmail(clean),
      OrgFrom(clean),
      QuotaList(clean, clock),
      CostFrom(clean),
      DetectAuthError(clean),
      clock.now,
      if includeRaw then clean else "");
    if parsed.authError.Some? && |parsed.quotas| == 0 then parsed.(accountType := Unknown) else parsed
  }

  /**
   * Every quota of a snapshot is well formed against the capture instant,
   * and an auth error does not empty the quota list: the quotas are those
   * of the text whatever its authentication state.
   */
  lemma SnapshotQuotas(raw: string, includeRaw: bool, clock: Clock)
    ensures var s := ParseClaudeOutput(raw, includeRaw, clock);
            (forall q :: q in s.quotas ==> WellFormed(q, clock.now))
            && s.quotas == QuotaList(StripAnsi(raw), clock)
  {
    QuotaListShape(StripAnsi(raw), clock);
  }

  /**
   * The e-mail of a snapshot is an address or empty, the organization is one
   * line and never the personal-account placeholder, an auth error carries
   * a message, and a cost is unlimited or two numerals.
   */
  lemma SnapshotFields(raw: string, includeRaw: bool, clock: Clock)
    ensures var s := ParseClaudeOutput(raw, includeRaw, clock);
            (s.email != "" ==> AddressShape(s.email))
            && Lower(s.organization) != "organization" && '\n' !in s.organization
            && (s.authError.Some? ==> s.authError.value.message != "")
            && (s.costUsage.Some? ==>
                  if s.costUsage.value.unlimited then s.costUsage.value.spent == "" && s.costUsage.value.budget == ""
                  else AmountText(s.costUsage.value.spent) && AmountText(s.costUsage.value.budget))
  {
    var clean := StripAnsi(raw);
    OrgFromShape(clean);
    if CostFrom(clean).Some? {
      CostAmounts(clean);
    }
  }
}
