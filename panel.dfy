/**
 * The status-bar payload for HyprPanel/Waybar: a short text, an icon key
 * (`alt`), a style class and a tooltip (main.go `formatHyprPanelOutput`,
 * `formatHyprPanelError`, `formatHyprPanelAuthError`).
 */
module Panel {
  import opened Wrappers
  import opened Text
  import opened Model
  import opened Captures
  import opened Duration

  datatype PanelOutput = PanelOutput(text: string, alt: string, styleClass: string, tooltip: string)

  /** `formatHyprPanelError`: the placeholder text with the message as tooltip. */
  function FormatHyprPanelError(message: string): (r: PanelOutput)
    ensures r.alt == r.styleClass == "error" && r.text == "--"
    ensures r.tooltip == message
  {
    PanelOutput("--", "error", "error", message)
  }

  /** The icon key of each authentication failure. */
  function AuthAlt(code: AuthCode): (alt: string)
    ensures alt !in {"error", "low", "medium", "high"}
  {
    match code
    case NotLoggedIn => "not_logged_in"
    case TokenExpired => "token_expired"
    case NoSubscription => "no_subscription"
    case SetupRequired => "setup_required"
  }

  /** The code an icon key stands for. */
  function AuthCodeOf(alt: string): Option<AuthCode> {
    if alt == "not_logged_in" then Some(NotLoggedIn)
    else if alt == "token_expired" then Some(TokenExpired)
    else if alt == "no_subscription" then Some(NoSubscription)
    else if alt == "setup_required" then Some(SetupRequired)
    else None
  }

  /** Distinct failures get distinct icon keys: the key gives the code back. */
  lemma AuthAltRoundTrip(code: AuthCode)
    ensures AuthCodeOf(AuthAlt(code)) == Some(code)
  {
  }

  /**
   * `formatHyprPanelAuthError`: "Claude" with the failure's icon key, the
   * auth-error style and its message; the plain error when there is none.
   */
  function FormatHyprPanelAuthError(err: Option<AuthError>): (r: PanelOutput)
    ensures err.None? ==> r == FormatHyprPanelError("Unknown error")
    ensures err.Some? ==> r.text == "Claude" && r.styleClass == "auth_error"
                          && AuthCodeOf(r.alt) == Some(err.value.code) && r.tooltip == err.value.message
  {
    match err
    case None => FormatHyprPanelError("Unknown error")
    case Some(e) => PanelOutput("Claude", AuthAlt(e.code), "auth_error", e.message)
  }

  /** Severity of the session usage in percent. */
  function Level(used: int): (level: string)
    ensures level in {"low", "medium", "high"}
  {
    if used > 80 then "high" else if used > 50 then "medium" else "low"
  }

  function LevelRank(level: string): nat {
    if level == "high" then 2 else if level == "medium" then 1 else 0
  }

  /** More usage never lowers the level, and the thresholds sit above 50 and 80 percent. */
  lemma LevelMonotone(a: int, b: int)
    requires a <= b
    ensures LevelRank(Level(a)) <= LevelRank(Level(b))
    ensures Level(b) == "high" <==> b > 80
    ensures Level(b) == "low" <==> b <= 50
  {
  }

  function AccountLabel(t: AccountType): string {
    match t
    case Max => "Max"
    case Pro => "Pro"
    case _ => "Claude"
  }

  /** One usage line of the tooltip: "Session: 42% used (3h 5m left)". */
  function UsageLine(name: string, used: int, remaining: string): string {
    name + ": " + IntToString(used) + "% used (" + remaining + " left)"
  }

  /** A budget above zero: the numeral has a non-zero digit. */
  predicate PositiveAmount(amount: string) {
    exists k :: 0 <= k < |amount| && '1' <= amount[k] <= '9'
  }

  /** The extra-usage line, when the snapshot has one worth showing. */
  function ExtraLine(cost: Option<CostUsage>): seq<string> {
    match cost
    case None => []
    case Some(c) =>
      if c.unlimited then ["Extra: Unlimited"]
      else if PositiveAmount(c.budget) then ["Extra: $" + c.spent + " / $" + c.budget]
      else []
  }

  function SessionLine(s: UsageSnapshot, now: int): string
    requires s.quotas != []
  {
    UsageLine("Session", UsedPercent(s.quotas[0]), RecalculateTimeRemaining(s.quotas[0].resetsAt, now))
  }

  function WeeklyLine(s: UsageSnapshot, now: int): string {
    if |s.quotas| > 1 then
      UsageLine("Weekly", UsedPercent(s.quotas[1]), RecalculateTimeRemaining(s.quotas[1].resetsAt, now))
    else UsageLine("Weekly", 0, "unknown")
  }

  /**
   * `formatHyprPanelOutput`: an auth error wins; without quotas the plain
   * error; otherwise the session usage and the account label, the level of
   * the session usage, and a tooltip of the session, weekly and extra lines,
   * each remaining time recomputed against `now`.
   */
  function FormatHyprPanelOutput(snapshot: Option<UsageSnapshot>, now: int): (r: PanelOutput)
    ensures snapshot.Some? && snapshot.value.authError.Some? ==> r == FormatHyprPanelAuthError(snapshot.value.authError)
    ensures (snapshot.None? || (snapshot.value.authError.None? && snapshot.value.quotas == [])) ==>
              r == FormatHyprPanelError("Error fetching usage")
  {
    match snapshot
    case Some(s) =>
      if s.authError.Some? then FormatHyprPanelAuthError(s.authError)
      else if s.quotas == [] then FormatHyprPanelError("Error fetching usage")
      else
        var used := UsedPercent(s.quotas[0]);
        PanelOutput(
          IntToString(used) + "% " + AccountLabel(s.accountType),
          Level(used),
          Level(used),
          Join([SessionLine(s, now), WeeklyLine(s, now)] + ExtraLine(s.costUsage), '\n'))
    case None => FormatHyprPanelError("Error fetching usage")
  }

  /** A snapshot the panel shows as usage: no auth error and at least one quota. */
  predicate ShowsUsage(s: UsageSnapshot) {
    s.authError.None? && s.quotas != []
  }

  /**
   * The style class tells the three states apart: "auth_error" exactly for
   * an auth error, "error" exactly when nothing can be shown, and otherwise
   * the level of the session usage, which is also the icon key.
   */
  lemma PanelClasses(snapshot: Option<UsageSnapshot>, now: int)
    ensures var r := FormatHyprPanelOutput(snapshot, now);
            (r.styleClass == "auth_error" <==> snapshot.Some? && snapshot.value.authError.Some?)
            && (r.styleClass == "error" <==> snapshot.None? || (snapshot.value.authError.None? && snapshot.value.quotas == []))
            && (snapshot.Some? && ShowsUsage(snapshot.value) ==>
                  r.alt == r.styleClass == Level(UsedPercent(snapshot.value.quotas[0])))
  {
    if snapshot.Some? && ShowsUsage(snapshot.value) {
      var used := UsedPercent(snapshot.value.quotas[0]);
      assert Level(used) in {"low", "medium", "high"};
    }
  }

  /** The number in front of the percent sign reads back as the session usage. */
  lemma PanelPercentRoundTrip(s: UsageSnapshot, now: int)
    requires ShowsUsage(s)
    ensures ReadInt(Split(FormatHyprPanelOutput(Some(s), now).text, '%')[0]) == Some(UsedPercent(s.quotas[0]))
  {
    var used := UsedPercent(s.quotas[0]);
    var name := AccountLabel(s.accountType);
    assert FormatHyprPanelOutput(Some(s), now).text == IntToString(used) + "% " + name;
    PercentPrefix(used, name);
  }

  /** After the percentage, the text names the account: "Max", "Pro" or "Claude". */
  lemma PanelLabel(s: UsageSnapshot, now: int)
    requires ShowsUsage(s)
    ensures var text := FormatHyprPanelOutput(Some(s), now).text;
            var tail := "% " + AccountLabel(s.accountType);
            |tail| < |text| && text[|text| - |tail|..] == tail
  {
    var used := UsedPercent(s.quotas[0]);
    var name := AccountLabel(s.accountType);
    assert FormatHyprPanelOutput(Some(s), now).text == IntToString(used) + "% " + name;
    LabelSuffix(IntToString(used), "% " + name);
  }

  lemma LabelSuffix(head: string, tail: string)
    requires head != []
    ensures var text := head + tail; |tail| < |text| && text[|text| - |tail|..] == tail
  {
    var text := head + tail;
    assert text[|head|..] == tail;
  }

  lemma PercentPrefix(used: int, name: string)
    ensures ReadInt(Split(IntToString(used) + "% " + name, '%')[0]) == Some(used)
  {
    var digits := IntToString(used);
    var rest := "% " + name;
    assert digits + "% " + name == digits + rest;
    assert '%' !in digits;
    SplitPrefix(digits, rest, '%');
    assert Split(rest, '%')[0] == [] by {
      assert rest[0] == '%' && rest[1..] == " " + name;
    }
    assert digits + [] == digits;
    IntToStringRoundTrip(used);
  }

  /**
   * The tooltip splits back into its lines: the session line, the weekly
   * line and at most one extra-usage line, when the amounts are numerals as
   * the parser produces them.
   */
  lemma TooltipLines(s: UsageSnapshot, now: int)
    requires ShowsUsage(s)
    requires s.costUsage.Some? ==> AmountText(s.costUsage.value.spent) && AmountText(s.costUsage.value.budget)
    ensures Split(FormatHyprPanelOutput(Some(s), now).tooltip, '\n')
            == [SessionLine(s, now), WeeklyLine(s, now)] + ExtraLine(s.costUsage)
  {
    var session, weekly, extra := SessionLine(s, now), WeeklyLine(s, now), ExtraLine(s.costUsage);
    RemainingOneLine(s.quotas[0].resetsAt, now);
    UsageLineOneLine("Session", UsedPercent(s.quotas[0]), RecalculateTimeRemaining(s.quotas[0].resetsAt, now));
    if |s.quotas| > 1 {
      RemainingOneLine(s.quotas[1].resetsAt, now);
      UsageLineOneLine("Weekly", UsedPercent(s.quotas[1]), RecalculateTimeRemaining(s.quotas[1].resetsAt, now));
    } else {
      UsageLineOneLine("Weekly", 0, "unknown");
    }
    ExtraLineOneLine(s.costUsage);
    SplitJoin([session, weekly] + extra, '\n');
  }

  lemma UsageLineOneLine(name: string, used: int, remaining: string)
    requires '\n' !in name && '\n' !in remaining
    ensures '\n' !in UsageLine(name, used, remaining)
  {
    assert '\n' !in IntToString(used);
  }

  lemma ExtraLineOneLine(cost: Option<CostUsage>)
    requires cost.Some? ==> AmountText(cost.value.spent) && AmountText(cost.value.budget)
    ensures forall k :: 0 <= k < |ExtraLine(cost)| ==> '\n' !in ExtraLine(cost)[k]
  {
    if cost.Some? && !cost.value.unlimited {
      assert '\n' !in cost.value.spent && '\n' !in cost.value.budget;
    }
  }

  lemma RemainingOneLine(resetsAt: Option<int>, now: int)
    ensures '\n' !in RecalculateTimeRemaining(resetsAt, now)
  {
    if resetsAt.Some? {
      assert !DurationChar('\n');
    }
  }
}
