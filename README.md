# claude-o-meter, modelled in Dafny

claude-o-meter runs the Claude CLI's `/usage` screen and reads it. It turns
the captured terminal text into a usage snapshot. The snapshot holds the
account tier, e-mail, organization, the quotas with their reset times, the
extra-usage spending and any authentication problem. It also renders a
snapshot as a status-bar payload for HyprPanel/Waybar. In daemon mode it
re-queries on a timer, backs off to a one-minute retry while queries fail,
re-queries a minute after the earliest quota reset, and serves on-demand
refresh requests. It also raises a one-shot notification when session usage
crosses a threshold.

This project models that core, all of it in `main.go`:

- the text-to-snapshot parser with every extractor;
- the status-bar renderers;
- the daemon's control state.

Each regular expression becomes a hand-written matcher over `seq<char>`.
Each matcher yields the submatches of a match at a given start. `Find`
takes the leftmost start that matches. Where several matches begin at that
start, the matcher takes the one RE2's leftmost-first (greedy) semantics
prefers, so this is the match Go's `FindStringSubmatch` returns.

Time is integer seconds since the Unix epoch. The current instant, the
local zone offset and the offset of each zone name come in as a `Clock`
value.

Modules, one per concern:

| module | file | covers |
|---|---|---|
| `Text` | text.dfy | the `strings`/`strconv` operations used: lowering, search, trimming, splitting, decimal numerals |
| `Ansi` | ansi.dfy | `stripANSI` |
| `Patterns` | patterns.dfy | the match-only patterns of the auth and tier detectors |
| `Captures` | captures.dfy | the capturing patterns and leftmost-match search |
| `Auth` | auth.dfy | `detectAuthError`, `detectAccountType`, `hasUsageData` |
| `ResetTime` | resettime.dfy | `parseResetTime`, `parseAbsoluteTime` |
| `Duration` | duration.dfy | `formatDuration`, `recalculateTimeRemaining` |
| `Quotas` | quotas.dfy | `parsePercentage`, `parseQuotas` |
| `LineScan` | linescan.dfy | "first line that yields something", shared by the line scanners |
| `Identity` | identity.dfy | `parseEmail`, `parseOrganization` |
| `Cost` | cost.dfy | `parseCostUsage` |
| `Snapshot` | snapshot.dfy | `parseClaudeOutput` |
| `Panel` | panel.dfy | `formatHyprPanelOutput`, `formatHyprPanelError`, `formatHyprPanelAuthError` |
| `Daemon` | daemon.dfy | `calculateNextResetRefresh`, the `runDaemon` event loop, `RefreshNow` |

The loops of the source stay loops:

- `ParseQuotas`, `ParseResetTime`, `FormatDuration`, `ParseOrganization`, `ParseCostUsage` and `CalculateNextResetRefresh` are methods.
- Each is proved equal to a specification function.
- The properties are proved about that function.
- The daemon is a class. It has one method per event. Each method takes the outcome of the query it runs as an input.

## Where the model follows the code against the documented design

- **Reset-time scan.** It does not stop at the next quota's section label. A quota with no reset line of its own can take the next section's reset line if that line lies within 14 lines. `ResetTime.ScanCrossesSections` states this.
- **Escape stripping.** `stripANSI` is a single pass, so it is not idempotent. Removing `ESC` `[0m` from `ESC ESC [0m[0m` leaves `ESC [0m`. `Ansi.StripIsNotIdempotent` proves this on that text. What does hold is that the result is a subsequence of the input (`Ansi.StripIsSubsequence`).
- **Auth error and quotas.** The documented snapshot invariant says an auth error means no quotas and an unknown tier. The code only forces the tier to unknown, and only when no quotas were parsed. An auth error never empties the quota list. `Snapshot.ParseClaudeOutput` and `Snapshot.SnapshotQuotas` state the code's behaviour.

## Model

| member | source | states |
|---|---|---|
| Ansi.EscapeLength | main.go:134 | an escape sequence starts with ESC and is at least two characters long |
| Ansi.StripAnsi | main.go:190-192 | the stripped text is never longer than the input |
| Ansi.StripIsSubsequence | main.go:190-192 | the stripped text is a subsequence of the input: removal only deletes characters |
| Ansi.StripKeepsPlainPrefix | main.go:190-192 | text before the first ESC passes through unchanged |
| Ansi.StripPlainText | main.go:190-192 | text without ESC is left exactly as it is |
| Ansi.StripIsNotIdempotent | main.go:190-192 | stripping twice can differ from stripping once: ESC ESC "[0m[0m" |
| Auth.DetectAuthError | main.go:196-262 | the rule cascade: setup screen first, then expired token/session, then the not-logged-in rules, then no subscription, then the verify/confirm heuristic; each code is returned iff its rule matches and no earlier rule does; none iff no rule matches; every error carries a non-empty message |
| Auth.UsageDataSilencesHeuristic | main.go:247-259 | with "% used"/"% left" in the text, the account/verify heuristic never reports an error |
| Auth.EmptyOutputHasNoAuthError | main.go:196-262 | empty output is not an authentication error |
| Auth.DetectAccountType | main.go:264-279 | pro, max, api in that order of priority; otherwise max iff "current" and "%" both occur; else unknown |
| Auth.NoPercentNoGuess | main.go:274-277 | without a percent sign, max comes only from a tier marker |
| Captures.FindIsLeftmost | main.go:282 | `Find` returns the match at the leftmost start, and nothing iff no start matches |
| Captures.FindAt | main.go:282 | a match at k with none before it is the one `Find` returns |
| Captures.PercentAt | main.go:142 | a one-to-three-digit percentage is at most 999 |
| Captures.MonthFrom | main.go:153 | a recognised month abbreviation is a month number 1-12 |
| Captures.EmailHeaderAt | main.go:159 | a header e-mail capture holds an at sign and no white space |
| Captures.EmailLegacyAt | main.go:160 | a legacy e-mail capture holds an at sign and no white space |
| Captures.OrgLegacyAt | main.go:164 | a legacy organization capture is non-empty and on one line |
| Captures.CostAt | main.go:167 | the spent and budget captures, commas removed, hold only digits and a decimal point |
| ResetTime.To24Hour | main.go:334-338 | hours 1-12 convert to 0-23, pm exactly when the result is 12 or more, and the hour modulo 12 is kept; hour 0 gives 12 with pm and 0 with am; hours above 12 gain 12 with pm |
| ResetTime.To24HourInjective | main.go:355-359 | distinct 12-hour readings give distinct 24-hour hours |
| ResetTime.To24HourCovers | main.go:334-338 | every hour 0-23 is reached from its 12-hour reading |
| ResetTime.Midnight | main.go:362 | the start of the local day is at most a day before `now` and falls on a local midnight |
| ResetTime.DaysFromCivilAnchors | main.go:340 | the civil-date day count agrees with known dates (1970-01-01 is day 0) |
| ResetTime.DaysFromCivilNextDay | main.go:340 | the next day of a month is the next day count |
| ResetTime.DaysFromCivilRollover | main.go:340 | the day after a month's last day is the first of the next month, and 31 December is followed by 1 January of the next year |
| ResetTime.FebruaryRollover | main.go:340 | 1 March follows 28 or 29 February by the Gregorian leap rule, across 400-year eras |
| ResetTime.LeapInEra | main.go:340 | within a 400-year era the leap rule depends only on the year of the era, its first year being a leap year |
| ResetTime.TimeOnlyInstant | main.go:361-367 | a bare time of day resolves to the next occurrence at or after `now`, less than a day ahead, at that local time |
| ResetTime.FullDateInstant | main.go:340 | a full date resolves to an instant at its local time of day |
| ResetTime.Remaining | main.go:341-345 | a remaining time exists iff the instant is in the future, and leads from `now` to it |
| ResetTime.ParseAbsoluteTime | main.go:309-377 | absolute parsing fails iff neither a full date nor a bare time is present; a full date gives the instant of that date and time in the line's zone; otherwise a bare time gives the instant `TimeOnlyInstant` names: never in the past, at the printed local time, and less than a day ahead for a time of day below 24h; the remaining seconds are those up to the instant |
| ResetTime.TimeOnlyRollover | main.go:361-367 | a bare time is today's instant at that time when that is not past, and exactly one day later when it is |
| ResetTime.TimeOnlyWithinADay | main.go:361-367 | a bare time read on the 12-hour clock resolves to an instant in [now, now + 1 day) that shows that time in its zone |
| ResetTime.ResetFromLine | main.go:388-416 | a positive relative sum gives that duration and now + sum; otherwise the absolute reading; the instant is missing iff neither gives one; any duration is positive and ends at the instant |
| ResetTime.AbsoluteReset | main.go:410-416 | the absolute fallback keeps the line and yields an instant iff the absolute reading has one |
| ResetTime.RelativeReading | main.go:405-408 | a line with a positive relative sum reads as that sum from now |
| ResetTime.AbsoluteReading | main.go:410-416 | a line without one reads as its absolute time, if any |
| ResetTime.ScanEnd | main.go:381-384 | the window ends at most 14 lines after the start and within the text |
| ResetTime.FirstResetLine | main.go:386-388 | the line found lies in the window |
| ResetTime.FirstResetLineIsFirst | main.go:386-418 | the line found is the first "reset"/"renew" line of the window; none found iff the window has none |
| ResetTime.FirstResetLineAt | main.go:386-388 | a reset line with none before it in the window is the one found |
| ResetTime.ResetScan | main.go:379-420 | every reading's duration is positive and ends at its instant |
| ResetTime.ResetScanWindow | main.go:379-420 | the scan reads exactly the first reset line of the window, or yields ("", none, none) |
| ResetTime.ScanFindsLine | main.go:386-417 | the scan's result is the reading of the line found |
| ResetTime.ScanCrossesSections | main.go:381-418 | any reset line within 14 lines with none before it decides the scan, whatever section it belongs to |
| ResetTime.EmptyIsNotResetLine | main.go:388 | an empty line is not a reset line |
| ResetTime.SumRelative | main.go:390-403 | the accumulated total is days·86400 + hours·3600 + minutes·60 |
| ResetTime.ReadResetLine | main.go:387-416 | one reset line is read as the line specification says |
| ResetTime.ParseResetTime | main.go:379-420 | the loop computes the scan specification |
| Duration.DurationText | main.go:423-446 | never empty; "0m" for zero or negative seconds; only digits, d, h, m and spaces (its component order and bounds are stated by DurationTextCanonical) |
| Duration.DurationTextCanonical | main.go:423-446 | the text splits into numerals without leading zeros, each with a unit, in the order days, hours, minutes, each unit at most once, hours below 24, minutes below 60, and no zero component unless the text is just "0m"; with DurationRoundTrip this fixes the text |
| Duration.CanonicalThree | main.go:434-443 | the days, hours and minutes components, with zero ones left out and minutes kept when nothing else shows, are in canonical form |
| Duration.FormatDuration | main.go:423-446 | the dividing loop produces the duration text |
| Duration.DurationParts | main.go:434-443 | one to three space-free components (which ones appear, in which order and within which bounds is stated by CanonicalThree) |
| Duration.DurationRoundTrip | main.go:423-446 | reading the text back gives the seconds rounded down to whole minutes, 0 for non-positive input |
| Duration.DurationTextInjective | main.go:423-446 | distinct whole-minute durations render differently |
| Duration.DurationTextStartsWithDigit | main.go:423-446 | every duration text starts with a digit |
| Duration.RecalculateTimeRemaining | main.go:449-462 | "unknown" iff there is no reset instant; "0m" once it has passed |
| Duration.RecalculatedReadsBack | main.go:449-462 | with a reset instant, the text reads back as the whole minutes left until it, and as nothing once it has passed |
| Duration.RecalculatedCanonical | main.go:449-462 | with a reset instant, the text is in the canonical duration form |
| Duration.DurationTextNotUnknown | main.go:449-462 | a computed remaining time never reads "unknown" |
| Duration.RemainingShrinks | main.go:449-462 | for the same reset instant, the text recomputed at a later `now` reads back as no more time than at an earlier one |
| Quotas.ParsePercentage | main.go:281-298 | a percentage exists iff the pattern matches; its value lies in [-899, 999] |
| Quotas.PercentageReading | main.go:292-295 | the leftmost match decides: "used" gives 100 − N (at most 100), "left" gives N (at least 0) |
| Quotas.NoPercentage | main.go:282-285 | no match gives no percentage |
| Quotas.LabelModels | main.go:491-501 | in the label table the model is non-empty exactly for model-specific quotas |
| Quotas.LabelFromIsFirst | main.go:506-507 | the label chosen is the first table entry the lowered line contains; none iff it contains none |
| Quotas.SingleLabel | main.go:506-507 | a line holding exactly one label gets that label, whatever order the table is visited in |
| Quotas.NoLabel | main.go:506-507 | a line holding no label gets none |
| Quotas.PercentEnd | main.go:509-512 | the percentage window ends at most five lines after the label line and within the text |
| Quotas.FirstPercentLine | main.go:514-515 | the line found lies in the window and holds a percentage |
| Quotas.FirstPercentLineIsFirst | main.go:514-537 | it is the first such line, and none is found iff the window has none |
| Quotas.HumanRemaining | main.go:530-533 | the human text is empty iff there is no remaining time |
| Quotas.MakeQuota | main.go:518-533 | type and model from the label, percentage, trimmed reset text, reset instant, and remaining time with its formatted text |
| Quotas.WindowReading | main.go:509-539 | a labelled line yields a quota iff its window holds a percentage, built from the first such line and the reset scan from there |
| Quotas.QuotaNeedsLabel | main.go:503-507 | a line yields a quota only if it holds a label |
| Quotas.WindowQuotaWellFormed | main.go:518-533 | a quota built from a window is well formed |
| Quotas.MakeQuotaWellFormed | main.go:518-533 | model iff model-specific; a remaining time is positive, ends at the reset instant and has its formatted text; without one the text is empty |
| Quotas.QuotaAtWellFormed | main.go:503-541 | every quota a line yields is well formed |
| Quotas.CollectInLineOrder | main.go:503-542 | collecting keeps line order, takes at most one result per line and misses none |
| Quotas.CollectStep | main.go:535 | one more line appends its result, if any, at the end |
| Quotas.CollectAll | main.go:503-542 | a property of every line's result holds for every collected result |
| Quotas.QuotaListShape | main.go:487-545 | the quotas are those of the lines in line order, at most one per line, none missed, all well formed |
| Quotas.ParseQuotas | main.go:487-545 | the nested loops compute the quota list |
| Quotas.QuotaOfLine | main.go:504-541 | one line's label loop and window search compute that line's quota |
| Quotas.SearchWindow | main.go:509-539 | the window search computes the window's quota |
| Quotas.FindPercentLine | main.go:514-538 | the search loop finds the first percentage line of the window |
| Quotas.BuildQuota | main.go:516-535 | the quota is built from the percentage and the reset scan at that line |
| LineScan.FirstHitIsFirst | main.go:563-592 | a first-hit scan returns the first index that yields something, and nothing iff none does |
| Identity.ParseEmail | main.go:547-557 | an e-mail is found iff the header or the legacy form matches; it is the trimmed capture of the leftmost header match, and only when the header form matches nowhere, of the leftmost legacy match; it holds an at sign and no white space |
| Identity.TrimmedAddress | main.go:549-554 | trimming an address capture keeps its at sign |
| Identity.DropPlaceholder | main.go:573-576 | the result is the name or empty, and never the placeholder "Organization" in any case |
| Identity.SameLineOrg | main.go:567-578 | a same-line name is non-empty, has no box edge, space or tab at either end, and stays on the line |
| Identity.NextLineOrg | main.go:580-590 | a next-line name is non-empty and contains no box-drawing characters │ or ─ |
| Identity.LineOrg | main.go:565-591 | only a line with an at sign and "'s" yields a name |
| Identity.OrgOnLine | main.go:565-591 | one iteration computes the line's name |
| Identity.ParseOrganization | main.go:559-603 | the line loop with early returns, then the legacy form, computes the organization |
| Identity.OrgFromShape | main.go:559-603 | the organization is never the placeholder and holds no line break; when a header line names one, it is the first such line's name |
| Cost.LineCost | main.go:629-647 | "unlimited" gives an unlimited cost with no amounts; otherwise the amounts are numerals |
| Cost.WindowEnd | main.go:623-626 | the window ends at most ten lines after the mention and within the text |
| Cost.SearchCostWindow | main.go:628-648 | the inner loop finds the window's first finding |
| Cost.ParseCostUsage | main.go:605-653 | the outer loop with early returns computes the reported cost |
| Cost.CostFromShape | main.go:605-653 | a cost needs "extra usage" mentioned and not "extra usage not enabled", and comes from a line at most nine lines below a mentioning line, with no finding between them |
| Cost.ScanShape | main.go:620-650 | a reported cost is what a line of the window of some mentioning line says, no earlier line of that window saying anything |
| Cost.WindowCostNone | main.go:621-648 | a line's window finds nothing iff the line does not mention extra usage or no line of the window says anything |
| Cost.ScanNone | main.go:620-650 | the scan finds nothing iff every mentioning line's window is silent |
| Cost.ScanFirst | main.go:620-650 | a scan that finds something returns the window of the first mentioning line whose window is not silent, every earlier mentioning line's window being silent |
| Cost.CostFromComplete | main.go:605-653 | no cost iff extra usage is not mentioned, is disabled, or every mentioning line's window is silent; otherwise the finding of the first mentioning line whose window is not silent |
| Cost.WindowShape | main.go:621-648 | the line that decides a window lies in it |
| Cost.CostAmounts | main.go:632-646 | a cost is unlimited with no amounts, or two numerals |
| Snapshot.ParseClaudeOutput | main.go:864-887 | the auth error, e-mail, organization and cost are those the extractors read from the text without escape sequences; tier forced to unknown when an auth error is detected and no quotas are parsed, the detected tier otherwise; captured at `now`; raw text only on request |
| Snapshot.SnapshotQuotas | main.go:864-887 | every quota is well formed, and an auth error leaves the quota list as parsed |
| Snapshot.SnapshotFields | main.go:864-887 | e-mail is an address or empty; organization is one line and never the placeholder; auth errors carry messages; costs are unlimited or numerals |
| Panel.FormatHyprPanelError | main.go:828-835 | "--" with the error style and the message as tooltip |
| Panel.AuthAlt | main.go:843-854 | an auth icon key is never an error or level key |
| Panel.AuthAltRoundTrip | main.go:843-854 | each auth code has its own icon key, and the key gives the code back |
| Panel.FormatHyprPanelAuthError | main.go:838-862 | "Unknown error" without an error; otherwise "Claude", the auth-error style, the code's icon key and the message |
| Panel.Level | main.go:784-792 | the level is low, medium or high |
| Panel.LevelMonotone | main.go:784-792 | more usage never lowers the level; high iff above 80, low iff at most 50 |
| Panel.FormatHyprPanelOutput | main.go:756-825 | an auth error takes precedence; no snapshot or no quotas gives the fetch error |
| Panel.PanelClasses | main.go:756-825 | the style tells the states apart: auth_error iff an auth error, error iff nothing to show, otherwise the session level, which is also the icon key |
| Panel.PanelPercentRoundTrip | main.go:820-821 | the number before the percent sign in the text reads back as the session usage |
| Panel.PanelLabel | main.go:820-821 | the text ends with the percent sign, a space and the account label |
| Panel.PercentPrefix | main.go:820-821 | a rendered percentage reads back before its percent sign |
| Panel.TooltipLines | main.go:795-823 | the tooltip splits into the session line, the weekly line and at most one extra-usage line |
| Daemon.MinRemaining | main.go:470-478 | the minimum found is positive |
| Daemon.MinRemainingIsMin | main.go:470-478 | none iff no quota has a positive remaining time; otherwise the value is some quota's and at most every positive one |
| Daemon.ResetDelayBounds | main.go:467-485 | no delay iff no positive remaining time; otherwise min + 60 seconds: at least 61, some quota's time plus 60, at most every positive time plus 60 |
| Daemon.CalculateNextResetRefresh | main.go:467-485 | the loop computes the reset delay |
| Daemon.Latch | main.go:1115-1140 | the latch changes only on a successful query showing usage with notifications on; it sets exactly on a delivered notification at or above the threshold; at or above the threshold it is set iff it was set or a notification was delivered; it clears below the threshold |
| Daemon.NotifiesExactlyOnce | main.go:1115-1140 | over a run of queries at or above the threshold with delivered notifications, exactly one notification is sent from a clear latch and none from a set one |
| Daemon.TicksFollowBackoff | main.go:1158-1169 | from a state on the back-off rule, any run of ticks ends on the interval of its last result: failures then one success restore the normal interval |
| Daemon.Scheduler.Init | main.go:1150-1154 | the first query runs at once; the interval follows its result; the latch and the reset timer follow the query |
| Daemon.Scheduler.Query | main.go:1078-1148 | success iff the outcome is Ok; a notification is sent iff usage reaches the threshold and none is latched; latch per `Latch`; reset timer re-armed only on success |
| Daemon.Scheduler.OnTick | main.go:1158-1169 | the interval switches only when the result flips, so it keeps to the back-off rule |
| Daemon.Scheduler.QueryAndRestartTicker | main.go:1172-1185 | the ticker restarts on the interval the result calls for |
| Daemon.Scheduler.OnRefresh | main.go:1170-1185 | a pending refresh is consumed and served, keeping the back-off rule |
| Daemon.Scheduler.OnResetTimer | main.go:1186-1201 | the fired timer is spent; only a successful query arms a new one |
| Daemon.Scheduler.RequestRefresh | main.go:41-49 | a request is queued iff none is pending; a second one while pending changes nothing |

## Left out

- Running the CLI (`executeClaudeCLI`) is not modelled. This covers the process, the pseudo-terminal, timeouts and killing the process group. `Auth.HasUsageData` models only its marker test.
- Writing the state file (`writeSnapshotToFile`) is not modelled. This includes the minimal "unknown" snapshot written after a failed query. The daemon sees only whether a write failed.
- D-Bus is not modelled: the service, `sendNotification` and the refresh command. Notification delivery is an input to the daemon's event methods. `RefreshNow` is modelled only as its one-slot pending flag.
- The CLI entry points, flag parsing and output printing are not modelled.
- Logging is not modelled.
- Signal handling and shutdown are not modelled.
- Real time is not modelled. The ticker's phase is lost when it is reset; the model keeps only its interval.
- RE2 itself is not modelled. Each pattern is a hand-written matcher for that one pattern.
- `(?i)`, `strings.ToLower` and `\b` are ASCII-only in the model. Go also folds some non-ASCII letters, such as the Kelvin sign with k.
- The time-zone database is not modelled. A zone name maps to one fixed offset through `Clock.zoneOffset`, so daylight-saving changes are not modelled.
- RFC 3339 formatting and parsing of `resets_at` are not modelled. The instant is kept as an integer.
- Sub-second precision is not modelled. `time.Now()` carries nanoseconds that the seconds-level arithmetic in the source truncates. The model works in whole seconds throughout.
- Go's `int64` and `time.Duration` overflow is not modelled. Integers are unbounded, which matters only for delays of centuries.
- Floating point is not modelled:
  - Percentages are integers. They come from at most three digits, and 100 − N is not clamped, so it can be negative.
  - `Quotas.ParsePercentage` therefore returns integers. `%.0f` of an integral value prints the integer.
- Cost amounts stay as their matched numerals with commas removed; `strconv.ParseFloat` is not applied. `Panel.PositiveAmount` reads "budget > 0" as "the numeral has a non-zero digit". This is what `ParseFloat` gives for these numerals, since an unparseable one reads as 0.
- Panel.TooltipLines: the extra-usage line shows the numerals as matched. The source renders them as `%.2f` and `%.0f`, and that rounding is not modelled.
- Map iteration order in `parseQuotas` is not modelled. Go visits the six labels in random order. The model visits them in source order. `Quotas.SingleLabel` shows the choice does not matter when a line holds a single label.
- Unknown auth codes are not modelled. `formatHyprPanelAuthError` falls back to the key "auth_error" for codes outside the four known ones, but the model's codes form a closed set.
- A nil notification configuration is not modelled separately. It behaves as threshold 0, which turns notifications off.
