/**
 * Authentication-state and account-tier detection on the normalised CLI
 * text (main.go `detectAuthError`, `detectAccountType`), and the runner's
 * marker for rendered quota data.
 */
module Auth {
  import opened Wrappers
  import opened Text
  import opened Model
  import opened Patterns

  const SetupMessage: string := "Claude CLI setup required. Please run 'claude' to complete initial setup."
  const ExpiredMessage: string := "Claude CLI session has expired. Please run 'claude' to re-authenticate."
  const AuthFailureMessage: string := "Authentication error. Please run 'claude' to log in."
  const NotLoggedInMessage: string := "Not logged in to Claude CLI. Please run 'claude' to authenticate."
  const LoginMessage: string := "Login required. Please run 'claude' to authenticate."
  const NoSubscriptionMessage: string := "No active Claude Pro or Max subscription. Usage metrics require a paid plan."
  const VerifyMessage: string := "Authentication verification required. Please run 'claude' to verify your account."

  /** `hasUsageData`: the runner's "quota data has been rendered" marker. */
  predicate HasUsageData(output: string) {
    Contains(output, "% used") || Contains(output, "% left")
  }

  /** The first-run screen: "let's get started" or a theme-selection phrase. */
  predicate SetupScreenShown(text: string) {
    SetupScreen(text) || ThemeSelection(text)
  }

  /** One of the explicit not-logged-in phrasings (rules 3 to 5). */
  predicate LoginDemanded(text: string) {
    AuthFailure(text) || NotLoggedInPhrase(text) || LoginPrompt(text) || LoginUrl(text)
  }

  /** Rule 7: "account"/"subscription" with "verify"/"confirm" and no usage marker. */
  predicate VerificationHint(text: string) {
    var lower := Lower(text);
    (Contains(lower, "account") || Contains(lower, "subscription"))
    && !HasUsageData(text)
    && (Contains(lower, "verify") || Contains(lower, "confirm"))
  }

  /** Some rule of the cascade fires. */
  predicate AnyAuthRule(text: string) {
    SetupScreenShown(text) || ExpiredPhrase(text) || LoginDemanded(text)
    || NoSubscriptionPhrase(text) || VerificationHint(text)
  }

  /**
   * `detectAuthError`: the rules are tried in a fixed order and the first
   * that fires decides; None is the common case.
   */
  function DetectAuthError(text: string): (r: Option<AuthError>)
    ensures r.Some? ==> r.value.message != ""
    ensures r.None? <==> !AnyAuthRule(text)
    ensures SetupScreenShown(text) ==> r == Some(AuthError(SetupRequired, SetupMessage))
    ensures (r.Some? && r.value.code == SetupRequired) <==> SetupScreenShown(text)
    ensures (r.Some? && r.value.code == TokenExpired) <==> !SetupScreenShown(text) && ExpiredPhrase(text)
    ensures (r.Some? && r.value.code == NoSubscription) <==>
              !SetupScreenShown(text) && !ExpiredPhrase(text) && !LoginDemanded(text) && NoSubscriptionPhrase(text)
    ensures (r.Some? && r.value.code == NotLoggedIn) <==>
              !SetupScreenShown(text) && !ExpiredPhrase(text)
              && (LoginDemanded(text) || (!NoSubscriptionPhrase(text) && VerificationHint(text)))
    ensures r == Some(AuthError(NotLoggedIn, VerifyMessage)) ==> !HasUsageData(text)
  {
    if SetupScreen(text) || ThemeSelection(text) then Some(AuthError(SetupRequired, SetupMessage))
    else if ExpiredPhrase(text) then Some(AuthError(TokenExpired, ExpiredMessage))
    else if AuthFailure(text) then Some(AuthError(NotLoggedIn, AuthFailureMessage))
    else if NotLoggedInPhrase(text) then Some(AuthError(NotLoggedIn, NotLoggedInMessage))
    else if LoginPrompt(text) || LoginUrl(text) then Some(AuthError(NotLoggedIn, LoginMessage))
    else if NoSubscriptionPhrase(text) then Some(AuthError(NoSubscription, NoSubscriptionMessage))
    else
      var lower := Lower(text);
      if Contains(lower, "account") || Contains(lower, "subscription") then
        if !Contains(text, "% used") && !Contains(text, "% left") then
          if Contains(lower, "verify") || Contains(lower, "confirm") then
            Some(AuthError(NotLoggedIn, VerifyMessage))
          else None
        else None
      else None
  }

  /**
   * Output carrying quota data is only reported as an authentication
   * problem when one of the explicit phrases occurs: the weak heuristic
   * stays silent once the runner's completion marker is present.
   */
  lemma UsageDataSilencesHeuristic(text: string)
    requires HasUsageData(text)
    requires !SetupScreenShown(text) && !ExpiredPhrase(text) && !LoginDemanded(text) && !NoSubscriptionPhrase(text)
    ensures DetectAuthError(text).None?
  {
  }

  /** Empty output is never an authentication error. */
  lemma EmptyOutputHasNoAuthError()
    ensures DetectAuthError("").None?
  {
    assert Lower("") == "";
    assert !SetupScreenAt("", 0) && !ThemeSelectionAt("", 0) && !TokenExpiredAt("", 0);
    assert !AuthFailureAt("", 0) && !NotLoggedInAt("", 0) && !LoginPromptAt("", 0);
    assert !LoginUrlAt("", 0) && !NoSubscriptionAt("", 0);
  }

  /**
   * `detectAccountType`: the tier markers in the order pro, max, api; then
   * "current" together with a percent sign suggests max.
   */
  function DetectAccountType(text: string): (r: AccountType)
    ensures TierMarker(text, "pro") <==> r == Pro
    ensures r == Api <==> !TierMarker(text, "pro") && !TierMarker(text, "max") && TierMarker(text, "api")
    ensures r == Max <==>
              (!TierMarker(text, "pro") &&
               (TierMarker(text, "max") || (!TierMarker(text, "api") && Contains(Lower(text), "current") && Contains(text, "%"))))
    ensures r == Unknown <==>
              (!TierMarker(text, "pro") && !TierMarker(text, "max") && !TierMarker(text, "api")
               && !(Contains(Lower(text), "current") && Contains(text, "%")))
  {
    if TierMarker(text, "pro") then Pro
    else if TierMarker(text, "max") then Max
    else if TierMarker(text, "api") then Api
    else if Contains(Lower(text), "current") && Contains(text, "%") then Max
    else Unknown
  }

  /** Without a percent sign the fallback never guesses: the tier comes from a marker or is unknown. */
  lemma NoPercentNoGuess(text: string)
    requires !Contains(text, "%")
    ensures DetectAccountType(text) == Max <==> !TierMarker(text, "pro") && TierMarker(text, "max")
  {
  }
}
