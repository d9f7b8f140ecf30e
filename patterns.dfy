/**
 * The case-insensitive patterns that are only ever asked whether they occur
 * (`MatchString`): the authentication-state phrases and the tier markers.
 * Each `...At(t, i)` says whether the pattern matches the lower-cased text t
 * starting at position i; with ASCII case folding, matching the lower-cased
 * pattern against the lower-cased text is `(?i)` matching.
 */
module Patterns {
  import opened Wrappers
  import opened Text

  /** `w1\s+w2`. */
  function SpacedPair(t: string, i: nat, w1: string, w2: string): Option<nat> {
    var a :- Lit(t, i, w1);
    var b :- Spaces1(t, a);
    Lit(t, b, w2)
  }

  // `let.?s\s+get\s+started`

  function GetStarted(t: string, j: nat): Option<nat> {
    var a :- Lit(t, j, "s");
    var b :- Spaces1(t, a);
    var c :- Lit(t, b, "get");
    var d :- Spaces1(t, c);
    Lit(t, d, "started")
  }

  predicate SetupScreenAt(t: string, i: nat) {
    var a := Lit(t, i, "let");
    a.Some? &&
    (GetStarted(t, a.value).Some? ||
     (a.value < |t| && t[a.value] != '\n' && GetStarted(t, a.value + 1).Some?))
  }

  // `choose\s+(the\s+)?text\s+style|run\s+/theme|dark\s+mode|light\s+mode`

  function TheTextStyle(t: string, j: nat): Option<nat> {
    var a :- Lit(t, j, "the");
    var b :- Spaces1(t, a);
    SpacedPair(t, b, "text", "style")
  }

  function ChooseTextStyle(t: string, i: nat): Option<nat> {
    var a :- Lit(t, i, "choose");
    var b :- Spaces1(t, a);
    Or(TheTextStyle(t, b), SpacedPair(t, b, "text", "style"))
  }

  predicate ThemeSelectionAt(t: string, i: nat) {
    ChooseTextStyle(t, i).Some? || SpacedPair(t, i, "run", "/theme").Some?
    || SpacedPair(t, i, "dark", "mode").Some? || SpacedPair(t, i, "light", "mode").Some?
  }

  // `(token|session)\s*(has\s+)?expired`

  function HasExpired(t: string, j: nat): Option<nat> {
    var a :- Lit(t, j, "has");
    var b :- Spaces1(t, a);
    Lit(t, b, "expired")
  }

  predicate TokenExpiredAt(t: string, i: nat) {
    var a := Or(Lit(t, i, "token"), Lit(t, i, "session"));
    a.Some? &&
    (var b := SkipSpaces(t, a.value);
     Or(HasExpired(t, b), Lit(t, b, "expired")).Some?)
  }

  // `authentication[_\s]*(error|failed|required)`

  predicate IsUnderscoreOrSpace(c: char) { c == '_' || IsRegexSpace(c) }

  predicate AuthFailureAt(t: string, i: nat) {
    var a := Lit(t, i, "authentication");
    a.Some? &&
    (var b := RunOf(t, a.value, IsUnderscoreOrSpace);
     Or(Lit(t, b, "error"), Or(Lit(t, b, "failed"), Lit(t, b, "required"))).Some?)
  }

  // `not\s+logged\s+in|please\s+(log|sign)\s*in|login\s+required`

  function NotLoggedIn(t: string, i: nat): Option<nat> {
    var a :- SpacedPair(t, i, "not", "logged");
    var b :- Spaces1(t, a);
    Lit(t, b, "in")
  }

  function PleaseLogIn(t: string, i: nat): Option<nat> {
    var a :- Lit(t, i, "please");
    var b :- Spaces1(t, a);
    var c :- Or(Lit(t, b, "log"), Lit(t, b, "sign"));
    Lit(t, SkipSpaces(t, c), "in")
  }

  predicate NotLoggedInAt(t: string, i: nat) {
    NotLoggedIn(t, i).Some? || PleaseLogIn(t, i).Some?
    || SpacedPair(t, i, "login", "required").Some?
  }

  // `(sign\s*in|log\s*in|authenticate)\s*(to\s+continue|required|to\s+use)`

  function SignInWord(t: string, i: nat): Option<nat> {
    var a :- Or(Lit(t, i, "sign"), Lit(t, i, "log"));
    Lit(t, SkipSpaces(t, a), "in")
  }

  predicate LoginPromptAt(t: string, i: nat) {
    var a := Or(SignInWord(t, i), Lit(t, i, "authenticate"));
    a.Some? &&
    (var b := SkipSpaces(t, a.value);
     Or(SpacedPair(t, b, "to", "continue"),
        Or(Lit(t, b, "required"), SpacedPair(t, b, "to", "use"))).Some?)
  }

  // `https?://[^\s]*(?:login|auth|signin)[^\s]*`

  /** A keyword starts inside the run of non-spaces that begins at j. */
  predicate KeywordInRun(t: string, j: nat)
    decreases |t| - j
  {
    j < |t| && !IsRegexSpace(t[j]) &&
    (StartsAt(t, j, "login") || StartsAt(t, j, "auth") || StartsAt(t, j, "signin")
     || KeywordInRun(t, j + 1))
  }

  predicate LoginUrlAt(t: string, i: nat) {
    var a := Or(Lit(t, i, "https://"), Lit(t, i, "http://"));
    a.Some? && KeywordInRun(t, a.value)
  }

  // `free\s+tier|no\s+(active\s+)?subscription|upgrade\s+to\s+(pro|max)|subscribe\s+to`

  function NoSubscription(t: string, i: nat): Option<nat> {
    var a :- Lit(t, i, "no");
    var b :- Spaces1(t, a);
    Or(SpacedPair(t, b, "active", "subscription"), Lit(t, b, "subscription"))
  }

  function UpgradePlan(t: string, i: nat): Option<nat> {
    var a :- SpacedPair(t, i, "upgrade", "to");
    var b :- Spaces1(t, a);
    Or(Lit(t, b, "pro"), Lit(t, b, "max"))
  }

  predicate NoSubscriptionAt(t: string, i: nat) {
    SpacedPair(t, i, "free", "tier").Some? || NoSubscription(t, i).Some?
    || UpgradePlan(t, i).Some? || SpacedPair(t, i, "subscribe", "to").Some?
  }

  // `·\s*claude\s+(pro|max|api)`

  predicate TierAt(t: string, i: nat, tier: string) {
    var a := Lit(t, i, "·");
    a.Some? &&
    (var b := Lit(t, SkipSpaces(t, a.value), "claude");
     b.Some? && SpacedPairTail(t, b.value, tier))
  }

  predicate SpacedPairTail(t: string, j: nat, w: string) {
    var a := Spaces1(t, j);
    a.Some? && StartsAt(t, a.value, w)
  }

  // ---------------------------------------------------------------------
  // "Occurs somewhere in the text", for each pattern

  predicate SetupScreen(s: string) { exists i: nat | i <= |s| :: SetupScreenAt(Lower(s), i) }
  predicate ThemeSelection(s: string) { exists i: nat | i <= |s| :: ThemeSelectionAt(Lower(s), i) }
  predicate ExpiredPhrase(s: string) { exists i: nat | i <= |s| :: TokenExpiredAt(Lower(s), i) }
  predicate AuthFailure(s: string) { exists i: nat | i <= |s| :: AuthFailureAt(Lower(s), i) }
  predicate NotLoggedInPhrase(s: string) { exists i: nat | i <= |s| :: NotLoggedInAt(Lower(s), i) }
  predicate LoginPrompt(s: string) { exists i: nat | i <= |s| :: LoginPromptAt(Lower(s), i) }
  predicate LoginUrl(s: string) { exists i: nat | i <= |s| :: LoginUrlAt(Lower(s), i) }
  predicate NoSubscriptionPhrase(s: string) { exists i: nat | i <= |s| :: NoSubscriptionAt(Lower(s), i) }
  predicate TierMarker(s: string, tier: string) { exists i: nat | i <= |s| :: TierAt(Lower(s), i, tier) }
}
