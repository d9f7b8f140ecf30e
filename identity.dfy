/**
 * The account's e-mail address and organization name, read from the
 * header box of the usage screen (main.go `parseEmail`, `parseOrganization`).
 */
module Identity {
  import opened Wrappers
  import opened Text
  import opened Captures
  import opened LineScan

  // ---------------------------------------------------------------------
  // E-mail

  /**
   * The header form ("· Claude Max · a@b"), else the legacy "Email: a@b" form,
   * else "": the trimmed capture of the leftmost header match, and only when
   * the header form matches nowhere, that of the leftmost legacy match.
   */
  function ParseEmail(text: string): (r: string)
    ensures r != "" <==> Find(text, EmailHeaderAt).Some? || Find(text, EmailLegacyAt).Some?
    ensures r != "" ==> AddressShape(r)
    ensures forall k :: 0 <= k <= |text| && EmailHeaderAt(text, k).Some?
                        && (forall j :: 0 <= j < k ==> EmailHeaderAt(text, j).None?)
                        ==> r == TrimSpace(EmailHeaderAt(text, k).value)
    ensures (forall k :: 0 <= k <= |text| ==> EmailHeaderAt(text, k).None?) ==>
              forall k :: 0 <= k <= |text| && EmailLegacyAt(text, k).Some?
                          && (forall j :: 0 <= j < k ==> EmailLegacyAt(text, j).None?)
                          ==> r == TrimSpace(EmailLegacyAt(text, k).value)
  {
    FindIsLeftmost(text, EmailHeaderAt);
    FindIsLeftmost(text, EmailLegacyAt);
    match Find(text, EmailHeaderAt)
    case Some(a) => TrimmedAddress(a)
    case None =>
      match Find(text, EmailLegacyAt)
      case Some(a) => TrimmedAddress(a)
      case None => ""
  }

  /** Trimming an address capture keeps its at sign, so it never becomes empty. */
  function TrimmedAddress(a: string): (r: string)
    requires AddressShape(a)
    ensures r != [] && AddressShape(r)
  {
    TrimSpaceKeeps(a, '@');
    TrimSpace(a)
  }

  // ---------------------------------------------------------------------
  // Organization

  /** Characters trimmed from both ends of a candidate name: the box edge, space and tab. */
  const BoxTrim: set<char> := {'│', ' ', '\t'}

  /** The name "Organization" stands for a personal account and is dropped. */
  function DropPlaceholder(org: string): (r: string)
    ensures r == org || r == ""
    ensures Lower(r) != "organization"
  {
    if Lower(org) == "organization" then "" else org
  }

  /** A line holding an e-mail address in the possessive ("a@b.com's"). */
  predicate PossessiveLine(line: string) {
    Contains(line, "@") && Contains(line, "'s")
  }

  /** The name after "'s " on the same line, when something other than box edges follows. */
  function SameLineOrg(line: string): (r: Option<string>)
    ensures r.Some? ==> r.value != "" && r.value[0] !in BoxTrim && r.value[|r.value| - 1] !in BoxTrim
    ensures r.Some? ==> '\n' !in line ==> '\n' !in r.value
  {
    match IndexOf(line, "'s ")
    case Some(idx) =>
      if idx > 0 then
        var org := TrimSet(TrimSpace(line[idx + 3..]), BoxTrim);
        if org != "" && org[0] != '│' then Some(org) else None
      else None
    case None => None
  }

  /** The next line, trimmed, when it is not empty and not part of the box drawing. */
  function NextLineOrg(lines: seq<string>, i: nat): (r: Option<string>)
    requires i < |lines|
    ensures r.Some? ==> r.value != "" && '│' !in r.value && '─' !in r.value
  {
    if i + 1 < |lines| then
      var next := TrimSet(TrimSpace(lines[i + 1]), BoxTrim);
      if next != "" && !Contains(next, "│") && !Contains(next, "─") then
        assert '│' !in next by { if '│' in next { OneCharContains(next, '│'); } }
        assert '─' !in next by { if '─' in next { OneCharContains(next, '─'); } }
        Some(next)
      else None
    else None
  }

  lemma OneCharContains(s: string, c: char)
    requires c in s
    ensures Contains(s, [c])
  {
    var k :| 0 <= k < |s| && s[k] == c;
    assert s[k..k + 1] == [c];
    ContainsAt(s, [c], k);
  }

  /** What one line of the header contributes: the same-line name, else the next line. */
  function LineOrg(lines: seq<string>, i: nat): (r: Option<string>)
    requires i < |lines|
    ensures r.Some? ==> PossessiveLine(lines[i])
  {
    if PossessiveLine(lines[i]) then
      var same := SameLineOrg(lines[i]);
      if same.Some? then same else NextLineOrg(lines, i)
    else None
  }

  function OrgOfLine(lines: seq<string>): nat -> Option<string> {
    (i: nat) => if i < |lines| then LineOrg(lines, i) else None
  }

  /** The legacy "Org: name" form. */
  function LegacyOrg(text: string): Option<string> {
    match Find(text, OrgLegacyAt)
    case Some(org) => Some(TrimSpace(org))
    case None => None
  }

  /** The organization `parseOrganization` reports. */
  function OrgFrom(text: string): string {
    var lines := Lines(text);
    match FirstHit(OrgOfLine(lines), 0, |lines|)
    case Some(org) => DropPlaceholder(org)
    case None =>
      match LegacyOrg(text)
      case Some(org) => DropPlaceholder(org)
      case None => ""
  }

  /**
   * `parseOrganization`: the first possessive line that names an
   * organization decides; the legacy form is tried only when none does.
   */
  method ParseOrganization(text: string) returns (org: string)
    ensures org == OrgFrom(text)
  {
    var lines := Lines(text);
    for i := 0 to |lines|
      invariant FirstHit(OrgOfLine(lines), 0, |lines|) == FirstHit(OrgOfLine(lines), i, |lines|)
    {
      var found := OrgOnLine(lines, i);
      if found.Some? {
        return DropPlaceholder(found.value);
      }
    }
    var legacy := Find(text, OrgLegacyAt);
    if legacy.Some? {
      return DropPlaceholder(TrimSpace(legacy.value));
    }
    return "";
  }

  /** One iteration of the line loop of `parseOrganization`. */
  method OrgOnLine(lines: seq<string>, i: nat) returns (found: Option<string>)
    requires i < |lines|
    ensures found == LineOrg(lines, i)
  {
    var line := lines[i];
    if !(Contains(line, "@") && Contains(line, "'s")) {
      return None;
    }
    var idx := IndexOf(line, "'s ");
    if idx.Some? && idx.value > 0 {
      var candidate := TrimSpace(line[idx.value + 3..]);
      candidate := TrimSet(candidate, BoxTrim);
      if candidate != "" && candidate[0] != '│' {
        return Some(candidate);
      }
    }
    if i + 1 < |lines| {
      var next := TrimSpace(lines[i + 1]);
      next := TrimSet(next, BoxTrim);
      if next != "" && !Contains(next, "│") && !Contains(next, "─") {
        return Some(next);
      }
    }
    return None;
  }

  /**
   * The reported organization is never the personal-account placeholder,
   * lies on one line, and comes from the first line that names one: every
   * line before it yields nothing.
   */
  lemma OrgFromShape(text: string)
    ensures Lower(OrgFrom(text)) != "organization"
    ensures '\n' !in OrgFrom(text)
    ensures var lines := Lines(text);
            FirstHit(OrgOfLine(lines), 0, |lines|).Some? ==>
              exists k :: 0 <= k < |lines| && LineOrg(lines, k).Some?
                          && OrgFrom(text) == DropPlaceholder(LineOrg(lines, k).value)
                          && forall j :: 0 <= j < k ==> LineOrg(lines, j).None?
  {
    var lines := Lines(text);
    var f := OrgOfLine(lines);
    FirstHitIsFirst(f, 0, |lines|);
    var hit := FirstHit(f, 0, |lines|);
    if hit.Some? {
      var k :| 0 <= k < |lines| && f(k) == hit && forall j :: 0 <= j < k ==> f(j).None?;
      assert forall j :: 0 <= j < k ==> LineOrg(lines, j) == f(j);
      OrgLineHasNoNewline(lines, k);
    } else {
      FindIsLeftmost(text, OrgLegacyAt);
      match Find(text, OrgLegacyAt)
      case Some(o) =>
        assert '\n' !in TrimSpace(o);
      case None =>
    }
  }

  lemma OrgLineHasNoNewline(lines: seq<string>, k: nat)
    requires k < |lines| && forall j :: 0 <= j < |lines| ==> '\n' !in lines[j]
    ensures LineOrg(lines, k).Some? ==> '\n' !in LineOrg(lines, k).value
  {
  }
}
