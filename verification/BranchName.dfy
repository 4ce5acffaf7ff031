/** The branch name a work item deserves, and the rules a branch name must keep. */
module BranchName {
  import opened Decimal
  import opened Wrappers

  // ------------------------------------------------------------------------------------------
  // Characters and texts.

  /** What a slug keeps. */
  predicate IsSlugChar(c: char) {
    'a' <= c <= 'z' || IsDigit(c)
  }

  predicate IsNoSlugChar(c: char) {
    !IsSlugChar(c)
  }

  predicate IsLetterOrDigit(c: char) {
    IsSlugChar(c) || 'A' <= c <= 'Z'
  }

  /** White space, as a text is trimmed of and as `\s` matches. */
  predicate IsSpace(c: char) {
    || '\U{9}' <= c <= '\U{d}' || c == ' ' || c == '\U{a0}' || c == '\U{1680}' || '\U{2000}' <= c <= '\U{200a}'
    || c == '\U{2028}' || c == '\U{2029}' || c == '\U{202f}' || c == '\U{205f}' || c == '\U{3000}' || c == '\U{feff}'
  }

  predicate IsForbidden(c: char) {
    IsSpace(c) || c in "~^:?*[]\\"
  }

  predicate IsControl(c: char) {
    c < ' ' || c == '\U{7f}'
  }

  predicate IsDash(c: char) { c == '-' }
  predicate IsDot(c: char) { c == '.' }
  predicate IsSlash(c: char) { c == '/' }
  predicate IsDotOrDash(c: char) { IsDot(c) || IsDash(c) }

  function Lower(c: char): char {
    if 'A' <= c <= 'Z' then c - 'A' + 'a' else c
  }

  function TrimStart(s: string, P: char -> bool): (r: string)
    ensures |r| <= |s| && r == s[|s| - |r|..]
    ensures r != "" ==> !P(r[0])
  {
    if s != "" && P(s[0]) then TrimStart(s[1..], P) else s
  }

  function TrimEnd(s: string, P: char -> bool): (r: string)
    ensures r <= s
    ensures r != "" ==> !P(r[|r| - 1])
  {
    if s != "" && P(s[|s| - 1]) then TrimEnd(s[..|s| - 1], P) else s
  }

  function Trim(s: string, P: char -> bool): (r: string)
    ensures r != "" ==> !P(r[0]) && !P(r[|r| - 1])
    ensures s != "" && !P(s[0]) && !P(s[|s| - 1]) ==> r == s
    ensures forall c :: c in r ==> c in s
  {
    var started := TrimStart(s, P);
    assert forall c :: c in started ==> c in s;
    TrimEnd(started, P)
  }

  /** How many characters at the start of the text are in the class. */
  function RunOf(s: string, P: char -> bool): (n: nat)
    ensures n <= |s|
    ensures forall i :: 0 <= i < n ==> P(s[i])
    ensures n < |s| ==> !P(s[n])
  {
    if s != "" && P(s[0]) then 1 + RunOf(s[1..], P) else 0
  }

  /** Every run of at least `least` characters of the class becomes one hyphen. */
  function DashRuns(s: string, P: char -> bool, least: nat): string
    requires least > 0
    decreases |s|
  {
    if s == "" then ""
    else
      var run := RunOf(s, P);
      if run >= least then "-" + DashRuns(s[run..], P, least)
      else if run > 0 then s[..run] + DashRuns(s[run..], P, least)
      else s[..1] + DashRuns(s[1..], P, least)
  }

  predicate EndsWith(s: string, end: string): (r: bool)
    ensures r && end != "" ==> |s| >= |end| && s[|s| - 1] == end[|end| - 1]
  {
    |s| >= |end| && s[|s| - |end|..] == end
  }

  function Lowered(s: string): (r: string)
    ensures |r| == |s| && forall i :: 0 <= i < |s| ==> r[i] == Lower(s[i])
  {
    seq(|s|, i requires 0 <= i < |s| => Lower(s[i]))
  }

  // ------------------------------------------------------------------------------------------
  // The name.

  const MAX_BRANCH_LENGTH := 80
  const MAX_SLUG_LENGTH := 40

  datatype WorkItemType = FeatureWork | Story | Bug | Spike | Task | Ops | Debt | Epic

  datatype Prefix = FeaturePrefix | FixPrefix | HotfixPrefix | ChorePrefix | SpikePrefix

  function PrefixText(prefix: Prefix): string {
    match prefix
    case FeaturePrefix => "feature"
    case FixPrefix => "fix"
    case HotfixPrefix => "hotfix"
    case ChorePrefix => "chore"
    case SpikePrefix => "spike"
  }

  function PrefixFor(kind: WorkItemType): Prefix {
    match kind
    case FeatureWork | Story | Epic => FeaturePrefix
    case Bug => FixPrefix
    case Spike => SpikePrefix
    case Task | Ops | Debt => ChorePrefix
  }

  /** The place of the last hyphen, or -1. */
  function LastDash(s: string): (i: int)
    ensures -1 <= i < |s|
    ensures i >= 0 ==> s[i] == '-'
    ensures forall j :: i < j < |s| ==> s[j] != '-'
  {
    if s == "" then -1 else if s[|s| - 1] == '-' then |s| - 1 else LastDash(s[..|s| - 1])
  }

  /** The slug of a title whose accents and preamble are gone and whose letters are lower case. */
  function Slugify(title: string): string {
    var slug := Trim(DashRuns(title, IsNoSlugChar, 1), IsDash);
    if |slug| <= MAX_SLUG_LENGTH then slug
    else
      var cut := slug[..MAX_SLUG_LENGTH];
      var lastDash := LastDash(cut);
      TrimEnd(if lastDash > MAX_SLUG_LENGTH / 2 then cut[..lastDash] else cut, IsDash)
  }

  /** What git refuses, runs of dots and runs of slashes turned into hyphens. */
  function Dashed(s: string): string {
    DashRuns(DashRuns(DashRuns(s, IsForbidden, 1), IsDot, 2), IsSlash, 1)
  }

  function Hyphenated(raw: string): string {
    Dashed(Trim(raw, IsSpace))
  }

  /** One `.lock` at the end, in either case, taken off. */
  function Unlocked(s: string): string {
    if EndsWith(Lowered(s), ".lock") then s[..|s| - 5] else s
  }

  /** The reference with all that git refuses taken out of it. */
  function SanitiseSegment(raw: string): string {
    Trim(Unlocked(Hyphenated(raw)), IsDotOrDash)
  }

  /** The name; none when nothing is left of the reference. */
  function BranchNameFor(kind: WorkItemType, reference: string, title: string,
      override: Option<Prefix>): Option<string> {
    var prefix := if override.Some? then override.value else PrefixFor(kind);
    var key := SanitiseSegment(reference);
    if key == "" then None
    else
      var head := PrefixText(prefix) + "/" + key;
      var slug := Slugify(title);
      var room := MAX_BRANCH_LENGTH - |head| - 1;
      if slug == "" || room <= 1 then Some(head)
      else Some(head + "-" + TrimEnd(if |slug| > room then slug[..room] else slug, IsDash))
  }

  // ------------------------------------------------------------------------------------------
  // The rules.

  datatype Verdict = Fine | Refused(reason: Reason)

  datatype Reason = EmptyOrPadded | TooLong | ForbiddenCharacter | TwoDots | TwoSlashes | EdgeSlash
                  | FinalDot | LockSuffix | AtSign | BadSegment | ControlCharacter

  predicate HasPair(s: string, c: char) {
    exists i :: 0 <= i < |s| - 1 && s[i] == c && s[i + 1] == c
  }

  /** A segment between slashes starts at i and is empty or starts with a dot. */
  predicate IsBadSegment(s: string, i: int) {
    0 <= i <= |s| && (i == 0 || s[i - 1] == '/') && (i == |s| || s[i] == '/' || s[i] == '.')
  }

  predicate HasBadSegment(s: string) {
    exists i :: 0 <= i <= |s| && IsBadSegment(s, i)
  }

  function ValidateBranchName(name: string): Verdict {
    if name == "" || name != Trim(name, IsSpace) then Refused(EmptyOrPadded)
    else if |name| > 255 then Refused(TooLong)
    else if exists c :: c in name && IsForbidden(c) then Refused(ForbiddenCharacter)
    else if HasPair(name, '.') then Refused(TwoDots)
    else if HasPair(name, '/') then Refused(TwoSlashes)
    else if name[0] == '/' || name[|name| - 1] == '/' then Refused(EdgeSlash)
    else if name[|name| - 1] == '.' then Refused(FinalDot)
    else if EndsWith(name, ".lock") then Refused(LockSuffix)
    else if name == "@" then Refused(AtSign)
    else if HasBadSegment(name) then Refused(BadSegment)
    else if exists c :: c in name && IsControl(c) then Refused(ControlCharacter)
    else Fine
  }
}
