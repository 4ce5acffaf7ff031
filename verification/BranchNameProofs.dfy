/** What a composed branch name keeps of its reference and title, and when it passes the rules. */
module BranchNameProofs {
  import opened Decimal
  import opened Wrappers
  import opened BranchName

  // ------------------------------------------------------------------------------------------
  // Runs turned into hyphens.

  lemma RunAtStart(s: string, P: char -> bool)
    requires s != ""
    ensures RunOf(s, P) > 0 <==> P(s[0])
  {
  }

  /** Nothing in the result is new but hyphens, and no run of the class is left. */
  lemma {:induction false} DashRunsChars(s: string, P: char -> bool, least: nat)
    requires least > 0
    ensures forall c :: c in DashRuns(s, P, least) ==> c == '-' || (c in s && (least == 1 ==> !P(c)))
    ensures s != "" && !P(s[0]) ==> DashRuns(s, P, least) != "" && DashRuns(s, P, least)[0] == s[0]
    ensures s != "" && P(s[0]) && least == 1 ==> DashRuns(s, P, least) != "" && DashRuns(s, P, least)[0] == '-'
    ensures s == "" ==> DashRuns(s, P, least) == ""
    decreases |s|
  {
    if s != "" {
      RunAtStart(s, P);
      var run := RunOf(s, P);
      var n := if run > 0 then run else 1;
      DashRunsChars(s[n..], P, least);
      assert forall c :: c in s[n..] ==> c in s;
      assert forall c :: c in s[..n] ==> c in s;
    }
  }

  /** With no character of the class nothing changes. */
  lemma {:induction false} NoRuns(s: string, P: char -> bool, least: nat)
    requires least > 0 && forall i :: 0 <= i < |s| ==> !P(s[i])
    ensures DashRuns(s, P, least) == s
    decreases |s|
  {
    if s != "" {
      RunAtStart(s, P);
      NoRuns(s[1..], P, least);
      assert s == s[..1] + s[1..];
    }
  }

  lemma PairInTail(s: string, n: nat, c: char)
    requires n <= |s| && !HasPair(s, c)
    ensures !HasPair(s[n..], c) && !HasPair(s[..n], c)
  {
  }

  lemma PairAcross(a: string, b: string, c: char)
    requires !HasPair(a, c) && !HasPair(b, c)
    requires a == "" || b == "" || a[|a| - 1] != c || b[0] != c
    ensures !HasPair(a + b, c)
  {
  }

  /** Runs of two and more characters of one kind leave no pair of it. */
  lemma {:induction false} NoPairLeft(s: string, P: char -> bool, c: char)
    requires c != '-' && forall x :: P(x) <==> x == c
    ensures !HasPair(DashRuns(s, P, 2), c)
    decreases |s|
  {
    if s != "" {
      RunAtStart(s, P);
      var run := RunOf(s, P);
      var n := if run > 0 then run else 1;
      NoPairLeft(s[n..], P, c);
      DashRunsChars(s[n..], P, 2);
      PairAcross(if run >= 2 then "-" else s[..n], DashRuns(s[n..], P, 2), c);
    }
  }

  /** Runs of another class make no pair. */
  lemma {:induction false} NoPairMade(s: string, P: char -> bool, c: char)
    requires c != '-' && !P(c) && !HasPair(s, c)
    ensures !HasPair(DashRuns(s, P, 1), c)
    decreases |s|
  {
    if s != "" {
      RunAtStart(s, P);
      var run := RunOf(s, P);
      var n := if run > 0 then run else 1;
      PairInTail(s, n, c);
      NoPairMade(s[n..], P, c);
      DashRunsChars(s[n..], P, 1);
      if n < |s| && run == 0 {
        assert s[0] != c || s[1] != c;
        assert P(s[1]) ==> s[n..][0] == s[1];
      }
      PairAcross(if run >= 1 then "-" else s[..n], DashRuns(s[n..], P, 1), c);
    }
  }

  /** A run that takes the hyphen in leaves no two hyphens together. */
  lemma {:induction false} HyphensAlone(s: string, P: char -> bool)
    requires P('-')
    ensures !HasPair(DashRuns(s, P, 1), '-')
    decreases |s|
  {
    if s != "" {
      RunAtStart(s, P);
      var run := RunOf(s, P);
      var n := if run > 0 then run else 1;
      HyphensAlone(s[n..], P);
      DashRunsChars(s[n..], P, 1);
      PairAcross(if run >= 1 then "-" else s[..n], DashRuns(s[n..], P, 1), '-');
    }
  }

  lemma TrimKeepsOut(s: string, P: char -> bool, c: char)
    requires !HasPair(s, c)
    ensures !HasPair(Trim(s, P), c)
  {
    var started := TrimStart(s, P);
    PairInTail(s, |s| - |started|, c);
    var trimmed := TrimEnd(started, P);
    PairInTail(started, |trimmed|, c);
    assert trimmed == started[..|trimmed|];
  }

  // ------------------------------------------------------------------------------------------
  // The slug.

  /** The letters and digits of a text, in order. */
  function SlugChars(s: string): string {
    if s == "" then ""
    else (if IsSlugChar(s[0]) then s[..1] else "") + SlugChars(s[1..])
  }

  lemma {:induction false} SlugCharsOfParts(a: string, b: string)
    ensures SlugChars(a + b) == SlugChars(a) + SlugChars(b)
  {
    if a == "" {
      assert a + b == b;
    } else {
      assert (a + b)[1..] == a[1..] + b;
      SlugCharsOfParts(a[1..], b);
    }
  }

  lemma {:induction false} NoSlugChars(s: string)
    requires forall i :: 0 <= i < |s| ==> !IsSlugChar(s[i])
    ensures SlugChars(s) == ""
  {
    if s != "" {
      NoSlugChars(s[1..]);
    }
  }

  lemma {:induction false} DashRunsKeepLetters(s: string)
    ensures SlugChars(DashRuns(s, IsNoSlugChar, 1)) == SlugChars(s)
    decreases |s|
  {
    if s != "" {
      RunAtStart(s, IsNoSlugChar);
      var run := RunOf(s, IsNoSlugChar);
      var n := if run > 0 then run else 1;
      DashRunsKeepLetters(s[n..]);
      assert s == s[..n] + s[n..];
      SlugCharsOfParts(s[..n], s[n..]);
      SlugCharsOfParts(if run > 0 then "-" else s[..n], DashRuns(s[n..], IsNoSlugChar, 1));
      if run > 0 {
        NoSlugChars(s[..n]);
        NoSlugChars("-");
      }
    }
  }

  lemma {:induction false} TrimEndKeepsLetters(s: string)
    ensures SlugChars(TrimEnd(s, IsDash)) == SlugChars(s)
  {
    if s != "" && s[|s| - 1] == '-' {
      TrimEndKeepsLetters(s[..|s| - 1]);
      assert s == s[..|s| - 1] + "-";
      SlugCharsOfParts(s[..|s| - 1], "-");
      NoSlugChars("-");
    }
  }

  lemma {:induction false} TrimStartKeepsLetters(s: string)
    ensures SlugChars(TrimStart(s, IsDash)) == SlugChars(s)
  {
    if s != "" && s[0] == '-' {
      TrimStartKeepsLetters(s[1..]);
    }
  }

  ghost predicate IsSlug(s: string) {
    && (forall c :: c in s ==> IsSlugChar(c) || c == '-')
    && (s != "" ==> IsSlugChar(s[0]) && IsSlugChar(s[|s| - 1]))
    && !HasPair(s, '-')
  }

  /** The start of a slug, without a hyphen at its end, is a slug. */
  lemma SlugStart(s: string, n: nat)
    requires IsSlug(s) && n <= |s|
    ensures IsSlug(TrimEnd(s[..n], IsDash))
    ensures n > 0 ==> TrimEnd(s[..n], IsDash) != ""
  {
    var r := TrimEnd(s[..n], IsDash);
    PairInTail(s, n, '-');
    PairInTail(s[..n], |r|, '-');
    assert r == s[..n][..|r|];
    if n > 0 && r == "" {
      TrimEndKeepsFirst(s[..n]);
    }
  }

  lemma {:induction false} TrimEndKeepsFirst(s: string)
    requires s != "" && s[0] != '-'
    ensures TrimEnd(s, IsDash) != ""
  {
    if s[|s| - 1] == '-' {
      TrimEndKeepsFirst(s[..|s| - 1]);
    }
  }

  /** The slug before it is cut. */
  function Whole(title: string): string {
    Trim(DashRuns(title, IsNoSlugChar, 1), IsDash)
  }

  lemma WholeIsSlug(title: string)
    ensures IsSlug(Whole(title))
  {
    hide DashRuns, Trim;
    DashRunsChars(title, IsNoSlugChar, 1);
    HyphensAlone(title, IsNoSlugChar);
    TrimKeepsOut(DashRuns(title, IsNoSlugChar, 1), IsDash, '-');
    var slug := Whole(title);
    assert slug != "" ==> slug[0] in slug && slug[|slug| - 1] in slug;
  }

  lemma WholeSpellsTitle(title: string)
    ensures SlugChars(Whole(title)) == SlugChars(title)
  {
    hide SlugChars, DashRuns, TrimStart, TrimEnd;
    DashRunsKeepLetters(title);
    var dashed := DashRuns(title, IsNoSlugChar, 1);
    TrimStartKeepsLetters(dashed);
    TrimEndKeepsLetters(TrimStart(dashed, IsDash));
  }

  /**
   * A slug is lower-case words with single hyphens between them, at most 40 characters long; it
   * spells the start of the title's letters and digits, and all of them when they fit.
   */
  lemma SlugReadsTitle(title: string)
    ensures IsSlug(Slugify(title)) && |Slugify(title)| <= MAX_SLUG_LENGTH
    ensures SlugChars(Slugify(title)) <= SlugChars(title)
    ensures Slugify(title) == "" <==> SlugChars(title) == ""
    ensures |Slugify(title)| < MAX_SLUG_LENGTH / 2 ==> SlugChars(Slugify(title)) == SlugChars(title)
  {
    hide DashRuns, Trim, SlugChars, IsSlug;
    var slug := Whole(title);
    WholeIsSlug(title);
    WholeSpellsTitle(title);
    SlugNotEmpty(slug);
    if |slug| > MAX_SLUG_LENGTH {
      CutReadsSlug(slug);
    }
  }

  lemma SlugNotEmpty(s: string)
    requires IsSlug(s)
    ensures s == "" <==> SlugChars(s) == ""
  {
  }

  lemma CutReadsSlug(slug: string)
    requires IsSlug(slug) && |slug| > MAX_SLUG_LENGTH
    ensures var cut := slug[..MAX_SLUG_LENGTH];
            var lastDash := LastDash(cut);
            var r := TrimEnd(if lastDash > MAX_SLUG_LENGTH / 2 then cut[..lastDash] else cut, IsDash);
            && IsSlug(r)
            && MAX_SLUG_LENGTH / 2 <= |r| <= MAX_SLUG_LENGTH
            && SlugChars(r) <= SlugChars(slug)
            && r != ""
  {
    var cut := slug[..MAX_SLUG_LENGTH];
    var lastDash := LastDash(cut);
    var n := if lastDash > MAX_SLUG_LENGTH / 2 then lastDash else MAX_SLUG_LENGTH;
    var r := TrimEnd(slug[..n], IsDash);
    assert cut[..n] == slug[..n];
    SlugStart(slug, n);
    TrimEndKeepsLetters(slug[..n]);
    assert slug == slug[..n] + slug[n..];
    SlugCharsOfParts(slug[..n], slug[n..]);
    TrimEndDropsRun(slug[..n]);
    assert !(slug[n - 2] == '-' && slug[n - 1] == '-');
  }

  /** What is trimmed off the end is hyphens only. */
  lemma {:induction false} TrimEndDropsRun(s: string)
    ensures forall i :: |TrimEnd(s, IsDash)| <= i < |s| ==> s[i] == '-'
  {
    if s != "" && s[|s| - 1] == '-' {
      TrimEndDropsRun(s[..|s| - 1]);
    }
  }

  // ------------------------------------------------------------------------------------------
  // The key.

  /** What git takes as a piece of a name that is neither first nor last. */
  ghost predicate IsSegment(s: string) {
    && (forall c :: c in s ==> !IsForbidden(c) && c != '/')
    && !HasPair(s, '.')
    && (s != "" ==> !IsDotOrDash(s[0]) && !IsDotOrDash(s[|s| - 1]))
  }

  lemma HyphenatedIsClean(raw: string)
    ensures forall c :: c in Hyphenated(raw) ==> !IsForbidden(c) && c != '/'
    ensures !HasPair(Hyphenated(raw), '.')
  {
    hide DashRuns, Trim, HasPair;
    var spaced := DashRuns(Trim(raw, IsSpace), IsForbidden, 1);
    var dotted := DashRuns(spaced, IsDot, 2);
    DashRunsChars(Trim(raw, IsSpace), IsForbidden, 1);
    DashRunsChars(spaced, IsDot, 2);
    DashRunsChars(dotted, IsSlash, 1);
    NoPairLeft(spaced, IsDot, '.');
    NoPairMade(dotted, IsSlash, '.');
  }

  lemma SegmentIsClean(raw: string)
    ensures IsSegment(SanitiseSegment(raw))
  {
    hide Hyphenated, Trim, HasPair, EndsWith, Lowered;
    var hyphenated := Hyphenated(raw);
    var unlocked := Unlocked(hyphenated);
    HyphenatedIsClean(raw);
    PairInTail(hyphenated, |unlocked|, '.');
    assert hyphenated[..|unlocked|] == unlocked;
    TrimKeepsOut(unlocked, IsDotOrDash, '.');
    assert forall c :: c in unlocked ==> c in hyphenated;
  }

  /** A key as the tickets have them: letters, digits and hyphens, a letter or digit first, a digit last. */
  predicate IsKey(s: string) {
    && s != ""
    && (forall i :: 0 <= i < |s| ==> IsLetterOrDigit(s[i]) || s[i] == '-')
    && IsLetterOrDigit(s[0])
    && IsDigit(s[|s| - 1])
  }

  lemma NothingToHyphenate(key: string)
    requires IsKey(key)
    ensures Hyphenated(key) == key
  {
    hide DashRuns, Trim;
    assert Trim(key, IsSpace) == key;
    NoRuns(key, IsForbidden, 1);
    NoRuns(key, IsDot, 2);
    NoRuns(key, IsSlash, 1);
  }

  lemma KeyIsKept(key: string)
    requires IsKey(key)
    ensures SanitiseSegment(key) == key
  {
    hide Hyphenated, EndsWith, Trim;
    NothingToHyphenate(key);
    assert Lowered(key)[|key| - 1] == key[|key| - 1];
    assert Trim(key, IsDotOrDash) == key;
  }

  // ------------------------------------------------------------------------------------------
  // The name.

  /** A name is its head alone, or the head and a slug after a hyphen. */
  ghost predicate Composed(name: string, head: string, slug: string) {
    name == if slug == "" then head else head + "-" + slug
  }

  lemma EmptyIsSlug()
    ensures IsSlug("")
  {
  }

  /** What stands after the key: a slug that starts as the title's does, when there is room for it. */
  function Tail(kind: WorkItemType, reference: string, title: string, override: Option<Prefix>): string {
    var slug := Slugify(title);
    var room := MAX_BRANCH_LENGTH - |Head(kind, reference, override)| - 1;
    if slug == "" || room <= 1 then ""
    else TrimEnd(if |slug| > room then slug[..room] else slug, IsDash)
  }

  function Head(kind: WorkItemType, reference: string, override: Option<Prefix>): string {
    PrefixText(if override.Some? then override.value else PrefixFor(kind)) + "/" + SanitiseSegment(reference)
  }

  /**
   * A name is refused only when nothing is left of the reference. It keeps prefix and key whole and
   * cuts only the slug: it is at most 80 characters long, or its head alone.
   */
  lemma NameKeepsKey(kind: WorkItemType, reference: string, title: string, override: Option<Prefix>)
    ensures var name := BranchNameFor(kind, reference, title, override);
            var head := Head(kind, reference, override);
            var tail := Tail(kind, reference, title, override);
            && (name.None? <==> SanitiseSegment(reference) == "")
            && (name.Some? ==>
                  && Composed(name.value, head, tail)
                  && (|name.value| <= MAX_BRANCH_LENGTH || name.value == head))
            && IsSlug(tail)
            && tail <= Slugify(title)
  {
    hide SanitiseSegment, Slugify, IsSlug;
    var slug := Slugify(title);
    var room := MAX_BRANCH_LENGTH - |Head(kind, reference, override)| - 1;
    SlugReadsTitle(title);
    EmptyIsSlug();
    if slug != "" && room > 1 {
      SlugStart(slug, if |slug| > room then room else |slug|);
      assert slug[..|slug|] == slug;
    }
  }

  // ------------------------------------------------------------------------------------------
  // What stands behind the prefix.

  lemma RestIsSegment(key: string, tail: string)
    requires IsSegment(key) && key != "" && IsSlug(tail)
    ensures IsSegment(if tail == "" then key else key + "-" + tail)
  {
    hide HasPair;
    if tail != "" {
      NoCharNoPair(tail, '.');
      NoCharNoPair("-", '.');
      PairAcross(key, "-", '.');
      PairAcross(key + "-", tail, '.');
    }
  }

  /** A prefix, a slash and a clean piece: nothing is left to refuse but length, `.lock` and control characters. */
  lemma SlashedName(prefix: Prefix, rest: string)
    requires IsSegment(rest) && rest != ""
    ensures var name := PrefixText(prefix) + "/" + rest;
            && name != "" && Trim(name, IsSpace) == name
            && (forall c :: c in name ==> !IsForbidden(c))
            && !HasPair(name, '.') && !HasPair(name, '/')
            && name[0] != '/' && name[|name| - 1] != '/' && name[|name| - 1] != '.'
            && name != "@" && !HasBadSegment(name)
  {
    hide HasPair, Trim;
    var head := PrefixText(prefix) + "/";
    var name := head + rest;
    assert name == PrefixText(prefix) + "/" + rest;
    PrefixIsPlain(prefix);
    assert name[|name| - 1] == rest[|rest| - 1] && rest[|rest| - 1] in rest;
    PairAcross(head, rest, '.');
    assert rest[0] in rest;
    NoCharNoPair(rest, '/');
    PairAcross(head, rest, '/');
    forall i | 0 <= i <= |name|
      ensures !IsBadSegment(name, i)
    {
      if i > |head| {
        assert name[i - 1] == rest[i - 1 - |head|] && name[i - 1] in rest;
      } else if i == |head| {
        assert name[i] == rest[0] && rest[0] in rest;
      }
    }
  }

  lemma NoCharNoPair(s: string, c: char)
    requires c !in s
    ensures !HasPair(s, c)
  {
  }

  lemma PrefixIsPlain(prefix: Prefix)
    ensures var head := PrefixText(prefix) + "/";
            && |head| >= 4 && head[|head| - 1] == '/'
            && (forall i :: 0 <= i < |head| - 1 ==> IsSlugChar(head[i]))
            && !HasPair(head, '.') && !HasPair(head, '/')
  {
  }
}
