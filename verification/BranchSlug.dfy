/** The slug and the name told on title and head: which words are kept, where a long one is cut, and what fits. */
module BranchSlug {
  import opened Wrappers
  import opened BranchName
  import opened BranchNameProofs

  // ------------------------------------------------------------------------------------------
  // The words of a title.

  /** The longest runs of lower-case letters and digits, in their order. */
  function SlugWords(s: string): seq<string>
    decreases |s|
  {
    if s == "" then []
    else if IsNoSlugChar(s[0]) then SlugWords(s[1..])
    else
      var n := RunOf(s, IsSlugChar);
      [s[..n]] + SlugWords(s[n..])
  }

  function Hyphened(words: seq<string>): string {
    if words == [] then ""
    else if |words| == 1 then words[0]
    else words[0] + "-" + Hyphened(words[1..])
  }

  function Dashes(s: string): string {
    DashRuns(s, IsNoSlugChar, 1)
  }

  lemma {:induction false} GapSkipped(s: string)
    ensures SlugWords(s) == SlugWords(s[RunOf(s, IsNoSlugChar)..])
  {
    if s != "" && IsNoSlugChar(s[0]) {
      GapSkipped(s[1..]);
      assert s[RunOf(s, IsNoSlugChar)..] == s[1..][RunOf(s[1..], IsNoSlugChar)..];
    } else {
      assert s[0..] == s;
    }
  }

  lemma GapDashed(s: string)
    requires s != "" && IsNoSlugChar(s[0])
    ensures Dashes(s) == "-" + Dashes(s[RunOf(s, IsNoSlugChar)..])
  {
    RunAtStart(s, IsNoSlugChar);
  }

  /** A run of letters and digits stays as it is. */
  lemma {:induction false} WordKept(s: string, n: nat)
    requires n <= |s| && forall i :: 0 <= i < n ==> IsSlugChar(s[i])
    ensures Dashes(s) == s[..n] + Dashes(s[n..])
  {
    if n == 0 {
      assert s[0..] == s;
    } else {
      RunAtStart(s, IsNoSlugChar);
      WordKept(s[1..], n - 1);
      assert s[1..][n - 1..] == s[n..];
      assert s[..1] + s[1..][..n - 1] == s[..n];
      assert s[..1] + (s[1..][..n - 1] + Dashes(s[n..])) == s[..n] + Dashes(s[n..]);
    }
  }

  lemma {:induction false} TrimEndBehind(a: string, b: string)
    requires TrimEnd(b, IsDash) != ""
    ensures TrimEnd(a + b, IsDash) == a + TrimEnd(b, IsDash)
    decreases |b|
  {
    assert (a + b)[|a + b| - 1] == b[|b| - 1];
    if IsDash(b[|b| - 1]) {
      assert (a + b)[..|a + b| - 1] == a + b[..|b| - 1];
      TrimEndBehind(a, b[..|b| - 1]);
    }
  }

  lemma NotTrimmedAway(s: string)
    requires s != "" && !IsDash(s[0])
    ensures TrimEnd(s, IsDash) != ""
  {
    TrimEndKeepsFirst(s);
  }

  lemma OneWord(w: string)
    requires w != "" && !IsDash(w[|w| - 1])
    ensures TrimEnd(w, IsDash) == w && TrimEnd(w + "-", IsDash) == w
  {
    assert (w + "-")[..|w|] == w;
  }

  /** From the first word on, the dashed text without its last hyphen is the words with a hyphen between them. */
  lemma {:induction false} WordsDashed(s: string)
    requires s == "" || IsSlugChar(s[0])
    ensures TrimEnd(Dashes(s), IsDash) == Hyphened(SlugWords(s))
    decreases |s|
  {
    hide TrimEnd, Dashes;
    if s == "" {
      NothingDashed();
    } else {
      RunAtStart(s, IsSlugChar);
      var n := RunOf(s, IsSlugChar);
      var w, t := s[..n], s[n..];
      WordKept(s, n);
      if t == "" {
        NothingDashed();
        assert w + "" == w;
        OneWord(w);
      } else {
        GapDashed(t);
        GapSkipped(t);
        var u := t[RunOf(t, IsNoSlugChar)..];
        RunAtStart(t, IsNoSlugChar);
        if u == "" {
          NothingDashed();
          assert "-" + "" == "-";
          OneWord(w);
        } else {
          WordsDashed(u);
          NextWord(u);
          TrimEndBehind(w + "-", Dashes(u));
          assert w + ("-" + Dashes(u)) == w + "-" + Dashes(u);
          assert ([w] + SlugWords(u))[1..] == SlugWords(u);
        }
      }
    }
  }

  lemma NothingDashed()
    ensures Dashes("") == "" && TrimEnd("", IsDash) == ""
  {
  }

  lemma NextWord(u: string)
    requires u != "" && IsSlugChar(u[0])
    ensures Dashes(u) != "" && !IsDash(Dashes(u)[0]) && TrimEnd(Dashes(u), IsDash) != "" && SlugWords(u) != []
  {
    DashRunsChars(u, IsNoSlugChar, 1);
    NotTrimmedAway(Dashes(u));
  }

  /** The slug before any cut is the words of the title with a hyphen between them. */
  lemma WholeIsWords(title: string)
    ensures Whole(title) == Hyphened(SlugWords(title))
  {
    hide TrimEnd, SlugWords, Hyphened, DashRuns;
    var rest := title[RunOf(title, IsNoSlugChar)..];
    GapSkipped(title);
    WordsDashed(rest);
    StartTrimmed(title);
  }

  lemma StartTrimmed(title: string)
    ensures TrimStart(Dashes(title), IsDash) == Dashes(title[RunOf(title, IsNoSlugChar)..])
  {
    hide Dashes;
    var rest := title[RunOf(title, IsNoSlugChar)..];
    if rest == "" { NothingDashed(); } else { NextWord(rest); }
    if title != "" && IsNoSlugChar(title[0]) {
      GapDashed(title);
      assert ("-" + Dashes(rest))[1..] == Dashes(rest);
    } else {
      assert title[0..] == title;
    }
  }

  // ------------------------------------------------------------------------------------------
  // Where a long slug is cut.

  /**
   * A slug is all the words of its title when they fit into 40 characters; else it ends before the last hyphen
   * between the 20th character and the 40th, or at the 40th when no hyphen is there.
   */
  lemma SlugIsCut(title: string)
    ensures var whole := Hyphened(SlugWords(title));
            var slug := Slugify(title);
            && slug <= whole
            && (|whole| <= 40 ==> slug == whole)
            && (|whole| > 40 ==>
                  && 20 < |slug| <= 40
                  && (|slug| < 40 ==> whole[|slug|] == '-')
                  && forall i :: 20 < i < 40 && whole[i] == '-' ==> i <= |slug| < 40)
  {
    hide DashRuns, Trim, SlugWords, Hyphened, TrimEnd;
    var whole := Whole(title);
    WholeIsWords(title);
    WholeIsSlug(title);
    if |whole| > MAX_SLUG_LENGTH {
      var cut := whole[..MAX_SLUG_LENGTH];
      var lastDash := LastDash(cut);
      var kept := if lastDash > MAX_SLUG_LENGTH / 2 then cut[..lastDash] else cut;
      assert kept == whole[..|kept|];
      assert kept[|kept| - 1] != '-';
      OneWord(kept);
      assert forall i :: 20 < i < 40 && whole[i] == '-' ==> cut[i] == '-';
    }
  }

  // ------------------------------------------------------------------------------------------
  // What fits into a name.

  /** The prefix by the kind of ticket, unless one is asked for; the only way to « hotfix ». */
  lemma HeadTells(kind: WorkItemType, reference: string, override: Option<Prefix>)
    ensures Head(kind, reference, override) ==
            (if override == Some(HotfixPrefix) then "hotfix"
             else if override == Some(FixPrefix) || (override == None && kind == Bug) then "fix"
             else if override == Some(SpikePrefix) || (override == None && kind == WorkItemType.Spike) then "spike"
             else if override == Some(ChorePrefix) || (override == None && kind in {Task, Ops, Debt}) then "chore"
             else "feature") + "/" + SanitiseSegment(reference)
  {
    hide SanitiseSegment;
  }

  /**
   * A name is its head alone when the title leaves no word or the head leaves no room for two characters; else
   * head and slug, cut at 80 characters, and at 79 when the 80th is a hyphen.
   */
  lemma NameIsCut(kind: WorkItemType, reference: string, title: string, override: Option<Prefix>)
    requires SanitiseSegment(reference) != ""
    ensures var name := BranchNameFor(kind, reference, title, override);
            var head := Head(kind, reference, override);
            var full := head + "-" + Slugify(title);
            && name.Some?
            && (Slugify(title) == "" || |head| >= 78 ==> name.value == head)
            && (Slugify(title) != "" && |head| < 78 ==>
                  && name.value <= full
                  && |name.value| == if |full| <= 80 then |full| else if full[79] == '-' then 79 else 80)
  {
    hide SanitiseSegment, Slugify, IsSlug, PrefixText;
    var slug := Slugify(title);
    var room := MAX_BRANCH_LENGTH - |Head(kind, reference, override)| - 1;
    SlugReadsTitle(title);
    if slug != "" && room > 1 {
      SlugEnd(slug, if |slug| > room then room else |slug|);
      assert slug[..|slug|] == slug;
    }
  }

  /** Cutting a slug leaves one hyphen at its end at most. */
  lemma SlugEnd(slug: string, n: nat)
    requires IsSlug(slug) && 0 < n <= |slug|
    ensures slug[n - 1] == '-' ==> 1 < n < |slug|
    ensures TrimEnd(slug[..n], IsDash) == slug[..if slug[n - 1] == '-' then n - 1 else n]
  {
    assert slug[..n][..n - 1] == slug[..n - 1];
    assert slug[n - 1] == '-' ==> n > 1 && slug[n - 2] != '-';
  }
}
