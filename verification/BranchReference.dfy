/** The keys a branch name may carry, and the ticket found among them: the inverse of naming a branch. */
module BranchReference {
  import opened Decimal
  import opened Wrappers
  import opened BranchName
  import opened BranchNameProofs

  const REFS_HEADS := "refs/heads/"

  function StripRefsHeads(name: string): string {
    if REFS_HEADS <= name then name[|REFS_HEADS|..] else name
  }

  /** The text starts with this prefix and a slash, in either case. */
  predicate HasPrefix(s: string, prefix: Prefix) {
    var head := PrefixText(prefix) + "/";
    |s| >= |head| && Lowered(s[..|head|]) == head
  }

  function StripPrefix(s: string): string {
    if HasPrefix(s, FeaturePrefix) then s[8..]
    else if HasPrefix(s, FixPrefix) then s[4..]
    else if HasPrefix(s, HotfixPrefix) then s[7..]
    else if HasPrefix(s, ChorePrefix) then s[6..]
    else if HasPrefix(s, SpikePrefix) then s[6..]
    else s
  }

  /** What stands after the prefix of a branch name. */
  function BodyOf(branchName: string): string {
    StripPrefix(StripRefsHeads(Trim(branchName, IsSpace)))
  }

  /** Letters, digits and hyphens, and at least one of them. */
  predicate IsKeyText(s: string) {
    s != "" && forall i :: 0 <= i < |s| ==> IsLetterOrDigit(s[i]) || s[i] == '-'
  }

  /** A group of digits ends at this cut, and what stands before it can be a key. */
  predicate CutsKey(body: string, cut: int) {
    && 0 < cut <= |body|
    && IsDigit(body[cut - 1])
    && (cut < |body| ==> !IsDigit(body[cut]))
    && IsKeyText(body[..cut])
  }

  /** The keys cut from the first n characters, shortest first. */
  function Cuts(body: string, n: nat): seq<string>
    requires n <= |body|
  {
    if n == 0 then [] else Cuts(body, n - 1) + (if CutsKey(body, n) then [body[..n]] else [])
  }

  function Reversed(s: seq<string>): (r: seq<string>)
    ensures |r| == |s|
  {
    if s == [] then [] else Reversed(s[1..]) + [s[0]]
  }

  lemma {:induction false} ReversedAt(s: seq<string>, i: nat)
    requires i < |s|
    ensures Reversed(s)[i] == s[|s| - 1 - i]
  {
    if i < |s| - 1 {
      ReversedAt(s[1..], i);
    }
  }

  function CandidatesOf(branchName: string): seq<string> {
    var body := BodyOf(branchName);
    Reversed(Cuts(body, |body|))
  }

  /** The keys the name may carry, longest first. */
  method ReferenceCandidatesFrom(branchName: string) returns (candidates: seq<string>)
    ensures candidates == CandidatesOf(branchName)
  {
    hide BodyOf, IsKeyText, Reversed;
    var body := BodyOf(branchName);
    if body == "" {
      return [];
    }
    candidates := [];
    var i := 0;
    while i < |body|
      invariant 0 <= i <= |body|
      invariant 0 < i < |body| && IsDigit(body[i - 1]) ==> !IsDigit(body[i])
      invariant candidates == Cuts(body, i)
    {
      if !IsDigit(body[i]) {
        i := i + 1;
      } else {
        var end := i + 1;
        while end < |body| && IsDigit(body[end])
          invariant i < end <= |body| && IsDigit(body[end - 1])
          invariant candidates == Cuts(body, end - 1)
        {
          end := end + 1;
        }
        if IsKeyText(body[..end]) {
          candidates := candidates + [body[..end]];
        }
        i := end;
      }
    }
    candidates := Reversed(candidates);
  }

  /** The first candidate that is known. */
  function FirstKnown(candidates: seq<string>, known: string -> bool): Option<string> {
    if candidates == [] then None
    else if known(candidates[0]) then Some(candidates[0])
    else FirstKnown(candidates[1..], known)
  }

  method MatchReference(branchName: string, known: string -> bool) returns (reference: Option<string>)
    ensures reference == FirstKnown(CandidatesOf(branchName), known)
  {
    var candidates := ReferenceCandidatesFrom(branchName);
    var i := 0;
    while i < |candidates|
      invariant 0 <= i <= |candidates|
      invariant FirstKnown(candidates, known) == FirstKnown(candidates[i..], known)
    {
      if known(candidates[i]) {
        return Some(candidates[i]);
      }
      assert candidates[i..][1..] == candidates[i + 1..];
      i := i + 1;
    }
    return None;
  }

  // ------------------------------------------------------------------------------------------
  // What the candidates are.

  lemma {:induction false} CutsAre(body: string, n: nat, key: string)
    requires n <= |body|
    ensures key in Cuts(body, n) <==> |key| <= n && key <= body && CutsKey(body, |key|)
  {
    if n > 0 {
      CutsAre(body, n - 1, key);
      assert |key| == n && key <= body ==> key == body[..n];
    }
  }

  lemma {:induction false} CutsGrow(body: string, n: nat)
    requires n <= |body|
    ensures forall i, j :: 0 <= i < j < |Cuts(body, n)| ==> |Cuts(body, n)[i]| < |Cuts(body, n)[j]|
  {
    if n > 0 {
      CutsGrow(body, n - 1);
      forall key | key in Cuts(body, n - 1)
        ensures |key| < n
      {
        CutsAre(body, n - 1, key);
      }
    }
  }

  lemma {:induction false} SameMembers(s: seq<string>, key: string)
    ensures key in Reversed(s) <==> key in s
  {
    if s != [] {
      SameMembers(s[1..], key);
      assert key in s <==> key == s[0] || key in s[1..];
    }
  }

  /**
   * The candidates are exactly the starts of the body that end with a group of digits and hold nothing
   * but letters, digits and hyphens; each is longer than the next.
   */
  lemma CandidatesAre(branchName: string)
    ensures var body, candidates := BodyOf(branchName), CandidatesOf(branchName);
            && (forall key :: key in candidates <==> key <= body && CutsKey(body, |key|))
            && (forall i, j :: 0 <= i < j < |candidates| ==> |candidates[i]| > |candidates[j]|)
  {
    var body, candidates := BodyOf(branchName), CandidatesOf(branchName);
    var cuts := Cuts(body, |body|);
    forall key
      ensures key in candidates <==> key <= body && CutsKey(body, |key|)
    {
      CutsAre(body, |body|, key);
      SameMembers(cuts, key);
    }
    CutsGrow(body, |body|);
    forall i, j | 0 <= i < j < |candidates|
      ensures |candidates[i]| > |candidates[j]|
    {
      ReversedAt(cuts, i);
      ReversedAt(cuts, j);
    }
  }

  /** What is found is a known candidate with no longer one known; nothing is found when none is known. */
  lemma {:induction false} FoundIsLongestKnown(candidates: seq<string>, known: string -> bool, key: string)
    requires forall i, j :: 0 <= i < j < |candidates| ==> |candidates[i]| > |candidates[j]|
    ensures FirstKnown(candidates, known) == Some(key) <==>
            key in candidates && known(key) && forall other :: other in candidates && |other| > |key| ==> !known(other)
    ensures FirstKnown(candidates, known) == None <==> forall other :: other in candidates ==> !known(other)
  {
    if candidates != [] {
      var first, rest := candidates[0], candidates[1..];
      FoundIsLongestKnown(rest, known, key);
      assert forall other :: other in candidates <==> other == first || other in rest;
      assert forall other :: other in rest ==> |other| < |first|;
      if known(first) && key != first && key in rest {
        assert first in candidates && |first| > |key|;
      }
    }
  }

  // ------------------------------------------------------------------------------------------
  // The round trip.

  lemma BodyOfName(prefix: Prefix, rest: string)
    requires IsSegment(rest) && rest != ""
    ensures BodyOf(PrefixText(prefix) + "/" + rest) == rest
    ensures BodyOf(REFS_HEADS + (PrefixText(prefix) + "/" + rest)) == rest
  {
    hide StripPrefix, StripRefsHeads, IsSegment, Trim, HasPair, HasBadSegment;
    var name := PrefixText(prefix) + "/" + rest;
    SlashedName(prefix, rest);
    PrefixIsStripped(prefix, rest);
    RefsAreStripped(prefix, rest);
    RefsAreTrimmed(name);
  }

  lemma RefsAreStripped(prefix: Prefix, rest: string)
    ensures var name := PrefixText(prefix) + "/" + rest;
            StripRefsHeads(name) == name && StripRefsHeads(REFS_HEADS + name) == name
  {
    var name := PrefixText(prefix) + "/" + rest;
    assert name[0] == PrefixText(prefix)[0] != 'r';
    assert REFS_HEADS[0] == 'r';
    assert (REFS_HEADS + name)[|REFS_HEADS|..] == name;
  }

  lemma RefsAreTrimmed(name: string)
    requires name != "" && Trim(name, IsSpace) == name
    ensures Trim(REFS_HEADS + name, IsSpace) == REFS_HEADS + name
  {
    hide Trim;
    var full := REFS_HEADS + name;
    assert full[0] == 'r' && full[|full| - 1] == name[|name| - 1];
  }

  lemma PrefixIsStripped(prefix: Prefix, rest: string)
    ensures StripPrefix(PrefixText(prefix) + "/" + rest) == rest
  {
    var head := PrefixText(prefix) + "/";
    var name := head + rest;
    assert name == PrefixText(prefix) + "/" + rest;
    assert name[..|head|] == head && name[|head|..] == rest;
    assert Lowered(head) == head;
    forall other | other != prefix
      ensures !HasPrefix(name, other)
    {
      OtherPrefix(prefix, other, rest);
    }
  }

  lemma OtherPrefix(prefix: Prefix, other: Prefix, rest: string)
    requires other != prefix
    ensures !HasPrefix(PrefixText(prefix) + "/" + rest, other)
  {
    var head := PrefixText(other) + "/";
    var name := PrefixText(prefix) + "/" + rest;
    if |name| >= |head| {
      var start := Lowered(name[..|head|]);
      assert start[0] == name[0] && start[1] == name[1];
    }
  }

  /** A digit group ends a key even with a slug behind it. */
  lemma KeyIsCut(key: string, tail: string)
    requires IsKey(key)
    ensures var rest := if tail == "" then key else key + "-" + tail;
            key <= rest && CutsKey(rest, |key|)
  {
    var rest := if tail == "" then key else key + "-" + tail;
    assert rest[..|key|] == key;
  }

  /** A slug with no digit gives the body no cut behind its key. */
  lemma NoDigitsNoCut(key: string, tail: string, cut: nat)
    requires forall i :: 0 <= i < |tail| ==> !IsDigit(tail[i])
    ensures |key| < cut ==> !CutsKey(if tail == "" then key else key + "-" + tail, cut)
  {
    if |key| < cut <= |key| + 1 + |tail| && tail != "" {
      assert (key + "-" + tail)[cut - 1] == if cut == |key| + 1 then '-' else tail[cut - 2 - |key|];
    }
  }

  ghost predicate HasDigit(s: string) {
    exists i :: 0 <= i < |s| && IsDigit(s[i])
  }

  ghost predicate Descending(candidates: seq<string>) {
    forall i, j :: 0 <= i < j < |candidates| ==> |candidates[i]| > |candidates[j]|
  }

  function WithTail(key: string, tail: string): string {
    if tail == "" then key else key + "-" + tail
  }

  lemma RestOfKey(key: string, tail: string)
    requires IsKey(key) && IsSlug(tail)
    ensures IsSegment(WithTail(key, tail)) && WithTail(key, tail) != ""
  {
    KeyIsKept(key);
    SegmentIsClean(key);
    RestIsSegment(key, tail);
  }

  /** The candidates of a prefix, a key and a slug behind it. */
  lemma CandidatesBehind(prefix: Prefix, key: string, tail: string)
    requires IsKey(key) && IsSlug(tail)
    ensures var name := PrefixText(prefix) + "/" + WithTail(key, tail);
            var candidates := CandidatesOf(name);
            && candidates == CandidatesOf(REFS_HEADS + name)
            && Descending(candidates)
            && key in candidates
            && (!HasDigit(tail) ==> forall other :: other in candidates ==> |other| <= |key|)
  {
    hide IsKey, IsSegment, BodyOf, CutsKey, PrefixText, IsSlug;
    var name := PrefixText(prefix) + "/" + WithTail(key, tail);
    RestOfKey(key, tail);
    BodyOfName(prefix, WithTail(key, tail));
    CandidatesAre(name);
    KeyIsCut(key, tail);
    if !HasDigit(tail) {
      forall other | other in CandidatesOf(name)
        ensures |other| <= |key|
      {
        NoDigitsNoCut(key, tail, |other|);
      }
    }
  }

  lemma NameOfKey(kind: WorkItemType, key: string, title: string, override: Option<Prefix>)
    requires IsKey(key)
    ensures var tail := Tail(kind, key, title, override);
            && IsSlug(tail)
            && BranchNameFor(kind, key, title, override) ==
               Some(PrefixText(if override.Some? then override.value else PrefixFor(kind)) + "/" + WithTail(key, tail))
  {
    hide BranchNameFor, Tail, IsSlug, SanitiseSegment, PrefixText, PrefixFor, Slugify;
    KeyIsKept(key);
    NameKeepsKey(kind, key, title, override);
    Regrouped(PrefixText(if override.Some? then override.value else PrefixFor(kind)), key,
              Tail(kind, key, title, override));
  }

  lemma Regrouped(prefix: string, key: string, tail: string)
    ensures prefix + "/" + key + "-" + tail == prefix + "/" + (key + "-" + tail)
  {
  }

  /**
   * The round trip: the key of a composed name is among the name's candidates, plain or as a full ref,
   * and matching gives it back exactly when it is known and no longer candidate is; with no digit in
   * the slug, exactly when it is known.
   */
  lemma KeyIsFoundAgain(kind: WorkItemType, key: string, title: string, override: Option<Prefix>, known: string -> bool)
    requires IsKey(key)
    ensures BranchNameFor(kind, key, title, override).Some?
    ensures var name := BranchNameFor(kind, key, title, override).value;
            var candidates := CandidatesOf(name);
            && candidates == CandidatesOf(REFS_HEADS + name)
            && Descending(candidates)
            && key in candidates
            && (FirstKnown(candidates, known) == Some(key) <==>
                  known(key) && forall other :: other in candidates && |other| > |key| ==> !known(other))
            && (!HasDigit(Tail(kind, key, title, override)) ==>
               (FirstKnown(candidates, known) == Some(key) <==> known(key)))
  {
    hide BranchNameFor, Tail, IsSlug, IsKey, CandidatesOf, FirstKnown, HasDigit, PrefixText, PrefixFor, WithTail;
    NameOfKey(kind, key, title, override);
    var name := BranchNameFor(kind, key, title, override).value;
    CandidatesBehind(if override.Some? then override.value else PrefixFor(kind), key, Tail(kind, key, title, override));
    FoundIsLongestKnown(CandidatesOf(name), known, key);
  }

  /** A slug that ends with digits can name a ticket of its own, and then that one is found. */
  lemma LongerKeyWins(prefix: Prefix, key: string, word: string, known: string -> bool)
    requires IsKey(key) && IsKey(word) && known(key + "-" + word)
    ensures FirstKnown(CandidatesOf(PrefixText(prefix) + "/" + WithTail(key, word)), known) == Some(key + "-" + word)
  {
    hide IsKey, CandidatesOf, FirstKnown, PrefixText, IsSlug;
    var rest := key + "-" + word;
    LongKey(key, word);
    EmptyIsSlug();
    CandidatesBehind(prefix, rest, "");
    NoDigitInNothing();
    FoundIsLongestKnown(CandidatesOf(PrefixText(prefix) + "/" + rest), known, rest);
  }

  lemma NoDigitInNothing()
    ensures !HasDigit("")
  {
  }

  lemma LongKey(key: string, word: string)
    requires IsKey(key) && IsKey(word)
    ensures IsKey(key + "-" + word) && word != ""
  {
  }

  // ------------------------------------------------------------------------------------------
  // Candidates and prefixes, character by character.

  lemma KeyTextIs(key: string)
    ensures IsKeyText(key) <==>
            && key != ""
            && forall c :: c in key ==> 'a' <= c <= 'z' || 'A' <= c <= 'Z' || '0' <= c <= '9' || c == '-'
  {
    forall c | IsKeyText(key) && c in key
      ensures 'a' <= c <= 'z' || 'A' <= c <= 'Z' || '0' <= c <= '9' || c == '-'
    {
      var i :| 0 <= i < |key| && key[i] == c;
    }
    assert forall i :: 0 <= i < |key| ==> key[i] in key;
  }

  /** A candidate is letters, digits and hyphens from the start of the body on, and ends with a group of digits. */
  lemma CandidateExactly(branchName: string, key: string)
    ensures var body := BodyOf(branchName);
            key in CandidatesOf(branchName) <==>
              && key <= body && key != ""
              && (forall c :: c in key ==> 'a' <= c <= 'z' || 'A' <= c <= 'Z' || '0' <= c <= '9' || c == '-')
              && '0' <= key[|key| - 1] <= '9'
              && (|key| < |body| ==> !('0' <= body[|key|] <= '9'))
  {
    hide BodyOf, CandidatesOf, IsKeyText;
    CandidatesAre(branchName);
    KeyTextIs(key);
    var body := BodyOf(branchName);
    assert key <= body ==> body[..|key|] == key;
  }

  /** One of the five prefixes and its slash. */
  predicate IsHead(s: string) {
    s == "feature/" || s == "fix/" || s == "hotfix/" || s == "chore/" || s == "spike/"
  }

  lemma HeadOf(s: string) returns (prefix: Prefix)
    requires IsHead(s)
    ensures s == PrefixText(prefix) + "/"
  {
    prefix := if s == "feature/" then FeaturePrefix else if s == "fix/" then FixPrefix
      else if s == "hotfix/" then HotfixPrefix else if s == "chore/" then ChorePrefix else SpikePrefix;
  }

  lemma NoOtherHead(head: string, rest: string, prefix: Prefix, other: Prefix)
    requires Lowered(head) == PrefixText(prefix) + "/" && other != prefix
    ensures !HasPrefix(head + rest, other)
  {
    var s, end := head + rest, |PrefixText(other) + "/"|;
    if |s| >= end {
      var start := Lowered(s[..end]);
      assert start[0] == Lower(s[0]) == Lowered(head)[0] && start[1] == Lower(s[1]) == Lowered(head)[1];
    }
  }

  /** One of the five prefixes comes off, in any case of its letters. */
  lemma PrefixComesOff(head: string, rest: string)
    requires IsHead(Lowered(head))
    ensures StripPrefix(head + rest) == rest
  {
    var prefix := HeadOf(Lowered(head));
    var s := head + rest;
    forall other | other != prefix
      ensures !HasPrefix(s, other)
    {
      NoOtherHead(head, rest, prefix, other);
    }
    assert s[..|head|] == head && s[|head|..] == rest;
  }

  /** A text without one stays as it is. */
  lemma NoPrefixStays(s: string)
    requires forall n :: 0 <= n <= |s| ==> !IsHead(Lowered(s[..n]))
    ensures StripPrefix(s) == s
  {
    forall prefix
      ensures !HasPrefix(s, prefix)
    {
      var head := PrefixText(prefix) + "/";
      if |s| >= |head| {
        assert IsHead(head);
        assert !IsHead(Lowered(s[..|head|]));
      }
    }
  }
}
