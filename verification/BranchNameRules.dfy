/** Exactly when a composed branch name passes the rules, read off the reference and the title. */
module BranchNameRules {
  import opened Wrappers
  import opened BranchName
  import opened BranchNameProofs

  // ------------------------------------------------------------------------------------------
  // Hyphens for runs, piece by piece.

  lemma {:induction false} RunSplits(a: string, b: string, P: char -> bool)
    requires a == "" || b == "" || !(P(a[|a| - 1]) && P(b[0]))
    ensures a != "" ==> RunOf(a + b, P) == RunOf(a, P)
  {
    if a != "" && P(a[0]) {
      assert (a + b)[1..] == a[1..] + b;
      RunSplits(a[1..], b, P);
    }
  }

  /** How much of the text its first piece takes: a run, or one character of no class. */
  function FirstPiece(s: string, P: char -> bool): (n: nat)
    requires s != ""
    ensures 0 < n <= |s|
  {
    if RunOf(s, P) > 0 then RunOf(s, P) else 1
  }

  function Become(s: string, P: char -> bool, least: nat): string
    requires s != ""
  {
    if RunOf(s, P) >= least then "-" else s[..FirstPiece(s, P)]
  }

  lemma PieceByPiece(s: string, P: char -> bool, least: nat)
    requires s != "" && least > 0
    ensures DashRuns(s, P, least) == Become(s, P, least) + DashRuns(s[FirstPiece(s, P)..], P, least)
  {
  }

  lemma PieceOfBoth(a: string, b: string, P: char -> bool, least: nat)
    requires a != "" && (b == "" || !(P(a[|a| - 1]) && P(b[0])))
    ensures FirstPiece(a + b, P) == FirstPiece(a, P) && Become(a + b, P, least) == Become(a, P, least)
    ensures (a + b)[FirstPiece(a, P)..] == a[FirstPiece(a, P)..] + b
  {
    hide RunOf;
    RunSplits(a, b, P);
    assert (a + b)[..FirstPiece(a, P)] == a[..FirstPiece(a, P)];
  }

  /** Two pieces between which no run runs on are hyphenated each on its own. */
  lemma {:induction false} DashRunsSplit(a: string, b: string, P: char -> bool, least: nat)
    requires least > 0
    requires a == "" || b == "" || !(P(a[|a| - 1]) && P(b[0]))
    ensures DashRuns(a + b, P, least) == DashRuns(a, P, least) + DashRuns(b, P, least)
    decreases |a|
  {
    if a == "" {
      assert a + b == b;
    } else {
      hide DashRuns, RunOf, FirstPiece, Become;
      var n := FirstPiece(a, P);
      PieceByPiece(a, P, least);
      PieceByPiece(a + b, P, least);
      PieceOfBoth(a, b, P, least);
      DashRunsSplit(a[n..], b, P, least);
      Reassociate(Become(a, P, least), DashRuns(a[n..], P, least), DashRuns(b, P, least));
    }
  }

  lemma Reassociate(a: string, b: string, c: string)
    ensures a + (b + c) == (a + b) + c
  {
  }

  /** The ends of a hyphenated text are its own or hyphens, and a hyphen where a long enough run ends it. */
  lemma {:induction false} DashRunsEnds(s: string, P: char -> bool, least: nat)
    requires s != "" && 1 <= least <= 2
    ensures var r, z := DashRuns(s, P, least), |s| - 1;
            && r != ""
            && (r[0] == s[0] || r[0] == '-')
            && (r[|r| - 1] == s[z] || r[|r| - 1] == '-')
            && (!P(s[z]) ==> r[|r| - 1] == s[z])
            && (P(s[z]) && (least == 1 || (|s| > 1 && P(s[z - 1]))) ==> r[|r| - 1] == '-')
    decreases |s|
  {
    hide DashRuns;
    var n := FirstPiece(s, P);
    var piece, rest := Become(s, P, least), DashRuns(s[n..], P, least);
    RunAtStart(s, P);
    PieceByPiece(s, P, least);
    if n < |s| {
      DashRunsEnds(s[n..], P, least);
      assert (piece + rest)[|piece + rest| - 1] == rest[|rest| - 1];
      assert P(s[n - 1]) ==> !P(s[n]);
    } else {
      assert s[n..] == "";
      assert rest == "" by { DashRunsOfNone(P, least); }
    }
  }

  lemma DashRunsOfNone(P: char -> bool, least: nat)
    requires least > 0
    ensures DashRuns("", P, least) == ""
  {
  }

  /** A character of no class stays. */
  lemma {:induction false} DashRunsKeep(s: string, P: char -> bool, least: nat, c: char)
    requires least > 0 && c in s && !P(c)
    ensures c in DashRuns(s, P, least)
    decreases |s|
  {
    RunAtStart(s, P);
    var run := RunOf(s, P);
    var n := if run > 0 then run else 1;
    assert s == s[..n] + s[n..];
    if c in s[n..] {
      DashRunsKeep(s[n..], P, least, c);
    } else {
      assert c in s[..n];
    }
  }

  lemma {:induction false} NoPairsNoRuns(s: string, P: char -> bool, c: char)
    requires !HasPair(s, c) && forall x :: P(x) <==> x == c
    ensures DashRuns(s, P, 2) == s
    decreases |s|
  {
    if s != "" {
      RunAtStart(s, P);
      var run := RunOf(s, P);
      assert run < 2;
      PairInTail(s, 1, c);
      NoPairsNoRuns(s[1..], P, c);
      assert s == s[..1] + s[1..];
    }
  }

  /** What the sanitising takes for the end of a piece: whatever becomes a hyphen, dots and hyphens. */
  predicate IsSeparator(c: char) {
    IsForbidden(c) || IsSlash(c) || IsDotOrDash(c)
  }

  /** The two characters belong to one run. */
  predicate Joins(a: char, b: char) {
    (IsForbidden(a) && IsForbidden(b)) || (IsDot(a) && IsDot(b)) || (IsSlash(a) && IsSlash(b))
  }

  lemma DashedSplit(a: string, b: string)
    requires a == "" || b == "" || !Joins(a[|a| - 1], b[0])
    ensures Dashed(a + b) == Dashed(a) + Dashed(b)
  {
    hide DashRuns;
    if a == "" {
      assert a + b == b && Dashed("") == "" by { DashedEmpty(); }
    } else if b == "" {
      assert a + b == a && Dashed("") == "" by { DashedEmpty(); }
    } else {
      var a1, b1 := DashRuns(a, IsForbidden, 1), DashRuns(b, IsForbidden, 1);
      var a2, b2 := DashRuns(a1, IsDot, 2), DashRuns(b1, IsDot, 2);
      DashRunsSplit(a, b, IsForbidden, 1);
      DashRunsEnds(a, IsForbidden, 1);
      DashRunsEnds(b, IsForbidden, 1);
      DashRunsSplit(a1, b1, IsDot, 2);
      DashRunsEnds(a1, IsDot, 2);
      DashRunsEnds(b1, IsDot, 2);
      DashRunsSplit(a2, b2, IsSlash, 1);
    }
  }

  lemma DashedEmpty()
    ensures Dashed("") == ""
  {
  }

  /** The ends of the hyphenated text, and all of its characters. */
  lemma DashedEnds(s: string)
    requires s != ""
    ensures var r, z := Dashed(s), |s| - 1;
            && r != ""
            && (r[0] == s[0] || r[0] == '-')
            && (r[|r| - 1] == s[z] || r[|r| - 1] == '-')
            && (IsSeparator(s[z]) ==> IsDotOrDash(r[|r| - 1]))
            && (IsDot(s[z]) && |s| > 1 && IsDot(s[z - 1]) ==> r[|r| - 1] == '-')
            && forall c :: c in r ==> c == '-' || (c in s && !IsForbidden(c) && !IsSlash(c))
  {
    hide DashRuns;
    var s1 := DashRuns(s, IsForbidden, 1);
    var s2 := DashRuns(s1, IsDot, 2);
    DashRunsEnds(s, IsForbidden, 1);
    DashRunsChars(s, IsForbidden, 1);
    DashRunsEnds(s1, IsDot, 2);
    DashRunsChars(s1, IsDot, 2);
    DashRunsEnds(s2, IsSlash, 1);
    DashRunsChars(s2, IsSlash, 1);
    if |s| > 1 && s[|s| - 1] == '.' == s[|s| - 2] {
      var x := s[..|s| - 2];
      assert s == x + "..";
      DashRunsSplit(x, "..", IsForbidden, 1);
      NoRuns("..", IsForbidden, 1);
    }
  }

  lemma DashedKeeps(s: string, c: char)
    requires c in s && !IsSeparator(c)
    ensures c in Dashed(s)
  {
    hide DashRuns;
    DashRunsKeep(s, IsForbidden, 1, c);
    DashRunsKeep(DashRuns(s, IsForbidden, 1), IsDot, 2, c);
    DashRunsKeep(DashRuns(DashRuns(s, IsForbidden, 1), IsDot, 2), IsSlash, 1, c);
  }

  /** With no run and nothing refused, nothing changes. */
  lemma DashedPlain(s: string)
    requires (forall i :: 0 <= i < |s| ==> !IsForbidden(s[i]) && !IsSlash(s[i])) && !HasPair(s, '.')
    ensures Dashed(s) == s
  {
    hide DashRuns;
    NoRuns(s, IsForbidden, 1);
    NoPairsNoRuns(s, IsDot, '.');
    NoRuns(s, IsSlash, 1);
  }

  lemma PeelLast(s: string)
    requires s != "" && !IsSeparator(s[|s| - 1])
    ensures Dashed(s) == Dashed(s[..|s| - 1]) + [s[|s| - 1]]
  {
    hide Dashed;
    var last := [s[|s| - 1]];
    assert s == s[..|s| - 1] + last;
    DashedPlain(last);
    DashedSplit(s[..|s| - 1], last);
  }

  // ------------------------------------------------------------------------------------------
  // The end of the hyphenated text.

  /** A text ends with this lock when its dot is not part of a run. */
  predicate HasLock(s: string) {
    EndsWith(s, ".lock") && (|s| == 5 || s[|s| - 6] != '.')
  }

  lemma LastKept(s: string)
    requires Dashed(s) != "" && IsLetterOrDigit(Dashed(s)[|Dashed(s)| - 1])
    ensures s != "" && Dashed(s) == Dashed(s[..|s| - 1]) + [s[|s| - 1]]
  {
    hide Dashed;
    if s == "" {
      DashedEmpty();
    }
    DashedEnds(s);
    PeelLast(s);
  }

  lemma {:induction false} WordKept(s: string, word: string)
    requires forall i :: 0 <= i < |word| ==> IsLetterOrDigit(word[i])
    requires EndsWith(Dashed(s), word)
    ensures EndsWith(s, word) && Dashed(s) == Dashed(s[..|s| - |word|]) + word
  {
    hide Dashed, IsLetterOrDigit;
    if word == "" {
      assert s[..|s|] == s;
    } else {
      var r, n := Dashed(s), |word| - 1;
      assert r[|r| - 1] == word[n];
      LastKept(s);
      var before := s[..|s| - 1];
      assert r[..|r| - 1] == Dashed(before);
      assert Dashed(before)[|Dashed(before)| - n..] == word[..n];
      WordKept(before, word[..n]);
      assert s == before + [word[n]] && word == word[..n] + [word[n]];
      assert before[..|before| - n] == s[..|s| - |word|];
    }
  }

  lemma LockStays(s: string, end: string)
    requires |end| == 5 && end[0] == '.' && forall i :: 0 < i < |end| ==> IsLetterOrDigit(end[i])
    requires s == "" || s[|s| - 1] != '.'
    ensures Dashed(s + end) == Dashed(s) + end
  {
    hide Dashed;
    DashedPlain(end);
    DashedSplit(s, end);
  }

  lemma DotWasAlone(s: string)
    requires Dashed(s) != "" && Dashed(s)[|Dashed(s)| - 1] == '.'
    ensures s != "" && s[|s| - 1] == '.' && (|s| == 1 || s[|s| - 2] != '.')
  {
    hide Dashed;
    if s == "" {
      DashedEmpty();
    }
    DashedEnds(s);
  }

  /** A single dot and a word end the hyphenated text exactly when they end the text. */
  lemma LockKept(s: string, word: string)
    requires |word| == 4 && forall i :: 0 <= i < |word| ==> IsLetterOrDigit(word[i])
    ensures EndsWith(Dashed(s), "." + word) <==> EndsWith(s, "." + word) && (|s| == 5 || s[|s| - 6] != '.')
    ensures EndsWith(Dashed(s), "." + word) ==> Dashed(s) == Dashed(s[..|s| - 5]) + ("." + word)
  {
    hide Dashed, IsLetterOrDigit;
    var end, r := "." + word, Dashed(s);
    if EndsWith(s, end) && (|s| == 5 || s[|s| - 6] != '.') {
      assert s == s[..|s| - 5] + end;
      LockStays(s[..|s| - 5], end);
    }
    if EndsWith(r, end) {
      assert r[|r| - 4..] == word by {
        assert r[|r| - 5..][1..] == end[1..] == word;
      }
      WordKept(s, word);
      var before := s[..|s| - 4];
      assert r[|r| - 5..][0] == '.' == r[|r| - 5];
      assert r[|r| - 5] == Dashed(before)[|Dashed(before)| - 1];
      DotWasAlone(before);
      assert s[|s| - 5..] == end by {
        assert s[|s| - 4..] == word && s[|s| - 5] == '.';
      }
    }
  }

  // ------------------------------------------------------------------------------------------
  // What is left of a reference.

  /** The text without one lock at its end, in either case. */
  function LockOff(s: string): string {
    if HasLock(Lowered(s)) then s[..|s| - 5] else s
  }

  /** What is left of a reference once white space, then one lock, then separators at both ends are taken off. */
  function Core(reference: string): string {
    Trim(LockOff(Trim(reference, IsSpace)), IsSeparator)
  }

  lemma UnlockedDashed(s: string)
    ensures Unlocked(Dashed(s)) == Dashed(LockOff(s))
  {
    hide Dashed, EndsWith;
    var r := Dashed(s);
    if HasLock(Lowered(s)) {
      var word := s[|s| - 4..];
      LoweredLock(s);
      LockKept(s, word);
      assert EndsWith(r, "." + word);
      LockLowered(r, word);
    } else if EndsWith(Lowered(r), ".lock") {
      var word := r[|r| - 4..];
      LoweredLock(r);
      LockKept(s, word);
      LockLowered(s, word);
    }
  }

  /** What is `.lock` in lower case is a dot and a word. */
  lemma LoweredLock(s: string)
    requires EndsWith(Lowered(s), ".lock")
    ensures |s| >= 5
    ensures var word := s[|s| - 4..];
            && (forall i :: 0 <= i < 4 ==> IsLetterOrDigit(word[i]))
            && Lowered(word) == "lock"
            && EndsWith(s, "." + word)
    ensures |s| > 5 ==> (Lowered(s)[|s| - 6] != '.' <==> s[|s| - 6] != '.')
  {
    var low, word := Lowered(s)[|s| - 5..], s[|s| - 4..];
    assert low == ".lock" && low[0] == '.';
    assert low[1..] == "lock";
    forall i | 0 <= i < 5
      ensures low[i] == Lower(s[|s| - 5 + i])
    {
      assert low[i] == Lowered(s)[|s| - 5 + i];
    }
    forall i | 0 <= i < 4
      ensures Lower(word[i]) == "lock"[i]
    {
      assert low[1..][i] == low[i + 1];
    }
    assert Lowered(word) == "lock";
    assert s[|s| - 5..] == "." + word;
  }

  lemma LockLowered(s: string, word: string)
    requires |word| == 4 && Lowered(word) == "lock" && EndsWith(s, "." + word)
    ensures EndsWith(Lowered(s), ".lock")
    ensures |s| > 5 ==> (Lowered(s)[|s| - 6] != '.' <==> s[|s| - 6] != '.')
  {
    assert s[|s| - 5..] == "." + word;
    assert Lowered(s)[|s| - 5..] == Lowered("." + word) == ".lock";
  }

  lemma {:induction false} TrimStartDrops(s: string, P: char -> bool) returns (k: nat)
    ensures k <= |s| && TrimStart(s, P) == s[k..] && forall i :: 0 <= i < k ==> P(s[i])
  {
    k := 0;
    if s != "" && P(s[0]) {
      var more := TrimStartDrops(s[1..], P);
      k := more + 1;
      assert s[1..][more..] == s[k..];
      assert forall i :: 0 < i < k ==> s[i] == s[1..][i - 1];
    }
  }

  lemma {:induction false} TrimEndDrops(s: string, P: char -> bool) returns (k: nat)
    ensures k <= |s| && TrimEnd(s, P) == s[..k] && forall i :: k <= i < |s| ==> P(s[i])
  {
    k := |s|;
    if s != "" && P(s[|s| - 1]) {
      var init := s[..|s| - 1];
      k := TrimEndDrops(init, P);
      assert init[..k] == s[..k];
      assert forall i :: k <= i < |init| ==> s[i] == init[i];
    }
  }

  /** Trimming takes a piece of the class off each end. */
  lemma TrimDrops(s: string, P: char -> bool) returns (front: string, back: string)
    ensures s == front + Trim(s, P) + back
    ensures forall c :: c in front + back ==> P(c)
  {
    hide TrimStart, TrimEnd;
    var i := TrimStartDrops(s, P);
    var k := TrimEndDrops(s[i..], P);
    front, back := s[..i], s[i..][k..];
    assert s == s[..i] + s[i..] && s[i..] == s[i..][..k] + s[i..][k..];
  }

  lemma {:induction false} TrimStartIs(front: string, rest: string, P: char -> bool)
    requires (forall c :: c in front ==> P(c)) && (rest == "" || !P(rest[0]))
    ensures TrimStart(front + rest, P) == rest
  {
    if front == "" {
      assert front + rest == rest;
    } else {
      assert (front + rest)[1..] == front[1..] + rest && front[0] in front;
      TrimStartIs(front[1..], rest, P);
    }
  }

  lemma {:induction false} TrimEndIs(rest: string, back: string, P: char -> bool)
    requires (forall c :: c in back ==> P(c)) && (rest == "" || !P(rest[|rest| - 1]))
    ensures TrimEnd(rest + back, P) == rest
  {
    if back == "" {
      assert rest + back == rest;
    } else {
      var n := |back| - 1;
      assert (rest + back)[..|rest + back| - 1] == rest + back[..n] && back[n] in back;
      TrimEndIs(rest, back[..n], P);
    }
  }

  lemma TrimIs(front: string, middle: string, back: string, P: char -> bool)
    requires forall c :: c in front + back ==> P(c)
    requires middle == "" || (!P(middle[0]) && !P(middle[|middle| - 1]))
    ensures Trim(front + middle + back, P) == middle
  {
    hide TrimStart, TrimEnd;
    if middle == "" {
      assert front + middle + back == (front + back) + "";
      TrimStartIs(front + back, "", P);
      TrimEndIs("", "", P);
    } else {
      assert front + middle + back == front + (middle + back);
      TrimStartIs(front, middle + back, P);
      TrimEndIs(middle, back, P);
    }
  }

  /** Trimming the hyphenated text is hyphenating the text without its outer separators. */
  lemma TrimDashed(s: string)
    ensures Trim(Dashed(s), IsDotOrDash) == Dashed(Trim(s, IsSeparator))
  {
    hide Dashed, Trim;
    var front, back := TrimDrops(s, IsSeparator);
    var core := Trim(s, IsSeparator);
    TrimEnds(s, IsSeparator);
    if core == "" {
      assert s == front + back;
      DashedEmpty();
      SeparatorsDashed(s);
      TrimIs(Dashed(s), "", "", IsDotOrDash);
      assert Dashed(s) + "" + "" == Dashed(s);
    } else {
      DashedSplit(front + core, back);
      DashedSplit(front, core);
      SeparatorsDashed(front);
      SeparatorsDashed(back);
      CoreDashed(core);
      TrimIs(Dashed(front), Dashed(core), Dashed(back), IsDotOrDash);
    }
  }

  lemma TrimEnds(s: string, P: char -> bool)
    ensures var r := Trim(s, P); r != "" ==> !P(r[0]) && !P(r[|r| - 1])
  {
  }

  lemma SeparatorsDashed(s: string)
    requires forall c :: c in s ==> IsSeparator(c)
    ensures forall c :: c in Dashed(s) ==> IsDotOrDash(c)
  {
    hide Dashed;
    if s == "" {
      DashedEmpty();
    } else {
      DashedEnds(s);
    }
  }

  /** A text that starts and ends with no separator does so hyphenated. */
  lemma CoreDashed(core: string)
    requires core != "" && !IsSeparator(core[0]) && !IsSeparator(core[|core| - 1])
    ensures var r := Dashed(core); r != "" && !IsDotOrDash(r[0]) && !IsDotOrDash(r[|r| - 1])
  {
    hide Dashed;
    PeelLast(core);
    assert core == core[..1] + core[1..];
    DashedPlain(core[..1]);
    DashedSplit(core[..1], core[1..]);
  }

  /** The sanitised reference is what is left of it, hyphenated. */
  lemma SegmentReads(reference: string)
    ensures SanitiseSegment(reference) == Dashed(Core(reference))
  {
    hide Dashed, Trim, LockOff, Unlocked;
    var trimmed := Trim(reference, IsSpace);
    UnlockedDashed(trimmed);
    TrimDashed(LockOff(trimmed));
  }

  /** How long a text becomes: each run counts once. */
  function Width(s: string): nat {
    if s == "" then 0 else Width(s[1..]) + (if |s| > 1 && Joins(s[0], s[1]) then 0 else 1)
  }

  /** The first n characters are one run. */
  ghost predicate IsRun(s: string, n: nat) {
    0 < n <= |s| && forall i :: 0 < i < n ==> Joins(s[i - 1], s[i])
  }

  /** Where the run ends that the first n characters are of. */
  lemma RunEnd(s: string, n: nat) returns (end: nat)
    requires IsRun(s, n)
    ensures n <= end && IsRun(s, end)
    ensures end < |s| ==> !Joins(s[end - 1], s[end])
    decreases |s| - n
  {
    hide Joins;
    if n < |s| && Joins(s[n - 1], s[n]) {
      end := RunEnd(s, n + 1);
    } else {
      end := n;
    }
  }

  lemma {:induction false} RunWidth(s: string, n: nat)
    requires IsRun(s, n) && (n < |s| ==> !Joins(s[n - 1], s[n]))
    ensures Width(s) == Width(s[n..]) + 1
  {
    hide Joins;
    if n > 1 {
      assert s[1..][n - 1..] == s[n..];
      assert forall i :: 0 < i < n - 1 ==> s[1..][i - 1] == s[i];
      assert Joins(s[1 - 1], s[1]);
      RunWidth(s[1..], n - 1);
    }
  }

  lemma {:induction false} OneClass(s: string, P: char -> bool)
    requires s != "" && P(s[0]) && forall i :: 0 < i < |s| ==> P(s[i - 1]) ==> P(s[i])
    ensures forall i :: 0 <= i < |s| ==> P(s[i])
  {
    if |s| > 1 {
      var n := |s| - 1;
      OneClass(s[..n], P);
      assert P(s[..n][n - 1]) && P(s[n]);
    }
  }

  lemma {:induction false} AllRun(s: string, P: char -> bool)
    requires forall i :: 0 <= i < |s| ==> P(s[i])
    ensures RunOf(s, P) == |s|
  {
    if s != "" {
      AllRun(s[1..], P);
    }
  }

  lemma RunBecomes(s: string, P: char -> bool, least: nat)
    requires s != "" && 0 < least <= |s| && P(s[0]) && forall i :: 0 < i < |s| ==> P(s[i - 1]) ==> P(s[i])
    ensures DashRuns(s, P, least) == "-"
  {
    OneClass(s, P);
    AllRun(s, P);
    assert s[|s|..] == "";
  }

  /** One run becomes one character. */
  lemma RunDashed(s: string)
    requires IsRun(s, |s|)
    ensures |Dashed(s)| == 1
  {
    hide DashRuns;
    assert |s| > 1 ==> Joins(s[1 - 1], s[1]);
    if |s| == 1 && !IsForbidden(s[0]) && !IsSlash(s[0]) {
      DashedPlain(s);
    } else if IsForbidden(s[0]) {
      RunBecomes(s, IsForbidden, 1);
      DashedPlain("-");
      NoRuns("-", IsForbidden, 1);
    } else if IsDot(s[0]) {
      OneClass(s, IsDot);
      NoRuns(s, IsForbidden, 1);
      RunBecomes(s, IsDot, 2);
      NoRuns("-", IsSlash, 1);
    } else {
      assert IsSlash(s[0]);
      OneClass(s, IsSlash);
      NoRuns(s, IsForbidden, 1);
      NoRuns(s, IsDot, 2);
      RunBecomes(s, IsSlash, 1);
    }
  }

  lemma {:induction false} DashedWidth(s: string)
    ensures |Dashed(s)| == Width(s)
    decreases |s|
  {
    hide Dashed, Joins;
    if s == "" {
      DashedEmpty();
    } else {
      var n := RunEnd(s, 1);
      assert s == s[..n] + s[n..];
      assert n < |s| ==> !Joins(s[..n][n - 1], s[n..][0]);
      DashedSplit(s[..n], s[n..]);
      RunDashed(s[..n]);
      DashedWidth(s[n..]);
      RunWidth(s, n);
    }
  }

  /** Trimming and the suffix taken off lose no control character but white space. */
  lemma ControlInCore(reference: string, c: char)
    requires IsControl(c) && !IsSpace(c)
    ensures c in Core(reference) <==> c in reference
  {
    hide Trim, HasLock, IsControl, IsSpace;
    var trimmed := Trim(reference, IsSpace);
    var front, back := TrimDrops(reference, IsSpace);
    var left, right := TrimDrops(LockOff(trimmed), IsSeparator);
    LockOffKeeps(trimmed);
    ControlIsNoSeparator(c);
    assert c in reference <==> c in trimmed;
    assert c in LockOff(trimmed) <==> c in Core(reference);
  }

  lemma ControlIsNoSeparator(c: char)
    requires IsControl(c) && !IsSpace(c)
    ensures !IsSeparator(c)
  {
  }

  lemma ControlDashed(core: string, c: char)
    requires IsControl(c)
    ensures c in Dashed(core) <==> c in core && !IsSpace(c)
  {
    hide Dashed, IsSpace;
    if core == "" {
      DashedEmpty();
    } else {
      DashedEnds(core);
      if c in core && !IsSpace(c) {
        ControlIsNoSeparator(c);
        DashedKeeps(core, c);
      }
    }
  }

  /** What survives of control characters: all that are not white space, wherever they stand. */
  lemma ControlsStay(reference: string)
    ensures (forall c :: c in SanitiseSegment(reference) ==> !IsControl(c)) <==>
            forall c :: c in reference && IsControl(c) ==> IsSpace(c)
  {
    hide Dashed, SanitiseSegment, Core, IsControl, IsSpace;
    SegmentReads(reference);
    forall c | IsControl(c)
      ensures c in Dashed(Core(reference)) <==> c in reference && !IsSpace(c)
    {
      ControlDashed(Core(reference), c);
      if !IsSpace(c) { ControlInCore(reference, c); }
    }
  }

  lemma LockOffKeeps(s: string)
    ensures forall c :: IsControl(c) ==> (c in LockOff(s) <==> c in s)
  {
    hide Lowered, EndsWith;
    if HasLock(Lowered(s)) {
      LockIsPlain(s);
      assert s == s[..|s| - 5] + s[|s| - 5..];
    }
  }

  lemma LockIsPlain(s: string)
    requires EndsWith(Lowered(s), ".lock")
    ensures |s| >= 5 && forall c :: c in s[|s| - 5..] ==> !IsControl(c)
  {
    hide Lowered;
    LoweredLock(s);
    var word, end := s[|s| - 4..], s[|s| - 5..];
    assert end == "." + word;
    assert forall i :: 0 <= i < 4 ==> !IsControl(word[i]) && end[i + 1] == word[i];
    assert forall i :: 0 <= i < 5 ==> !IsControl(end[i]);
  }

  // ------------------------------------------------------------------------------------------
  // When a composed name passes the rules.

  lemma LockInRest(prefix: Prefix, rest: string)
    requires IsSegment(rest) && rest != ""
    ensures EndsWith(PrefixText(prefix) + "/" + rest, ".lock") <==> EndsWith(rest, ".lock")
  {
    var name := PrefixText(prefix) + "/" + rest;
    if |rest| >= 5 {
      assert name[|name| - 5..] == rest[|rest| - 5..];
    } else {
      assert name[|name| - |rest| - 1] == '/';
      assert name[|name| - 5..][4 - |rest|] == '/';
    }
  }

  /** With nothing else to refuse, length, `.lock` and control characters decide. */
  lemma RulesLeft(name: string)
    requires name != "" && Trim(name, IsSpace) == name
    requires forall c :: c in name ==> !IsForbidden(c)
    requires !HasPair(name, '.') && !HasPair(name, '/')
    requires name[0] != '/' && name[|name| - 1] != '/' && name[|name| - 1] != '.' && name != "@" && !HasBadSegment(name)
    ensures ValidateBranchName(name) == Fine <==>
            |name| <= 255 && !EndsWith(name, ".lock") && forall c :: c in name ==> !IsControl(c)
  {
    hide Trim, HasPair, HasBadSegment, EndsWith;
  }

  lemma PlainHead(prefix: Prefix)
    ensures forall c :: c in PrefixText(prefix) + "/" ==> !IsControl(c)
  {
    hide PrefixText, HasPair;
    PrefixIsPlain(prefix);
  }

  /** Neither the prefix nor a slug brings a control character in. */
  lemma NoControlIn(prefix: Prefix, key: string, tail: string)
    requires IsSlug(tail)
    ensures var name := PrefixText(prefix) + "/" + (if tail == "" then key else key + "-" + tail);
            (forall c :: c in name ==> !IsControl(c)) <==> (forall c :: c in key ==> !IsControl(c))
  {
    hide PrefixText, HasPair;
    PlainHead(prefix);
    var rest := if tail == "" then key else key + "-" + tail;
    var name := PrefixText(prefix) + "/" + rest;
    assert forall c :: c in name <==> c in PrefixText(prefix) + "/" || c in rest;
    assert tail != "" ==> forall c :: c in rest <==> c in key || c == '-' || c in tail;
    assert forall c :: c in tail ==> !IsControl(c);
  }

  lemma ControlInKey(prefix: Prefix, key: string, tail: string)
    requires IsSlug(tail) && key != ""
    ensures var rest := if tail == "" then key else key + "-" + tail;
            var name := PrefixText(prefix) + "/" + rest;
            && ((forall c :: c in name ==> !IsControl(c)) <==> (forall c :: c in key ==> !IsControl(c)))
            && (tail != "" ==> !EndsWith(rest, ".lock"))
  {
    var rest := key + "-" + tail;
    NoControlIn(prefix, key, tail);
    hide IsControl, PrefixText;
    if tail != "" && |rest| >= 5 {
      var end := rest[|rest| - 5..];
      if |tail| < 4 {
        assert end[4 - |tail|] == '-';
      } else if |tail| == 4 {
        assert end[0] == '-';
      } else {
        assert end[0] == tail[|tail| - 5] && tail[|tail| - 5] in tail;
      }
    }
  }

  /** There is something of the title behind the key exactly when it has a letter or digit and there is room. */
  lemma TailIsEmpty(kind: WorkItemType, reference: string, title: string, override: Option<Prefix>)
    ensures Tail(kind, reference, title, override) == "" <==>
            (forall c :: c in title ==> !IsSlugChar(c)) || |Head(kind, reference, override)| >= MAX_BRANCH_LENGTH - 2
  {
    hide Slugify, SanitiseSegment, IsSlug;
    var slug := Slugify(title);
    SlugReadsTitle(title);
    SlugCharsOf(title);
    SlugFirst(slug);
    var room := MAX_BRANCH_LENGTH - |Head(kind, reference, override)| - 1;
    if slug != "" && room > 1 {
      var cut := if |slug| > room then slug[..room] else slug;
      var back := TrimEndDrops(cut, IsDash);
      assert cut[0] == slug[0] && cut[0] in cut;
    }
  }

  lemma SlugFirst(s: string)
    requires IsSlug(s)
    ensures s != "" ==> !IsDash(s[0])
  {
  }

  lemma {:induction false} SlugCharsOf(s: string)
    ensures SlugChars(s) == "" <==> forall c :: c in s ==> !IsSlugChar(c)
  {
    if s != "" {
      SlugCharsOf(s[1..]);
      assert s == [s[0]] + s[1..];
    }
  }

  /**
   * How long a name is without its title: the prefix, a slash and what is left of the reference, each
   * run in it one hyphen.
   */
  function HeadLength(kind: WorkItemType, reference: string, override: Option<Prefix>): nat {
    |PrefixText(if override.Some? then override.value else PrefixFor(kind))| + 1 + Width(Core(reference))
  }

  /** What stands behind the prefix and its slash. */
  function Rest(key: string, tail: string): string {
    if tail == "" then key else key + "-" + tail
  }

  lemma RestPasses(prefix: Prefix, key: string, tail: string)
    requires IsSegment(key) && key != "" && IsSlug(tail)
    ensures var name := PrefixText(prefix) + "/" + Rest(key, tail);
            ValidateBranchName(name) == Fine <==>
              |name| <= 255 && !(tail == "" && EndsWith(key, ".lock")) && forall c :: c in key ==> !IsControl(c)
  {
    hide IsSlug, IsSegment, HasPair, Trim, HasBadSegment, EndsWith, ValidateBranchName, PrefixText, IsControl,
        IsForbidden;
    RestIsSegment(key, tail);
    SlashedName(prefix, Rest(key, tail));
    RulesLeft(PrefixText(prefix) + "/" + Rest(key, tail));
    LockInRest(prefix, Rest(key, tail));
    ControlInKey(prefix, key, tail);
  }

  lemma NameIs(kind: WorkItemType, reference: string, title: string, override: Option<Prefix>)
    ensures var name := BranchNameFor(kind, reference, title, override);
            var key := SanitiseSegment(reference);
            && (name.None? <==> key == "")
            && (name.Some? ==>
                  name.value == PrefixText(if override.Some? then override.value else PrefixFor(kind)) + "/" +
                                Rest(key, Tail(kind, reference, title, override)))
  {
    hide SanitiseSegment, Tail, IsSlug, Slugify, PrefixText, BranchNameFor;
    NameKeepsKey(kind, reference, title, override);
    var prefix := PrefixText(if override.Some? then override.value else PrefixFor(kind));
    var key, tail := SanitiseSegment(reference), Tail(kind, reference, title, override);
    assert prefix + "/" + key + "-" + tail == prefix + "/" + (key + "-" + tail);
  }

  lemma RulesByKey(kind: WorkItemType, reference: string, title: string, override: Option<Prefix>)
    ensures var name := BranchNameFor(kind, reference, title, override);
            var key := SanitiseSegment(reference);
            && (name.None? <==> key == "")
            && (name.Some? ==>
                  (ValidateBranchName(name.value) == Fine <==>
                    && |name.value| <= 255
                    && !(Tail(kind, reference, title, override) == "" && EndsWith(key, ".lock"))
                    && forall c :: c in key ==> !IsControl(c)))
  {
    hide *;
    NameIs(kind, reference, title, override);
    NameKeepsKey(kind, reference, title, override);
    SegmentIsClean(reference);
    if SanitiseSegment(reference) != "" {
      RestPasses(if override.Some? then override.value else PrefixFor(kind), SanitiseSegment(reference),
                 Tail(kind, reference, title, override));
    }
  }

  lemma NameLength(kind: WorkItemType, reference: string, title: string, override: Option<Prefix>)
    ensures |Head(kind, reference, override)| == HeadLength(kind, reference, override)
    ensures var name := BranchNameFor(kind, reference, title, override);
            name.Some? ==> (|name.value| <= 255 <==> HeadLength(kind, reference, override) <= 255)
  {
    hide SanitiseSegment, Core, Dashed, Tail, IsSlug, Slugify, BranchNameFor, Width;
    NameKeepsKey(kind, reference, title, override);
    SegmentReads(reference);
    DashedWidth(Core(reference));
  }

  /**
   * There is a name unless nothing is left of the reference, and it passes the rules exactly when
   * without its title it is within 255 characters, no control character but white space stands in the
   * reference, and what is left of the reference does not end with a `.lock` that would end the name,
   * with no letter or digit in the title or no room for it.
   */
  lemma NamePassesUnless(kind: WorkItemType, reference: string, title: string, override: Option<Prefix>)
    ensures var name := BranchNameFor(kind, reference, title, override);
            var head := HeadLength(kind, reference, override);
            && (name.None? <==> Core(reference) == "")
            && (name.Some? ==>
                  (ValidateBranchName(name.value) == Fine <==>
                    && head <= 255
                    && (forall c :: c in reference && IsControl(c) ==> IsSpace(c))
                    && !(HasLock(Core(reference)) &&
                         ((forall c :: c in title ==> !IsSlugChar(c)) || head >= MAX_BRANCH_LENGTH - 2))))
  {
    hide SanitiseSegment, Core, Dashed, Tail, Head, HeadLength, EndsWith, ValidateBranchName, BranchNameFor, HasLock,
        IsControl, IsSpace, IsSlugChar;
    RulesByKey(kind, reference, title, override);
    SegmentReads(reference);
    CoreIsLeft(Core(reference));
    NameLength(kind, reference, title, override);
    ControlsStay(reference);
    LockInCore(Core(reference));
    TailIsEmpty(kind, reference, title, override);
  }

  lemma CoreIsLeft(core: string)
    ensures Dashed(core) == "" <==> core == ""
  {
    hide Dashed;
    if core == "" {
      DashedEmpty();
    } else {
      DashedEnds(core);
    }
  }

  lemma LockInCore(core: string)
    ensures EndsWith(Dashed(core), ".lock") <==> HasLock(core)
  {
    hide Dashed, EndsWith;
    assert ".lock" == "." + "lock";
    LockKept(core, "lock");
  }

  // ------------------------------------------------------------------------------------------
  // References the sanitising does not clean.

  predicate IsWord(word: string) {
    word != "" && forall i :: 0 <= i < |word| ==> IsLetterOrDigit(word[i])
  }

  lemma LockAfterWord(word: string)
    requires IsWord(word)
    ensures var kept := word + ".lock";
            && HasLock(kept) && kept[0] == word[0] && kept[|kept| - 1] == 'k'
            && !IsSeparator(kept[0]) && !IsSeparator(kept[|kept| - 1])
  {
    var kept := word + ".lock";
    assert kept[|kept| - 5..] == ".lock" && kept[|kept| - 6] == word[|word| - 1];
  }

  lemma LockComesOff(s: string)
    requires s == "" || s[|s| - 1] != '.'
    ensures LockOff(s + ".lock") == s
  {
    hide Lowered, Lower;
    var raw := s + ".lock";
    assert raw[|raw| - 5..] == "." + "lock";
    assert Lowered("lock") == "lock" by { LowerAlready(); }
    LockLowered(raw, "lock");
    assert raw[..|raw| - 5] == s;
  }

  lemma LowerAlready()
    ensures Lowered("lock") == "lock"
  {
  }

  lemma SecondLockIsLeft(word: string)
    requires IsWord(word)
    ensures Core(word + ".lock.lock") == word + ".lock"
  {
    hide Trim, IsWord;
    var raw, kept := word + ".lock.lock", word + ".lock";
    LockAfterWord(word);
    assert raw == kept + ".lock";
    TrimIs("", raw, "", IsSpace);
    assert "" + raw + "" == raw && "" + kept + "" == kept;
    LockComesOff(kept);
    TrimIs("", kept, "", IsSeparator);
  }

  lemma DottedLockIsLeft(word: string)
    requires IsWord(word)
    ensures Core(word + ".lock.") == word + ".lock"
  {
    hide Trim, IsWord;
    var raw, kept := word + ".lock.", word + ".lock";
    LockAfterWord(word);
    assert raw == kept + ".";
    TrimIs("", raw, "", IsSpace);
    assert "" + raw + "" == raw && "" + kept + "." == raw;
    assert Lowered(raw)[|raw| - 1] == '.';
    TrimIs("", kept, ".", IsSeparator);
  }

  /** Its branch, with no title behind it, is refused by the rules the sanitising is there to keep. */
  lemma DoubledLockIsRefused(kind: WorkItemType, word: string, end: string, override: Option<Prefix>)
    requires IsWord(word) && (end == ".lock.lock" || end == ".lock.")
    ensures var name := BranchNameFor(kind, word + end, "", override);
            name.Some? && ValidateBranchName(name.value) != Fine
  {
    hide ValidateBranchName, BranchNameFor, Core, HasLock, IsWord;
    SecondLockIsLeft(word);
    DottedLockIsLeft(word);
    LockAfterWord(word);
    NamePassesUnless(kind, word + end, "", override);
  }

  // ------------------------------------------------------------------------------------------
  // The rules themselves.

  /** A segment starts at i: at the start of the name, or behind a slash. */
  predicate SegmentStarts(name: string, i: int) {
    0 <= i <= |name| && (i == 0 || name[i - 1] == '/')
  }

  /**
   * What the rules leave standing: 1 to 255 characters, none of them white space, a control character or one that
   * git keeps for itself, no two dots in a row, no dot or `.lock` at the end, and no segment that is empty or starts
   * with a dot. Padding, double slashes and slashes at the ends need no rule of their own.
   */
  lemma FineExactly(name: string)
    ensures ValidateBranchName(name) == Fine <==>
            && 0 < |name| <= 255 && name != "@"
            && (forall c :: c in name ==> !IsSpace(c) && c !in "~^:?*[]\\" && c >= ' ' && c != '\U{7f}')
            && (forall i :: 0 <= i < |name| - 1 ==> !(name[i] == '.' && name[i + 1] == '.'))
            && name[|name| - 1] != '.'
            && !(|name| >= 5 && name[|name| - 5..] == ".lock")
            && (forall i :: SegmentStarts(name, i) ==> i < |name| && name[i] != '/' && name[i] != '.')
  {
    hide IsSpace, Trim;
    if name != "" {
      assert name[0] in name && name[|name| - 1] in name;
      assert HasBadSegment(name) <==> exists i :: SegmentStarts(name, i) && IsBadSegment(name, i);
      if HasPair(name, '/') {
        var i :| 0 <= i < |name| - 1 && name[i] == '/' && name[i + 1] == '/';
        assert SegmentStarts(name, i + 1);
      }
      assert SegmentStarts(name, 0);
      assert name[|name| - 1] == '/' ==> SegmentStarts(name, |name|);
      assert forall c :: IsForbidden(c) <==> IsSpace(c) || c in "~^:?*[]\\";
    }
  }
}
