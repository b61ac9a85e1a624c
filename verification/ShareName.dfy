/**
 Deriving a shared-folder name from a host path, and the pattern the agent checks
 it against. Letter case is folded for ASCII letters.
 */
module ShareName {
  import opened Common
  import opened Text

  const MAX_NAME := 64

  /** Suffixes run from 2 up to, not including, this. */
  const SUFFIX_END := 1000

  // ---- what the agent accepts ----

  predicate IsNameChar(c: char) {
    'A' <= c <= 'Z' || 'a' <= c <= 'z' || '0' <= c <= '9' || IsEdge(c)
  }

  predicate IsEdge(c: char) {
    c == '-' || c == '.' || c == '_'
  }

  predicate AllNameChars(s: string) {
    forall i :: 0 <= i < |s| ==> IsNameChar(s[i])
  }

  predicate Accepted(name: string) {
    1 <= |name| <= MAX_NAME && name[0] != '-' && AllNameChars(name)
  }

  // ---- the expression chain ----

  predicate IsSlash(c: char) {
    c == '\\' || c == '/'
  }

  predicate Blank(s: string) {
    forall i :: 0 <= i < |s| ==> IsWebSpace(s[i])
  }

  function IndexOfSlash(s: string): (i: nat)
    ensures i <= |s| && (i < |s| ==> IsSlash(s[i]))
    ensures forall k :: 0 <= k < i ==> !IsSlash(s[k])
  {
    if s == "" || IsSlash(s[0]) then 0 else 1 + IndexOfSlash(s[1..])
  }

  /** The last segment between slashes that is not blank, or the given default. */
  function LastSegment(path: string, default: string): string {
    var i := IndexOfSlash(path);
    var last := if Blank(path[..i]) then default else path[..i];
    if i == |path| then last else LastSegment(path[i + 1..], last)
  }

  /** Each run of characters that are not allowed becomes one dash. */
  function Collapsed(s: string, inRun: bool): string {
    if s == "" then ""
    else if IsNameChar(s[0]) then [s[0]] + Collapsed(s[1..], false)
    else (if inRun then "" else "-") + Collapsed(s[1..], true)
  }

  function DropLeft(s: string): string {
    if s != "" && IsEdge(s[0]) then DropLeft(s[1..]) else s
  }

  function DropRight(s: string): string {
    if s != "" && IsEdge(s[|s| - 1]) then DropRight(s[..|s| - 1]) else s
  }

  function Clip(s: string, n: nat): string {
    if |s| <= n then s else s[..n]
  }

  function BaseName(path: string): string {
    var name := Clip(DropRight(DropLeft(Collapsed(LastSegment(path, ""), false))), MAX_NAME);
    if name == "" then "share" else name
  }

  /** The name with "-i" appended, cut so that the whole still fits. */
  function Candidate(name: string, i: nat): string
    requires i < SUFFIX_END
  {
    Clip(name, MAX_NAME - 1 - |Decimal(i)|) + "-" + Decimal(i)
  }

  // ---- the search ----

  function Taken(existing: seq<string>): set<string> {
    set n | n in existing :: Lower(n)
  }

  predicate Free(name: string, taken: set<string>) {
    Lower(name) !in taken
  }

  function FirstFree(name: string, taken: set<string>, i: nat): string
    requires i <= SUFFIX_END
    decreases SUFFIX_END - i
  {
    if i == SUFFIX_END then name
    else if Free(Candidate(name, i), taken) then Candidate(name, i)
    else FirstFree(name, taken, i + 1)
  }

  function Derived(path: string, existing: seq<string>): string {
    var name, taken := BaseName(path), Taken(existing);
    if Free(name, taken) then name else FirstFree(name, taken, 2)
  }

  lemma SuffixLength(i: nat)
    requires i < SUFFIX_END
    ensures |"-" + Decimal(i)| <= MAX_NAME
  {
  }

  lemma SuffixedIs(name: string, i: nat, suffix: string)
    requires i < SUFFIX_END && suffix == "-" + Decimal(i) && |suffix| <= MAX_NAME
    ensures Clip(name, MAX_NAME - |suffix|) + suffix == Candidate(name, i)
  {
  }

  method DeriveShareName(path: string, existing: seq<string>) returns (share: string)
    ensures share == Derived(path, existing)
  {
    var name, taken := BaseName(path), Taken(existing);
    if Lower(name) !in taken {
      return name;
    }
    var i := 2;
    while i < SUFFIX_END
      invariant 2 <= i <= SUFFIX_END
      invariant FirstFree(name, taken, 2) == FirstFree(name, taken, i)
    {
      var suffix := "-" + Decimal(i);
      SuffixLength(i);
      var candidate := Clip(name, MAX_NAME - |suffix|) + suffix;
      SuffixedIs(name, i, suffix);
      if Lower(candidate) !in taken {
        return candidate;
      }
      i := i + 1;
    }
    return name;
  }

  // ---- always a name the agent accepts ----

  lemma {:induction false} CollapsedChars(s: string, inRun: bool)
    ensures AllNameChars(Collapsed(s, inRun))
    decreases |s|
  {
    if s != "" {
      CollapsedChars(s[1..], !IsNameChar(s[0]));
    }
  }

  lemma {:induction false} DropLeftChars(s: string)
    requires AllNameChars(s)
    ensures AllNameChars(DropLeft(s)) && (DropLeft(s) != "" ==> !IsEdge(DropLeft(s)[0]))
  {
    if s != "" && IsEdge(s[0]) {
      DropLeftChars(s[1..]);
    }
  }

  lemma {:induction false} DropRightChars(s: string)
    requires AllNameChars(s)
    ensures AllNameChars(DropRight(s)) && DropRight(s) <= s
    decreases |s|
  {
    if s != "" && IsEdge(s[|s| - 1]) {
      DropRightChars(s[..|s| - 1]);
    }
  }

  lemma BaseNameAccepted(path: string)
    ensures Accepted(BaseName(path)) && !IsEdge(BaseName(path)[0])
  {
    var collapsed := Collapsed(LastSegment(path, ""), false);
    CollapsedChars(LastSegment(path, ""), false);
    DropLeftChars(collapsed);
    DropRightChars(DropLeft(collapsed));
  }

  lemma CandidateAccepted(name: string, i: nat)
    requires Accepted(name) && i < SUFFIX_END
    ensures Accepted(Candidate(name, i))
  {
    DecimalValue(i);
  }

  lemma {:induction false} FirstFreeAccepted(name: string, taken: set<string>, i: nat)
    requires Accepted(name) && i <= SUFFIX_END
    ensures Accepted(FirstFree(name, taken, i))
    decreases SUFFIX_END - i
  {
    if i < SUFFIX_END {
      CandidateAccepted(name, i);
      FirstFreeAccepted(name, taken, i + 1);
    }
  }

  /** Whatever the path and the names in use, the derived name passes the agent's pattern. */
  lemma DerivedAccepted(path: string, existing: seq<string>)
    ensures Accepted(Derived(path, existing))
  {
    BaseNameAccepted(path);
    FirstFreeAccepted(BaseName(path), Taken(existing), 2);
  }

  lemma {:induction false} CollapsedValid(s: string)
    requires AllNameChars(s)
    ensures Collapsed(s, false) == s
    decreases |s|
  {
    if s != "" {
      CollapsedValid(s[1..]);
    }
  }

  /** A folder whose own name is already a good share name, and not in use, keeps it. */
  lemma GoodNameKept(path: string, existing: seq<string>)
    requires var base := LastSegment(path, "");
             Accepted(base) && !IsEdge(base[0]) && !IsEdge(base[|base| - 1]) && Free(base, Taken(existing))
    ensures Derived(path, existing) == LastSegment(path, "")
  {
    CollapsedValid(LastSegment(path, ""));
  }

  // ---- what a name is repaired to ----

  /** Words of allowed characters with stretches of others between them; only the outer words may be empty. */
  datatype Spelt = Spelt(words: seq<string>, gaps: seq<string>) {
    predicate Ok() {
      && |words| == |gaps| + 1
      && (forall i :: 0 <= i < |words| ==> AllNameChars(words[i]) && (0 < i < |gaps| ==> words[i] != ""))
      && forall i :: 0 <= i < |gaps| ==> gaps[i] != "" && Disallowed(gaps[i])
    }
  }

  predicate Disallowed(s: string) {
    forall i :: 0 <= i < |s| ==> !IsNameChar(s[i])
  }

  function Written(t: Spelt): string
    requires t.Ok()
    decreases |t.words|
  {
    if t.gaps == [] then t.words[0] else t.words[0] + (t.gaps[0] + Written(Rest(t)))
  }

  function Dashed(t: Spelt): string
    requires t.Ok()
    decreases |t.words|
  {
    if t.gaps == [] then t.words[0] else t.words[0] + ("-" + Dashed(Rest(t)))
  }

  function Rest(t: Spelt): (r: Spelt)
    requires t.Ok() && t.gaps != []
    ensures r.Ok() && |r.words| == |t.words| - 1
  {
    Spelt(t.words[1..], t.gaps[1..])
  }

  lemma {:induction false} CollapseWord(word: string, after: string, inRun: bool)
    requires AllNameChars(word)
    ensures Collapsed(word + after, inRun) == word + Collapsed(after, inRun && word == "")
    decreases |word|
  {
    if word == "" {
      assert word + after == after;
    } else {
      assert (word + after)[1..] == word[1..] + after;
      CollapseWord(word[1..], after, false);
    }
  }

  lemma {:induction false} CollapseGap(gap: string, after: string, inRun: bool)
    requires Disallowed(gap) && gap != ""
    ensures Collapsed(gap + after, inRun) == (if inRun then "" else "-") + Collapsed(after, true)
    decreases |gap|
  {
    assert (gap + after)[1..] == gap[1..] + after;
    if |gap| > 1 {
      CollapseGap(gap[1..], after, true);
      assert "" + Collapsed(after, true) == Collapsed(after, true);
    } else {
      assert gap[1..] + after == after;
    }
  }

  /** After a gap, starting inside a run makes no difference unless another gap follows at once. */
  lemma CollapseAfterGap(t: Spelt)
    requires t.Ok() && t.gaps != []
    requires Collapsed(Written(Rest(t)), true) == Dashed(Rest(t))
    ensures Collapsed(Written(t), false) == Dashed(t)
    ensures t.words[0] != "" ==> Collapsed(Written(t), true) == Dashed(t)
  {
    var after := t.gaps[0] + Written(Rest(t));
    CollapseWord(t.words[0], after, false);
    CollapseWord(t.words[0], after, true);
    CollapseGap(t.gaps[0], Written(Rest(t)), false);
  }

  /** Each stretch of characters that are not allowed, however long, becomes one dash; all others stay. */
  lemma {:induction false} CollapsedIsDashed(t: Spelt)
    requires t.Ok()
    ensures Collapsed(Written(t), false) == Dashed(t)
    ensures t.gaps == [] || t.words[0] != "" ==> Collapsed(Written(t), true) == Dashed(t)
    decreases |t.words|
  {
    if t.gaps == [] {
      CollapseWord(t.words[0], "", false);
      CollapseWord(t.words[0], "", true);
      assert t.words[0] + "" == t.words[0];
    } else {
      CollapsedIsDashed(Rest(t));
      CollapseAfterGap(t);
    }
  }

  predicate AllEdges(s: string) {
    forall i :: 0 <= i < |s| ==> IsEdge(s[i])
  }

  predicate EdgeFree(s: string) {
    s != "" ==> !IsEdge(s[0]) && !IsEdge(s[|s| - 1])
  }

  lemma {:induction false} DropLeftIs(edges: string, s: string)
    requires AllEdges(edges) && (s != "" ==> !IsEdge(s[0]))
    ensures DropLeft(edges + s) == s
    decreases |edges|
  {
    if edges == "" {
      assert edges + s == s;
    } else {
      assert (edges + s)[1..] == edges[1..] + s;
      DropLeftIs(edges[1..], s);
    }
  }

  lemma {:induction false} DropRightIs(s: string, edges: string)
    requires AllEdges(edges) && (s != "" ==> !IsEdge(s[|s| - 1]))
    ensures DropRight(s + edges) == s
    decreases |edges|
  {
    if edges == "" {
      assert s + edges == s;
    } else {
      assert (s + edges)[..|s + edges| - 1] == s + edges[..|edges| - 1];
      DropRightIs(s, edges[..|edges| - 1]);
    }
  }

  lemma EdgesDropped(before: string, core: string, after: string)
    requires AllEdges(before) && AllEdges(after) && EdgeFree(core)
    ensures DropRight(DropLeft(before + core + after)) == core
  {
    if core == "" {
      assert before + core + after == (before + after) + "";
      DropLeftIs(before + after, "");
    } else {
      assert before + core + after == before + (core + after);
      DropLeftIs(before, core + after);
      DropRightIs(core, after);
    }
  }

  /**
   What a folder's name is repaired to: with each stretch of disallowed characters as
   one dash, and dashes, dots and underscores at either end dropped, its first 64
   characters; or "share" if nothing is left.
   */
  lemma RepairedName(path: string, t: Spelt, before: string, core: string, after: string)
    requires t.Ok() && LastSegment(path, "") == Written(t)
    requires Dashed(t) == before + core + after && AllEdges(before) && AllEdges(after) && EdgeFree(core)
    ensures BaseName(path) == if core == "" then "share" else if |core| <= 64 then core else core[..64]
  {
    CollapsedIsDashed(t);
    EdgesDropped(before, core, after);
  }

  // ---- which segment is taken ----

  predicate NoSlash(s: string) {
    forall i :: 0 <= i < |s| ==> !IsSlash(s[i])
  }

  /** Blank segments, each after a slash. */
  predicate BlankTail(s: string) {
    (s != "" ==> IsSlash(s[0])) && forall i :: 0 <= i < |s| ==> IsSlash(s[i]) || IsWebSpace(s[i])
  }

  lemma IndexOfSlashIs(seg: string, after: string)
    requires NoSlash(seg) && (after != "" ==> IsSlash(after[0]))
    ensures IndexOfSlash(seg + after) == |seg|
  {
    var s, i := seg + after, IndexOfSlash(seg + after);
    assert forall k :: 0 <= k < |seg| ==> s[k] == seg[k];
    if after != "" {
      assert s[|seg|] == after[0];
    }
  }

  lemma {:induction false} TailKeepsDefault(s: string, default: string)
    requires forall i :: 0 <= i < |s| ==> IsSlash(s[i]) || IsWebSpace(s[i])
    ensures LastSegment(s, default) == default
    decreases |s|
  {
    var i := IndexOfSlash(s);
    assert forall k :: 0 <= k < i ==> IsWebSpace(s[k]);
    if i < |s| {
      TailKeepsDefault(s[i + 1..], default);
    }
  }

  lemma SegmentThenBlank(seg: string, after: string, default: string)
    requires NoSlash(seg) && !Blank(seg) && BlankTail(after)
    ensures LastSegment(seg + after, default) == seg
  {
    IndexOfSlashIs(seg, after);
    assert (seg + after)[..|seg|] == seg;
    if after != "" {
      assert (seg + after)[|seg| + 1..] == after[1..];
      TailKeepsDefault(after[1..], seg);
    }
  }

  lemma CutAtSlash(before: string, tail: string, i: nat)
    requires i < |before| && IsSlash(before[i]) && NoSlash(before[..i])
    ensures IndexOfSlash(before + tail) == i
    ensures (before + tail)[..i] == before[..i] && (before + tail)[i + 1..] == before[i + 1..] + tail
  {
    assert before + tail == before[..i] + (before[i..] + tail);
    assert (before[i..] + tail)[0] == before[i];
    IndexOfSlashIs(before[..i], before[i..] + tail);
  }

  lemma {:induction false} SkipBefore(before: string, tail: string, seg: string, default: string)
    requires before == "" || IsSlash(before[|before| - 1])
    requires forall d :: LastSegment(tail, d) == seg
    ensures LastSegment(before + tail, default) == seg
    decreases |before|
  {
    if before == "" {
      assert before + tail == tail;
    } else {
      var i := IndexOfSlash(before);
      FirstSlash(before);
      CutAtSlash(before, tail, i);
      SkipBefore(before[i + 1..], tail, seg, if Blank(before[..i]) then default else before[..i]);
    }
  }

  /** The segment taken is the last one that is not blank, whatever stands before its slash and only blank ones behind. */
  lemma LastSegmentIs(before: string, seg: string, after: string, default: string)
    requires before == "" || IsSlash(before[|before| - 1])
    requires NoSlash(seg) && !Blank(seg) && BlankTail(after)
    ensures LastSegment(before + (seg + after), default) == seg
  {
    forall d
      ensures LastSegment(seg + after, d) == seg
    {
      SegmentThenBlank(seg, after, d);
    }
    SkipBefore(before, seg + after, seg, default);
  }

  lemma FirstSlash(s: string)
    requires s != "" && IsSlash(s[|s| - 1])
    ensures IndexOfSlash(s) < |s| && NoSlash(s[..IndexOfSlash(s)])
  {
  }

  /** A path with no other segments than blank ones is shared as "share". */
  lemma BlankPath(path: string)
    requires forall i :: 0 <= i < |path| ==> IsSlash(path[i]) || IsWebSpace(path[i])
    ensures BaseName(path) == "share"
  {
    TailKeepsDefault(path, "");
  }

  // ---- unique unless there are too many ----

  /** c ends in a dash and then d. */
  predicate EndsIn(c: string, d: string) {
    |c| > |d| && c[|c| - |d|..] == d && c[|c| - |d| - 1] == '-'
  }

  lemma CandidateEnd(name: string, i: nat)
    requires i < SUFFIX_END
    ensures EndsIn(Lower(Candidate(name, i)), Decimal(i))
  {
    DecimalValue(i);
    var c, d := Candidate(name, i), Decimal(i);
    assert c[|c| - |d|..] == d && c[|c| - |d| - 1] == '-';
    forall k | 0 <= k < |d|
      ensures Lower(c)[|c| - |d|..][k] == d[k]
    {
      assert c[|c| - |d| + k] == c[|c| - |d|..][k];
    }
  }

  lemma ShorterNumber(c: string, a: string, b: string)
    requires EndsIn(c, a) && EndsIn(c, b) && AllDigits(b)
    ensures |a| >= |b|
  {
    forall k | |c| - |b| <= k < |c|
      ensures c[k] != '-'
    {
      assert c[|c| - |b|..][k - (|c| - |b|)] == c[k] && IsDigit(b[k - (|c| - |b|)]);
    }
  }

  lemma EndingUnique(c: string, a: string, b: string)
    requires EndsIn(c, a) && EndsIn(c, b) && AllDigits(a) && AllDigits(b)
    ensures a == b
  {
    ShorterNumber(c, a, b);
    ShorterNumber(c, b, a);
  }

  lemma CandidatesDistinct(name: string, i: nat, j: nat)
    requires i < SUFFIX_END && j < SUFFIX_END && Lower(Candidate(name, i)) == Lower(Candidate(name, j))
    ensures i == j
  {
    CandidateEnd(name, i);
    CandidateEnd(name, j);
    DecimalValue(i);
    DecimalValue(j);
    EndingUnique(Lower(Candidate(name, i)), Decimal(i), Decimal(j));
  }

  /** The candidates numbered below n, folded. */
  ghost function Candidates(name: string, n: nat): set<string>
    requires n <= SUFFIX_END
  {
    set i: nat | 2 <= i < n :: Lower(Candidate(name, i))
  }

  lemma CandidatesGrow(name: string, n: nat)
    requires 2 <= n < SUFFIX_END
    ensures Candidates(name, n + 1) == Candidates(name, n) + {Lower(Candidate(name, n))}
  {
  }

  lemma CandidateNew(name: string, n: nat)
    requires 2 <= n < SUFFIX_END
    ensures Lower(Candidate(name, n)) !in Candidates(name, n)
  {
    forall i: nat | 2 <= i < n
      ensures Lower(Candidate(name, i)) != Lower(Candidate(name, n))
    {
      if Lower(Candidate(name, i)) == Lower(Candidate(name, n)) {
        CandidatesDistinct(name, i, n);
      }
    }
  }

  lemma {:induction false} CandidatesCount(name: string, n: nat)
    requires 2 <= n <= SUFFIX_END
    ensures |Candidates(name, n)| == n - 2
  {
    if n > 2 {
      CandidatesCount(name, n - 1);
      CandidatesGrow(name, n - 1);
      CandidateNew(name, n - 1);
    }
  }

  lemma {:induction false} TakenCount(existing: seq<string>)
    ensures |Taken(existing)| <= |existing|
  {
    if existing != [] {
      TakenCount(existing[1..]);
      assert Taken(existing) == Taken(existing[1..]) + {Lower(existing[0])};
    }
  }

  ghost predicate SomeFree(name: string, taken: set<string>, i: nat) {
    exists j: nat :: i <= j < SUFFIX_END && Free(Candidate(name, j), taken)
  }

  lemma SomeFreeStep(name: string, taken: set<string>, i: nat)
    requires i < SUFFIX_END
    ensures SomeFree(name, taken, i) <==> Free(Candidate(name, i), taken) || SomeFree(name, taken, i + 1)
  {
  }

  lemma {:induction false} FirstFreeIff(name: string, taken: set<string>, i: nat)
    requires i <= SUFFIX_END && !Free(name, taken)
    ensures Free(FirstFree(name, taken, i), taken) <==> SomeFree(name, taken, i)
    decreases SUFFIX_END - i
  {
    if i < SUFFIX_END {
      SomeFreeStep(name, taken, i);
      FirstFreeIff(name, taken, i + 1);
    }
  }

  /** The derived name is in use only if the base name and every numbered candidate are. */
  lemma DerivedFreeIff(path: string, existing: seq<string>)
    ensures var name, taken := BaseName(path), Taken(existing);
            Free(Derived(path, existing), taken) <==> Free(name, taken) || !(Candidates(name, SUFFIX_END) <= taken)
  {
    var name, taken := BaseName(path), Taken(existing);
    if !Free(name, taken) {
      FirstFreeIff(name, taken, 2);
      if !(Candidates(name, SUFFIX_END) <= taken) {
        var c :| c in Candidates(name, SUFFIX_END) && c !in taken;
        var j: nat :| 2 <= j < SUFFIX_END && c == Lower(Candidate(name, j));
        assert Free(Candidate(name, j), taken);
      }
    }
  }

  /** None of the candidates numbered from i up to, not including, k is unused. */
  ghost predicate NoneFree(name: string, taken: set<string>, i: nat, k: nat) {
    forall j: nat :: i <= j < k && j < SUFFIX_END ==> !Free(Candidate(name, j), taken)
  }

  /** d is the unused candidate of the lowest number from i on. */
  ghost predicate LowestFree(name: string, taken: set<string>, i: nat, d: string) {
    exists k: nat :: i <= k < SUFFIX_END && d == Candidate(name, k) && Free(d, taken) && NoneFree(name, taken, i, k)
  }

  lemma LowestFreeStep(name: string, taken: set<string>, i: nat, d: string)
    requires i < SUFFIX_END && !Free(Candidate(name, i), taken)
    ensures LowestFree(name, taken, i + 1, d) ==> LowestFree(name, taken, i, d)
    ensures NoneFree(name, taken, i + 1, SUFFIX_END) ==> NoneFree(name, taken, i, SUFFIX_END)
  {
    if LowestFree(name, taken, i + 1, d) {
      var k: nat :| i + 1 <= k < SUFFIX_END && d == Candidate(name, k) && Free(d, taken) && NoneFree(name, taken, i + 1, k);
      assert NoneFree(name, taken, i, k);
    }
  }

  lemma {:induction false} FirstFreeMeans(name: string, taken: set<string>, i: nat)
    requires i <= SUFFIX_END
    ensures LowestFree(name, taken, i, FirstFree(name, taken, i))
            || (FirstFree(name, taken, i) == name && NoneFree(name, taken, i, SUFFIX_END))
    decreases SUFFIX_END - i
  {
    if i < SUFFIX_END {
      if Free(Candidate(name, i), taken) {
        assert NoneFree(name, taken, i, i);
      } else {
        FirstFreeMeans(name, taken, i + 1);
        LowestFreeStep(name, taken, i, FirstFree(name, taken, i + 1));
      }
    }
  }

  /** An unused name is kept as it is; a used one gets the lowest number from 2 that makes it unused, if any does. */
  lemma DerivedIsLowest(path: string, existing: seq<string>)
    ensures var name, taken, d := BaseName(path), Taken(existing), Derived(path, existing);
            if Free(name, taken) then d == name
            else LowestFree(name, taken, 2, d) || (d == name && NoneFree(name, taken, 2, SUFFIX_END))
  {
    FirstFreeMeans(BaseName(path), Taken(existing), 2);
  }

  /**
   With fewer than 998 names in use the derived name differs from all of them, case
   aside: its 998 numbered candidates are pairwise distinct, so one of them is free.
   */
  lemma DerivedFresh(path: string, existing: seq<string>)
    requires |existing| < 998
    ensures forall n :: n in existing ==> Lower(n) != Lower(Derived(path, existing))
  {
    var name, taken := BaseName(path), Taken(existing);
    DerivedFreeIff(path, existing);
    CandidatesCount(name, SUFFIX_END);
    TakenCount(existing);
    if Candidates(name, SUFFIX_END) <= taken {
      SubsetSize(Candidates(name, SUFFIX_END), taken);
    }
    forall n | n in existing
      ensures Lower(n) != Lower(Derived(path, existing))
    {
      assert Lower(n) in taken;
    }
  }
}
