/** SplitMessage and its boundary finders (internal/connectors/split.go), on runes. */
module MessageSplit {

  /** unicode.IsSpace, which strings.TrimSpace cuts away. */
  predicate IsSpace(c: char) {
    var n := c as int;
    9 <= n <= 13 || n == 32 || n == 0x85 || n == 0xA0 || n == 0x1680 || 0x2000 <= n <= 0x200A
    || n == 0x2028 || n == 0x2029 || n == 0x202F || n == 0x205F || n == 0x3000
  }

  predicate AllSpace(s: string) {
    forall i :: 0 <= i < |s| ==> IsSpace(s[i])
  }

  /** The characters a word never contains. */
  predicate IsBreak(c: char) {
    c == ' ' || c == '\n'
  }

  // ---------------------------------------------------------------- boundary finders

  predicate DoubleNewlineAt(s: string, i: int) {
    1 <= i < |s| && s[i] == '\n' && s[i - 1] == '\n'
  }

  /** The promise: just after the last "\n\n", or -1 without one. */
  predicate IsLastPair(s: string, idx: int) {
    if idx == -1 then forall i :: 1 <= i < |s| ==> !DoubleNewlineAt(s, i)
    else 2 <= idx <= |s| && DoubleNewlineAt(s, idx - 1) && forall i :: idx <= i < |s| ==> !DoubleNewlineAt(s, i)
  }

  /** What is found: the last pair that ends before the last character. */
  predicate IsInnerPair(s: string, idx: int) {
    if idx == -1 then forall i :: 1 <= i < |s| - 1 ==> !DoubleNewlineAt(s, i)
    else 2 <= idx < |s| && DoubleNewlineAt(s, idx - 1) && forall i :: idx <= i < |s| - 1 ==> !DoubleNewlineAt(s, i)
  }

  /** The loop starts one character early, so it keeps its promise exactly when no pair ends in
      the last character. */
  method LastIndexDoubleNewline(s: string) returns (idx: int)
    ensures IsInnerPair(s, idx)
    ensures IsLastPair(s, idx) <==> !DoubleNewlineAt(s, |s| - 1)
  {
    var i := |s| - 2;
    while i >= 1
      invariant i <= |s| - 2
      invariant forall k :: i < k < |s| - 1 && k >= 1 ==> !DoubleNewlineAt(s, k)
    {
      if s[i] == '\n' && s[i - 1] == '\n' {
        return i + 1;
      }
      i := i - 1;
    }
    return -1;
  }

  /** A chunk on which it does not: the pair is there and is not found. */
  lemma PairAtEndIsMissed(idx: int)
    requires IsInnerPair("a\n\n", idx)
    ensures idx == -1 && IsLastPair("a\n\n", 3)
  {
    assert DoubleNewlineAt("a\n\n", 2);
  }

  predicate SentenceEndAt(s: string, i: int) {
    1 <= i < |s| && s[i - 1] in {'.', '!', '?'} && IsBreak(s[i])
  }

  method LastSentenceBoundary(s: string) returns (idx: int)
    ensures idx == -1 ==> forall i :: 1 <= i < |s| ==> !SentenceEndAt(s, i)
    ensures idx != -1 ==> SentenceEndAt(s, idx) && forall i :: idx < i < |s| ==> !SentenceEndAt(s, i)
  {
    var i := |s| - 1;
    while i >= 1
      invariant i <= |s| - 1
      invariant forall k :: i < k < |s| && k >= 1 ==> !SentenceEndAt(s, k)
    {
      if s[i - 1] in {'.', '!', '?'} && IsBreak(s[i]) {
        return i;
      }
      i := i - 1;
    }
    return -1;
  }

  /** Just after the last c. */
  method LastIndexRune(s: string, c: char) returns (idx: int)
    ensures idx == -1 ==> c !in s
    ensures idx != -1 ==> 1 <= idx <= |s| && s[idx - 1] == c && c !in s[idx..]
  {
    var i := |s| - 1;
    while i >= 0
      invariant -1 <= i < |s|
      invariant forall k :: i < k < |s| ==> s[k] != c
    {
      if s[i] == c {
        return i + 1;
      }
      i := i - 1;
    }
    return -1;
  }

  // ---------------------------------------------------------------- what a split must satisfy

  /** A cut at c is next to a space or newline, or ends maxLen characters without any. */
  predicate CutOk(text: string, c: nat, maxLen: int) {
    0 < c <= |text|
    && (IsBreak(text[c - 1]) || (c < |text| && IsBreak(text[c]))
        || (0 <= c - maxLen && forall i :: c - maxLen <= i < c ==> !IsBreak(text[i])))
  }

  /** A maximal run of characters other than space and newline. */
  predicate IsWord(text: string, p: nat, q: nat) {
    p < q <= |text|
    && (forall i :: p <= i < q ==> !IsBreak(text[i]))
    && (p == 0 || IsBreak(text[p - 1])) && (q == |text| || IsBreak(text[q]))
  }

  datatype Segment = Segment(from: nat, to: nat)

  predicate PartOk(text: string, part: string, seg: Segment, maxLen: int) {
    seg.from < seg.to <= |text| && part == text[seg.from..seg.to] && |part| <= maxLen
  }

  ghost predicate InOrder(segs: seq<Segment>) {
    forall j, k :: 0 <= j < k < |segs| ==> segs[j].to <= segs[k].from
  }

  ghost predicate Covered(segs: seq<Segment>, i: nat) {
    exists k :: 0 <= k < |segs| && segs[k].from <= i < segs[k].to
  }

  /** Everything before `upTo` that is in no part is whitespace. */
  ghost predicate OnlySpaceOutside(text: string, segs: seq<Segment>, upTo: nat)
    requires upTo <= |text|
  {
    forall i :: 0 <= i < upTo ==> IsSpace(text[i]) || Covered(segs, i)
  }

  /** No word of at most maxLen characters reaches into two parts. */
  ghost predicate WordsWhole(text: string, segs: seq<Segment>, maxLen: int) {
    forall j, k, p: nat, q: nat :: 0 <= j < k < |segs| && IsWord(text, p, q) && q - p <= maxLen
      ==> segs[j].to <= p || q <= segs[k].from
  }

  /** cuts[k] lies between part k and part k + 1. */
  ghost predicate CutsBetween(text: string, segs: seq<Segment>, cuts: seq<nat>, pos: nat, maxLen: int) {
    |cuts| == |segs|
    && (forall k :: 0 <= k < |segs| ==> segs[k].to <= cuts[k] <= pos && CutOk(text, cuts[k], maxLen))
    && (forall j, k :: 0 <= j < k < |segs| ==> cuts[j] <= segs[k].from)
  }

  lemma WordNotCut(text: string, c: nat, p: nat, q: nat, maxLen: int)
    requires CutOk(text, c, maxLen) && IsWord(text, p, q) && q - p <= maxLen
    ensures c <= p || q <= c
  {
  }

  lemma CutsKeepWords(text: string, segs: seq<Segment>, cuts: seq<nat>, last: Segment, pos: nat, maxLen: int)
    requires CutsBetween(text, segs, cuts, pos, maxLen) && pos <= last.from
    ensures WordsWhole(text, segs + [last], maxLen)
  {
    var all := segs + [last];
    forall j, k, p: nat, q: nat | 0 <= j < k < |all| && IsWord(text, p, q) && q - p <= maxLen
      ensures all[j].to <= p || q <= all[k].from
    {
      WordNotCut(text, cuts[j], p, q, maxLen);
    }
  }

  // ---------------------------------------------------------------- trimming

  function SkipLeft(s: string): (n: nat)
    ensures n <= |s| && (n < |s| ==> !IsSpace(s[n])) && forall i :: 0 <= i < n ==> IsSpace(s[i])
  {
    if s == [] || !IsSpace(s[0]) then 0 else 1 + SkipLeft(s[1..])
  }

  function SkipRight(s: string): (n: nat)
    ensures n <= |s| && (n > 0 ==> !IsSpace(s[n - 1])) && forall i :: n <= i < |s| ==> IsSpace(s[i])
  {
    if s == [] then 0 else if !IsSpace(s[|s| - 1]) then |s| else SkipRight(s[..|s| - 1])
  }

  /** strings.TrimSpace. */
  function TrimSpace(s: string): string {
    var l, r := SkipLeft(s), SkipRight(s);
    if l >= r then [] else s[l..r]
  }

  // ---------------------------------------------------------------- splitting

  ghost predicate HasParagraph(s: string) {
    exists i :: 1 <= i < |s| && DoubleNewlineAt(s, i)
  }

  /** A paragraph break that the search finds. */
  ghost predicate HasInnerParagraph(s: string) {
    exists i :: 1 <= i < |s| - 1 && DoubleNewlineAt(s, i)
  }

  ghost predicate HasSentence(s: string) {
    exists i :: 1 <= i < |s| && SentenceEndAt(s, i)
  }

  /** b is just after the last c. */
  predicate AfterLast(s: string, c: char, b: nat) {
    1 <= b <= |s| && s[b - 1] == c && c !in s[b..]
  }

  /** Without a paragraph break: the last sentence end, else the last space, else the last
      newline, else the whole chunk. */
  ghost predicate IsLesserBreak(s: string, b: nat) {
    if HasSentence(s) then SentenceEndAt(s, b) && forall i :: b < i < |s| ==> !SentenceEndAt(s, i)
    else if ' ' in s then AfterLast(s, ' ', b)
    else if '\n' in s then AfterLast(s, '\n', b)
    else b == |s|
  }

  /** The documented choice: the last paragraph break first. */
  ghost predicate IsPromisedBreak(s: string, b: nat) {
    if HasParagraph(s) then IsLastPair(s, b) else IsLesserBreak(s, b)
  }

  /** The choice made. */
  ghost predicate IsBreakPoint(s: string, b: nat) {
    if HasInnerParagraph(s) then IsInnerPair(s, b) else IsLesserBreak(s, b)
  }

  /** The choice is the documented one exactly when no blank line ends the chunk, or the newline
      rule finds it: there is no other paragraph break, no sentence end and no space. */
  lemma BreakPointKeepsPromiseIff(s: string, b: nat)
    requires s != [] && IsBreakPoint(s, b)
    ensures IsPromisedBreak(s, b) <==>
              !DoubleNewlineAt(s, |s| - 1) || (!HasInnerParagraph(s) && !HasSentence(s) && ' ' !in s)
  {
    if DoubleNewlineAt(s, |s| - 1) {
      assert HasParagraph(s) && s[|s| - 1] == '\n';
    } else {
      assert HasParagraph(s) <==> HasInnerParagraph(s);
    }
  }

  method BreakPoint(chunk: string) returns (breakAt: nat)
    requires chunk != []
    ensures IsBreakPoint(chunk, breakAt)
    ensures 1 <= breakAt <= |chunk|
    ensures IsBreak(chunk[breakAt - 1]) || (breakAt < |chunk| && IsBreak(chunk[breakAt]))
            || (breakAt == |chunk| && forall i :: 0 <= i < |chunk| ==> !IsBreak(chunk[i]))
  {
    var at := -1;
    var idx := LastIndexDoubleNewline(chunk);
    if idx > 0 {
      at := idx;
    }
    if at < 0 {
      at := LastSentenceBoundary(chunk);
    }
    if at < 0 {
      at := LastIndexRune(chunk, ' ');
    }
    if at < 0 {
      at := LastIndexRune(chunk, '\n');
    }
    if at < 0 {
      at := |chunk|;
    }
    breakAt := at;
  }

  method SkipLeading(s: string) returns (n: nat)
    ensures n <= |s| && AllSpace(s[..n])
    ensures n < |s| ==> s[n] !in {' ', '\n', '\r'}
    ensures (AllSkipped(s) ==> n == |s|) && (EndsUnskipped(s) ==> n < |s|)
  {
    n := 0;
    while n < |s| && (s[n] == ' ' || s[n] == '\n' || s[n] == '\r')
      invariant n <= |s| && forall i :: 0 <= i < n ==> IsSpace(s[i]) && s[i] in {' ', '\n', '\r'}
    {
      n := n + 1;
    }
  }

  /** The parts found so far account for the text before pos. */
  ghost predicate Progress(text: string, parts: seq<string>, segs: seq<Segment>, cuts: seq<nat>,
                           pos: nat, maxLen: int) {
    pos <= |text| && |parts| == |segs|
    && (forall k :: 0 <= k < |parts| ==> PartOk(text, parts[k], segs[k], maxLen))
    && InOrder(segs) && OnlySpaceOutside(text, segs, pos) && CutsBetween(text, segs, cuts, pos, maxLen)
  }

  ghost predicate SplitOk(text: string, parts: seq<string>, segs: seq<Segment>, maxLen: int) {
    |parts| == |segs|
    && (forall k :: 0 <= k < |parts| ==> PartOk(text, parts[k], segs[k], maxLen))
    && InOrder(segs) && OnlySpaceOutside(text, segs, |text|) && WordsWhole(text, segs, maxLen)
  }

  lemma CutHolds(text: string, pos: nat, breakAt: nat, maxLen: int)
    requires maxLen > 0 && pos + maxLen <= |text| && 1 <= breakAt <= maxLen
    requires var chunk := text[pos..][..maxLen];
             IsBreak(chunk[breakAt - 1]) || (breakAt < |chunk| && IsBreak(chunk[breakAt]))
             || (breakAt == |chunk| && forall i :: 0 <= i < |chunk| ==> !IsBreak(chunk[i]))
    ensures CutOk(text, pos + breakAt, maxLen)
  {
    var chunk := text[pos..][..maxLen];
    assert chunk == text[pos..pos + maxLen];
    if breakAt == maxLen && forall i :: 0 <= i < |chunk| ==> !IsBreak(chunk[i]) {
      forall i | pos <= i < pos + maxLen ensures !IsBreak(text[i]) {
        assert text[i] == chunk[i - pos];
      }
    }
  }

  lemma CoverMore(text: string, segs: seq<Segment>, seg: Segment, pos: nat, upTo: nat)
    requires pos <= upTo <= |text| && pos <= seg.from <= seg.to <= upTo && OnlySpaceOutside(text, segs, pos)
    requires forall i :: pos <= i < upTo && !(seg.from <= i < seg.to) ==> IsSpace(text[i])
    ensures OnlySpaceOutside(text, segs + [seg], upTo)
  {
    var all := segs + [seg];
    forall i | 0 <= i < upTo ensures IsSpace(text[i]) || Covered(all, i) {
      if i >= pos {
        assert all[|segs|] == seg;
      } else if Covered(segs, i) {
        var k :| 0 <= k < |segs| && segs[k].from <= i < segs[k].to;
        assert all[k] == segs[k];
      }
    }
  }

  lemma AppendCut(text: string, segs: seq<Segment>, cuts: seq<nat>, pos: nat, seg: Segment, cut: nat, maxLen: int)
    requires InOrder(segs) && CutsBetween(text, segs, cuts, pos, maxLen) && CutOk(text, cut, maxLen)
    requires pos <= seg.from <= seg.to <= cut
    ensures InOrder(segs + [seg]) && CutsBetween(text, segs + [seg], cuts + [cut], cut, maxLen)
  {
  }

  lemma TrimmedPart(text: string, pos: nat, cut: nat, maxLen: int, part: string) returns (seg: Segment)
    requires pos < cut <= pos + maxLen && cut <= |text| && part != [] && IsTrim(text[pos..cut], part)
    ensures pos <= seg.from && seg.to <= cut && PartOk(text, part, seg, maxLen)
    ensures forall i :: pos <= i < cut && !(seg.from <= i < seg.to) ==> IsSpace(text[i])
  {
    var s := text[pos..cut];
    var l, r :| 0 <= l < r <= |s| && TrimsTo(s, part, l, r);
    seg := Segment(pos + l, pos + r);
    SliceOfSlice(text, pos, cut, l, r);
    OutsideIsSpace(text, pos, cut, l, r);
  }

  predicate TrimsTo(s: string, part: string, l: nat, r: nat)
    requires l <= r <= |s|
  {
    part == s[l..r] && AllSpace(s[..l]) && AllSpace(s[r..])
  }

  /** part is s without the whitespace at its ends. */
  ghost predicate IsTrim(s: string, part: string) {
    if part == [] then AllSpace(s) else exists l, r :: 0 <= l < r <= |s| && TrimsTo(s, part, l, r)
  }

  lemma TrimSpaceTrims(s: string)
    ensures IsTrim(s, TrimSpace(s))
  {
    if TrimSpace(s) == [] {
      TrimsToNothing(s);
    } else {
      var l, r := Trimmed(s);
      assert TrimsTo(s, TrimSpace(s), l, r);
    }
  }

  /** What TrimSpace keeps, as positions. */
  lemma Trimmed(s: string) returns (l: nat, r: nat)
    requires TrimSpace(s) != []
    ensures l < r <= |s| && TrimSpace(s) == s[l..r]
    ensures AllSpace(s[..l]) && AllSpace(s[r..])
  {
    l, r := SkipLeft(s), SkipRight(s);
  }

  lemma OutsideIsSpace(text: string, pos: nat, cut: nat, l: nat, r: nat)
    requires pos <= cut <= |text| && l < r <= cut - pos
    requires AllSpace(text[pos..cut][..l]) && AllSpace(text[pos..cut][r..])
    ensures forall i :: pos <= i < cut && !(pos + l <= i < pos + r) ==> IsSpace(text[i])
  {
    var s := text[pos..cut];
    forall i | pos <= i < cut && !(pos + l <= i < pos + r) ensures IsSpace(text[i]) {
      if i < pos + l { assert s[..l][i - pos] == text[i]; } else { assert s[r..][i - pos - r] == text[i]; }
    }
  }

  lemma SliceOfSlice(text: string, a: nat, b: nat, l: nat, r: nat)
    requires a <= b <= |text| && l <= r <= b - a
    ensures text[a..b][l..r] == text[a + l..a + r]
  {
    assert |text[a..b][l..r]| == |text[a + l..a + r]|;
    forall k | 0 <= k < r - l ensures text[a..b][l..r][k] == text[a + l..a + r][k] {}
  }

  /** Recording a non-blank part found between pos and the cut. */
  lemma AddPart(text: string, parts: seq<string>, segs: seq<Segment>, cuts: seq<nat>, pos: nat, cut: nat, maxLen: int,
                part: string)
    returns (seg: Segment)
    requires Progress(text, parts, segs, cuts, pos, maxLen)
    requires pos < cut <= pos + maxLen && cut <= |text| && CutOk(text, cut, maxLen)
    requires part != [] && IsTrim(text[pos..cut], part)
    ensures Progress(text, parts + [part], segs + [seg], cuts + [cut], cut, maxLen)
  {
    seg := TrimmedPart(text, pos, cut, maxLen, part);
    CoverMore(text, segs, seg, pos, cut);
    AppendCut(text, segs, cuts, pos, seg, cut, maxLen);
  }

  lemma TrimsToNothing(s: string)
    requires TrimSpace(s) == []
    ensures AllSpace(s)
  {
    assert SkipLeft(s) >= SkipRight(s) || |TrimSpace(s)| > 0;
  }

  /** Moving on over whitespace that is in no part. */
  lemma SkipKeeps(text: string, parts: seq<string>, segs: seq<Segment>, cuts: seq<nat>, pos: nat, to: nat, maxLen: int)
    requires Progress(text, parts, segs, cuts, pos, maxLen) && pos <= to <= |text|
    requires AllSpace(text[pos..to])
    ensures Progress(text, parts, segs, cuts, to, maxLen)
  {
    forall i | pos <= i < to ensures IsSpace(text[i]) {
      assert text[i] == text[pos..to][i - pos];
    }
  }

  /** One round of the loop: the part before the cut, then the whitespace skipped after it. */
  lemma Round(text: string, parts: seq<string>, segs: seq<Segment>, cuts: seq<nat>,
              pos: nat, cut: nat, to: nat, maxLen: int, part: string)
    returns (segs': seq<Segment>, cuts': seq<nat>)
    requires Progress(text, parts, segs, cuts, pos, maxLen) && pos < cut <= pos + maxLen
    requires cut <= to <= |text| && CutOk(text, cut, maxLen)
    requires IsTrim(text[pos..cut], part) && AllSpace(text[cut..to])
    ensures Progress(text, AddedPart(parts, part), segs', cuts', to, maxLen)
  {
    segs', cuts' := UpToCut(text, parts, segs, cuts, pos, cut, maxLen, part);
    SkipKeeps(text, AddedPart(parts, part), segs', cuts', cut, to, maxLen);
  }

  lemma UpToCut(text: string, parts: seq<string>, segs: seq<Segment>, cuts: seq<nat>, pos: nat, cut: nat, maxLen: int,
                part: string)
    returns (segs': seq<Segment>, cuts': seq<nat>)
    requires Progress(text, parts, segs, cuts, pos, maxLen)
    requires pos < cut <= pos + maxLen && cut <= |text| && CutOk(text, cut, maxLen) && IsTrim(text[pos..cut], part)
    ensures Progress(text, AddedPart(parts, part), segs', cuts', cut, maxLen)
  {
    if part != [] {
      var seg := AddPart(text, parts, segs, cuts, pos, cut, maxLen, part);
      segs', cuts' := segs + [seg], cuts + [cut];
    } else {
      segs', cuts' := segs, cuts;
      SkipKeeps(text, parts, segs, cuts, pos, cut, maxLen);
    }
  }

  function AddedPart(parts: seq<string>, part: string): seq<string> {
    if part != [] then parts + [part] else parts
  }

  lemma LastPart(text: string, parts: seq<string>, segs: seq<Segment>, cuts: seq<nat>, pos: nat, maxLen: int)
    requires Progress(text, parts, segs, cuts, pos, maxLen) && pos < |text| <= pos + maxLen
    ensures SplitOk(text, parts + [text[pos..]], segs + [Segment(pos, |text|)], maxLen)
  {
    var last := Segment(pos, |text|);
    CutsKeepWords(text, segs, cuts, last, pos, maxLen);
    CoverMore(text, segs, last, pos, |text|);
  }

  lemma NoRest(text: string, parts: seq<string>, segs: seq<Segment>, cuts: seq<nat>, maxLen: int)
    requires Progress(text, parts, segs, cuts, |text|, maxLen)
    ensures SplitOk(text, parts, segs, maxLen)
  {
    var end := Segment(|text|, |text|);
    CutsKeepWords(text, segs, cuts, end, |text|, maxLen);
    assert forall k :: 0 <= k < |segs| ==> (segs + [end])[k] == segs[k];
  }

  /** Only spaces, newlines and carriage returns: what the splitter passes over after a cut. */
  predicate AllSkipped(s: string) {
    forall i :: 0 <= i < |s| ==> s[i] in {' ', '\n', '\r'}
  }

  lemma SkippedWhole(text: string, pos: nat)
    requires pos <= |text|
    ensures AllSkipped(text) ==>
              forall n :: pos <= n <= |text| ==> TrimSpace(text[pos..n]) == [] && AllSkipped(text[n..])
  {
    if AllSkipped(text) {
      forall n | pos <= n <= |text| ensures TrimSpace(text[pos..n]) == [] && AllSkipped(text[n..]) {
        AllSpaceTrims(text[pos..n]);
      }
    }
  }

  lemma AllSpaceTrims(s: string)
    requires AllSpace(s)
    ensures TrimSpace(s) == []
  {
    var l := SkipLeft(s);
    assert l == |s| by { SkipLeftAll(s); }
  }

  lemma {:induction false} SkipLeftAll(s: string)
    requires AllSpace(s)
    ensures SkipLeft(s) == |s|
  {
    if s != [] { SkipLeftAll(s[1..]); }
  }

  /** Where the rest of the text is cut, and the part before the cut. */
  method CutPart(ghost text: string, ghost pos: nat, runes: string, maxLen: int) returns (breakAt: nat, part: string)
    requires pos <= |text| && runes == text[pos..] && 0 < maxLen < |runes|
    ensures 1 <= breakAt <= maxLen && CutOk(text, pos + breakAt, maxLen)
    ensures IsTrim(text[pos..pos + breakAt], part)
    ensures AllSkipped(text) ==> part == [] && AllSkipped(runes[breakAt..])
  {
    SkippedWhole(text, pos);
    breakAt := BreakPoint(runes[..maxLen]);
    CutHolds(text, pos, breakAt, maxLen);
    part := TrimSpace(runes[..breakAt]);
    assert text[pos..pos + breakAt] == runes[..breakAt];
    TrimSpaceTrims(runes[..breakAt]);
  }

  /** One round: the part before the cut, if any, and the rest after the whitespace that follows. */
  method SplitRound(ghost text: string, ghost pos: nat, runes: string, parts: seq<string>,
                    ghost segs: seq<Segment>, ghost cuts: seq<nat>, maxLen: int)
    returns (rest: string, more: seq<string>, ghost segs': seq<Segment>, ghost cuts': seq<nat>, ghost pos': nat)
    requires Progress(text, parts, segs, cuts, pos, maxLen) && runes == text[pos..] && 0 < maxLen < |runes|
    ensures Progress(text, more, segs', cuts', pos', maxLen) && pos' <= |text| && rest == text[pos'..] && pos < pos'
    ensures AllSkipped(text) ==> more == parts && rest == []
    ensures EndsUnskipped(text) ==> rest != []
  {
    var breakAt, skip, part := NextCut(text, pos, runes, maxLen);
    segs', cuts' := Round(text, parts, segs, cuts, pos, pos + breakAt, pos + breakAt + skip, maxLen, part);
    more := parts;
    if part != [] {
      more := parts + [part];
    }
    rest := runes[breakAt + skip..];
    pos' := pos + breakAt + skip;
  }

  /** Where the rest is cut, how much whitespace is passed over after that, and the part before. */
  method NextCut(ghost text: string, ghost pos: nat, runes: string, maxLen: int)
    returns (breakAt: nat, skip: nat, part: string)
    requires pos <= |text| && runes == text[pos..] && 0 < maxLen < |runes|
    ensures 1 <= breakAt <= maxLen && breakAt + skip <= |runes| && CutOk(text, pos + breakAt, maxLen)
    ensures IsTrim(text[pos..pos + breakAt], part) && AllSpace(text[pos + breakAt..pos + breakAt + skip])
    ensures AllSkipped(text) ==> part == [] && breakAt + skip == |runes|
    ensures EndsUnskipped(text) ==> breakAt + skip < |runes|
  {
    breakAt, part := CutPart(text, pos, runes, maxLen);
    skip := SkipLeading(runes[breakAt..]);
    SkippedSlice(text, pos, breakAt, skip);
    EndSurvives(text, pos, breakAt);
  }

  lemma SkippedSlice(text: string, pos: nat, breakAt: nat, skip: nat)
    requires pos + breakAt + skip <= |text|
    ensures text[pos..][breakAt..] == text[pos + breakAt..]
    ensures text[pos..][breakAt..][..skip] == text[pos + breakAt..pos + breakAt + skip]
    ensures text[pos..][breakAt..][skip..] == text[pos + breakAt + skip..]
  {
  }

  lemma EndSurvives(text: string, pos: nat, breakAt: nat)
    requires pos + breakAt < |text|
    ensures EndsUnskipped(text) <==> EndsUnskipped(text[pos..][breakAt..])
  {
    assert text[pos..][breakAt..][|text| - pos - breakAt - 1] == text[|text| - 1];
  }

  /** The last character is none that the splitter passes over. */
  predicate EndsUnskipped(s: string) {
    |s| > 0 && s[|s| - 1] !in {' ', '\n', '\r'}
  }

  /** Parts are in-order disjoint segments of at most maxLen runes with only whitespace outside
      them, and no word that fits is divided; a short text or a limit below 1 is left alone. A long
      text has no part if it is all spaces, newlines and carriage returns, and has one if it ends
      in anything else. */
  method SplitMessage(text: string, maxLen: int) returns (parts: seq<string>, ghost segs: seq<Segment>)
    ensures maxLen <= 0 || |text| <= maxLen ==> parts == [text]
    ensures 0 < maxLen < |text| ==> SplitOk(text, parts, segs, maxLen)
    ensures 0 < maxLen < |text| && AllSkipped(text) ==> parts == []
    ensures 0 < maxLen < |text| && EndsUnskipped(text) ==> parts != []
  {
    parts, segs := [], [];
    if maxLen <= 0 || |text| <= maxLen {
      return [text], [];
    }
    var runes := text;
    ghost var pos := 0;
    ghost var cuts: seq<nat> := [];
    ghost var blank, ends := AllSkipped(text), EndsUnskipped(text);
    while |runes| > 0
      invariant Progress(text, parts, segs, cuts, pos, maxLen) && pos <= |text| && runes == text[pos..]
      invariant blank ==> parts == [] && (pos == 0 || runes == [])
      invariant ends ==> runes != []
      decreases |runes|
    {
      if |runes| <= maxLen {
        LastPart(text, parts, segs, cuts, pos, maxLen);
        segs := segs + [Segment(pos, |text|)];
        parts := parts + [runes];
        return;
      }
      runes, parts, segs, cuts, pos := SplitRound(text, pos, runes, parts, segs, cuts, maxLen);
    }
    NoRest(text, parts, segs, cuts, maxLen);
  }

  // ---------------------------------------------------------------- consequences

  function Solid(s: string): string {
    if s == [] then [] else (if IsSpace(s[0]) then [] else [s[0]]) + Solid(s[1..])
  }

  function SolidOf(parts: seq<string>): string {
    if parts == [] then [] else SolidOf(parts[..|parts| - 1]) + Solid(parts[|parts| - 1])
  }

  lemma {:induction false} SolidConcat(a: string, b: string)
    ensures Solid(a + b) == Solid(a) + Solid(b)
  {
    if a == [] {
      assert a + b == b;
    } else {
      assert (a + b)[1..] == a[1..] + b;
      SolidConcat(a[1..], b);
    }
  }

  lemma SolidOfThree(text: string, a: nat, b: nat, c: nat)
    requires a <= b <= c <= |text|
    ensures Solid(text[..c]) == Solid(text[..a]) + Solid(text[a..b]) + Solid(text[b..c])
  {
    assert text[..c] == text[..a] + text[a..b] + text[b..c];
    SolidConcat(text[..a] + text[a..b], text[b..c]);
    SolidConcat(text[..a], text[a..b]);
  }

  lemma {:induction false} SolidOfSpaces(s: string)
    requires forall i :: 0 <= i < |s| ==> IsSpace(s[i])
    ensures Solid(s) == []
  {
    if s != [] { SolidOfSpaces(s[1..]); }
  }

  lemma GapIsSpace(text: string, segs: seq<Segment>, from: nat, upTo: nat)
    requires from <= upTo <= |text| && OnlySpaceOutside(text, segs, upTo)
    requires forall k :: 0 <= k < |segs| ==> segs[k].to <= from
    ensures Solid(text[from..upTo]) == []
  {
    forall i | 0 <= i < upTo - from ensures IsSpace(text[from..upTo][i]) {
      assert !Covered(segs, from + i);
    }
    SolidOfSpaces(text[from..upTo]);
  }

  lemma CoveredByHead(text: string, segs: seq<Segment>, n: nat)
    requires n + 1 == |segs| && InOrder(segs) && segs[n].from <= segs[n].to <= |text|
             && OnlySpaceOutside(text, segs, segs[n].to)
    ensures InOrder(segs[..n]) && OnlySpaceOutside(text, segs[..n], segs[n].from)
  {
    forall i | 0 <= i < segs[n].from ensures IsSpace(text[i]) || Covered(segs[..n], i) {
      if Covered(segs, i) {
        var k :| 0 <= k < |segs| && segs[k].from <= i < segs[k].to;
        assert segs[..n][k] == segs[k];
      }
    }
  }

  /** No character that is not whitespace is lost, added or moved by a split. */
  lemma {:induction false} PartsKeepText(text: string, parts: seq<string>, segs: seq<Segment>, upTo: nat, maxLen: int)
    requires upTo <= |text| && |parts| == |segs| && InOrder(segs) && OnlySpaceOutside(text, segs, upTo)
    requires forall k :: 0 <= k < |parts| ==> PartOk(text, parts[k], segs[k], maxLen)
    requires forall k :: 0 <= k < |parts| ==> segs[k].to <= upTo
    ensures SolidOf(parts) == Solid(text[..upTo])
    decreases |parts|
  {
    if parts == [] {
      GapIsSpace(text, segs, 0, upTo);
      assert text[0..upTo] == text[..upTo];
    } else {
      var n := |parts| - 1;
      var last := segs[n];
      CoveredByHead(text, segs, n);
      forall k | 0 <= k < n ensures PartOk(text, parts[..n][k], segs[..n][k], maxLen) {
        assert PartOk(text, parts[k], segs[k], maxLen);
      }
      PartsKeepText(text, parts[..n], segs[..n], last.from, maxLen);
      GapIsSpace(text, segs, last.to, upTo);
      assert PartOk(text, parts[n], last, maxLen);
      SolidOfThree(text, last.from, last.to, upTo);
    }
  }

  /** A message with a character that is not whitespace has a part. */
  lemma SolidHasPart(text: string, parts: seq<string>, segs: seq<Segment>, maxLen: int)
    requires SplitOk(text, parts, segs, maxLen) && !AllSpace(text)
    ensures parts != []
  {
    var i :| 0 <= i < |text| && !IsSpace(text[i]);
    assert Covered(segs, i);
  }

  lemma SplitKeepsText(text: string, parts: seq<string>, segs: seq<Segment>, maxLen: int)
    requires SplitOk(text, parts, segs, maxLen)
    ensures SolidOf(parts) == Solid(text)
  {
    forall k | 0 <= k < |parts| ensures segs[k].to <= |text| {
      assert PartOk(text, parts[k], segs[k], maxLen);
    }
    PartsKeepText(text, parts, segs, |text|, maxLen);
    assert text[..|text|] == text;
  }
}
