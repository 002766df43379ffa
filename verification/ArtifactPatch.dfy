/**
internal/artifact/patch.go for the text subtypes: append, full replacement, range patch and
block patch. Content is a byte string, so indices are byte offsets as in the code.
 */
module ArtifactPatch {

  import opened Wrappers
  import opened ArtifactProtocol
  import opened ArtifactInvariant
  import opened ArtifactTheorems
  import opened ArtifactStraight

  datatype PatchError = BadPayload | MissingContent | MissingStart | MissingEnd | BadRange
                      | MissingTarget | TargetNotFound | BadMode

  /** The "mode" field: missing, "replace" or "full"; "text_range"; "block" or "function"; others. */
  datatype Mode = Whole | TextRange | Block | Unsupported

  /** A patch object: the mode, the replacement and the offsets if the object has usable ones, and
      the raw strings of the fields that may hold the target ("target", "find", "old") and the
      text ("text", "value", "content"), in that order; a missing field, or one that is no string,
      is "". */
  datatype TextPatch = TextPatch(
    mode: Mode,
    replacement: Option<Payload>,
    start: Option<int>,
    end: Option<int>,
    targets: seq<string>,
    texts: seq<string>)

  datatype Payload = Text(text: string) | Object(patch: TextPatch) | Other

  datatype Operation = Append | Patch | Replace

  // ---------------------------------------------------------------- blank text

  /** Length of the white space rune, in UTF-8, that a string starts with; 0 if it starts otherwise. */
  function SpaceAt(s: string): (n: nat)
    ensures n <= |s|
  {
    if |s| >= 1 && (9 <= s[0] as int <= 13 || s[0] == ' ') then 1
    else if |s| >= 2 && s[0] as int == 0xC2 && s[1] as int in {0x85, 0xA0} then 2
    else if |s| >= 3 && IsWideSpace(s[0] as int, s[1] as int, s[2] as int) then 3
    else 0
  }

  /** U+1680, U+2000 to U+200A, U+2028, U+2029, U+202F, U+205F and U+3000. */
  predicate IsWideSpace(a: int, b: int, c: int) {
    (a == 0xE1 && b == 0x9A && c == 0x80)
    || (a == 0xE2 && b == 0x80 && (0x80 <= c <= 0x8A || c in {0xA8, 0xA9, 0xAF}))
    || (a == 0xE2 && b == 0x81 && c == 0x9F)
    || (a == 0xE3 && b == 0x80 && c == 0x80)
  }

  /** strings.TrimSpace leaves nothing. */
  predicate Blank(s: string) {
    s == "" || (SpaceAt(s) > 0 && Blank(s[SpaceAt(s)..]))
  }

  /** firstString: the first candidate that is not blank, as it is. */
  function FirstString(values: seq<string>): string {
    if values == [] then ""
    else if !Blank(values[0]) then values[0]
    else FirstString(values[1..])
  }

  /** What arrives of a text sent in one field. */
  function Sent(text: string): string {
    FirstString([text, "", ""])
  }

  predicate Verbatim(text: string) {
    text == "" || !Blank(text)
  }

  /** A text arrives as it was sent exactly when it is empty or has a character that is not white
      space; otherwise nothing arrives. */
  lemma SentIff(text: string)
    ensures Sent(text) == if Blank(text) then "" else text
    ensures Sent(text) == text <==> Verbatim(text)
  {
    assert [text, "", ""][1..] == ["", ""] && ["", ""][1..] == [""] && [""][1..] == [];
  }

  // ---------------------------------------------------------------- applying a patch

  /** textCodec.Serialize. */
  function Serialize(p: Payload): Result<string, PatchError> {
    match p
    case Text(s) => Ok(s)
    case _ => Err(BadPayload)
  }

  /** patchRange. */
  function PatchRange(p: TextPatch, max: nat): Result<(nat, nat), PatchError> {
    match p.start
    case None => Err(MissingStart)
    case Some(start) =>
      match p.end
      case None => Err(MissingEnd)
      case Some(end) =>
        if start < 0 || end < start || end > max then Err(BadRange) else Ok((start, end))
  }

  predicate OccursAt(s: string, t: string, i: nat) {
    i + |t| <= |s| && s[i..i + |t|] == t
  }

  /** strings.Index from position i on. */
  function Find(s: string, t: string, i: nat): (r: Option<nat>)
    ensures r.Some? ==> OccursAt(s, t, r.value)
    decreases |s| - i
  {
    if i > |s| then None
    else if OccursAt(s, t, i) then Some(i)
    else Find(s, t, i + 1)
  }

  function Splice(base: string, start: nat, end: nat, insert: string): string
    requires start <= end <= |base|
  {
    base[..start] + insert + base[end..]
  }

  /** applyTextPatch. */
  function ApplyTextPatch(base: string, p: Payload): Result<string, PatchError> {
    match p
    case Text(s) => Ok(s)
    case Other => Err(BadPayload)
    case Object(patch) =>
      match patch.mode
      case Whole =>
        (match patch.replacement
         case None => Err(MissingContent)
         case Some(replacement) => Serialize(replacement))
      case TextRange =>
        (match PatchRange(patch, |base|)
         case Err(e) => Err(e)
         case Ok(range) => Ok(Splice(base, range.0, range.1, FirstString(patch.texts))))
      case Block => ApplyBlock(base, FirstString(patch.targets), FirstString(patch.texts))
      case Unsupported => Err(BadMode)
  }

  function ApplyBlock(base: string, target: string, insert: string): Result<string, PatchError> {
    if Blank(target) then Err(MissingTarget)
    else
      match Find(base, target, 0)
      case None => Err(TargetNotFound)
      case Some(i) => Ok(Splice(base, i, i + |target|, insert))
  }

  /** prepareContentForOperation. */
  function Prepare(op: Operation, base: string, p: Payload): Result<string, PatchError> {
    match op
    case Append =>
      (match Serialize(p)
       case Err(e) => Err(e)
       case Ok(addition) => Ok(base + addition))
    case Patch => ApplyTextPatch(base, p)
    case Replace => Serialize(p)
  }

  /** The edit a call hands to the version store. */
  function EditOf(op: Operation, p: Payload): Edit {
    (base: string) =>
      match Prepare(op, base, p)
      case Ok(content) => Ok(content)
      case Err(_) => Err("artifact: rejected")
  }

  function RangePatch(start: int, end: int, insert: string): Payload {
    Object(TextPatch(TextRange, None, Some(start), Some(end), ["", "", ""], [insert, "", ""]))
  }

  function BlockPatch(target: string, insert: string): Payload {
    Object(TextPatch(Block, None, None, None, [target, "", ""], [insert, "", ""]))
  }

  // ---------------------------------------------------------------- laws

  lemma {:induction false} FindIsFirst(s: string, t: string, i: nat)
    ensures Find(s, t, i).Some? ==>
              var k := Find(s, t, i).value;
              i <= k && OccursAt(s, t, k) && forall j :: i <= j < k ==> !OccursAt(s, t, j)
    ensures Find(s, t, i).None? ==> forall j :: i <= j ==> !OccursAt(s, t, j)
    decreases |s| - i
  {
    if i <= |s| && !OccursAt(s, t, i) {
      FindIsFirst(s, t, i + 1);
    }
  }

  /** A range patch succeeds exactly on ranges inside the content, and puts there what arrives of
      its text. */
  lemma RangePatchSplices(base: string, start: int, end: int, insert: string)
    ensures ApplyTextPatch(base, RangePatch(start, end, insert)).Ok? <==> 0 <= start <= end <= |base|
    ensures 0 <= start <= end <= |base| ==>
              ApplyTextPatch(base, RangePatch(start, end, insert)) == Ok(base[..start] + Sent(insert) + base[end..])
  {
  }

  /** The range patch that puts the removed text back in the place of the inserted one restores the
      content exactly when both texts are empty or have a character that is not white space. */
  lemma RangePatchInvertsIff(base: string, start: int, end: int, insert: string)
    requires 0 <= start <= end <= |base|
    ensures var patched := ApplyTextPatch(base, RangePatch(start, end, insert)).value;
            var removed := base[start..end];
            ApplyTextPatch(patched, RangePatch(start, start + |insert|, removed)) == Ok(base)
            <==> Verbatim(insert) && Verbatim(removed)
  {
    var sent, removed := Sent(insert), base[start..end];
    var patched := base[..start] + sent + base[end..];
    RangePatchSplices(base, start, end, insert);
    RangePatchSplices(patched, start, start + |insert|, removed);
    SentIff(insert);
    SentIff(removed);
    if Verbatim(insert) && Verbatim(removed) {
      SpliceBack(base, start, end, insert);
    } else if start + |insert| <= |patched| {
      SpliceIsShorter(base, start, end, sent, start + |insert|, Sent(removed));
    }
  }

  lemma SpliceBack(base: string, start: nat, end: nat, insert: string)
    requires start <= end <= |base|
    ensures var patched := base[..start] + insert + base[end..];
            patched[..start] + base[start..end] + patched[start + |insert|..] == base
  {
    var patched := base[..start] + insert + base[end..];
    assert patched[..start] == base[..start] && patched[start + |insert|..] == base[end..];
  }

  /** Putting back too little, or cutting out too much, gives a shorter text. */
  lemma SpliceIsShorter(base: string, start: nat, end: nat, sent: string, upTo: nat, back: string)
    requires start <= end <= |base| && start <= upTo <= start + |sent| + |base| - end
    requires |back| + |sent| < end - start + upTo - start
    ensures var patched := base[..start] + sent + base[end..];
            patched[..start] + back + patched[upTo..] != base
  {
    var patched := base[..start] + sent + base[end..];
    assert |patched[..start] + back + patched[upTo..]| < |base|;
  }

  /** Deleting a space and putting it back leaves it deleted. */
  lemma DeletedSpaceStaysDeleted()
    ensures ApplyTextPatch("a b", RangePatch(1, 2, "")) == Ok("ab")
    ensures ApplyTextPatch("ab", RangePatch(1, 1, " ")) == Ok("ab")
  {
    RangePatchSplices("a b", 1, 2, "");
    RangePatchSplices("ab", 1, 1, " ");
    SentIff("");
    SentIff(" ");
    assert " "[1..] == "" && Blank(" ");
    assert "a b"[..1] + "" + "a b"[2..] == "ab" && "ab"[..1] + "" + "ab"[1..] == "ab";
  }

  /** A replace, a patch that is a bare text, and a patch object without a mode all yield exactly the
      text sent, whatever the base; an append yields the base and the text. A patch object without
      a mode needs a text, and an unsupported mode is refused. */
  lemma WholeTextIsKept(base: string, text: string, p: TextPatch)
    ensures Prepare(Replace, base, Text(text)) == Ok(text) && Prepare(Patch, base, Text(text)) == Ok(text)
    ensures Prepare(Append, base, Text(text)) == Ok(base + text)
    ensures p.mode == Whole && p.replacement == Some(Text(text)) ==> Prepare(Patch, base, Object(p)) == Ok(text)
    ensures p.mode == Whole && p.replacement == None ==> Prepare(Patch, base, Object(p)) == Err(MissingContent)
    ensures p.mode == Unsupported ==> Prepare(Patch, base, Object(p)) == Err(BadMode)
  {
  }

  predicate FirstAt(s: string, t: string, i: nat) {
    OccursAt(s, t, i) && forall j :: 0 <= j < i ==> !OccursAt(s, t, j)
  }

  /** A block patch succeeds exactly when its target has a character that is not white space and
      occurs. */
  lemma BlockPatchSucceedsIff(base: string, target: string, insert: string)
    ensures ApplyTextPatch(base, BlockPatch(target, insert)).Ok? <==>
              !Blank(target) && exists i: nat :: OccursAt(base, target, i)
  {
    BlockPatchSplices(base, target, insert);
    var found := Find(base, target, 0);
    FindIsFirst(base, target, 0);
    if found.Some? { assert OccursAt(base, target, found.value); }
  }

  /** It then is the range patch at the first occurrence. */
  lemma BlockPatchReplacesFirst(base: string, target: string, insert: string, i: nat)
    requires FirstAt(base, target, i) && !Blank(target)
    ensures ApplyTextPatch(base, BlockPatch(target, insert))
         == ApplyTextPatch(base, RangePatch(i, i + |target|, insert))
  {
    FoundFirst(base, target, i);
    BlockPatchAt(base, target, insert, i);
  }

  lemma BlockPatchAt(base: string, target: string, insert: string, i: nat)
    requires Find(base, target, 0) == Some(i) && !Blank(target)
    ensures ApplyTextPatch(base, BlockPatch(target, insert))
         == ApplyTextPatch(base, RangePatch(i, i + |target|, insert))
  {
    var sent := Sent(insert);
    SentIff(target);
    assert ApplyTextPatch(base, BlockPatch(target, insert)) == ApplyBlock(base, target, sent);
    assert ApplyTextPatch(base, RangePatch(i, i + |target|, insert)) == Ok(Splice(base, i, i + |target|, sent));
  }

  lemma FoundFirst(base: string, target: string, i: nat)
    requires FirstAt(base, target, i)
    ensures Find(base, target, 0) == Some(i)
  {
    FindIsFirst(base, target, 0);
  }

  lemma BlockPatchSplices(base: string, target: string, insert: string)
    ensures var found := Find(base, target, 0);
            ApplyTextPatch(base, BlockPatch(target, insert))
            == if Blank(target) then Err(MissingTarget)
               else if found.None? then Err(TargetNotFound)
               else Ok(base[..found.value] + Sent(insert) + base[found.value + |target|..])
  {
    SentIff(target);
  }

  /** An append is the range patch at the end exactly when its text is empty or has a character
      that is not white space: a blank text is appended, and is dropped from a range patch. */
  lemma AppendIsRangeAtEndIff(base: string, text: string)
    ensures Prepare(Append, base, Text(text)) == Prepare(Patch, base, RangePatch(|base|, |base|, text))
            <==> Verbatim(text)
  {
    SentIff(text);
    RangePatchSplices(base, |base|, |base|, text);
    assert base[..|base|] + Sent(text) + base[|base|..] == base + Sent(text);
    assert |base + text| == |base| + |text| && |base + Sent(text)| == |base| + |Sent(text)|;
  }

  // ---------------------------------------------------------------- appends through the store

  function Joined(texts: seq<string>): string {
    if texts == [] then "" else Joined(texts[..|texts| - 1]) + texts[|texts| - 1]
  }

  /** A history that creates an artifact and then commits only appends, by whatever calls, with any
      full-row saves in between. */
  ghost predicate AppendHistory(h: seq<Entry>, first: string, texts: seq<string>)
    decreases |h|
  {
    if |h| <= 1 then |h| == 1 && h[0].Created? && h[0].content == first && texts == []
    else
      var g, last := h[..|h| - 1], h[|h| - 1];
      match last
      case Moved(_) => AppendHistory(g, first, texts)
      case Updated(_, _, _) =>
        texts != [] && IsAppend(last, texts[|texts| - 1]) && AppendHistory(g, first, texts[..|texts| - 1])
      case _ => false
  }

  ghost predicate IsAppend(e: Entry, text: string) {
    e.Updated? && e.readOk && e.edit == EditOf(Append, Text(text))
  }

  /** No append is lost: replaying the commits yields the first content followed by every
      committed addition, in commit order, and there is one commit for each, as long as full-row
      saves left the head where it was. */
  lemma {:induction false} AppendsAllSurvive(h: seq<Entry>, first: string, texts: seq<string>)
    requires AppendHistory(h, first, texts) && MovesStay(h)
    ensures HeadOf(h) in Replay(h) && Replay(h)[HeadOf(h)] == first + Joined(texts)
    ensures |Committed(h)| == |texts| + 1
    decreases |h|
  {
    var g, last := h[..|h| - 1], h[|h| - 1];
    MovesStayPrefix(h);
    if |h| == 1 {
      assert g == [] && first + Joined([]) == first;
    } else if last.Moved? {
      AppendsAllSurvive(g, first, texts);
    } else {
      var shorter := texts[..|texts| - 1];
      AppendsAllSurvive(g, first, shorter);
      AppendReplays(h, texts[|texts| - 1]);
      assert first + Joined(texts) == first + Joined(shorter) + texts[|texts| - 1];
    }
  }

  /** One more append. */
  lemma AppendReplays(h: seq<Entry>, text: string)
    requires |h| > 1 && IsAppend(h[|h| - 1], text)
    requires var g := h[..|h| - 1]; HeadOf(g) in Replay(g)
    ensures var g := h[..|h| - 1];
            HeadOf(h) in Replay(h) && Replay(h)[HeadOf(h)] == Replay(g)[HeadOf(g)] + text
            && |Committed(h)| == |Committed(g)| + 1
  {
    var g := h[..|h| - 1];
    assert h[|h| - 1].edit(Replay(g)[HeadOf(g)]) == Ok(Replay(g)[HeadOf(g)] + text);
  }

  lemma MovesStayPrefix(h: seq<Entry>)
    requires h != [] && MovesStay(h)
    ensures var g, last := h[..|h| - 1], h[|h| - 1];
            MovesStay(g) && (g != [] && last.Moved? ==> last.id == HeadOf(g))
  {
    var g := h[..|h| - 1];
    forall i | 0 < i < |g| && g[i].Moved? ensures g[i].id == HeadOf(g[..i]) {
      assert g[..i] == h[..i];
    }
  }

  /** Over every interleaving without branch switches: when an artifact's commits were appends, by
      any number of concurrent calls, those that lost marking their conflicts and archive and
      lifecycle changes running as they please, reading its head gives the first content and every
      committed addition. With branch switches it does as long as they left the head where it was. */
  lemma ConcurrentAppendsAllSurvive(steps: seq<Step>, a: Id, first: string, texts: seq<string>)
    requires IsRun(steps) && SafeRun(steps) && a in After(steps).store.artifacts
    requires a in After(steps).log && AppendHistory(After(steps).log[a], first, texts)
    requires NoBranching(steps) || MovesStay(After(steps).log[a])
    ensures var s := After(steps);
            ReadContent(s.store, s.store.artifacts[a].current) == Some(first + Joined(texts))
            && s.store.artifacts[a].number == |texts| + 1
  {
    if NoBranching(steps) { RunIsStraight(steps); }
    var s := After(steps);
    RunKeepsInv(steps);
    assert HistoryOk(s.store, a, s.log[a]);
    HeadContentIsReplay(steps, a);
    AppendsAllSurvive(s.log[a], first, texts);
  }
}
