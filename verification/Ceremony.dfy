/**
Streaming an assistant message: the cumulative chunks of internal/gateway/ceremony.go and how
the prompt loop of cmd/navi/main.go prints them. A string is a sequence of runes.
 */
module Ceremony {

  // ---------------------------------------------------------------- chunks

  const STREAM_CHUNK_RUNES: nat := 18

  function ChunkSize(runesPerChunk: int): nat {
    if runesPerChunk <= 0 then STREAM_CHUNK_RUNES else runesPerChunk
  }

  /** Where the k-th chunk ends. */
  function ChunkEnd(size: nat, k: nat): nat {
    if k == 0 then 0 else ChunkEnd(size, k - 1) + size
  }

  lemma {:induction false} ChunkEndIs(size: nat, k: nat)
    ensures ChunkEnd(size, k) == k * size
  {
    if k > 0 {
      ChunkEndIs(size, k - 1);
      assert k * size == (k - 1) * size + size;
    }
  }

  /** The first k chunks of the content. */
  function Cut(content: string, size: nat, k: nat): string {
    if ChunkEnd(size, k) < |content| then content[..ChunkEnd(size, k)] else content
  }

  /** The k-th prefix ends after k chunks, and only the last reaches the end of the content. */
  predicate IsCumulative(out: seq<string>, content: string, size: nat) {
    if content == "" then out == []
    else
      |out| > 0 && ChunkEnd(size, |out| - 1) < |content| <= ChunkEnd(size, |out|)
      && forall k :: 0 <= k < |out| ==> out[k] == Cut(content, size, k + 1)
  }

  /** There are ceil(|content| / size) of them. */
  lemma CumulativeCount(out: seq<string>, content: string, size: nat)
    requires size > 0 && IsCumulative(out, content, size)
    ensures |out| == (|content| + size - 1) / size
  {
    if content == "" {
      assert (size - 1) / size == 0;
    } else {
      var n := |out|;
      ChunkEndIs(size, n);
      ChunkEndIs(size, n - 1);
      DivideUp(|content|, size, n);
    }
  }

  lemma DivideUp(len: nat, size: nat, n: nat)
    requires size > 0 && n > 0 && (n - 1) * size < len <= n * size
    ensures (len + size - 1) / size == n
  {
    var q, r := (len + size - 1) / size, (len + size - 1) % size;
    assert len + size - 1 == q * size + r;
    assert n * size == (n - 1) * size + size;
    FewerChunks(q, n, size);
    FewerChunks(n, q, size);
  }

  lemma FewerChunks(a: int, b: int, size: nat)
    ensures a < b ==> a * size + size <= b * size
  {
    if a < b {
      assert (a + 1) * size <= b * size && (a + 1) * size == a * size + size;
    }
  }

  method CumulativeChunks(content: string, runesPerChunk: int) returns (out: seq<string>)
    ensures IsCumulative(out, content, if runesPerChunk <= 0 then 18 else runesPerChunk)
  {
    if content == "" {
      return [];
    }
    var size := runesPerChunk;
    if runesPerChunk <= 0 {
      size := STREAM_CHUNK_RUNES;
    }
    out := [];
    var end := size;
    while end < |content|
      invariant end == ChunkEnd(size, |out| + 1) && ChunkEnd(size, |out|) < |content|
      invariant forall k :: 0 <= k < |out| ==> out[k] == Cut(content, size, k + 1)
      decreases |content| - end
    {
      assert content[..end] == Cut(content, size, |out| + 1);
      out := out + [content[..end]];
      end := end + size;
    }
    out := out + [content];
  }

  /** Each part extends the one before it, starting from `from`, and the content extends the last. */
  predicate Chain(from: string, parts: seq<string>, content: string)
    decreases |parts|
  {
    if parts == [] then from <= content else from <= parts[0] && Chain(parts[0], parts[1..], content)
  }

  lemma {:induction false} EndsGrow(size: nat, k: nat, last: nat)
    requires k <= last
    ensures ChunkEnd(size, k) <= ChunkEnd(size, last)
  {
    if k < last { EndsGrow(size, k, last - 1); }
  }

  lemma CutsGrow(content: string, size: nat, k: nat, last: nat)
    requires size > 0 && k <= last && ChunkEnd(size, last) < |content|
    ensures |Cut(content, size, k)| < |Cut(content, size, k + 1)| && Cut(content, size, k) <= Cut(content, size, k + 1)
  {
    EndsGrow(size, k, last);
  }

  /** Chunks grow strictly, each a prefix of the next, and end in the content. */
  lemma {:induction false} CumulativeIsChain(out: seq<string>, content: string, size: nat)
    requires size > 0 && IsCumulative(out, content, size)
    ensures Chain("", out, content)
    ensures forall k :: 0 <= k < |out| - 1 ==> |out[k]| < |out[k + 1]| && out[k] <= out[k + 1]
    ensures content != "" ==> out[|out| - 1] == content
  {
    forall k | 0 <= k < |out| - 1 ensures |out[k]| < |out[k + 1]| && out[k] <= out[k + 1] {
      CutsGrow(content, size, k + 1, |out| - 1);
    }
    if content != "" {
      ChainFrom(out, content, "");
    }
  }

  lemma {:induction false} ChainFrom(out: seq<string>, content: string, from: string)
    requires forall k :: 0 <= k < |out| - 1 ==> out[k] <= out[k + 1]
    requires if out == [] then from <= content else from <= out[0] && out[|out| - 1] <= content
    ensures Chain(from, out, content)
    decreases |out|
  {
    if out != [] {
      var rest := out[1..];
      forall k | 0 <= k < |rest| - 1 ensures rest[k] <= rest[k + 1] {
        assert out[k + 1] <= out[k + 2];
      }
      ChainFrom(rest, content, out[0]);
    }
  }

  // ---------------------------------------------------------------- the prompt loop

  datatype Update =
    | TokenDelta(text: string)
    | Partial(content: string)
    | Completed(content: string)
    | Failed(content: string)
    | Cancelled(content: string)

  /** What the loop remembers between updates. */
  datatype Turn = Turn(armed: bool, streaming: bool, viaTokens: bool, lastPartial: string)

  const IDLE: Turn := Turn(false, false, false, "")

  const ARMED: Turn := Turn(true, false, false, "")

  const NAVI: string := "\nNAVI: "
  const YOU: string := "\n\nYou: "

  /** The new text of a message of which `shown` is on the screen. */
  function Suffix(shown: string, next: string): string {
    if shown <= next then next[|shown|..] else NAVI + next
  }

  function Opening(t: Turn): string {
    if t.streaming then "" else NAVI
  }

  /** The state after an update and the text printed. */
  function Show(t: Turn, u: Update): (Turn, string) {
    match u
    case TokenDelta(text) =>
      if t.armed then (t.(streaming := true, viaTokens := true), Opening(t) + text) else (t, "")
    case Partial(content) =>
      if t.armed then (t.(streaming := true, lastPartial := content), Opening(t) + Suffix(t.lastPartial, content))
      else (t, "")
    case Completed(content) =>
      if !t.armed then (t, "")
      else if t.viaTokens then (IDLE, YOU)
      else if t.streaming then (IDLE, Suffix(t.lastPartial, content) + YOU)
      else (IDLE, NAVI + content + YOU)
    case Failed(content) => (IDLE, "\n[run failed] " + content + YOU)
    case Cancelled(content) => (IDLE, "\n[run cancelled] " + (if content == "" then "cancelled" else content) + YOU)
  }

  function ShowAll(t: Turn, updates: seq<Update>): (Turn, string)
    decreases |updates|
  {
    if updates == [] then (t, "")
    else
      var (t', text) := Show(t, updates[0]);
      var (end, rest) := ShowAll(t', updates[1..]);
      (end, text + rest)
  }

  class Repl {
    var armReplies: bool
    var streamingReply: bool
    var streamedViaTokens: bool
    var lastPartial: string
    var screen: string

    function State(): Turn
      reads this
    {
      Turn(armReplies, streamingReply, streamedViaTokens, lastPartial)
    }

    constructor ()
      ensures State() == IDLE && screen == YOU[1..]
    {
      armReplies, streamingReply, streamedViaTokens, lastPartial := false, false, false, "";
      screen := YOU[1..];
    }

    /** A message was sent. */
    method Arm()
      modifies this`armReplies
      ensures State() == old(State()).(armed := true)
    {
      armReplies := true;
    }

    method Reset()
      modifies this`armReplies, this`streamingReply, this`streamedViaTokens, this`lastPartial
      ensures State() == IDLE
    {
      armReplies, streamingReply, streamedViaTokens, lastPartial := false, false, false, "";
    }

    method StartStreaming()
      modifies this`streamingReply, this`screen
      ensures streamingReply && screen == old(screen) + Opening(old(State()))
    {
      if !streamingReply {
        screen := screen + NAVI;
        streamingReply := true;
      }
    }

    method PrintNew(next: string)
      modifies this`screen
      ensures screen == old(screen) + Suffix(lastPartial, next)
    {
      if lastPartial <= next {
        screen := screen + next[|lastPartial|..];
      } else {
        screen := screen + NAVI + next;
      }
    }

    method OnCompleted(content: string)
      requires armReplies
      modifies this
      ensures var (t, text) := Show(old(State()), Completed(content));
              State() == t && screen == old(screen) + text
    {
      if streamedViaTokens {
        screen := screen + YOU;
      } else if streamingReply {
        Append(screen, Suffix(lastPartial, content), YOU);
        if lastPartial <= content || content != lastPartial {
          PrintNew(content);
        }
        screen := screen + YOU;
      } else {
        Append(screen, NAVI + content, YOU);
        screen := screen + (NAVI + content) + YOU;
      }
      Reset();
    }

    method OnTokenDelta(text: string)
      modifies this
      ensures var (t, printed) := Show(old(State()), TokenDelta(text));
              State() == t && screen == old(screen) + printed
    {
      if armReplies {
        Append(old(screen), Opening(old(State())), text);
        StartStreaming();
        streamedViaTokens := true;
        screen := screen + text;
      }
    }

    method OnPartial(content: string)
      modifies this
      ensures var (t, printed) := Show(old(State()), Partial(content));
              State() == t && screen == old(screen) + printed
    {
      if armReplies {
        Append(old(screen), Opening(old(State())), Suffix(lastPartial, content));
        StartStreaming();
        PrintNew(content);
        lastPartial := content;
      }
    }

    method OnEnded(line: string)
      modifies this
      ensures State() == IDLE && screen == old(screen) + (line + YOU)
    {
      Reset();
      Append(screen, line, YOU);
      screen := screen + line + YOU;
    }

    method OnUpdate(u: Update)
      modifies this
      ensures var (t, text) := Show(old(State()), u);
              State() == t && screen == old(screen) + text
    {
      match u
      case TokenDelta(text) => OnTokenDelta(text);
      case Partial(content) => OnPartial(content);
      case Completed(content) =>
        if armReplies {
          OnCompleted(content);
        }
      case Failed(content) => OnEnded("\n[run failed] " + content);
      case Cancelled(content) =>
        var msg := if content == "" then "cancelled" else content;
        OnEnded("\n[run cancelled] " + msg);
    }
  }

  lemma Append(a: string, b: string, c: string)
    ensures a + b + c == a + (b + c)
  {
  }

  // ---------------------------------------------------------------- printed exactly once

  function Partials(parts: seq<string>): seq<Update> {
    seq(|parts|, i requires 0 <= i < |parts| => Partial(parts[i]))
  }

  /** The updates of one reply: its partials, then the completed message. */
  function Reply(parts: seq<string>, content: string): seq<Update> {
    Partials(parts) + [Completed(content)]
  }

  lemma ReplyFirst(parts: seq<string>, content: string)
    requires parts != []
    ensures Reply(parts, content)[0] == Partial(parts[0]) && Reply(parts, content)[1..] == Reply(parts[1..], content)
  {
  }

  /** A reply already begun, with `shown` on the screen, continues with exactly what is missing
      when its parts are a chain, and with strictly more text when they are not. */
  lemma {:induction false} RestOfReply(shown: string, parts: seq<string>, content: string)
    ensures var (end, text) := ShowAll(Turn(true, true, false, shown), Reply(parts, content));
            end == IDLE
            && (Chain(shown, parts, content) ==> shown <= content && text == content[|shown|..] + YOU)
            && |shown| + |text| >= |content| + |YOU|
            && (!Chain(shown, parts, content) ==> |shown| + |text| > |content| + |YOU|)
    decreases |parts|
  {
    var t := Turn(true, true, false, shown);
    if parts == [] {
      OneUpdate(t, Completed(content));
      assert Reply(parts, content) == [Completed(content)];
    } else {
      NextPartial(shown, parts, content);
      RestOfReply(parts[0], parts[1..], content);
      if Chain(shown, parts, content) { SuffixesJoin(shown, parts[0], content); }
    }
  }

  /** One partial of a reply already begun. */
  lemma NextPartial(shown: string, parts: seq<string>, content: string)
    requires parts != []
    ensures var (end, rest) := ShowAll(Turn(true, true, false, parts[0]), Reply(parts[1..], content));
            ShowAll(Turn(true, true, false, shown), Reply(parts, content)) == (end, Suffix(shown, parts[0]) + rest)
  {
    ReplyFirst(parts, content);
    var t := Turn(true, true, false, shown);
    assert "" + Suffix(shown, parts[0]) == Suffix(shown, parts[0]);
    assert Show(t, Partial(parts[0])) == (Turn(true, true, false, parts[0]), Suffix(shown, parts[0]));
  }

  lemma SuffixesJoin(shown: string, part: string, content: string)
    requires shown <= part <= content
    ensures part[|shown|..] + (content[|part|..] + YOU) == content[|shown|..] + YOU
  {
    assert content[|shown|..] == part[|shown|..] + content[|part|..];
  }

  lemma OneUpdate(t: Turn, u: Update)
    ensures ShowAll(t, [u]) == Show(t, u)
  {
    assert [u][1..] == [];
    assert Show(t, u).1 + "" == Show(t, u).1;
  }

  /** An armed client prints a reply exactly once, whatever partials it saw of it, exactly when
      each partial extends the one before and the completed message extends the last. */
  lemma PrintedOnceIff(parts: seq<string>, content: string)
    ensures var (end, text) := ShowAll(ARMED, Reply(parts, content));
            end == IDLE && (text == NAVI + content + YOU <==> Chain("", parts, content))
  {
    if parts == [] {
      OneUpdate(ARMED, Completed(content));
      assert Reply(parts, content) == [Completed(content)];
    } else {
      FirstPartial(parts, content);
      RestOfReply(parts[0], parts[1..], content);
    }
  }

  /** A completed message that is already shown in full. */
  lemma NothingLeft(content: string)
    ensures ShowAll(Turn(true, true, false, content), Reply([], content)) == (IDLE, YOU)
  {
    RestOfReply(content, [], content);
    assert content[|content|..] + YOU == YOU;
  }

  lemma RestartPrintsAll(p: string, content: string)
    requires !(p <= content)
    ensures ShowAll(Turn(true, true, false, p), Reply([content], content)) == (IDLE, NAVI + content + YOU)
  {
    assert [content][1..] == [];
    NextPartial(p, [content], content);
    NothingLeft(content);
  }

  /** A partial that does not extend the one before is printed as a second message. */
  lemma RestartedPartialPrintsTwice(p: string, content: string)
    requires !(p <= content)
    ensures ShowAll(ARMED, Reply([p, content], content)) == (IDLE, NAVI + p + NAVI + content + YOU)
  {
    assert [p, content][1..] == [content];
    FirstPartial([p, content], content);
    RestartPrintsAll(p, content);
    JoinFive(p, content);
  }

  lemma JoinFive(p: string, content: string)
    ensures NAVI + p + (NAVI + content + YOU) == NAVI + p + NAVI + content + YOU
  {
  }

  /** The first partial an armed client sees. */
  lemma FirstPartial(parts: seq<string>, content: string)
    requires parts != []
    ensures var (end, rest) := ShowAll(Turn(true, true, false, parts[0]), Reply(parts[1..], content));
            ShowAll(ARMED, Reply(parts, content)) == (end, NAVI + parts[0] + rest)
  {
    ReplyFirst(parts, content);
    assert Show(ARMED, Partial(parts[0])) == (Turn(true, true, false, parts[0]), NAVI + parts[0]);
  }

  /** Whatever the content and chunk size, the ceremony's chunks come out as the content, once. */
  lemma CeremonyPrintsOnce(out: seq<string>, content: string, runesPerChunk: int)
    requires IsCumulative(out, content, ChunkSize(runesPerChunk))
    ensures ShowAll(ARMED, Reply(out, content)) == (IDLE, NAVI + content + YOU)
  {
    CumulativeIsChain(out, content, ChunkSize(runesPerChunk));
    PrintedOnceIff(out, content);
  }

  /** A client armed only after some of the partials have passed still prints it all, once. */
  lemma {:induction false} LateArmingPrintsOnce(from: string, parts: seq<string>, content: string, k: nat)
    requires k <= |parts| && Chain(from, parts, content)
    ensures ShowAll(IDLE, Partials(parts[..k])) == (IDLE, "")
    ensures ShowAll(ARMED, Reply(parts[k..], content)) == (IDLE, NAVI + content + YOU)
    decreases k
  {
    if k > 0 {
      LateArmingPrintsOnce(parts[0], parts[1..], content, k - 1);
      assert "" + "" == "";
      assert Partials(parts[..k])[0] == Partial(parts[0]) && Partials(parts[..k])[1..] == Partials(parts[1..][..k - 1]);
      assert parts[1..][k - 1..] == parts[k..];
    } else {
      ChainFromNothing(from, parts, content);
      PrintedOnceIff(parts, content);
      assert parts[0..] == parts;
    }
  }

  lemma ChainFromNothing(from: string, parts: seq<string>, content: string)
    requires Chain(from, parts, content)
    ensures Chain("", parts, content)
  {
    if parts != [] {
      assert "" <= parts[0];
    }
  }

  /** An unarmed client prints no reply, and a failed or cancelled run ends the turn with a line of
      its own. */
  lemma OtherUpdates(t: Turn, u: Update, content: string)
    ensures !t.armed && (u.TokenDelta? || u.Partial? || u.Completed?) ==> Show(t, u) == (t, "")
    ensures Show(t, Failed(content)) == (IDLE, "\n[run failed] " + content + "\n\nYou: ")
    ensures content != "" ==> Show(t, Cancelled(content)) == (IDLE, "\n[run cancelled] " + content + "\n\nYou: ")
    ensures Show(t, Cancelled("")) == (IDLE, "\n[run cancelled] cancelled\n\nYou: ")
    ensures t == ARMED ==> Show(t, Completed(content)) == (IDLE, "\nNAVI: " + content + "\n\nYou: ")
  {
    assert "\n[run cancelled] " + "cancelled" + YOU == "\n[run cancelled] cancelled\n\nYou: ";
  }

  /** A reply that came as tokens is what the tokens were; the completed text is not printed again. */
  lemma {:induction false} TokensPrintOnce(deltas: seq<string>, content: string)
    requires deltas != []
    ensures ShowAll(ARMED, Deltas(deltas) + [Completed(content)]) == (IDLE, NAVI + Joined(deltas) + YOU)
  {
    assert Show(ARMED, TokenDelta(deltas[0])) == (Turn(true, true, true, ""), NAVI + deltas[0]);
    assert (Deltas(deltas) + [Completed(content)])[1..] == Deltas(deltas[1..]) + [Completed(content)];
    MoreTokens(deltas[1..], content);
    var rest := Joined(deltas[1..]);
    assert NAVI + (deltas[0] + rest) + YOU == NAVI + deltas[0] + (rest + YOU);
  }

  function Deltas(deltas: seq<string>): seq<Update> {
    seq(|deltas|, i requires 0 <= i < |deltas| => TokenDelta(deltas[i]))
  }

  function Joined(parts: seq<string>): string {
    if parts == [] then "" else parts[0] + Joined(parts[1..])
  }

  lemma {:induction false} MoreTokens(deltas: seq<string>, content: string)
    ensures ShowAll(Turn(true, true, true, ""), Deltas(deltas) + [Completed(content)]) == (IDLE, Joined(deltas) + YOU)
    decreases |deltas|
  {
    if deltas == [] {
      OneUpdate(Turn(true, true, true, ""), Completed(content));
      assert Joined(deltas) + YOU == YOU;
      assert Deltas(deltas) + [Completed(content)] == [Completed(content)];
    } else {
      assert (Deltas(deltas) + [Completed(content)])[1..] == Deltas(deltas[1..]) + [Completed(content)];
      MoreTokens(deltas[1..], content);
      var rest := Joined(deltas[1..]);
      assert Show(Turn(true, true, true, ""), TokenDelta(deltas[0])).1 == deltas[0];
      assert deltas[0] + rest + YOU == deltas[0] + (rest + YOU);
    }
  }
}
