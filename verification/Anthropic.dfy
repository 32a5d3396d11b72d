/** The Anthropic client: the streaming reader against the reader of complete responses. */
module Anthropic {
  import opened Llm

  datatype Block = TextBlock(text: string) | ToolUseBlock(id: string, name: string, input: string) | OtherBlock

  datatype Response = Response(blocks: seq<Block>, inputTokens: nat, outputTokens: nat)

  /**
   * A line of the event stream that decodes to something the reader acts on, noise, or a line at which the
   * reader finds its context done.
   */
  datatype Line =
    | Noise
    | ToolUseStart(index: int, id: string, name: string)
    | OtherStart(index: int)
    | TextDelta(index: int, text: string)
    | JsonDelta(index: int, partial: string)
    | BlockStop(index: int)
    | MessageStart(inputTokens: nat)
    | MessageDelta(outputTokens: nat)
    | MessageStop
    | Interrupt

  datatype ToolState = ToolState(id: string, name: string, input: string)

  datatype Usage = Usage(input: nat, output: nat)

  function Normalized(input: string): string {
    if input == "" then "{}" else input
  }

  function CallOf(t: ToolState): ChatEvent {
    EventToolCall(ToolCall(t.id, t.name, Normalized(t.input)))
  }

  // ---------------------------------------------------------------- the readers

  function BlockEvents(b: Block): seq<ChatEvent> {
    match b
    case TextBlock(text) => [EventToken(text)]
    case ToolUseBlock(id, name, input) => [CallOf(ToolState(id, name, input))]
    case OtherBlock => []
  }

  function FullEvents(blocks: seq<Block>): seq<ChatEvent> {
    if blocks == [] then [] else BlockEvents(blocks[0]) + FullEvents(blocks[1..])
  }

  /** The text of a response, and the blocks of it that call a tool. */
  function WordsOf(blocks: seq<Block>): string {
    if blocks == [] then ""
    else WordsOf(blocks[..|blocks| - 1]) + if blocks[|blocks| - 1].TextBlock? then blocks[|blocks| - 1].text else ""
  }

  function ToolUses(blocks: seq<Block>): (r: seq<Block>)
    ensures forall i :: 0 <= i < |r| ==> r[i].ToolUseBlock?
  {
    if blocks == [] then []
    else ToolUses(blocks[..|blocks| - 1])
         + if blocks[|blocks| - 1].ToolUseBlock? then [blocks[|blocks| - 1]] else []
  }

  /** The events deliver the text of the blocks and, in order, each call with id, name and input. */
  ghost predicate Delivers(events: seq<ChatEvent>, blocks: seq<Block>) {
    var calls, uses := CallsOf(events), ToolUses(blocks);
    && TextOf(events) == WordsOf(blocks) && |calls| == |uses|
    && forall k :: 0 <= k < |uses| ==>
         && calls[k].id == uses[k].id && calls[k].name == uses[k].name
         && (if uses[k].input == "" then calls[k].input == "{}" else calls[k].input == uses[k].input)
  }

  lemma {:induction false} FullSnoc(blocks: seq<Block>, b: Block)
    ensures FullEvents(blocks + [b]) == FullEvents(blocks) + BlockEvents(b)
  {
    hide BlockEvents;
    var all := blocks + [b];
    if blocks == [] {
      assert all == [b] && all[1..] == [];
    } else {
      FullSnoc(blocks[1..], b);
      assert all[0] == blocks[0] && all[1..] == blocks[1..] + [b];
    }
  }

  lemma BlockDelivers(b: Block)
    ensures TextOf(BlockEvents(b)) == if b.TextBlock? then b.text else ""
    ensures CallsOf(BlockEvents(b))
            == if b.ToolUseBlock? then [ToolCall(b.id, b.name, if b.input == "" then "{}" else b.input)] else []
  {
    var events := BlockEvents(b);
    assert events == [] || events[1..] == [];
  }

  /** The reader of complete responses delivers what the response says. */
  lemma {:induction false} FullDelivers(blocks: seq<Block>)
    ensures Delivers(FullEvents(blocks), blocks)
  {
    hide TextOf, CallsOf, BlockEvents;
    if blocks == [] {
      NoEvents();
    } else {
      var front, last := blocks[..|blocks| - 1], blocks[|blocks| - 1];
      FullDelivers(front);
      FullSnoc(front, last);
      assert blocks == front + [last];
      BlockDelivers(last);
      hide FullEvents;
      TextOfAppend(FullEvents(front), BlockEvents(last));
      CallsOfAppend(FullEvents(front), BlockEvents(last));
    }
  }

  lemma DeliversEnd(events: seq<ChatEvent>, blocks: seq<Block>, input: int, output: int)
    requires Delivers(events, blocks)
    ensures Delivers(events + [EventDone(input, output)], blocks)
  {
    EventSnoc(events, EventDone(input, output));
    hide TextOf, CallsOf;
  }

  /** The events of a complete response; a body that does not decode is an error. */
  method ReadFull(body: Option<Response>) returns (events: seq<ChatEvent>)
    ensures events == if body.None? then [EventError]
                      else FullEvents(body.value.blocks) + [EventDone(body.value.inputTokens, body.value.outputTokens)]
    ensures body.Some? ==> Delivers(events, body.value.blocks)
  {
    if body.None? {
      return [EventError];
    }
    var r := body.value;
    FullDelivers(r.blocks);
    DeliversEnd(FullEvents(r.blocks), r.blocks, r.inputTokens, r.outputTokens);
    hide Delivers;
    events := [];
    for n := 0 to |r.blocks|
      invariant events + FullEvents(r.blocks[n..]) == FullEvents(r.blocks)
    {
      ghost var before, rest := events, FullEvents(r.blocks[n + 1..]);
      assert r.blocks[n..][1..] == r.blocks[n + 1..];
      assert before + (BlockEvents(r.blocks[n]) + rest) == before + BlockEvents(r.blocks[n]) + rest;
      match r.blocks[n] {
        case TextBlock(text) =>
          events := events + [EventToken(text)];
        case ToolUseBlock(id, name, input) =>
          var args := input;
          if |args| == 0 {
            args := "{}";
          }
          events := events + [EventToolCall(ToolCall(id, name, args))];
        case OtherBlock =>
      }
      assert events == before + BlockEvents(r.blocks[n]);
    }
    events := events + [EventDone(r.inputTokens, r.outputTokens)];
  }

  /** What the streaming reader emits from a state of half-received tool calls, of a stream that may break. */
  function StreamEvents(lines: seq<Line>, tools: map<int, ToolState>, usage: Usage, broken: bool): seq<ChatEvent> {
    if lines == [] then if broken then [EventError] else []
    else
      var rest := lines[1..];
      match lines[0]
      case Noise => StreamEvents(rest, tools, usage, broken)
      case OtherStart(_) => StreamEvents(rest, tools, usage, broken)
      case ToolUseStart(index, id, name) => StreamEvents(rest, tools[index := ToolState(id, name, "")], usage, broken)
      case TextDelta(_, text) => [EventToken(text)] + StreamEvents(rest, tools, usage, broken)
      case JsonDelta(index, partial) =>
        if index in tools
        then StreamEvents(rest, tools[index := tools[index].(input := tools[index].input + partial)], usage, broken)
        else StreamEvents(rest, tools, usage, broken)
      case BlockStop(index) =>
        if index in tools then [CallOf(tools[index])] + StreamEvents(rest, tools - {index}, usage, broken)
        else StreamEvents(rest, tools, usage, broken)
      case MessageStart(n) => StreamEvents(rest, tools, if n > 0 then usage.(input := n) else usage, broken)
      case MessageDelta(n) => StreamEvents(rest, tools, if n > 0 then usage.(output := n) else usage, broken)
      case MessageStop => [EventDone(usage.input, usage.output)]
      case Interrupt => [EventError]
  }

  method ReadStream(lines: seq<Line>, broken: bool) returns (events: seq<ChatEvent>)
    ensures events == StreamEvents(lines, map[], Usage(0, 0), broken)
  {
    events := [];
    var tools: map<int, ToolState> := map[];
    var usage := Usage(0, 0);
    for n := 0 to |lines|
      invariant events + StreamEvents(lines[n..], tools, usage, broken)
                == StreamEvents(lines, map[], Usage(0, 0), broken)
    {
      assert lines[n..][1..] == lines[n + 1..];
      match lines[n] {
        case Noise =>
        case OtherStart(_) =>
        case ToolUseStart(index, id, name) =>
          tools := tools[index := ToolState(id, name, "")];
        case TextDelta(_, text) =>
          events := events + [EventToken(text)];
        case JsonDelta(index, partial) =>
          if index in tools {
            tools := tools[index := tools[index].(input := tools[index].input + partial)];
          }
        case BlockStop(index) =>
          if index in tools {
            var input := tools[index].input;
            if |input| == 0 {
              input := "{}";
            }
            events := events + [EventToolCall(ToolCall(tools[index].id, tools[index].name, input))];
            tools := tools - {index};
          }
        case MessageStart(inputTokens) =>
          if inputTokens > 0 {
            usage := usage.(input := inputTokens);
          }
        case MessageDelta(outputTokens) =>
          if outputTokens > 0 {
            usage := usage.(output := outputTokens);
          }
        case MessageStop =>
          events := events + [EventDone(usage.input, usage.output)];
          return;
        case Interrupt =>
          events := events + [EventError];
          return;
      }
    }
    if broken {
      events := events + [EventError];
    }
  }

  // ---------------------------------------------------------------- fragmentation

  /** A block as it is streamed: any index, and its text or JSON cut into any pieces. */
  datatype Fragment =
    | TextFragment(index: int, pieces: seq<string>)
    | ToolFragment(index: int, id: string, name: string, pieces: seq<string>)
    | OtherFragment(index: int)

  function Concat(pieces: seq<string>): string {
    if pieces == [] then "" else pieces[0] + Concat(pieces[1..])
  }

  function Whole(f: Fragment): Block {
    match f
    case TextFragment(_, pieces) => TextBlock(Concat(pieces))
    case ToolFragment(_, id, name, pieces) => ToolUseBlock(id, name, Concat(pieces))
    case OtherFragment(_) => OtherBlock
  }

  function Wholes(fs: seq<Fragment>): seq<Block> {
    if fs == [] then [] else [Whole(fs[0])] + Wholes(fs[1..])
  }

  function TextLines(index: int, pieces: seq<string>): seq<Line> {
    if pieces == [] then [] else [TextDelta(index, pieces[0])] + TextLines(index, pieces[1..])
  }

  function JsonLines(index: int, pieces: seq<string>): seq<Line> {
    if pieces == [] then [] else [JsonDelta(index, pieces[0])] + JsonLines(index, pieces[1..])
  }

  function Lines(f: Fragment): seq<Line> {
    match f
    case TextFragment(index, pieces) => [OtherStart(index)] + TextLines(index, pieces) + [BlockStop(index)]
    case ToolFragment(index, id, name, pieces) =>
      [ToolUseStart(index, id, name)] + JsonLines(index, pieces) + [BlockStop(index)]
    case OtherFragment(index) => [OtherStart(index), BlockStop(index)]
  }

  function AllLines(fs: seq<Fragment>): seq<Line> {
    if fs == [] then [] else Lines(fs[0]) + AllLines(fs[1..])
  }

  function Significant(lines: seq<Line>): seq<Line> {
    if lines == [] then []
    else (if lines[0] == Noise then [] else [lines[0]]) + Significant(lines[1..])
  }

  /** The same block, where a tool input that is not sent stands for the empty object. */
  predicate SameBlock(a: Block, b: Block) {
    if a.ToolUseBlock? && b.ToolUseBlock?
    then a.id == b.id && a.name == b.name && Normalized(a.input) == Normalized(b.input)
    else a == b
  }

  ghost predicate SameBlocks(a: seq<Block>, b: seq<Block>) {
    |a| == |b| && forall i :: 0 <= i < |a| ==> SameBlock(a[i], b[i])
  }

  lemma {:induction false} SameEvents(a: seq<Block>, b: seq<Block>)
    requires SameBlocks(a, b)
    ensures FullEvents(a) == FullEvents(b)
  {
    if a != [] {
      assert SameBlock(a[0], b[0]);
      SameEvents(a[1..], b[1..]);
    }
  }

  /** A stream of the response: its blocks one after the other, each fragmented, with noise anywhere. */
  ghost predicate Streams(lines: seq<Line>, fs: seq<Fragment>, r: Response) {
    && SameBlocks(Wholes(fs), r.blocks)
    && Significant(lines) == [MessageStart(r.inputTokens)] + AllLines(fs) + [MessageDelta(r.outputTokens), MessageStop]
  }

  // ---------------------------------------------------------------- agreement

  lemma {:induction false} NoiseIsIgnored(lines: seq<Line>, tools: map<int, ToolState>, usage: Usage, broken: bool)
    ensures StreamEvents(lines, tools, usage, broken) == StreamEvents(Significant(lines), tools, usage, broken)
    decreases |lines|
  {
    if lines != [] {
      var rest := lines[1..];
      var kept := Significant(lines);
      if lines[0] == Noise {
        assert kept == Significant(rest);
      } else {
        assert kept[1..] == Significant(rest);
      }
      match lines[0]
      case ToolUseStart(index, id, name) => NoiseIsIgnored(rest, tools[index := ToolState(id, name, "")], usage,
        broken);
      case JsonDelta(index, partial) =>
        if index in tools {
          NoiseIsIgnored(rest, tools[index := tools[index].(input := tools[index].input + partial)], usage, broken);
        } else {
          NoiseIsIgnored(rest, tools, usage, broken);
        }
      case BlockStop(index) => NoiseIsIgnored(rest, if index in tools then tools - {index} else tools, usage, broken);
      case MessageStart(n) => NoiseIsIgnored(rest, tools, if n > 0 then usage.(input := n) else usage, broken);
      case MessageDelta(n) => NoiseIsIgnored(rest, tools, if n > 0 then usage.(output := n) else usage, broken);
      case _ => NoiseIsIgnored(rest, tools, usage, broken);
    }
  }

  /** The tokens of a fragmented text. */
  function Tokens(pieces: seq<string>): (r: seq<ChatEvent>)
    ensures TextOf(r) == Concat(pieces) && CallsOf(r) == []
  {
    if pieces == [] then []
    else
      var r := [EventToken(pieces[0])] + Tokens(pieces[1..]);
      assert r[1..] == Tokens(pieces[1..]);
      r
  }

  lemma {:induction false} TextStreams(index: int, pieces: seq<string>, rest: seq<Line>, usage: Usage, broken: bool)
    ensures StreamEvents(TextLines(index, pieces) + rest, map[], usage, broken)
            == Tokens(pieces) + StreamEvents(rest, map[], usage, broken)
  {
    var all := TextLines(index, pieces) + rest;
    if pieces == [] {
      assert all == rest;
    } else {
      TextStreams(index, pieces[1..], rest, usage, broken);
      assert all[1..] == TextLines(index, pieces[1..]) + rest;
    }
  }

  lemma {:induction false} JsonStreams(index: int, t: ToolState, pieces: seq<string>, rest: seq<Line>, usage: Usage,
    broken: bool)
    ensures StreamEvents(JsonLines(index, pieces) + rest, map[index := t], usage, broken)
            == StreamEvents(rest, map[index := t.(input := t.input + Concat(pieces))], usage, broken)
    decreases |pieces|
  {
    var all := JsonLines(index, pieces) + rest;
    if pieces == [] {
      assert all == rest && t.input + "" == t.input;
    } else {
      var t' := t.(input := t.input + pieces[0]);
      JsonStreams(index, t', pieces[1..], rest, usage, broken);
      assert all[1..] == JsonLines(index, pieces[1..]) + rest;
      assert map[index := t][index := t'] == map[index := t'];
      assert t'.input + Concat(pieces[1..]) == t.input + Concat(pieces);
    }
  }

  lemma TextFragmentStreams(index: int, pieces: seq<string>, rest: seq<Line>, usage: Usage, broken: bool)
    ensures StreamEvents(Lines(TextFragment(index, pieces)) + rest, map[], usage, broken)
            == Tokens(pieces) + StreamEvents(rest, map[], usage, broken)
  {
    var tail := [BlockStop(index)] + rest;
    var all := Lines(TextFragment(index, pieces)) + rest;
    assert all[1..] == TextLines(index, pieces) + tail;
    TextStreams(index, pieces, tail, usage, broken);
    assert tail[1..] == rest;
  }

  lemma ToolFragmentStreams(index: int, id: string, name: string, pieces: seq<string>, rest: seq<Line>, usage: Usage,
    broken: bool)
    ensures StreamEvents(Lines(ToolFragment(index, id, name, pieces)) + rest, map[], usage, broken)
            == [CallOf(ToolState(id, name, Concat(pieces)))] + StreamEvents(rest, map[], usage, broken)
  {
    var tail := [BlockStop(index)] + rest;
    var all := Lines(ToolFragment(index, id, name, pieces)) + rest;
    assert all[1..] == JsonLines(index, pieces) + tail;
    var t := ToolState(id, name, "");
    var start: map<int, ToolState> := map[];
    assert start[index := t] == map[index := t];
    JsonStreams(index, t, pieces, tail, usage, broken);
    assert tail[1..] == rest;
    assert "" + Concat(pieces) == Concat(pieces);
    var done := map[index := ToolState(id, name, Concat(pieces))];
    assert done - {index} == map[];
  }

  lemma OtherFragmentStreams(index: int, rest: seq<Line>, usage: Usage, broken: bool)
    ensures StreamEvents(Lines(OtherFragment(index)) + rest, map[], usage, broken)
            == StreamEvents(rest, map[], usage, broken)
  {
    var all := Lines(OtherFragment(index)) + rest;
    assert all[1..] == [BlockStop(index)] + rest && all[1..][1..] == rest;
  }

  /** One fragmented block emits the text and the calls of the whole block, and leaves no state behind. */
  lemma FragmentStreams(f: Fragment, rest: seq<Line>, usage: Usage, broken: bool) returns (out: seq<ChatEvent>)
    ensures StreamEvents(Lines(f) + rest, map[], usage, broken) == out + StreamEvents(rest, map[], usage, broken)
    ensures TextOf(out) == TextOf(BlockEvents(Whole(f))) && CallsOf(out) == CallsOf(BlockEvents(Whole(f)))
  {
    hide StreamEvents, Lines, Concat;
    match f
    case TextFragment(index, pieces) =>
      TextFragmentStreams(index, pieces, rest, usage, broken);
      out := Tokens(pieces);
    case ToolFragment(index, id, name, pieces) =>
      ToolFragmentStreams(index, id, name, pieces, rest, usage, broken);
      out := [CallOf(ToolState(id, name, Concat(pieces)))];
    case OtherFragment(index) =>
      OtherFragmentStreams(index, rest, usage, broken);
      out := [];
  }

  lemma {:induction false} FragmentsStream(fs: seq<Fragment>, rest: seq<Line>, usage: Usage, broken: bool)
    returns (out: seq<ChatEvent>)
    ensures StreamEvents(AllLines(fs) + rest, map[], usage, broken) == out + StreamEvents(rest, map[], usage, broken)
    ensures TextOf(out) == TextOf(FullEvents(Wholes(fs))) && CallsOf(out) == CallsOf(FullEvents(Wholes(fs)))
  {
    hide StreamEvents, Lines, Whole, BlockEvents, TextOf, CallsOf;
    if fs == [] {
      assert AllLines(fs) + rest == rest;
      out := [];
    } else {
      var tail := AllLines(fs[1..]) + rest;
      var first := FragmentStreams(fs[0], tail, usage, broken);
      var more := FragmentsStream(fs[1..], rest, usage, broken);
      assert AllLines(fs) + rest == Lines(fs[0]) + tail;
      out := first + more;
      TextOfAppend(first, more);
      CallsOfAppend(first, more);
      var head, whole := BlockEvents(Whole(fs[0])), FullEvents(Wholes(fs[1..]));
      assert Wholes(fs)[1..] == Wholes(fs[1..]);
      TextOfAppend(head, whole);
      CallsOfAppend(head, whole);
    }
  }

  /**
   * However a response is fragmented, the streaming reader delivers the same text, the same list of
   * tool calls and the same usage as the reader of the complete response, and then stops.
   */
  lemma StreamingAgrees(lines: seq<Line>, fs: seq<Fragment>, r: Response, broken: bool) returns (out: seq<ChatEvent>)
    requires Streams(lines, fs, r)
    ensures StreamEvents(lines, map[], Usage(0, 0), broken) == out + [EventDone(r.inputTokens, r.outputTokens)]
    ensures TextOf(out) == TextOf(FullEvents(r.blocks))
    ensures CallsOf(out) == CallsOf(FullEvents(r.blocks))
    ensures Delivers(out, r.blocks)
  {
    FullDelivers(r.blocks);
    hide StreamEvents, FullEvents, AllLines, Wholes, TextOf, CallsOf, SameBlocks;
    SameEvents(Wholes(fs), r.blocks);
    NoiseIsIgnored(lines, map[], Usage(0, 0), broken);
    var tail := [MessageDelta(r.outputTokens), MessageStop];
    assert Significant(lines) == [MessageStart(r.inputTokens)] + (AllLines(fs) + tail);
    hide Significant;
    StreamStarts(r.inputTokens, AllLines(fs) + tail, broken);
    out := FragmentsStream(fs, tail, Usage(r.inputTokens, 0), broken);
    StreamStops(r.inputTokens, r.outputTokens, broken);
  }

  lemma StreamStarts(inputTokens: nat, rest: seq<Line>, broken: bool)
    ensures StreamEvents([MessageStart(inputTokens)] + rest, map[], Usage(0, 0), broken)
            == StreamEvents(rest, map[], Usage(inputTokens, 0), broken)
  {
    assert ([MessageStart(inputTokens)] + rest)[1..] == rest;
  }

  lemma StreamStops(inputTokens: nat, outputTokens: nat, broken: bool)
    ensures StreamEvents([MessageDelta(outputTokens), MessageStop], map[], Usage(inputTokens, 0), broken)
            == [EventDone(inputTokens, outputTokens)]
  {
    assert [MessageDelta(outputTokens), MessageStop][1..] == [MessageStop];
  }

  // ---------------------------------------------------------------- how a stream ends

  datatype Ending = Stopped | Failed | Faded

  /** Stopped by its stop line, failed by a done context or a broken connection, or just over. */
  function EndOf(lines: seq<Line>, broken: bool): Ending {
    if lines == [] then if broken then Failed else Faded
    else if lines[0] == MessageStop then Stopped
    else if lines[0] == Interrupt then Failed
    else EndOf(lines[1..], broken)
  }

  predicate IsEnd(ev: ChatEvent) {
    ev.EventDone? || ev.EventError?
  }

  lemma {:induction false} EventsTellEnd(lines: seq<Line>, tools: map<int, ToolState>, usage: Usage, broken: bool)
    ensures var events := StreamEvents(lines, tools, usage, broken);
            && (EndOf(lines, broken) == Stopped <==> events != [] && events[|events| - 1].EventDone?)
            && (EndOf(lines, broken) == Failed <==> events != [] && events[|events| - 1].EventError?)
            && forall i :: 0 <= i < |events| - 1 ==> !IsEnd(events[i])
    decreases |lines|
  {
    if lines != [] {
      var rest := lines[1..];
      match lines[0]
      case ToolUseStart(index, id, name) => EventsTellEnd(rest, tools[index := ToolState(id, name, "")], usage, broken);
      case JsonDelta(index, partial) =>
        if index in tools {
          EventsTellEnd(rest, tools[index := tools[index].(input := tools[index].input + partial)], usage, broken);
        } else {
          EventsTellEnd(rest, tools, usage, broken);
        }
      case BlockStop(index) => EventsTellEnd(rest, if index in tools then tools - {index} else tools, usage, broken);
      case MessageStart(n) => EventsTellEnd(rest, tools, if n > 0 then usage.(input := n) else usage, broken);
      case MessageDelta(n) => EventsTellEnd(rest, tools, if n > 0 then usage.(output := n) else usage, broken);
      case _ => EventsTellEnd(rest, tools, usage, broken);
    }
  }

  lemma ErrorIsMember(events: seq<ChatEvent>)
    requires forall i :: 0 <= i < |events| - 1 ==> !IsEnd(events[i])
    ensures EventError in events <==> events != [] && events[|events| - 1].EventError?
  {
  }

  /** The first line that ends the reading, or the end. */
  function EndsAt(lines: seq<Line>, n: nat): (m: nat)
    requires n <= |lines|
    ensures n <= m <= |lines| && (m < |lines| ==> lines[m] == MessageStop || lines[m] == Interrupt)
    ensures forall i :: n <= i < m ==> lines[i] != MessageStop && lines[i] != Interrupt
    decreases |lines| - n
  {
    if n == |lines| || lines[n] == MessageStop || lines[n] == Interrupt then n else EndsAt(lines, n + 1)
  }

  lemma {:induction false} EndIsAt(lines: seq<Line>, n: nat, broken: bool)
    requires n <= |lines|
    ensures var m := EndsAt(lines, n);
            EndOf(lines[n..], broken)
            == if m == |lines| then if broken then Failed else Faded
               else if lines[m] == MessageStop then Stopped else Failed
    decreases |lines| - n
  {
    if n < |lines| {
      assert lines[n..][0] == lines[n] && lines[n..][1..] == lines[n + 1..];
      if lines[n] != MessageStop && lines[n] != Interrupt {
        EndIsAt(lines, n + 1, broken);
      }
    }
  }

  /**
   * A stream is reported as failed exactly if the context is done before its stop line, or the connection
   * breaks before it, and as done exactly if the stop line is reached. One that is over before its stop line, and
   * is neither, counts as a complete reply.
   */
  lemma FailureExactlyWhen(lines: seq<Line>, broken: bool)
    ensures var events, m := StreamEvents(lines, map[], Usage(0, 0), broken), EndsAt(lines, 0);
            && (EventError in events <==> if m == |lines| then broken else lines[m] == Interrupt)
            && (events != [] && events[|events| - 1].EventDone? <==> m < |lines| && lines[m] == MessageStop)
  {
    EventsTellEnd(lines, map[], Usage(0, 0), broken);
    ErrorIsMember(StreamEvents(lines, map[], Usage(0, 0), broken));
    EndIsAt(lines, 0, broken);
    assert lines[0..] == lines;
  }

  /** A reply that is cut off after its first words, and is read as if it were complete. */
  lemma HalfReply() returns (lines: seq<Line>)
    ensures lines == [MessageStart(3), OtherStart(0), TextDelta(0, "half")]
    ensures StreamEvents(lines, map[], Usage(0, 0), false) == [EventToken("half")]
    ensures EventError !in StreamEvents(lines, map[], Usage(0, 0), false) && EndOf(lines, false) == Faded
  {
    lines := [MessageStart(3), OtherStart(0), TextDelta(0, "half")];
    var rest := lines[1..];
    assert rest == [OtherStart(0), TextDelta(0, "half")] && rest[1..] == [TextDelta(0, "half")];
    assert rest[1..][1..] == [];
    assert StreamEvents(rest[1..], map[], Usage(3, 0), false) == [EventToken("half")];
  }
}
