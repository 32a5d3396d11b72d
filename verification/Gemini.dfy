/** The Gemini client: call ids made from a restarting counter, and function names recovered from them. */
module Gemini {
  import opened Llm

  // ---------------------------------------------------------------- ids

  function Digit(d: nat): char
    requires d < 10
  {
    "0123456789"[d]
  }

  predicate IsDigit(c: char) {
    '0' <= c <= '9'
  }

  function Decimal(n: nat): (s: string)
    ensures s != "" && forall i :: 0 <= i < |s| ==> IsDigit(s[i])
  {
    if n < 10 then [Digit(n)] else Decimal(n / 10) + [Digit(n % 10)]
  }

  function ValueOf(digits: string): int {
    if digits == "" then 0 else 10 * ValueOf(digits[..|digits| - 1]) + (digits[|digits| - 1] as int - '0' as int)
  }

  /** The digits stand for the number. */
  lemma {:induction false} DecimalValue(n: nat)
    ensures ValueOf(Decimal(n)) == n
  {
    var s := Decimal(n);
    if n < 10 {
      assert s[..0] == "";
    } else {
      DecimalValue(n / 10);
      assert s[..|s| - 1] == Decimal(n / 10);
    }
  }

  function CallId(name: string, n: nat): string {
    "gemini_call_" + name + "_" + Decimal(n)
  }

  lemma {:induction false} DecimalInjective(m: nat, n: nat)
    requires Decimal(m) == Decimal(n)
    ensures m == n
  {
    var s, t := Decimal(m), Decimal(n);
    assert s[|s| - 1] == Digit(m % 10) && t[|t| - 1] == Digit(n % 10);
    if m >= 10 && n >= 10 {
      assert s[..|s| - 1] == Decimal(m / 10) && t[..|t| - 1] == Decimal(n / 10);
      DecimalInjective(m / 10, n / 10);
    }
  }

  /** The last underscore separates name and number, so an id determines both. */
  lemma IdDetermines(a: string, m: nat, b: string, n: nat)
    requires CallId(a, m) == CallId(b, n)
    ensures a == b && m == n
  {
    hide Decimal;
    var p := "gemini_call_";
    var s, t := Decimal(m), Decimal(n);
    var id := CallId(a, m);
    assert id == p + a + "_" + s == p + b + "_" + t;
    var i, j := |p| + |a|, |p| + |b|;
    assert id[i] == '_' && id[j] == '_';
    assert forall k :: i < k < |id| ==> id[k] == s[k - i - 1];
    assert forall k :: j < k < |id| ==> id[k] == t[k - j - 1];
    assert i == j;
    assert a == id[|p|..i] && b == id[|p|..j];
    assert s == id[i + 1..] && t == id[j + 1..];
    DecimalInjective(m, n);
  }

  datatype FunctionCall = FunctionCall(name: string, args: string)

  /** A part of a response: text, a call, both or neither. */
  datatype Part = Part(text: string, call: Option<FunctionCall>)

  function CallsIn(parts: seq<Part>): nat {
    if parts == [] then 0
    else CallsIn(parts[..|parts| - 1]) + if parts[|parts| - 1].call.Some? then 1 else 0
  }

  function CallEvent(c: FunctionCall, callIndex: nat): ChatEvent {
    EventToolCall(ToolCall(CallId(c.name, callIndex), c.name, c.args))
  }

  /** The text of a part comes before its call. */
  function PartEvents(p: Part, callIndex: nat): seq<ChatEvent> {
    (if p.text == "" then [] else [EventToken(p.text)])
    + if p.call.Some? then [CallEvent(p.call.value, callIndex)] else []
  }

  function Events(parts: seq<Part>): seq<ChatEvent> {
    if parts == [] then []
    else
      var front := parts[..|parts| - 1];
      Events(front) + PartEvents(parts[|parts| - 1], CallsIn(front) + 1)
  }

  lemma EventsSnoc(parts: seq<Part>, p: Part)
    ensures Events(parts + [p]) == Events(parts) + PartEvents(p, CallsIn(parts) + 1)
    ensures CallsIn(parts + [p]) == CallsIn(parts) + if p.call.Some? then 1 else 0
  {
    assert (parts + [p])[..|parts|] == parts;
  }

  /** The text and the calls that parts carry, in order. */
  function Texts(parts: seq<Part>): string {
    if parts == [] then "" else Texts(parts[..|parts| - 1]) + parts[|parts| - 1].text
  }

  function Carried(parts: seq<Part>): seq<FunctionCall> {
    if parts == [] then []
    else Carried(parts[..|parts| - 1]) + if parts[|parts| - 1].call.Some? then [parts[|parts| - 1].call.value] else []
  }

  /** The events deliver the text of the parts, and their calls with name and arguments, numbered from one on. */
  ghost predicate Delivers(events: seq<ChatEvent>, parts: seq<Part>) {
    var calls, carried := CallsOf(events), Carried(parts);
    && TextOf(events) == Texts(parts) && |calls| == |carried|
    && forall k :: 0 <= k < |carried| ==> Matches(calls[k], carried[k], k + 1)
  }

  predicate Matches(call: ToolCall, c: FunctionCall, n: nat) {
    call == ToolCall("gemini_call_" + c.name + "_" + Decimal(n), c.name, c.args)
  }

  lemma PartDelivers(p: Part, n: nat)
    ensures TextOf(PartEvents(p, n)) == p.text
    ensures CallsOf(PartEvents(p, n)) == if p.call.Some? then [CallEvent(p.call.value, n).call] else []
    ensures p.call.Some? ==> Matches(CallEvent(p.call.value, n).call, p.call.value, n)
  {
    CallsOfPart(p, n);
    var text := if p.text == "" then [] else [EventToken(p.text)];
    NoEvents();
    assert TextOf(text) == p.text by {
      if p.text != "" {
        EventSnoc([], EventToken(p.text));
        assert [] + [EventToken(p.text)] == text;
      }
    }
    hide TextOf, CallsOf, Decimal;
    if p.call.Some? {
      EventSnoc(text, CallEvent(p.call.value, n));
    } else {
      assert PartEvents(p, n) == text;
    }
  }

  lemma {:induction false} EventsDeliver(parts: seq<Part>)
    ensures Delivers(Events(parts), parts) && |Carried(parts)| == CallsIn(parts)
  {
    hide PartEvents, CallEvent, CallsOf, TextOf, Matches;
    if parts == [] {
      NoEvents();
    } else {
      var front, last := parts[..|parts| - 1], parts[|parts| - 1];
      var n := CallsIn(front) + 1;
      EventsDeliver(front);
      TextOfAppend(Events(front), PartEvents(last, n));
      CallsOfAppend(Events(front), PartEvents(last, n));
      PartDelivers(last, n);
      if last.call.Some? {
        IsCallEvent(last.call.value, n);
      }
      var before, after := CallsOf(Events(front)), CallsOf(Events(parts));
      assert after == before + if last.call.Some? then [CallEvent(last.call.value, n).call] else [];
      hide Events, Texts;
      forall k | 0 <= k < |Carried(parts)| ensures Matches(after[k], Carried(parts)[k], k + 1) {
        if k < |before| {
          assert after[k] == before[k] && Carried(parts)[k] == Carried(front)[k];
        }
      }
    }
  }

  lemma DeliversEnd(events: seq<ChatEvent>, parts: seq<Part>, end: ChatEvent)
    requires Delivers(events, parts) && !end.EventToken? && !end.EventToolCall?
    ensures Delivers(events + [end], parts)
  {
    EventSnoc(events, end);
    hide TextOf, CallsOf;
  }

  /** The loop of both readers over the parts of one chunk, going on from the parts seen before in the response. */
  method ReadParts(parts: seq<Part>, callIndex0: nat, ghost seen: seq<Part>)
    returns (events: seq<ChatEvent>, callIndex: nat)
    requires callIndex0 == CallsIn(seen)
    ensures Events(seen + parts) == Events(seen) + events && callIndex == CallsIn(seen + parts)
    ensures EventError !in events && forall i :: 0 <= i < |events| ==> !events[i].EventDone?
  {
    hide CallId, Events, CallsIn;
    events, callIndex := [], callIndex0;
    assert seen + parts[..0] == seen && seen + parts[..|parts|] == seen + parts;
    for n := 0 to |parts|
      invariant callIndex == CallsIn(seen + parts[..n]) && Events(seen + parts[..n]) == Events(seen) + events
      invariant EventError !in events && forall i :: 0 <= i < |events| ==> !events[i].EventDone?
    {
      assert seen + parts[..n + 1] == (seen + parts[..n]) + [parts[n]];
      EventsSnoc(seen + parts[..n], parts[n]);
      ghost var before := events;
      if parts[n].text != "" {
        events := events + [EventToken(parts[n].text)];
      }
      if parts[n].call.Some? {
        var c := parts[n].call.value;
        callIndex := callIndex + 1;
        events := events + [EventToolCall(ToolCall(CallId(c.name, callIndex), c.name, c.args))];
      }
      assert events == before + PartEvents(parts[n], CallsIn(seen + parts[..n]) + 1);
    }
  }

  // ---------------------------------------------------------------- responses and streams

  datatype Usage = Usage(input: int, output: int)

  /** What a response or a chunk of a stream decodes to. */
  datatype Response = Response(candidates: seq<seq<Part>>, usage: Option<Usage>)

  /** A line of the stream: noise, a chunk, or one at which the reader finds its context done. */
  datatype Line = Noise | Chunk(response: Response) | Interrupt

  function AllParts(candidates: seq<seq<Part>>): seq<Part> {
    if candidates == [] then [] else AllParts(candidates[..|candidates| - 1]) + candidates[|candidates| - 1]
  }

  /** All parts of all candidates of all chunks, first to last. */
  function Flat(candidates: seq<seq<Part>>): seq<Part> {
    if candidates == [] then [] else candidates[0] + Flat(candidates[1..])
  }

  function PartsOf(lines: seq<Line>): seq<Part> {
    if lines == [] then []
    else (if lines[0].Chunk? then Flat(lines[0].response.candidates) else []) + PartsOf(lines[1..])
  }

  lemma {:induction false} FlatSnoc(candidates: seq<seq<Part>>, c: seq<Part>)
    ensures Flat(candidates + [c]) == Flat(candidates) + c
  {
    if candidates == [] {
      assert ([] + [c])[1..] == [] && candidates + [c] == [c];
    } else {
      FlatSnoc(candidates[1..], c);
      assert (candidates + [c])[1..] == candidates[1..] + [c];
    }
  }

  lemma {:induction false} AllPartsIsFlat(candidates: seq<seq<Part>>)
    ensures AllParts(candidates) == Flat(candidates)
  {
    if candidates != [] {
      var front, last := candidates[..|candidates| - 1], candidates[|candidates| - 1];
      AllPartsIsFlat(front);
      FlatSnoc(front, last);
      assert candidates == front + [last];
    }
  }

  lemma {:induction false} PartsSnoc(lines: seq<Line>, l: Line)
    ensures PartsOf(lines + [l]) == PartsOf(lines) + if l.Chunk? then Flat(l.response.candidates) else []
  {
    if lines == [] {
      assert lines + [l] == [l] && [l][1..] == [];
    } else {
      PartsSnoc(lines[1..], l);
      assert (lines + [l])[1..] == lines[1..] + [l];
    }
  }

  lemma {:induction false} PartsUpToIsFlat(lines: seq<Line>, n: nat)
    requires n <= |lines|
    ensures PartsUpTo(lines, n) == PartsOf(lines[..n])
  {
    if n > 0 {
      PartsUpToIsFlat(lines, n - 1);
      PartsSnoc(lines[..n - 1], lines[n - 1]);
      assert lines[..n] == lines[..n - 1] + [lines[n - 1]];
      if lines[n - 1].Chunk? {
        AllPartsIsFlat(lines[n - 1].response.candidates);
      }
    }
  }

  /** The usage that the last of the first n lines to carry one carries, or zero. */
  ghost predicate IsLastUsage(lines: seq<Line>, n: nat, u: Usage)
    requires n <= |lines|
  {
    || (u == Usage(0, 0) && forall j :: 0 <= j < n ==> !HasUsage(lines[j]))
    || (exists i :: 0 <= i < n && HasUsage(lines[i]) && lines[i].response.usage.value == u
                    && forall j :: i < j < n ==> !HasUsage(lines[j]))
  }

  predicate HasUsage(l: Line) {
    l.Chunk? && l.response.usage.Some?
  }

  lemma {:induction false} UsageIsLast(lines: seq<Line>, n: nat)
    requires n <= |lines|
    ensures IsLastUsage(lines, n, UsageUpTo(lines, n))
  {
    if n > 0 {
      UsageIsLast(lines, n - 1);
      if !HasUsage(lines[n - 1]) && UsageUpTo(lines, n - 1) != Usage(0, 0) {
        var i :| 0 <= i < n - 1 && HasUsage(lines[i]) && lines[i].response.usage.value == UsageUpTo(lines, n - 1)
                 && forall j :: i < j < n - 1 ==> !HasUsage(lines[j]);
        assert forall j :: i < j < n ==> !HasUsage(lines[j]);
      }
    }
  }

  function UsageAfter(usage: Usage, r: Response): Usage {
    if r.usage.Some? then r.usage.value else usage
  }

  /** The parts that the streaming reader sees in the first n lines, and the last usage. */
  function PartsUpTo(lines: seq<Line>, n: nat): seq<Part>
    requires n <= |lines|
  {
    if n == 0 then []
    else PartsUpTo(lines, n - 1) + if lines[n - 1].Chunk? then AllParts(lines[n - 1].response.candidates) else []
  }

  function UsageUpTo(lines: seq<Line>, n: nat): Usage
    requires n <= |lines|
  {
    if n == 0 then Usage(0, 0)
    else if lines[n - 1].Chunk? then UsageAfter(UsageUpTo(lines, n - 1), lines[n - 1].response)
    else UsageUpTo(lines, n - 1)
  }

  /** The first line at which the context is done, or the end. */
  function StopsAt(lines: seq<Line>, n: nat): (m: nat)
    requires n <= |lines|
    ensures n <= m <= |lines| && (m < |lines| ==> lines[m] == Interrupt)
    ensures forall i :: n <= i < m ==> lines[i] != Interrupt
    decreases |lines| - n
  {
    if n == |lines| || lines[n] == Interrupt then n else StopsAt(lines, n + 1)
  }

  method ReadCandidates(candidates: seq<seq<Part>>, callIndex0: nat, ghost seen: seq<Part>)
    returns (events: seq<ChatEvent>, callIndex: nat)
    requires callIndex0 == CallsIn(seen)
    ensures Events(seen + AllParts(candidates)) == Events(seen) + events
    ensures callIndex == CallsIn(seen + AllParts(candidates))
    ensures EventError !in events && forall i :: 0 <= i < |events| ==> !events[i].EventDone?
  {
    hide Events, CallsIn;
    events, callIndex := [], callIndex0;
    assert seen + AllParts(candidates[..0]) == seen && candidates[..|candidates|] == candidates;
    for n := 0 to |candidates|
      invariant callIndex == CallsIn(seen + AllParts(candidates[..n]))
      invariant Events(seen + AllParts(candidates[..n])) == Events(seen) + events
      invariant EventError !in events && forall i :: 0 <= i < |events| ==> !events[i].EventDone?
    {
      assert candidates[..n + 1][..n] == candidates[..n];
      ghost var before := seen + AllParts(candidates[..n]);
      assert before + candidates[n] == seen + AllParts(candidates[..n + 1]);
      var more;
      more, callIndex := ReadParts(candidates[n], callIndex, before);
      events := events + more;
    }
  }

  /** What the streaming reader emits. */
  function Streamed(lines: seq<Line>): seq<ChatEvent> {
    var m := StopsAt(lines, 0);
    var usage := UsageUpTo(lines, m);
    Events(PartsUpTo(lines, m)) + [if m < |lines| then EventError else EventDone(usage.input, usage.output)]
  }

  /** What the reader of complete responses emits. */
  function Complete(body: Option<Response>): seq<ChatEvent> {
    if body.None? then [EventError]
    else
      var usage := UsageAfter(Usage(0, 0), body.value);
      Events(AllParts(body.value.candidates)) + [EventDone(usage.input, usage.output)]
  }

  /**
   * What a stream is read as: text and calls of all its parts up to the line at which the context is done, if
   * there is one, and then an error; otherwise the last usage.
   */
  ghost predicate StreamReads(lines: seq<Line>, events: seq<ChatEvent>) {
    var m := StopsAt(lines, 0);
    && events != [] && Delivers(events, PartsOf(lines[..m]))
    && (m < |lines| <==> events[|events| - 1] == EventError) && (m < |lines| <==> Interrupt in lines)
    && (m == |lines| ==> exists u :: IsLastUsage(lines, m, u) && events[|events| - 1] == EventDone(u.input, u.output))
  }

  lemma StreamedReads(lines: seq<Line>)
    ensures StreamReads(lines, Streamed(lines))
  {
    var m := StopsAt(lines, 0);
    var parts, usage := PartsUpTo(lines, m), UsageUpTo(lines, m);
    EventsDeliver(parts);
    PartsUpToIsFlat(lines, m);
    UsageIsLast(lines, m);
    DeliversEnd(Events(parts), parts, Streamed(lines)[|Events(parts)|]);
    hide Events, Delivers, PartsUpTo, UsageUpTo, IsLastUsage, PartsOf;
  }

  /** What a complete response is read as. */
  ghost predicate FullReads(r: Response, events: seq<ChatEvent>) {
    && events != [] && Delivers(events, Flat(r.candidates))
    && events[|events| - 1] == if r.usage.Some? then EventDone(r.usage.value.input, r.usage.value.output)
                               else EventDone(0, 0)
  }

  lemma CompleteReads(r: Response)
    ensures FullReads(r, Complete(Some(r)))
  {
    var parts := AllParts(r.candidates);
    EventsDeliver(parts);
    AllPartsIsFlat(r.candidates);
    DeliversEnd(Events(parts), parts, Complete(Some(r))[|Events(parts)|]);
    hide Events, Delivers, AllParts, Flat;
  }

  /** The streaming reader: one counter for the whole stream, the last usage, an error if its context is done. */
  method ReadStream(lines: seq<Line>) returns (events: seq<ChatEvent>)
    ensures events == Streamed(lines)
    ensures StreamReads(lines, events)
  {
    StreamedReads(lines);
    hide Events, CallsIn, StopsAt, StreamReads;
    NoParts();
    events := [];
    var callIndex, usage, n := 0, Usage(0, 0), 0;
    while n < |lines|
      invariant n <= |lines| && n <= StopsAt(lines, 0)
      invariant callIndex == CallsIn(PartsUpTo(lines, n)) && events == Events(PartsUpTo(lines, n))
      invariant usage == UsageUpTo(lines, n)
    {
      if lines[n] == Interrupt {
        return events + [EventError];
      }
      if lines[n].Chunk? {
        var resp := lines[n].response;
        if resp.usage.Some? {
          usage := resp.usage.value;
        }
        var more;
        more, callIndex := ReadCandidates(resp.candidates, callIndex, PartsUpTo(lines, n));
        events := events + more;
      } else {
        assert PartsUpTo(lines, n + 1) == PartsUpTo(lines, n);
      }
      n := n + 1;
    }
    events := events + [EventDone(usage.input, usage.output)];
  }

  lemma NoParts()
    ensures Events([]) == [] && CallsIn([]) == 0
  {
  }

  /** The reader of complete responses; a body that does not decode is an error. */
  method ReadFull(body: Option<Response>) returns (events: seq<ChatEvent>)
    ensures events == Complete(body)
    ensures body.None? ==> events == [EventError]
    ensures body.Some? ==> FullReads(body.value, events)
  {
    if body.None? {
      return [EventError];
    }
    CompleteReads(body.value);
    hide Events, CallsIn, FullReads, AllParts, Delivers;
    NoParts();
    var callIndex;
    events, callIndex := ReadCandidates(body.value.candidates, 0, []);
    assert [] + AllParts(body.value.candidates) == AllParts(body.value.candidates);
    var usage := if body.value.usage.Some? then body.value.usage.value else Usage(0, 0);
    events := events + [EventDone(usage.input, usage.output)];
  }

  /** A stream of the response: its parts, distributed over chunks and candidates in any way, and its usage. */
  ghost predicate Streams(lines: seq<Line>, r: Response) {
    && (forall i :: 0 <= i < |lines| ==> lines[i] != Interrupt)
    && PartsUpTo(lines, |lines|) == AllParts(r.candidates)
    && UsageUpTo(lines, |lines|) == UsageAfter(Usage(0, 0), r)
  }

  /**
   * However the parts of a response are distributed over chunks and candidates, and whatever noise is between
   * them, the streaming reader emits exactly the events of the reader of the complete response: the same
   * tokens and calls with the same ids, in the same order, and the same usage.
   */
  lemma StreamingAgrees(lines: seq<Line>, r: Response)
    requires Streams(lines, r)
    ensures Streamed(lines) == Complete(Some(r))
  {
    hide Events;
    assert StopsAt(lines, 0) == |lines|;
  }

  ghost predicate DistinctIds(calls: seq<ToolCall>) {
    forall j, k :: 0 <= j < k < |calls| ==> calls[j].id != calls[k].id
  }

  /** The id has the client's format for its name. */
  ghost predicate Formatted(c: ToolCall) {
    exists n: nat :: c.id == CallId(c.name, n)
  }

  lemma CallsOfPart(p: Part, callIndex: nat)
    ensures CallsOf(PartEvents(p, callIndex)) == if p.call.Some? then [CallEvent(p.call.value, callIndex).call] else []
  {
    hide CallEvent, CallsOf, TextOf;
    NoEvents();
    var text := if p.text == "" then [] else [EventToken(p.text)];
    if p.text != "" {
      EventSnoc([], EventToken(p.text));
      assert [] + [EventToken(p.text)] == text;
    }
    if p.call.Some? {
      EventSnoc(text, CallEvent(p.call.value, callIndex));
      IsCallEvent(p.call.value, callIndex);
    } else {
      assert PartEvents(p, callIndex) == text;
    }
  }

  lemma IsCallEvent(c: FunctionCall, callIndex: nat)
    ensures CallEvent(c, callIndex).EventToolCall? && CallEvent(c, callIndex).call.id == CallId(c.name, callIndex)
    ensures CallEvent(c, callIndex).call.name == c.name
  {
  }

  /** Call k of a response is numbered k + 1. */
  lemma {:induction false} ResponseIds(parts: seq<Part>)
    ensures |CallsOf(Events(parts))| == CallsIn(parts)
    ensures forall k :: 0 <= k < CallsIn(parts) ==>
              CallsOf(Events(parts))[k].id == CallId(CallsOf(Events(parts))[k].name, k + 1)
  {
    hide CallId, CallEvent, PartEvents, CallsOf;
    if parts == [] {
      NoEvents();
    } else {
      var front, last := parts[..|parts| - 1], parts[|parts| - 1];
      var n := CallsIn(front) + 1;
      var before, after := CallsOf(Events(front)), CallsOf(Events(parts));
      ResponseIds(front);
      CallsOfAppend(Events(front), PartEvents(last, n));
      CallsOfPart(last, n);
      if last.call.Some? {
        IsCallEvent(last.call.value, n);
        assert after == before + [CallEvent(last.call.value, n).call];
      } else {
        assert after == before;
      }
      hide Events;
      forall k | 0 <= k < |after| ensures after[k].id == CallId(after[k].name, k + 1) {
        if k < |before| {
          assert after[k] == before[k];
        }
      }
    }
  }

  /** The calls of one response have distinct ids, all in the client's format. */
  lemma ResponseIdsDistinct(parts: seq<Part>)
    ensures var calls := CallsOf(Events(parts));
            && (forall k :: 0 <= k < |calls| ==> Formatted(calls[k]))
            && DistinctIds(calls)
  {
    hide CallId, Events;
    ResponseIds(parts);
    var calls := CallsOf(Events(parts));
    forall j, k | 0 <= j < k < |calls| ensures calls[j].id != calls[k].id {
      if CallId(calls[j].name, j + 1) == CallId(calls[k].name, k + 1) {
        IdDetermines(calls[j].name, j + 1, calls[k].name, k + 1);
      }
    }
  }

  // ---------------------------------------------------------------- names of function responses

  type Names = map<string, string>

  function AddNames(names: Names, calls: seq<ToolCall>): Names {
    if calls == [] then names
    else AddNames(names, calls[..|calls| - 1])[calls[|calls| - 1].id := calls[|calls| - 1].name]
  }

  /** The map when message i has been entered; later calls overwrite earlier ones of the same id. */
  function NamesAt(msgs: seq<ChatMessage>, n: nat): Names
    requires n <= |msgs|
  {
    if n == 0 then map[]
    else if msgs[n - 1].role == System then NamesAt(msgs, n - 1)
    else AddNames(NamesAt(msgs, n - 1), msgs[n - 1].toolCalls)
  }

  function NameFor(names: Names, r: ToolResult): string {
    if r.callId in names then names[r.callId] else r.callId
  }

  datatype RequestPart = TextPart(text: string) | CallPart(name: string, args: string)
    | ResponsePart(name: string, content: string)

  datatype GeminiContent = GeminiContent(role: string, parts: seq<RequestPart>)

  function RoleName(m: ChatMessage): string {
    if m.role == Assistant then "model" else "user"
  }

  function CallParts(m: ChatMessage): (r: seq<RequestPart>)
    ensures |r| == |m.toolCalls|
  {
    seq(|m.toolCalls|, j requires 0 <= j < |m.toolCalls| => CallPart(m.toolCalls[j].name, m.toolCalls[j].input))
  }

  function ResponseParts(m: ChatMessage, names: Names): (r: seq<RequestPart>)
    ensures |r| == |m.toolResults|
  {
    seq(|m.toolResults|, j requires 0 <= j < |m.toolResults| =>
      ResponsePart(NameFor(names, m.toolResults[j]), m.toolResults[j].content))
  }

  /** How one message is sent: text and calls, function responses, or text. */
  function Converted(m: ChatMessage, names: Names): GeminiContent {
    GeminiContent(RoleName(m),
                  if IsCalls(m) then (if m.content == "" then [] else [TextPart(m.content)]) + CallParts(m)
                  else if m.role == User && IsResults(m) then ResponseParts(m, names)
                  else [TextPart(m.content)])
  }

  function TextSent(parts: seq<RequestPart>): string {
    if parts == [] then ""
    else TextSent(parts[..|parts| - 1]) + if parts[|parts| - 1].TextPart? then parts[|parts| - 1].text else ""
  }

  function CallsSent(parts: seq<RequestPart>): seq<RequestPart> {
    if parts == [] then []
    else CallsSent(parts[..|parts| - 1]) + if parts[|parts| - 1].CallPart? then [parts[|parts| - 1]] else []
  }

  lemma {:induction false} CallPartsSent(text: seq<RequestPart>, calls: seq<RequestPart>)
    requires forall j :: 0 <= j < |calls| ==> calls[j].CallPart?
    ensures TextSent(text + calls) == TextSent(text) && CallsSent(text + calls) == CallsSent(text) + calls
  {
    hide TextSent, CallsSent;
    if calls == [] {
      assert text + calls == text && CallsSent(text) + calls == CallsSent(text);
    } else {
      var front, last := calls[..|calls| - 1], calls[|calls| - 1];
      CallPartsSent(text, front);
      SentSnoc(text + front, last);
      assert text + calls == text + front + [last] && calls == front + [last];
    }
  }

  lemma SentSnoc(parts: seq<RequestPart>, p: RequestPart)
    requires p.CallPart?
    ensures TextSent(parts + [p]) == TextSent(parts) && CallsSent(parts + [p]) == CallsSent(parts) + [p]
  {
    assert (parts + [p])[..|parts|] == parts;
  }

  /**
   * What a message is sent as: the assistant's as the model's and every other one as the user's; its text and, if
   * the assistant calls tools, each call with name and arguments; or, for the user's results, each content.
   */
  lemma MessageIsSent(m: ChatMessage, names: Names)
    ensures var c := Converted(m, names);
            && c.role == (if m.role == Assistant then "model" else "user")
            && (m.role == User && |m.toolResults| > 0 ==>
                  && |c.parts| == |m.toolResults|
                  && forall j :: 0 <= j < |c.parts| ==>
                       var id := m.toolResults[j].callId;
                       c.parts[j] == ResponsePart(if id in names then names[id] else id, m.toolResults[j].content))
            && (!(m.role == User && |m.toolResults| > 0) ==> TextSent(c.parts) == m.content)
            && (!(m.role == Assistant && |m.toolCalls| > 0) ==> CallsSent(c.parts) == [])
            && (m.role == Assistant && |m.toolCalls| > 0 ==>
                  && |CallsSent(c.parts)| == |m.toolCalls|
                  && forall j :: 0 <= j < |m.toolCalls| ==>
                       CallsSent(c.parts)[j] == CallPart(m.toolCalls[j].name, m.toolCalls[j].input))
  {
    hide TextSent, CallsSent, ResponseParts, CallParts, NameFor;
    OneText(m.content);
    if IsCalls(m) {
      CallsAreSent(m);
    } else if m.role == User && IsResults(m) {
      ResponsesAreSent(m, names);
    }
  }

  lemma CallsAreSent(m: ChatMessage)
    ensures var parts := (if m.content == "" then [] else [TextPart(m.content)]) + CallParts(m);
            && TextSent(parts) == m.content && |CallsSent(parts)| == |m.toolCalls|
            && forall j :: 0 <= j < |m.toolCalls| ==>
                 CallsSent(parts)[j] == CallPart(m.toolCalls[j].name, m.toolCalls[j].input)
  {
    OneText(m.content);
    CallPartsSent(if m.content == "" then [] else [TextPart(m.content)], CallParts(m));
  }

  lemma ResponsesAreSent(m: ChatMessage, names: Names)
    ensures var parts := ResponseParts(m, names);
            && CallsSent(parts) == [] && |parts| == |m.toolResults|
            && forall j :: 0 <= j < |parts| ==>
                 var id := m.toolResults[j].callId;
                 parts[j] == ResponsePart(if id in names then names[id] else id, m.toolResults[j].content)
  {
    NoCallsSent(ResponseParts(m, names));
  }

  lemma OneText(text: string)
    ensures TextSent([TextPart(text)]) == text && CallsSent([TextPart(text)]) == []
  {
    assert [TextPart(text)][..0] == [];
  }

  lemma {:induction false} NoCallsSent(parts: seq<RequestPart>)
    requires forall j :: 0 <= j < |parts| ==> parts[j].ResponsePart?
    ensures CallsSent(parts) == []
  {
    if parts != [] {
      NoCallsSent(parts[..|parts| - 1]);
    }
  }

  function ContentAt(msgs: seq<ChatMessage>, i: nat): GeminiContent
    requires i < |msgs|
  {
    Converted(msgs[i], NamesAt(msgs, i + 1))
  }

  function Contents(msgs: seq<ChatMessage>, n: nat): seq<GeminiContent>
    requires n <= |msgs|
  {
    if n == 0 then []
    else Contents(msgs, n - 1) + if msgs[n - 1].role == System then [] else [ContentAt(msgs, n - 1)]
  }

  function AllContents(msgs: seq<ChatMessage>): seq<GeminiContent> {
    Contents(msgs, |msgs|)
  }

  /** The loop of Chat over the conversation, with the map filled along the way. */
  method ConvertMessages(msgs: seq<ChatMessage>) returns (sent: seq<GeminiContent>)
    ensures sent == AllContents(msgs) && SentInOrder(msgs, sent)
  {
    ContentsInOrder(msgs);
    hide Converted, ContentAt, SentInOrder, Contents;
    sent := [];
    ContentsNext(msgs, 0);
    var names: Names := map[];
    for n := 0 to |msgs|
      invariant names == NamesAt(msgs, n) && sent == Contents(msgs, n)
    {
      ContentsNext(msgs, n);
      var m := msgs[n];
      if m.role == System {
        continue;
      }
      for k := 0 to |m.toolCalls|
        invariant names == AddNames(NamesAt(msgs, n), m.toolCalls[..k])
      {
        assert m.toolCalls[..k + 1][..k] == m.toolCalls[..k];
        names := names[m.toolCalls[k].id := m.toolCalls[k].name];
      }
      assert m.toolCalls[..|m.toolCalls|] == m.toolCalls;
      var content := ConvertToGeminiContent(m, names);
      assert content == ContentAt(msgs, n) by { ContentIs(msgs, n); }
      sent := sent + [content];
    }
  }

  lemma ContentsNext(msgs: seq<ChatMessage>, n: nat)
    requires n <= |msgs|
    ensures Contents(msgs, 0) == []
    ensures n < |msgs| ==>
              Contents(msgs, n + 1)
              == Contents(msgs, n) + (if msgs[n].role == System then [] else [ContentAt(msgs, n)])
  {
    hide ContentAt;
  }

  lemma ContentIs(msgs: seq<ChatMessage>, n: nat)
    requires n < |msgs|
    ensures ContentAt(msgs, n) == Converted(msgs[n], NamesAt(msgs, n + 1))
  {
  }

  /** How many of the first n messages are sent: all but those of the system. */
  function Rank(msgs: seq<ChatMessage>, n: nat): nat
    requires n <= |msgs|
  {
    if n == 0 then 0 else Rank(msgs, n - 1) + if msgs[n - 1].role == System then 0 else 1
  }

  /** Only system messages are left out; every other one is sent, at its place among them. */
  ghost predicate SentInOrder(msgs: seq<ChatMessage>, sent: seq<GeminiContent>) {
    && |sent| == Rank(msgs, |msgs|)
    && forall i :: 0 <= i < |msgs| && msgs[i].role != System ==>
         Rank(msgs, i) < |sent| && sent[Rank(msgs, i)] == ContentAt(msgs, i)
  }

  lemma ContentsInOrder(msgs: seq<ChatMessage>)
    ensures SentInOrder(msgs, Contents(msgs, |msgs|))
  {
    ContentsCount(msgs, |msgs|);
    hide ContentAt, Rank, Contents;
    forall i | 0 <= i < |msgs| && msgs[i].role != System
      ensures Rank(msgs, i) < Rank(msgs, |msgs|) && Contents(msgs, |msgs|)[Rank(msgs, i)] == ContentAt(msgs, i)
    {
      SentAtRank(msgs, |msgs|, i);
    }
  }

  lemma {:induction false} ContentsCount(msgs: seq<ChatMessage>, n: nat)
    requires n <= |msgs|
    ensures |Contents(msgs, n)| == Rank(msgs, n)
  {
    hide ContentAt;
    if n > 0 {
      ContentsCount(msgs, n - 1);
    }
  }

  lemma {:induction false} SentAtRank(msgs: seq<ChatMessage>, n: nat, i: nat)
    requires i < n <= |msgs| && msgs[i].role != System
    ensures Rank(msgs, i) < |Contents(msgs, n)| && Contents(msgs, n)[Rank(msgs, i)] == ContentAt(msgs, i)
  {
    hide ContentAt;
    ContentsCount(msgs, n - 1);
    if i < n - 1 {
      SentAtRank(msgs, n - 1, i);
    }
  }

  method ConvertToGeminiContent(m: ChatMessage, names: Names) returns (content: GeminiContent)
    ensures content == Converted(m, names)
  {
    var role := "user";
    if m.role == Assistant {
      role := "model";
    }
    var parts: seq<RequestPart> := [];
    if m.role == Assistant && |m.toolCalls| > 0 {
      if m.content != "" {
        parts := [TextPart(m.content)];
      }
      ghost var text := parts;
      for j := 0 to |m.toolCalls|
        invariant parts == text + CallParts(m)[..j]
      {
        parts := parts + [CallPart(m.toolCalls[j].name, m.toolCalls[j].input)];
      }
      assert CallParts(m)[..|m.toolCalls|] == CallParts(m);
      return GeminiContent(role, parts);
    }
    if m.role == User && |m.toolResults| > 0 {
      for j := 0 to |m.toolResults|
        invariant parts == ResponseParts(m, names)[..j]
      {
        var id := m.toolResults[j].callId;
        var name := id;
        if id in names {
          name := names[id];
        }
        parts := parts + [ResponsePart(name, m.toolResults[j].content)];
      }
      assert ResponseParts(m, names)[..|m.toolResults|] == ResponseParts(m, names);
      return GeminiContent(role, parts);
    }
    content := GeminiContent(role, [TextPart(m.content)]);
  }

  /** An entered call's id is in the map, with the name of some call entered under that id. */
  lemma {:induction false} AddNamesSound(names: Names, calls: seq<ToolCall>)
    ensures forall id :: id in AddNames(names, calls) ==>
              || (id in names && AddNames(names, calls)[id] == names[id])
              || exists c :: c in calls && c.id == id && c.name == AddNames(names, calls)[id]
    ensures forall id :: id in names ==> id in AddNames(names, calls)
    ensures forall c :: c in calls ==> c.id in AddNames(names, calls)
  {
    if calls != [] {
      var front, last := calls[..|calls| - 1], calls[|calls| - 1];
      AddNamesSound(names, front);
      assert forall c :: c in calls <==> c in front || c == last;
    }
  }

  /** Every call before message n is in the client's format. */
  ghost predicate AllFormatted(msgs: seq<ChatMessage>, n: nat)
    requires n <= |msgs|
  {
    forall i, c :: 0 <= i < n && c in msgs[i].toolCalls ==> Formatted(c)
  }

  /** Whatever was overwritten, an id in the map stands for the only name it can be made from. */
  lemma {:induction false} NamesAgree(msgs: seq<ChatMessage>, n: nat)
    requires n <= |msgs| && AllFormatted(msgs, n)
    ensures forall id :: id in NamesAt(msgs, n) ==> Formatted(ToolCall(id, NamesAt(msgs, n)[id], ""))
  {
    hide CallId, AddNames;
    if n > 0 {
      NamesAgree(msgs, n - 1);
      AddNamesSound(NamesAt(msgs, n - 1), msgs[n - 1].toolCalls);
      if msgs[n - 1].role != System {
        var names := NamesAt(msgs, n);
        forall id | id in names ensures Formatted(ToolCall(id, names[id], "")) {
          if c :| c in msgs[n - 1].toolCalls && c.id == id && c.name == names[id] {
            assert Formatted(c);
            var k: nat :| c.id == CallId(c.name, k);
            assert ToolCall(id, names[id], "").id == CallId(names[id], k);
          }
        }
      }
    }
  }

  lemma {:induction false} EnteredCall(msgs: seq<ChatMessage>, n: nat, i: nat, c: ToolCall)
    requires i < n <= |msgs| && msgs[i].role != System && c in msgs[i].toolCalls
    ensures c.id in NamesAt(msgs, n)
  {
    AddNamesSound(NamesAt(msgs, n - 1), msgs[n - 1].toolCalls);
    if i < n - 1 {
      EnteredCall(msgs, n - 1, i, c);
    }
  }

  /**
   * A result that answers any earlier call of the conversation is sent under that call's function
   * name, although ids repeat from turn to turn and the map overwrites them.
   */
  lemma ResponseCarriesName(msgs: seq<ChatMessage>, i: nat, n: nat, j: nat, c: ToolCall)
    requires i < n < |msgs| && AllFormatted(msgs, n + 1)
    requires msgs[i].role != System && c in msgs[i].toolCalls
    requires msgs[n].role == User && j < |msgs[n].toolResults| && msgs[n].toolResults[j].callId == c.id
    ensures |ContentAt(msgs, n).parts| == |msgs[n].toolResults|
    ensures ContentAt(msgs, n).parts[j] == ResponsePart(c.name, msgs[n].toolResults[j].content)
  {
    hide CallId;
    EnteredCall(msgs, n + 1, i, c);
    NamesAgree(msgs, n + 1);
    var name := NamesAt(msgs, n + 1)[c.id];
    assert Formatted(c) && Formatted(ToolCall(c.id, name, ""));
    var k: nat :| c.id == CallId(c.name, k);
    var l: nat :| ToolCall(c.id, name, "").id == CallId(name, l);
    IdDetermines(c.name, k, name, l);
  }

  lemma {:induction false} AddNamesDistinct(names: Names, calls: seq<ToolCall>, j: nat)
    requires j < |calls| && DistinctIds(calls)
    ensures calls[j].id in AddNames(names, calls) && AddNames(names, calls)[calls[j].id] == calls[j].name
  {
    if j < |calls| - 1 {
      AddNamesDistinct(names, calls[..|calls| - 1], j);
    }
  }

  /**
   * In a paired conversation the format is not even needed: results that directly follow the calls
   * they answer are named right whenever those calls have distinct ids, whatever came before.
   */
  lemma AdjacentCarriesName(msgs: seq<ChatMessage>, n: nat, j: nat)
    requires 0 < n < |msgs| && msgs[n - 1].role == Assistant
    requires msgs[n].role == User && msgs[n].toolCalls == []
    requires j < |msgs[n].toolResults| && j < |msgs[n - 1].toolCalls|
    requires msgs[n].toolResults[j].callId == msgs[n - 1].toolCalls[j].id
    requires DistinctIds(msgs[n - 1].toolCalls)
    ensures |ContentAt(msgs, n).parts| == |msgs[n].toolResults|
    ensures ContentAt(msgs, n).parts[j] == ResponsePart(msgs[n - 1].toolCalls[j].name, msgs[n].toolResults[j].content)
  {
    AddNamesDistinct(NamesAt(msgs, n - 1), msgs[n - 1].toolCalls, j);
    assert NamesAt(msgs, n + 1) == NamesAt(msgs, n);
  }
}
