/** The OpenAI client: message conversion, and the streaming reader against the complete one. */
module OpenAI {
  import opened Llm
  import ToolBatch
  import Recovery

  // ---------------------------------------------------------------- conversion

  datatype OpenAIMessage =
    OpenAIMessage(role: string, content: string, toolCalls: seq<ToolCall>, toolCallId: Option<string>)

  function RoleName(r: Role): string {
    match r
    case User => "user"
    case Assistant => "assistant"
    case System => "system"
    case Other(name) => name
  }

  function ToolMessage(r: ToolResult): OpenAIMessage {
    OpenAIMessage("tool", r.content, [], Some(r.callId))
  }

  function ToolMessages(results: seq<ToolResult>): (r: seq<OpenAIMessage>)
    ensures |r| == |results| && forall i :: 0 <= i < |r| ==> r[i] == ToolMessage(results[i])
  {
    seq(|results|, i requires 0 <= i < |results| => ToolMessage(results[i]))
  }

  function Converted(m: ChatMessage): seq<OpenAIMessage> {
    if IsCalls(m) then [OpenAIMessage("assistant", m.content, m.toolCalls, None)]
    else if m.role == User && IsResults(m) then ToolMessages(m.toolResults)
    else [OpenAIMessage(RoleName(m.role), m.content, [], None)]
  }

  method ConvertToOpenAIMessages(m: ChatMessage) returns (msgs: seq<OpenAIMessage>)
    ensures msgs == Converted(m)
  {
    if m.role == Assistant && |m.toolCalls| > 0 {
      var calls := [];
      for n := 0 to |m.toolCalls|
        invariant calls == m.toolCalls[..n]
      {
        var tc := m.toolCalls[n];
        calls := calls + [ToolCall(tc.id, tc.name, tc.input)];
      }
      assert m.toolCalls[..|m.toolCalls|] == m.toolCalls;
      return [OpenAIMessage("assistant", m.content, calls, None)];
    }
    if m.role == User && |m.toolResults| > 0 {
      msgs := [];
      for n := 0 to |m.toolResults|
        invariant |msgs| == n && forall i :: 0 <= i < n ==> msgs[i] == ToolMessage(m.toolResults[i])
      {
        var tr := m.toolResults[n];
        msgs := msgs + [OpenAIMessage("tool", tr.content, [], Some(tr.callId))];
      }
      return;
    }
    msgs := [OpenAIMessage(RoleName(m.role), m.content, [], None)];
  }

  /**
   * An uncancelled batch becomes one tool_calls message followed by one tool message per call, in
   * call order, each answering its call with the outcome of the last attempt.
   */
  lemma BatchConverts(text: string, calls: seq<ToolCall>, run: ToolBatch.Runs, p: Recovery.Policy)
    requires calls != [] && forall i: nat, a: nat :: i < |calls| ==> run(i, a).Ran?
    ensures var asked := Converted(ChatMessage(Assistant, text, calls, []));
            var answered := Converted(ChatMessage(User, "", [], ToolBatch.Results(calls, run, p)));
            && |asked| == 1 && asked[0].toolCalls == calls
            && |answered| == |calls|
            && forall i :: 0 <= i < |calls| ==>
                 && answered[i].role == "tool" && answered[i].toolCallId == Some(calls[i].id)
                 && answered[i].content == run(i, |ToolBatch.Attempts(run, p, i, 0)| - 1).content
  {
    ToolBatch.UncancelledSlots(calls, run, p);
  }

  // ---------------------------------------------------------------- reading a request back

  /** A conversation as it is sent. */
  function Wire(msgs: seq<ChatMessage>): seq<OpenAIMessage> {
    if msgs == [] then [] else Wire(msgs[..|msgs| - 1]) + Converted(msgs[|msgs| - 1])
  }

  function RoleOf(name: string): Role {
    if name == "user" then User
    else if name == "assistant" then Assistant
    else if name == "system" then System
    else Other(name)
  }

  /** What the protocol has a place for in a tool result: the id of its call and its content. */
  function Answer(id: Option<string>, content: string): ToolResult {
    ToolResult(if id.Some? then id.value else "", content, false, [], Permanent)
  }

  predicate FromTool(wire: seq<OpenAIMessage>) {
    wire != [] && wire[|wire| - 1].role == "tool"
  }

  /** A receiver's reading: tool messages in a row are the results of one batch. */
  function Restored(wire: seq<OpenAIMessage>): (r: seq<ChatMessage>)
    ensures wire != [] ==> r != []
  {
    if wire == [] then []
    else
      var before, m := wire[..|wire| - 1], wire[|wire| - 1];
      var msgs := Restored(before);
      if m.role != "tool" then msgs + [ChatMessage(RoleOf(m.role), m.content, m.toolCalls, [])]
      else if FromTool(before) then
        var last := msgs[|msgs| - 1];
        msgs[..|msgs| - 1] + [last.(toolResults := last.toolResults + [Answer(m.toolCallId, m.content)])]
      else msgs + [ChatMessage(User, "", [], [Answer(m.toolCallId, m.content)])]
  }

  function Bare(results: seq<ToolResult>): (r: seq<ToolResult>)
    ensures |r| == |results|
    ensures forall i :: 0 <= i < |r| ==> r[i] == Answer(Some(results[i].callId), results[i].content)
  {
    seq(|results|, i requires 0 <= i < |results| => Answer(Some(results[i].callId), results[i].content))
  }

  /** Only the assistant calls tools, only the user hands in results, and no role is called like another. */
  predicate Sendable(m: ChatMessage) {
    && (m.toolCalls != [] ==> m.role == Assistant && m.toolResults == [])
    && (m.toolResults != [] ==> m.role == User && m.content == "")
    && (m.role.Other? ==> RoleOf(m.role.name) == m.role && m.role.name != "tool")
  }

  /** Every message can be sent, and no results follow results. */
  ghost predicate Separate(msgs: seq<ChatMessage>) {
    && (forall i :: 0 <= i < |msgs| ==> Sendable(msgs[i]))
    && (forall i :: 0 < i < |msgs| && IsResults(msgs[i]) ==> !IsResults(msgs[i - 1]))
  }

  lemma RestoredSnoc(before: seq<OpenAIMessage>, m: OpenAIMessage)
    ensures var r, all := Restored(before), Restored(before + [m]);
            && (m.role != "tool" ==> all == r + [ChatMessage(RoleOf(m.role), m.content, m.toolCalls, [])])
            && (m.role == "tool" && !FromTool(before) ==>
                  all == r + [ChatMessage(User, "", [], [Answer(m.toolCallId, m.content)])])
            && (m.role == "tool" && FromTool(before) ==>
                  && r != []
                  && all == r[..|r| - 1] + [r[|r| - 1].(toolResults :=
                       r[|r| - 1].toolResults + [Answer(m.toolCallId, m.content)])])
    ensures FromTool(before + [m]) <==> m.role == "tool"
  {
    assert (before + [m])[..|before|] == before;
    hide RoleOf;
  }

  /** A batch of tool messages is read as one message with their results. */
  lemma {:induction false} ResultsRestored(wire: seq<OpenAIMessage>, results: seq<ToolResult>)
    requires !FromTool(wire) && results != []
    ensures Restored(wire + ToolMessages(results)) == Restored(wire) + [ChatMessage(User, "", [], Bare(results))]
    ensures FromTool(wire + ToolMessages(results))
  {
    var front, last := results[..|results| - 1], results[|results| - 1];
    var tools, m := ToolMessages(front), ToolMessage(last);
    var answer := Answer(Some(last.callId), last.content);
    assert wire + ToolMessages(results) == wire + tools + [m];
    assert Bare(results) == Bare(front) + [answer];
    hide Restored, FromTool, Bare, ToolMessages;
    RestoredSnoc(wire + tools, m);
    if front == [] {
      assert wire + tools == wire && Bare(front) + [answer] == [answer];
    } else {
      ResultsRestored(wire, front);
    }
  }

  lemma MessageRestored(wire: seq<OpenAIMessage>, m: ChatMessage)
    requires Sendable(m) && (IsResults(m) ==> !FromTool(wire))
    ensures Restored(wire + Converted(m)) == Restored(wire) + [m.(toolResults := Bare(m.toolResults))]
    ensures FromTool(wire + Converted(m)) <==> IsResults(m)
  {
    RoleRestored(m.role);
    hide Restored, FromTool, RoleOf, RoleName;
    if IsResults(m) {
      ResultsRestored(wire, m.toolResults);
    } else {
      assert Bare(m.toolResults) == m.toolResults;
      RestoredSnoc(wire, Converted(m)[0]);
    }
  }

  lemma RoleRestored(r: Role)
    requires r.Other? ==> RoleOf(r.name) == r && r.name != "tool"
    ensures RoleOf(RoleName(r)) == r && RoleName(r) != "tool"
  {
    var names := ["user", "assistant", "system", "tool"];
    assert |names[0]| == 4 && |names[1]| == 9 && |names[2]| == 6 && names[0][0] == 'u' && names[3][0] == 't';
  }

  /**
   * What is sent can be read back: every role, text and call, and of every result the id and the content, message
   * by message. Only images and the error marks of results have no place in the protocol.
   */
  lemma {:induction false} WireRoundTrip(msgs: seq<ChatMessage>)
    requires Separate(msgs)
    ensures Restored(Wire(msgs)) == BareAll(msgs)
    ensures FromTool(Wire(msgs)) <==> msgs != [] && IsResults(msgs[|msgs| - 1])
  {
    hide Restored, Wire, Converted, Bare, BareAll, FromTool, Sendable, Separate, IsResults;
    NothingSent();
    if msgs != [] {
      var front, last := msgs[..|msgs| - 1], msgs[|msgs| - 1];
      SeparateFront(msgs);
      WireRoundTrip(front);
      MessageRestored(Wire(front), last);
    }
  }

  /** The messages with their results reduced to what the protocol has a place for. */
  function BareAll(msgs: seq<ChatMessage>): (r: seq<ChatMessage>)
    ensures |r| == |msgs|
    ensures forall i :: 0 <= i < |r| ==> r[i] == msgs[i].(toolResults := Bare(msgs[i].toolResults))
  {
    seq(|msgs|, i requires 0 <= i < |msgs| => msgs[i].(toolResults := Bare(msgs[i].toolResults)))
  }

  lemma SeparateFront(msgs: seq<ChatMessage>)
    requires Separate(msgs) && msgs != []
    ensures var front, last := msgs[..|msgs| - 1], msgs[|msgs| - 1];
            && Separate(front) && Sendable(last)
            && (IsResults(last) ==> front == [] || !IsResults(front[|front| - 1]))
            && Wire(msgs) == Wire(front) + Converted(last)
            && BareAll(msgs) == BareAll(front) + [last.(toolResults := Bare(last.toolResults))]
  {
    hide Sendable, Bare, IsResults, Converted;
    var front, last := msgs[..|msgs| - 1], msgs[|msgs| - 1];
    assert front != [] ==> front[|front| - 1] == msgs[|msgs| - 2];
  }

  lemma NothingSent()
    ensures Wire([]) == [] && Restored([]) == [] && !FromTool([]) && BareAll([]) == []
  {
  }

  /** So can every well paired conversation. */
  lemma PairedIsSeparate(msgs: seq<ChatMessage>)
    requires WellPaired(msgs) && Exclusive(msgs) && forall i :: 0 <= i < |msgs| ==> Sendable(msgs[i])
    ensures Separate(msgs)
  {
    hide Sendable;
  }

  // ---------------------------------------------------------------- responses and streams

  datatype Response = Response(content: string, calls: seq<ToolCall>)

  datatype ToolDelta = ToolDelta(index: int, id: string, name: string, args: string)

  datatype Choice = Choice(content: string, tools: seq<ToolDelta>, finished: bool)

  datatype Usage = Usage(input: int, output: int)

  /** A line of the stream: noise, the end mark, a chunk, or one at which the reader finds its context done. */
  datatype Line = Noise | DoneMark | Chunk(choices: seq<Choice>, usage: Option<Usage>) | Interrupt

  datatype CallState = CallState(id: string, name: string, args: string)

  type States = map<int, CallState>

  function Call(c: CallState): ToolCall {
    ToolCall(c.id, c.name, if c.args == "" then "{}" else c.args)
  }

  function Normalized(c: ToolCall): ToolCall {
    Call(CallState(c.id, c.name, c.input))
  }

  /** The first delta of an index names the call; every delta of it adds arguments. */
  function Apply(st: States, d: ToolDelta): States {
    if d.index in st then st[d.index := st[d.index].(args := st[d.index].args + d.args)]
    else st[d.index := CallState(d.id, d.name, d.args)]
  }

  function ApplyAll(st: States, ds: seq<ToolDelta>): States {
    if ds == [] then st else Apply(ApplyAll(st, ds[..|ds| - 1]), ds[|ds| - 1])
  }

  lemma EmptyOrInhabited(keys: set<int>)
    ensures keys == {} || exists k :: k in keys
  {
    if forall k :: k !in keys {
      assert keys == {};
    }
  }

  ghost function AnyOf(keys: set<int>): (r: int)
    requires keys != {}
    ensures r in keys
  {
    EmptyOrInhabited(keys);
    var k :| k in keys;
    k
  }

  /** The calls of the given indices, however they are iterated. */
  ghost function CallsOn(st: States, keys: set<int>): multiset<ToolCall>
    requires keys <= st.Keys
  {
    if keys == {} then multiset{}
    else multiset{Call(st[AnyOf(keys)])} + CallsOn(st, keys - {AnyOf(keys)})
  }

  ghost function StateCalls(st: States): multiset<ToolCall> {
    CallsOn(st, st.Keys)
  }

  lemma {:induction false} CallsOnRemove(st: States, keys: set<int>, k: int)
    requires k in keys && keys <= st.Keys
    ensures CallsOn(st, keys) == multiset{Call(st[k])} + CallsOn(st, keys - {k})
    decreases keys
  {
    hide Call;
    var j := AnyOf(keys);
    if j != k {
      CallsOnRemove(st, keys - {j}, k);
      CallsOnRemove(st, keys - {k}, j);
      assert keys - {j} - {k} == keys - {k} - {j};
    }
  }

  /** Emits every pending call, in an arbitrary order. */
  method EmitCalls(st: States) returns (events: seq<ChatEvent>)
    ensures multiset(CallsOf(events)) == StateCalls(st) && TextOf(events) == "" && EventError !in events
  {
    NoCalls(st);
    NoEvents();
    hide TextOf, CallsOf, CallsOn;
    events := [];
    var rest := st.Keys;
    while rest != {}
      invariant rest <= st.Keys
      invariant multiset(CallsOf(events)) + CallsOn(st, rest) == StateCalls(st)
      invariant TextOf(events) == "" && EventError !in events
      decreases rest
    {
      EmptyOrInhabited(rest);
      var k :| k in rest;
      CallsOnRemove(st, rest, k);
      var args := st[k].args;
      if |args| == 0 {
        args := "{}";
      }
      var event := EventToolCall(ToolCall(st[k].id, st[k].name, args));
      EventSnoc(events, event);
      events := events + [event];
      rest := rest - {k};
    }
  }

  /** The choices the reader sees before it stops. */
  function Choices(lines: seq<Line>): seq<Choice> {
    if lines == [] || lines[0] == DoneMark || lines[0] == Interrupt then []
    else (if lines[0].Chunk? then lines[0].choices else []) + Choices(lines[1..])
  }

  /** How the reader ends: with an error if its context is done before the end, else with the last usage. */
  function LastEvent(lines: seq<Line>, usage: Usage): ChatEvent {
    if lines == [] || lines[0] == DoneMark then EventDone(usage.input, usage.output)
    else if lines[0] == Interrupt then EventError
    else LastEvent(lines[1..], if lines[0].Chunk? && lines[0].usage.Some? then lines[0].usage.value else usage)
  }

  /** The line at which the reader stops: the first end mark, the first at which its context is done, or the end. */
  function StopsAt(lines: seq<Line>, n: nat): (m: nat)
    requires n <= |lines|
    ensures n <= m <= |lines| && (m < |lines| ==> lines[m] == DoneMark || lines[m] == Interrupt)
    ensures forall i :: n <= i < m ==> lines[i] != DoneMark && lines[i] != Interrupt
    decreases |lines| - n
  {
    if n == |lines| || lines[n] == DoneMark || lines[n] == Interrupt then n else StopsAt(lines, n + 1)
  }

  /** The choices of all chunks among the first n lines. */
  function ChoicesUpTo(lines: seq<Line>, n: nat): seq<Choice>
    requires n <= |lines|
  {
    if n == 0 then [] else ChoicesUpTo(lines, n - 1) + if lines[n - 1].Chunk? then lines[n - 1].choices else []
  }

  predicate HasUsage(l: Line) {
    l.Chunk? && l.usage.Some?
  }

  /** The usage that the last of the first n lines to carry one carries, or zero. */
  ghost predicate IsLastUsage(lines: seq<Line>, n: nat, u: Usage)
    requires n <= |lines|
  {
    || (u == Usage(0, 0) && forall j :: 0 <= j < n ==> !HasUsage(lines[j]))
    || (exists i :: 0 <= i < n && HasUsage(lines[i]) && lines[i].usage.value == u
                    && forall j :: i < j < n ==> !HasUsage(lines[j]))
  }

  lemma UsageNext(lines: seq<Line>, n: nat, u: Usage)
    requires n < |lines| && IsLastUsage(lines, n, u)
    ensures IsLastUsage(lines, n + 1, if HasUsage(lines[n]) then lines[n].usage.value else u)
  {
    if !HasUsage(lines[n]) && exists j :: 0 <= j < n && HasUsage(lines[j]) {
      var i :| 0 <= i < n && HasUsage(lines[i]) && lines[i].usage.value == u
               && forall j :: i < j < n ==> !HasUsage(lines[j]);
      assert forall j :: i < j < n + 1 ==> !HasUsage(lines[j]);
    }
  }

  /** The reader takes in every choice up to the line at which it stops, and ends with the last usage or an error. */
  ghost predicate ReadsUpTo(lines: seq<Line>, choices: seq<Choice>, end: ChatEvent) {
    var m := StopsAt(lines, 0);
    && choices == ChoicesUpTo(lines, m)
    && if m < |lines| && lines[m] == Interrupt then end == EventError
       else exists u :: IsLastUsage(lines, m, u) && end == EventDone(u.input, u.output)
  }

  lemma {:induction false} ReadsFrom(lines: seq<Line>, n: nat, usage: Usage)
    requires n <= StopsAt(lines, 0) && IsLastUsage(lines, n, usage)
    ensures ReadsUpTo(lines, ChoicesUpTo(lines, n) + Choices(lines[n..]), LastEvent(lines[n..], usage))
    decreases |lines| - n
  {
    var m := StopsAt(lines, 0);
    hide StopsAt, IsLastUsage, Choices, LastEvent;
    if n < |lines| {
      LineStep(lines, n, usage);
    } else {
      StreamEnds(lines, n, usage);
    }
    if n == m {
      assert Choices(lines[n..]) == [] && ChoicesUpTo(lines, n) + [] == ChoicesUpTo(lines, n);
    } else {
      UsageNext(lines, n, usage);
      hide ReadsUpTo;
      ReadsFrom(lines, n + 1, if HasUsage(lines[n]) then lines[n].usage.value else usage);
      var seen := ChoicesUpTo(lines, n);
      if lines[n].Chunk? {
        assert seen + (lines[n].choices + Choices(lines[n + 1..])) == seen + lines[n].choices + Choices(lines[n + 1..]);
      } else {
        assert ChoicesUpTo(lines, n + 1) == seen;
      }
    }
  }

  lemma StreamIsRead(lines: seq<Line>)
    ensures ReadsUpTo(lines, Choices(lines), LastEvent(lines, Usage(0, 0)))
  {
    hide ReadsUpTo, Choices, LastEvent;
    ReadsFrom(lines, 0, Usage(0, 0));
    assert lines[0..] == lines && ChoicesUpTo(lines, 0) + Choices(lines) == Choices(lines);
  }

  function Contents(cs: seq<Choice>): string {
    if cs == [] then "" else cs[0].content + Contents(cs[1..])
  }

  /** The calls emitted: all pending ones at every finish mark. */
  ghost function Emitted(cs: seq<Choice>, st: States): multiset<ToolCall> {
    if cs == [] then multiset{}
    else
      var st' := ApplyAll(st, cs[0].tools);
      (if cs[0].finished then StateCalls(st') else multiset{}) + Emitted(cs[1..], st')
  }

  function StatesAfter(cs: seq<Choice>, st: States): States {
    if cs == [] then st else StatesAfter(cs[1..], ApplyAll(st, cs[0].tools))
  }

  /** Creating the state first and appending non-empty arguments next is one application of the delta. */
  lemma DeltaApplied(before: States, d: ToolDelta, after: States)
    requires var named := if d.index in before then before else before[d.index := CallState(d.id, d.name, "")];
             after == if d.args != "" then named[d.index := named[d.index].(args := named[d.index].args + d.args)]
               else named
    ensures after == Apply(before, d)
  {
    var prior := if d.index in before then before[d.index].args else "";
    assert "" + d.args == d.args && prior + "" == prior;
    assert after.Keys == Apply(before, d).Keys;
    assert after[d.index] == Apply(before, d)[d.index];
  }

  lemma ApplyNone(st: States)
    ensures ApplyAll(st, []) == st
  {
  }

  lemma ApplySnoc(st: States, ds: seq<ToolDelta>, n: nat)
    requires n < |ds|
    ensures ApplyAll(st, ds[..n + 1]) == Apply(ApplyAll(st, ds[..n]), ds[n])
  {
    assert ds[..n + 1][..n] == ds[..n];
  }

  method ReadChoice(c: Choice, st0: States) returns (events: seq<ChatEvent>, st: States)
    ensures st == ApplyAll(st0, c.tools) && TextOf(events) == c.content
    ensures multiset(CallsOf(events)) == if c.finished then StateCalls(st) else multiset{}
    ensures EventError !in events
  {
    NoEvents();
    hide TextOf, CallsOf, ApplyAll, StateCalls;
    ApplyNone(st0);
    events, st := [], st0;
    if c.content != "" {
      EventSnoc(events, EventToken(c.content));
      events := events + [EventToken(c.content)];
    }
    assert TextOf(events) == c.content && CallsOf(events) == [];
    for n := 0 to |c.tools|
      invariant st == ApplyAll(st0, c.tools[..n])
    {
      var tc := c.tools[n];
      ApplySnoc(st0, c.tools, n);
      ghost var before := st;
      if tc.index !in st {
        st := st[tc.index := CallState(tc.id, tc.name, "")];
      }
      if tc.args != "" {
        st := st[tc.index := st[tc.index].(args := st[tc.index].args + tc.args)];
      }
      DeltaApplied(before, tc, st);
    }
    assert c.tools[..|c.tools|] == c.tools;
    if c.finished {
      var out := EmitCalls(st);
      CallsOfAppend(events, out);
      TextOfAppend(events, out);
      events := events + out;
    }
  }

  lemma {:induction false} StatesAppend(cs: seq<Choice>, ds: seq<Choice>, st: States)
    ensures StatesAfter(cs + ds, st) == StatesAfter(ds, StatesAfter(cs, st))
    ensures Contents(cs + ds) == Contents(cs) + Contents(ds)
    decreases |cs|
  {
    hide ApplyAll;
    if cs == [] {
      assert cs + ds == ds;
    } else {
      assert (cs + ds)[1..] == cs[1..] + ds;
      StatesAppend(cs[1..], ds, ApplyAll(st, cs[0].tools));
    }
  }

  lemma {:induction false} EmittedAppend(cs: seq<Choice>, ds: seq<Choice>, st: States)
    ensures Emitted(cs + ds, st) == Emitted(cs, st) + Emitted(ds, StatesAfter(cs, st))
    decreases |cs|
  {
    hide ApplyAll, StateCalls;
    if cs == [] {
      assert cs + ds == ds;
    } else {
      assert (cs + ds)[1..] == cs[1..] + ds;
      EmittedAppend(cs[1..], ds, ApplyAll(st, cs[0].tools));
    }
  }

  method ReadChunk(choices: seq<Choice>, st0: States) returns (events: seq<ChatEvent>, st: States)
    ensures st == StatesAfter(choices, st0) && TextOf(events) == Contents(choices)
    ensures multiset(CallsOf(events)) == Emitted(choices, st0) && EventError !in events
  {
    hide *;
    EmptyReads(st0);
    events, st := [], st0;
    for n := 0 to |choices|
      invariant st == StatesAfter(choices[..n], st0) && TextOf(events) == Contents(choices[..n])
      invariant multiset(CallsOf(events)) == Emitted(choices[..n], st0) && EventError !in events
    {
      var out;
      out, st := ReadChoice(choices[n], st);
      assert choices[..n + 1] == choices[..n] + [choices[n]];
      OneChoice(choices[n], StatesAfter(choices[..n], st0));
      SeenMore(choices[..n], [choices[n]], st0, events, out);
      events := events + out;
    }
    assert choices[..|choices|] == choices;
  }

  lemma OneChoice(c: Choice, st: States)
    ensures Contents([c]) == c.content && StatesAfter([c], st) == ApplyAll(st, c.tools)
    ensures Emitted([c], st) == if c.finished then StateCalls(ApplyAll(st, c.tools)) else multiset{}
  {
    hide StateCalls, ApplyAll;
    assert [c][1..] == [];
  }

  /**
   * Text and calls in the order and number the stream's choices say, for every map iteration order. The
   * reader reports an error only if its context is done; a stream that breaks off counts as complete.
   */
  method ReadStream(lines: seq<Line>) returns (events: seq<ChatEvent>)
    ensures TextOf(events) == Contents(Choices(lines))
    ensures multiset(CallsOf(events)) == Emitted(Choices(lines), map[])
    ensures events != [] && events[|events| - 1] == LastEvent(lines, Usage(0, 0))
    ensures EventError !in events[..|events| - 1]
    ensures ReadsUpTo(lines, Choices(lines), events[|events| - 1])
  {
    hide *;
    StreamIsRead(lines);
    events := [];
    var st: States := map[];
    var usage := Usage(0, 0);
    ghost var seen: seq<Choice> := [];
    EmptyReads(map[]);
    var n := 0;
    while n < |lines|
      invariant n <= |lines|
      invariant seen + Choices(lines[n..]) == Choices(lines)
      invariant LastEvent(lines[n..], usage) == LastEvent(lines, Usage(0, 0))
      invariant st == StatesAfter(seen, map[]) && TextOf(events) == Contents(seen)
      invariant multiset(CallsOf(events)) == Emitted(seen, map[]) && EventError !in events
    {
      LineStep(lines, n, usage);
      if lines[n] == Interrupt {
        assert seen == Choices(lines);
        EventSnoc(events, EventError);
        return events + [EventError];
      }
      if lines[n] == DoneMark {
        break;
      }
      if lines[n].Chunk? {
        if lines[n].usage.Some? {
          usage := lines[n].usage.value;
        }
        var out;
        out, st := ReadChunk(lines[n].choices, st);
        SeenMore(seen, lines[n].choices, map[], events, out);
        events := events + out;
        seen := seen + lines[n].choices;
      }
      n := n + 1;
    }
    StreamEnds(lines, n, usage);
    assert seen == Choices(lines);
    EventSnoc(events, EventDone(usage.input, usage.output));
    events := events + [EventDone(usage.input, usage.output)];
  }

  lemma LineStep(lines: seq<Line>, n: nat, usage: Usage)
    requires n < |lines|
    ensures lines[n] == DoneMark || lines[n] == Interrupt ==> Choices(lines[n..]) == []
    ensures lines[n] == DoneMark ==> LastEvent(lines[n..], usage) == EventDone(usage.input, usage.output)
    ensures lines[n] == Interrupt ==> LastEvent(lines[n..], usage) == EventError
    ensures lines[n] == Noise ==> Choices(lines[n..]) == Choices(lines[n + 1..])
    ensures lines[n] == Noise ==> LastEvent(lines[n..], usage) == LastEvent(lines[n + 1..], usage)
    ensures lines[n].Chunk? ==>
              && Choices(lines[n..]) == lines[n].choices + Choices(lines[n + 1..])
              && LastEvent(lines[n..], usage)
                 == LastEvent(lines[n + 1..], if lines[n].usage.Some? then lines[n].usage.value else usage)
  {
    assert lines[n..][1..] == lines[n + 1..];
  }

  lemma StreamEnds(lines: seq<Line>, n: nat, usage: Usage)
    requires n <= |lines| && (n == |lines| || lines[n] == DoneMark)
    ensures Choices(lines[n..]) == [] && LastEvent(lines[n..], usage) == EventDone(usage.input, usage.output)
  {
  }

  lemma SeenMore(seen: seq<Choice>, more: seq<Choice>, st: States, events: seq<ChatEvent>, out: seq<ChatEvent>)
    requires TextOf(events) == Contents(seen) && multiset(CallsOf(events)) == Emitted(seen, st)
    requires TextOf(out) == Contents(more) && multiset(CallsOf(out)) == Emitted(more, StatesAfter(seen, st))
    ensures TextOf(events + out) == Contents(seen + more)
    ensures multiset(CallsOf(events + out)) == Emitted(seen + more, st)
    ensures StatesAfter(seen + more, st) == StatesAfter(more, StatesAfter(seen, st))
  {
    EmittedAppend(seen, more, st);
    StatesAppend(seen, more, st);
    TextOfAppend(events, out);
    CallsOfAppend(events, out);
    hide *;
  }

  lemma EmptyReads(st: States)
    ensures TextOf([]) == Contents([]) && CallsOf([]) == []
    ensures Emitted([], st) == multiset{} && StatesAfter([], st) == st
  {
  }

  // ---------------------------------------------------------------- agreement

  function Deltas(cs: seq<Choice>): seq<ToolDelta> {
    if cs == [] then [] else cs[0].tools + Deltas(cs[1..])
  }

  /** The deltas of one index, in order. */
  function OfIndex(ds: seq<ToolDelta>, k: int): seq<ToolDelta> {
    if ds == [] then []
    else OfIndex(ds[..|ds| - 1], k) + if ds[|ds| - 1].index == k then [ds[|ds| - 1]] else []
  }

  function Args(ds: seq<ToolDelta>): string {
    if ds == [] then "" else Args(ds[..|ds| - 1]) + ds[|ds| - 1].args
  }

  /** Call k is cut into the deltas of index k; deltas of different calls may interleave freely. */
  ghost predicate Fragments(ds: seq<ToolDelta>, calls: seq<ToolCall>) {
    && (forall i :: 0 <= i < |ds| ==> 0 <= ds[i].index < |calls|)
    && (forall k :: 0 <= k < |calls| ==>
          && OfIndex(ds, k) != []
          && OfIndex(ds, k)[0].id == calls[k].id && OfIndex(ds, k)[0].name == calls[k].name
          && Args(OfIndex(ds, k)) == calls[k].input)
  }

  /** A stream of the response: one finish mark, and no tool delta after it. */
  ghost predicate Streams(cs: seq<Choice>, f: nat, r: Response) {
    && f < |cs| && (forall i :: 0 <= i < |cs| ==> (cs[i].finished <==> i == f))
    && (forall i :: f < i < |cs| ==> cs[i].tools == [])
    && Contents(cs) == r.content && Fragments(Deltas(cs), r.calls)
  }

  /** The state holds, for every index seen, the first name and all arguments. */
  lemma {:induction false} StateOfDeltas(ds: seq<ToolDelta>, k: int)
    ensures k in ApplyAll(map[], ds) <==> OfIndex(ds, k) != []
    ensures k in ApplyAll(map[], ds) ==>
              ApplyAll(map[], ds)[k] == CallState(OfIndex(ds, k)[0].id, OfIndex(ds, k)[0].name, Args(OfIndex(ds, k)))
  {
    if ds != [] {
      var front, d := ds[..|ds| - 1], ds[|ds| - 1];
      StateOfDeltas(front, k);
      if d.index == k {
        assert OfIndex(ds, k)[..|OfIndex(ds, k)| - 1] == OfIndex(front, k);
        if OfIndex(front, k) == [] {
          assert Args(OfIndex(ds, k)) == "" + d.args == d.args;
        }
      } else {
        assert OfIndex(ds, k) == OfIndex(front, k);
      }
    }
  }

  lemma {:induction false} OnlyIndices(ds: seq<ToolDelta>, k: int)
    ensures OfIndex(ds, k) != [] ==> exists i :: 0 <= i < |ds| && ds[i].index == k
  {
    if ds != [] {
      OnlyIndices(ds[..|ds| - 1], k);
    }
  }

  function FirstCalls(st: States, n: nat): (r: seq<ToolCall>)
    requires forall k :: 0 <= k < n ==> k in st
    ensures |r| == n && forall k :: 0 <= k < n ==> r[k] == Call(st[k])
  {
    if n == 0 then [] else FirstCalls(st, n - 1) + [Call(st[n - 1])]
  }

  lemma FirstCallsSnoc(st: States, n: nat)
    requires n > 0 && forall k :: 0 <= k < n ==> k in st
    ensures multiset(FirstCalls(st, n)) == multiset{Call(st[n - 1])} + multiset(FirstCalls(st, n - 1))
  {
    hide Call;
  }

  lemma NoCalls(st: States)
    ensures CallsOn(st, {}) == multiset{}
  {
  }

  /** The calls of the indices below n. */
  lemma {:induction false} CallsOnRange(st: States, keys: set<int>, n: nat)
    requires keys <= st.Keys && forall k :: k in keys <==> 0 <= k < n
    ensures CallsOn(st, keys) == multiset(FirstCalls(st, n))
  {
    hide CallsOn, FirstCalls, Call;
    if n == 0 {
      EmptyOrInhabited(keys);
      NoCalls(st);
      NoFirstCalls(st);
    } else {
      CallsOnRange(st, keys - {n - 1}, n - 1);
      CallsOnRemove(st, keys, n - 1);
      FirstCallsSnoc(st, n);
    }
  }

  lemma NoFirstCalls(st: States)
    ensures FirstCalls(st, 0) == []
  {
  }

  /** The calls of a complete response; arguments that are not sent stand for the empty object. */
  function FullCalls(r: Response): (cs: seq<ToolCall>)
    ensures |cs| == |r.calls|
    ensures forall k :: 0 <= k < |cs| ==>
              && cs[k].id == r.calls[k].id && cs[k].name == r.calls[k].name
              && (r.calls[k].input != "" ==> cs[k].input == r.calls[k].input)
              && (r.calls[k].input == "" ==> cs[k].input == "{}")
  {
    seq(|r.calls|, k requires 0 <= k < |r.calls| => Normalized(r.calls[k]))
  }

  /** Once all fragments are in, the pending calls are the calls of the response. */
  lemma FragmentsAssemble(ds: seq<ToolDelta>, r: Response)
    requires Fragments(ds, r.calls)
    ensures StateCalls(ApplyAll(map[], ds)) == multiset(FullCalls(r))
  {
    hide ApplyAll, OfIndex, Args, CallsOn;
    var st := ApplyAll(map[], ds);
    forall k ensures k in st <==> 0 <= k < |r.calls| {
      StateOfDeltas(ds, k);
      OnlyIndices(ds, k);
    }
    CallsOnRange(st, st.Keys, |r.calls|);
    forall k | 0 <= k < |r.calls| ensures Call(st[k]) == Normalized(r.calls[k]) {
      StateOfDeltas(ds, k);
    }
    assert FirstCalls(st, |r.calls|) == FullCalls(r);
  }

  lemma {:induction false} ApplyAllAppend(st: States, a: seq<ToolDelta>, b: seq<ToolDelta>)
    ensures ApplyAll(st, a + b) == ApplyAll(ApplyAll(st, a), b)
    decreases |b|
  {
    if b == [] {
      assert a + b == a;
    } else {
      var front := b[..|b| - 1];
      ApplyAllAppend(st, a, front);
      assert (a + b)[..|a + b| - 1] == a + front;
    }
  }

  lemma {:induction false} NothingAfterFinish(cs: seq<Choice>, st: States)
    requires forall i :: 0 <= i < |cs| ==> !cs[i].finished && cs[i].tools == []
    ensures Emitted(cs, st) == multiset{} && Deltas(cs) == []
    decreases |cs|
  {
    if cs != [] {
      NothingAfterFinish(cs[1..], ApplyAll(st, cs[0].tools));
    }
  }

  lemma {:induction false} EmittedAtFinish(cs: seq<Choice>, f: nat, st: States)
    requires f < |cs| && forall i :: 0 <= i < |cs| ==> (cs[i].finished <==> i == f)
    requires forall i :: f < i < |cs| ==> cs[i].tools == []
    ensures Emitted(cs, st) == StateCalls(ApplyAll(st, Deltas(cs)))
    decreases |cs|
  {
    hide StateCalls;
    var st' := ApplyAll(st, cs[0].tools);
    ApplyAllAppend(st, cs[0].tools, Deltas(cs[1..]));
    if f == 0 {
      NothingAfterFinish(cs[1..], st');
      assert cs[0].tools + [] == cs[0].tools;
    } else {
      EmittedAtFinish(cs[1..], f - 1, st');
    }
  }

  function AllContent(rs: seq<Response>): string {
    if rs == [] then "" else AllContent(rs[..|rs| - 1]) + rs[|rs| - 1].content
  }

  function AllCalls(rs: seq<Response>): seq<ToolCall> {
    if rs == [] then [] else AllCalls(rs[..|rs| - 1]) + FullCalls(rs[|rs| - 1])
  }

  /** No choice of a complete response is left out, and their order is kept. */
  lemma {:induction false} AllAppend(a: seq<Response>, b: seq<Response>)
    ensures AllContent(a + b) == AllContent(a) + AllContent(b) && AllCalls(a + b) == AllCalls(a) + AllCalls(b)
  {
    hide FullCalls;
    if b == [] {
      assert a + b == a;
    } else {
      var all, front, last := a + b, b[..|b| - 1], b[|b| - 1];
      assert all[..|all| - 1] == a + front && all[|all| - 1] == last;
      assert AllCalls(all) == AllCalls(a + front) + FullCalls(last) && AllCalls(b) == AllCalls(front) + FullCalls(last);
      assert AllContent(all) == AllContent(a + front) + last.content;
      assert AllContent(b) == AllContent(front) + last.content;
      hide AllCalls, AllContent;
      AllAppend(a, front);
    }
  }

  lemma AllOfOne(r: Response)
    ensures AllContent([r]) == r.content && AllCalls([r]) == FullCalls(r)
  {
    hide FullCalls;
    assert [r][..0] == [];
  }

  datatype FullResponse = FullResponse(choices: seq<Response>, usage: Usage)

  /** Text and calls of all choices of a complete response, and its usage; a body that does not decode is an error. */
  method ReadFull(body: Option<FullResponse>) returns (events: seq<ChatEvent>)
    ensures body.None? ==> events == [EventError]
    ensures body.Some? ==>
              && TextOf(events) == AllContent(body.value.choices) && CallsOf(events) == AllCalls(body.value.choices)
              && events != []
              && events[|events| - 1] == EventDone(body.value.usage.input, body.value.usage.output)
              && EventError !in events
  {
    if body.None? {
      return [EventError];
    }
    hide TextOf, CallsOf;
    EmptyReads(map[]);
    var choices, usage := body.value.choices, body.value.usage;
    events := [];
    for n := 0 to |choices|
      invariant TextOf(events) == AllContent(choices[..n]) && CallsOf(events) == AllCalls(choices[..n])
      invariant EventError !in events
    {
      assert choices[..n + 1][..n] == choices[..n];
      var out := ReadFullChoice(choices[n]);
      TextOfAppend(events, out);
      CallsOfAppend(events, out);
      events := events + out;
    }
    assert choices[..|choices|] == choices;
    EventSnoc(events, EventDone(usage.input, usage.output));
    events := events + [EventDone(usage.input, usage.output)];
  }

  method ReadFullChoice(r: Response) returns (events: seq<ChatEvent>)
    ensures TextOf(events) == r.content && CallsOf(events) == FullCalls(r) && EventError !in events
  {
    NoEvents();
    hide TextOf, CallsOf;
    events := [];
    if r.content != "" {
      EventSnoc(events, EventToken(r.content));
      events := events + [EventToken(r.content)];
    }
    for n := 0 to |r.calls|
      invariant TextOf(events) == r.content && CallsOf(events) == FullCalls(r)[..n] && EventError !in events
    {
      var args := r.calls[n].input;
      if |args| == 0 {
        args := "{}";
      }
      var event := EventToolCall(ToolCall(r.calls[n].id, r.calls[n].name, args));
      EventSnoc(events, event);
      events := events + [event];
    }
  }

  /**
   * However the calls are fragmented and interleaved, the streaming reader delivers the text and the
   * multiset of calls that the reader of the complete response delivers.
   */
  lemma StreamingAgrees(lines: seq<Line>, f: nat, r: Response)
    requires Streams(Choices(lines), f, r)
    ensures Contents(Choices(lines)) == r.content
    ensures Emitted(Choices(lines), map[]) == multiset(FullCalls(r))
  {
    EmittedAtFinish(Choices(lines), f, map[]);
    FragmentsAssemble(Deltas(Choices(lines)), r);
  }

  // ---------------------------------------------------------------- finish marks

  function Finishes(cs: seq<Choice>): nat {
    if cs == [] then 0 else (if cs[0].finished then 1 else 0) + Finishes(cs[1..])
  }

  /** No tool delta comes after a finish mark. */
  ghost predicate DeltasFirst(cs: seq<Choice>) {
    forall i, j :: 0 <= i < j < |cs| && cs[i].finished ==> cs[j].tools == []
  }

  ghost function Times(m: multiset<ToolCall>, n: nat): multiset<ToolCall> {
    if n == 0 then multiset{} else m + Times(m, n - 1)
  }

  /** Only once, or nothing any number of times, is the same again. */
  lemma TimesIsSame(m: multiset<ToolCall>, n: nat)
    ensures Times(m, n) == m <==> n == 1 || m == multiset{}
  {
    if m == multiset{} {
      TimesNothing(n);
    } else if n > 0 {
      assert Times(m, n) == m + Times(m, n - 1);
      assert n >= 2 ==> Times(m, n - 1) == m + Times(m, n - 2);
      assert n >= 2 ==> |Times(m, n)| == |m| + |m| + |Times(m, n - 2)|;
    }
  }

  lemma {:induction false} TimesNothing(n: nat)
    ensures Times(multiset{}, n) == multiset{}
  {
    if n > 0 {
      TimesNothing(n - 1);
    }
  }

  lemma {:induction false} NoDeltas(cs: seq<Choice>)
    requires forall i :: 0 <= i < |cs| ==> cs[i].tools == []
    ensures Deltas(cs) == []
  {
    if cs != [] {
      NoDeltas(cs[1..]);
    }
  }

  /** Every finish mark delivers all calls once more. */
  lemma {:induction false} EachFinishEmits(cs: seq<Choice>, st: States)
    requires DeltasFirst(cs)
    ensures Emitted(cs, st) == Times(StateCalls(ApplyAll(st, Deltas(cs))), Finishes(cs))
    decreases |cs|
  {
    hide StateCalls, ApplyAll;
    if cs != [] {
      var st', rest := ApplyAll(st, cs[0].tools), cs[1..];
      ApplyAllAppend(st, cs[0].tools, Deltas(rest));
      EachFinishEmits(rest, st');
      if cs[0].finished {
        NoDeltas(rest);
        ApplyNone(st');
      }
    }
  }

  /**
   * The streaming reader delivers the calls of the complete response exactly when the stream has one finish
   * mark, or there are no calls: without a mark all of them are lost, and every further one repeats them.
   */
  lemma AgreesExactlyWhen(cs: seq<Choice>, r: Response)
    requires DeltasFirst(cs) && Fragments(Deltas(cs), r.calls)
    ensures Emitted(cs, map[]) == multiset(FullCalls(r)) <==> Finishes(cs) == 1 || r.calls == []
  {
    EachFinishEmits(cs, map[]);
    FragmentsAssemble(Deltas(cs), r);
    var m, n := multiset(FullCalls(r)), Finishes(cs);
    TimesIsSame(m, n);
    assert |m| == |FullCalls(r)|;
  }

  /** A second finish mark delivers every call a second time. */
  lemma SecondFinishDuplicates(cs: seq<Choice>, st: States)
    ensures Emitted(cs + [Choice("", [], true)], st) == Emitted(cs, st) + StateCalls(StatesAfter(cs, st))
  {
    var last := Choice("", [], true);
    EmittedAppend(cs, [last], st);
    assert [last][1..] == [];
    assert ApplyAll(StatesAfter(cs, st), last.tools) == StatesAfter(cs, st);
  }
}
