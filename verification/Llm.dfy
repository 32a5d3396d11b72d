/** Values shared by the agent, the context builder and the provider clients. */
module Llm {

  datatype Option<+T> = None | Some(value: T)

  datatype Role = User | Assistant | System | Other(name: string)

  datatype ErrorKind = Permanent | Transient

  datatype Image = Image(mediaType: string, path: string)

  datatype ToolCall = ToolCall(id: string, name: string, input: string)

  datatype ToolResult =
    ToolResult(callId: string, content: string, isError: bool, images: seq<Image>, kind: ErrorKind)

  datatype ChatMessage =
    ChatMessage(role: Role, content: string, toolCalls: seq<ToolCall>, toolResults: seq<ToolResult>)

  predicate IsCalls(m: ChatMessage) {
    m.role == Assistant && |m.toolCalls| > 0
  }

  predicate IsResults(m: ChatMessage) {
    |m.toolResults| > 0
  }

  predicate IsPlain(m: ChatMessage) {
    !IsCalls(m) && !IsResults(m)
  }

  /** No message carries calls and results at once. */
  ghost predicate Exclusive(msgs: seq<ChatMessage>) {
    forall i :: 0 <= i < |msgs| ==> !(IsCalls(msgs[i]) && IsResults(msgs[i]))
  }

  /** Every call message is immediately followed by results, and results immediately follow calls. */
  ghost predicate WellPaired(msgs: seq<ChatMessage>) {
    && (forall i :: 0 <= i < |msgs| && IsCalls(msgs[i]) ==> i + 1 < |msgs| && IsResults(msgs[i + 1]))
    && (forall i :: 0 <= i < |msgs| && IsResults(msgs[i]) ==> 0 < i && IsCalls(msgs[i - 1]))
  }

  /** The value a result has until its tool has run. */
  const UNSET := ToolResult("", "", false, [], Permanent)

  /** One result per call, in call order, under the call's id unless the tool never ran. */
  predicate Answers(calls: ChatMessage, results: ChatMessage) {
    && |results.toolResults| == |calls.toolCalls|
    && forall i :: 0 <= i < |calls.toolCalls| ==>
         results.toolResults[i].callId == calls.toolCalls[i].id || results.toolResults[i] == UNSET
  }

  /** Results right behind calls answer those calls. */
  ghost predicate Matched(msgs: seq<ChatMessage>) {
    forall i :: 0 < i < |msgs| && IsCalls(msgs[i - 1]) && IsResults(msgs[i]) ==> Answers(msgs[i - 1], msgs[i])
  }

  datatype ContentType = TypeText | TypeToolCalls | TypeToolResults | TypeOther(name: string)

  datatype CallsPayload = CallsPayload(text: string, calls: seq<ToolCall>)

  /**
   * A stored body: its bytes, and what decoding them as tool calls or as tool results yields
   * (`None` where the decoder reports an error).
   */
  datatype Content = Content(raw: string, calls: Option<CallsPayload>, results: Option<seq<ToolResult>>)

  datatype Message = Message(
    id: string, session: string, role: Role, contentType: ContentType, content: Content, createdAt: int)

  /** What a provider stream delivers. */
  datatype ChatEvent =
    | EventToken(token: string)
    | EventToolCall(call: ToolCall)
    | EventDone(inputTokens: int, outputTokens: int)
    | EventError

  function TextOf(events: seq<ChatEvent>): string {
    if events == [] then ""
    else (if events[0].EventToken? then events[0].token else "") + TextOf(events[1..])
  }

  function CallsOf(events: seq<ChatEvent>): seq<ToolCall> {
    if events == [] then []
    else (if events[0].EventToolCall? then [events[0].call] else []) + CallsOf(events[1..])
  }

  lemma {:induction false} TextOfAppend(a: seq<ChatEvent>, b: seq<ChatEvent>)
    ensures TextOf(a + b) == TextOf(a) + TextOf(b)
  {
    if a == [] {
      assert a + b == b;
    } else {
      var s := a + b;
      assert s[0] == a[0] && s[1..] == a[1..] + b;
      TextOfAppend(a[1..], b);
    }
  }

  lemma {:induction false} CallsOfAppend(a: seq<ChatEvent>, b: seq<ChatEvent>)
    ensures CallsOf(a + b) == CallsOf(a) + CallsOf(b)
  {
    if a == [] {
      assert a + b == b;
    } else {
      var s := a + b;
      assert s[0] == a[0] && s[1..] == a[1..] + b;
      CallsOfAppend(a[1..], b);
    }
  }

  /** One event more. */
  lemma EventSnoc(events: seq<ChatEvent>, ev: ChatEvent)
    ensures TextOf(events + [ev]) == TextOf(events) + if ev.EventToken? then ev.token else ""
    ensures CallsOf(events + [ev]) == CallsOf(events) + if ev.EventToolCall? then [ev.call] else []
  {
    TextOfAppend(events, [ev]);
    CallsOfAppend(events, [ev]);
    assert [ev][1..] == [];
  }

  lemma NoEvents()
    ensures TextOf([]) == "" && CallsOf([]) == []
  {
  }
}
