/**
 * The agentic turn: a bounded loop of model calls and tool batches, as a state machine whose
 * environment (provider, tools, verification, store, cancellation) answers arbitrarily.
 */
module Turn {
  import opened Llm
  import opened ChatRetry
  import opened Recovery
  import opened Retry
  import opened ToolBatch
  import Context
  import Store

  const LLM_MAX_ERRORS: nat := 2
  const VERIFICATION_MAX_ATTEMPTS: nat := 2
  const RETRY_MAX_ATTEMPTS: nat := 3
  const MAX_SUBAGENT_DEPTH: nat := 3

  // ---------------------------------------------------------------- environment

  /** Everything the environment decides during one iteration. */
  datatype IterEnv = IterEnv(
    remaining: Option<int>,          // history budget when the messages are (re)built, if there is a builder
    call: ModelCall,                 // how the model call is settled
    answerSaved: bool,               // persisting the answer succeeds
    sessionTouched: bool,            // and so does touching its session
    verificationFailed: bool,        // a verification gate is configured and fails
    callsEncoded: Option<string>,    // bytes of the encoded calls, or an encoding error
    callsSaved: bool,
    run: Runs,                       // outcome of attempt a at call i
    reframe: Reframe,                // which strategies apply
    cooldownCancelled: bool,         // a cooldown is configured and ends by cancellation
    resultsEncoded: Option<string>,
    resultsSaved: bool)

  datatype Config = Config(maxToolIter: nat, policy: Policy, strategies: seq<Strategy>)

  // ---------------------------------------------------------------- state

  datatype Hint =
    | NoHint
    | CallFailedHint
    | StreamFailedHint
    | VerificationHint
    | StrategyHint(text: string)
    | ReplanHint(failed: seq<FailedTool>)

  datatype TurnEvent = TurnToken(token: string) | TurnToolCall(call: ToolCall) | TurnProgress
                     | TurnToolActivity | TurnDone | TurnError

  datatype Request = Request(messages: seq<ChatMessage>, hint: Hint)

  datatype End = Running | Answered | OutOfIterations | NoMessages | LlmFailed | StoreFailed | CooldownCancelled

  datatype TurnState = TurnState(
    iteration: nat,
    history: seq<Message>,
    stored: seq<Message>,            // what the turn has persisted, ids and times left out
    llmErrors: nat,
    verifications: nat,
    hint: Hint,
    tried: set<string>,
    used: seq<Strategy>,
    requests: seq<Request>,
    providerCalls: nat,
    replies: nat,                    // requests the provider has accepted
    events: seq<TurnEvent>,
    end: End)

  function Start(history: seq<Message>): TurnState {
    TurnState(0, history, [], 0, 0, NoHint, {}, [], [], 0, 0, [], Running)
  }

  predicate IsTerminal(e: TurnEvent) {
    e.TurnDone? || e.TurnError?
  }

  // ---------------------------------------------------------------- reading the reply

  predicate StreamFailed(events: seq<ChatEvent>) {
    EventError in events
  }

  /** The iteration's model call fails, at the request or in the stream. */
  predicate ModelFails(e: IterEnv) {
    e.call.reply.None? || StreamFailed(e.call.reply.value)
  }

  function ForwardOne(ev: ChatEvent): (r: seq<TurnEvent>)
    ensures |r| <= 1 && (|r| == 1 ==> !IsTerminal(r[0]))
  {
    match ev
    case EventToken(token) => [TurnToken(token)]
    case EventToolCall(call) => [TurnToolCall(call)]
    case _ => []
  }

  /** What the turn forwards while reading a stream. */
  function Forwarded(events: seq<ChatEvent>): (r: seq<TurnEvent>)
    ensures forall i :: 0 <= i < |r| ==> !IsTerminal(r[i])
  {
    if events == [] then [] else ForwardOne(events[0]) + Forwarded(events[1..])
  }

  function Notices(n: nat): (r: seq<TurnEvent>)
    ensures forall i :: 0 <= i < |r| ==> !IsTerminal(r[i])
  {
    seq(n, _ => TurnProgress)
  }

  // ---------------------------------------------------------------- one iteration

  function Emit(s: TurnState, es: seq<TurnEvent>): TurnState {
    s.(events := s.events + es)
  }

  function Stop(s: TurnState, end: End, es: seq<TurnEvent>): TurnState {
    s.(events := s.events + es, end := end)
  }

  function AfterFailure(s: TurnState, hint: Hint): TurnState {
    var n := s.llmErrors + 1;
    if n > LLM_MAX_ERRORS then Stop(s.(llmErrors := n), LlmFailed, [TurnError])
    else Emit(s.(llmErrors := n, hint := hint, iteration := s.iteration + 1), [TurnProgress])
  }

  function StoredAnswer(text: string): Message {
    Message("", "", Assistant, TypeText, Content(text, None, None), 0)
  }

  function AfterAnswer(s: TurnState, e: IterEnv, text: string): TurnState {
    if !e.answerSaved then Stop(s, StoreFailed, [TurnError])
    else
      var s1 := s.(stored := s.stored + [StoredAnswer(text)]);
      if !e.sessionTouched then Stop(s1, StoreFailed, [TurnError])
      else if e.verificationFailed && s.verifications < VERIFICATION_MAX_ATTEMPTS then
        Emit(s1.(verifications := s.verifications + 1, hint := VerificationHint, iteration := s.iteration + 1),
             [TurnProgress])
      else Stop(s1, Answered, [TurnDone])
  }

  /** The strategy dispensed after a batch with failed tools. */
  function Dispensed(cfg: Config, s: TurnState, e: IterEnv): Option<Strategy> {
    if |s.used| >= RETRY_MAX_ATTEMPTS then None else FirstApplicable(cfg.strategies, s.tried, e.reframe)
  }

  function AfterBatch(cfg: Config, s: TurnState, e: IterEnv, failed: seq<FailedTool>): TurnState {
    if failed == [] then s
    else match Dispensed(cfg, s, e)
      case None => s.(hint := ReplanHint(failed))
      case Some(st) =>
        var text := if e.reframe(st).Some? then e.reframe(st).value else "";
        var hint := if text == "" then NoHint else StrategyHint(text);
        var s' := s.(hint := hint, tried := s.tried + {st.name}, used := s.used + [st]);
        if e.cooldownCancelled then Stop(s', CooldownCancelled, []) else s'
  }

  function StoredCalls(raw: string, text: string, calls: seq<ToolCall>): Message {
    Message("", "", Assistant, TypeToolCalls, Content(raw, Some(CallsPayload(text, calls)), None), 0)
  }

  /** The kind of an error is not encoded, so it is lost when a stored result is decoded. */
  function WithoutKinds(results: seq<ToolResult>): (r: seq<ToolResult>)
    ensures |r| == |results| && forall i :: 0 <= i < |r| ==> r[i] == results[i].(kind := Permanent)
  {
    seq(|results|, i requires 0 <= i < |results| => results[i].(kind := Permanent))
  }

  function StoredResults(raw: string, results: seq<ToolResult>): Message {
    Message("", "", User, TypeToolResults, Content(raw, None, Some(WithoutKinds(results))), 0)
  }

  function AfterCalls(cfg: Config, s: TurnState, e: IterEnv, text: string, calls: seq<ToolCall>): TurnState {
    if e.callsEncoded.None? || !e.callsSaved then Stop(s, StoreFailed, [TurnError])
    else
      var stored := StoredCalls(e.callsEncoded.value, text, calls);
      var s1 := Emit(s.(stored := s.stored + [stored]), [TurnToolActivity]);
      var s2 := AfterBatch(cfg, s1, e, Failed(calls, e.run, cfg.policy, |calls|));
      if s2.end != Running then s2
      else if e.resultsEncoded.None? || !e.resultsSaved then Stop(s2, StoreFailed, [TurnError])
      else
        var results := StoredResults(e.resultsEncoded.value, Results(calls, e.run, cfg.policy));
        Emit(s2.(history := s2.history + [stored, results], stored := s2.stored + [results],
                 iteration := s2.iteration + 1), [TurnProgress])
  }

  /** The request goes out, carrying the recovery hint once, and is tried until it is settled. */
  function Asked(s: TurnState, e: IterEnv, messages: seq<ChatMessage>): TurnState {
    Emit(s.(requests := s.requests + [Request(messages, s.hint)], hint := NoHint,
            providerCalls := s.providerCalls + e.call.calls,
            replies := s.replies + if e.call.reply.Some? then 1 else 0), Notices(|e.call.delays|))
  }

  /** What the reply leads to. */
  function Reacted(cfg: Config, s: TurnState, e: IterEnv): TurnState {
    match e.call.reply
    case None => AfterFailure(s, CallFailedHint)
    case Some(events) =>
      var s' := Emit(s, Forwarded(events));
      if StreamFailed(events) then AfterFailure(s', StreamFailedHint)
      else if CallsOf(events) == [] then AfterAnswer(s'.(llmErrors := 0), e, TextOf(events))
      else AfterCalls(cfg, s'.(llmErrors := 0), e, TextOf(events), CallsOf(events))
  }

  /** One pass through the loop. */
  function Step(cfg: Config, s: TurnState, e: IterEnv): TurnState {
    var messages := Context.Chosen(s.history, e.remaining);
    if messages == [] then Stop(s.(hint := NoHint), NoMessages, [TurnError])
    else Reacted(cfg, Asked(s, e, messages), e)
  }

  /** The state after at most n iterations; a turn that has ended stays as it is. */
  function StateAt(cfg: Config, history: seq<Message>, env: nat -> IterEnv, n: nat): TurnState {
    if n == 0 then Start(history)
    else
      var s := StateAt(cfg, history, env, n - 1);
      if s.end == Running then Step(cfg, s, env(n - 1)) else s
  }

  function Finish(s: TurnState): TurnState {
    if s.end == Running then Stop(s, OutOfIterations, [TurnDone]) else s
  }

  /** The whole turn. */
  function Final(cfg: Config, history: seq<Message>, env: nat -> IterEnv): TurnState {
    Finish(StateAt(cfg, history, env, cfg.maxToolIter))
  }

  // ---------------------------------------------------------------- invariant of every run

  ghost predicate Quiet(events: seq<TurnEvent>) {
    forall i :: 0 <= i < |events| ==> !IsTerminal(events[i])
  }

  /** The terminal event that goes with an end. */
  function Terminal(end: End): TurnEvent {
    if end == Answered || end == OutOfIterations then TurnDone else TurnError
  }

  ghost predicate EventsOk(s: TurnState) {
    if s.end == Running || s.end == CooldownCancelled then Quiet(s.events)
    else s.events != [] && s.events[|s.events| - 1] == Terminal(s.end) && Quiet(s.events[..|s.events| - 1])
  }

  ghost predicate RequestsOk(s: TurnState) {
    forall r :: r in s.requests ==> r.messages != [] && WellPaired(r.messages)
  }

  function VerificationHints(rs: seq<Request>): nat {
    if rs == [] then 0
    else VerificationHints(rs[..|rs| - 1]) + if rs[|rs| - 1].hint == VerificationHint then 1 else 0
  }

  function Names(used: seq<Strategy>): set<string> {
    if used == [] then {} else Names(used[..|used| - 1]) + {used[|used| - 1].name}
  }

  lemma {:induction false} NamesContain(used: seq<Strategy>, i: nat)
    requires i < |used|
    ensures used[i].name in Names(used)
  {
    if i < |used| - 1 {
      NamesContain(used[..|used| - 1], i);
    }
  }

  ghost predicate StrategiesOk(cfg: Config, s: TurnState) {
    && |s.used| <= RETRY_MAX_ATTEMPTS
    && (forall i, j :: 0 <= i < j < |s.used| ==> s.used[i].name != s.used[j].name)
    && (forall i :: 0 <= i < |s.used| ==> s.used[i] in cfg.strategies)
    && s.tried == Names(s.used)
  }

  ghost predicate CountersOk(s: TurnState) {
    && s.providerCalls <= (LLM_MAX_RETRIES + 1) * |s.requests|
    && |s.requests| <= s.iteration + (if s.end == Running then 0 else 1)
    && s.verifications <= VERIFICATION_MAX_ATTEMPTS
    && VerificationHints(s.requests) + (if s.hint == VerificationHint then 1 else 0) <= s.verifications
  }

  ghost predicate TurnInv(cfg: Config, s: TurnState) {
    EventsOk(s) && RequestsOk(s) && StrategiesOk(cfg, s) && CountersOk(s)
  }

  lemma OneMoreEvent(events: seq<TurnEvent>, e: TurnEvent)
    requires Quiet(events)
    ensures !IsTerminal(e) ==> Quiet(events + [e])
    ensures (events + [e])[..|events + [e]| - 1] == events
  {
  }

  lemma EventsAfterCalls(cfg: Config, s: TurnState, e: IterEnv, text: string, calls: seq<ToolCall>)
    requires EventsOk(s) && s.end == Running
    ensures EventsOk(AfterCalls(cfg, s, e, text, calls))
  {
    CallsEmit(cfg, s, e, text, calls);
    hide AfterCalls, Quiet;
    OneMoreEvent(s.events, TurnError);
    OneMoreEvent(s.events, TurnToolActivity);
    var ran := s.events + [TurnToolActivity];
    OneMoreEvent(ran, TurnError);
    OneMoreEvent(ran, TurnProgress);
  }

  lemma CallsEmit(cfg: Config, s: TurnState, e: IterEnv, text: string, calls: seq<ToolCall>)
    requires s.end == Running
    ensures var s', ran := AfterCalls(cfg, s, e, text, calls), s.events + [TurnToolActivity];
            if e.callsEncoded.None? || !e.callsSaved then s'.end == StoreFailed && s'.events == s.events + [TurnError]
            else if s'.end == CooldownCancelled then s'.events == ran
            else if s'.end == StoreFailed then s'.events == ran + [TurnError]
            else s'.end == Running && s'.events == ran + [TurnProgress]
  {
    hide Failed, Results, Dispensed, StoredCalls, StoredResults;
  }

  lemma EventsStep(cfg: Config, s: TurnState, e: IterEnv)
    requires EventsOk(s) && s.end == Running
    ensures EventsOk(Step(cfg, s, e))
  {
    var messages := Context.Chosen(s.history, e.remaining);
    var s1, reply := Asked(s, e, messages), e.call.reply;
    QuietAppend(s.events, Notices(|e.call.delays|));
    OneMoreEvent(s.events, TurnError);
    if reply.Some? {
      QuietAppend(s1.events, Forwarded(reply.value));
    }
    assert s1.end == Running;
    hide Context.Chosen, AfterCalls, AfterAnswer, AfterFailure, CallsOf, TextOf, Forwarded, Quiet, Notices;
    if messages != [] {
      if reply.None? {
        EventsAfterFailure(s1, CallFailedHint);
      } else {
        var s2 := Emit(s1, Forwarded(reply.value));
        EventsAfterFailure(s2, StreamFailedHint);
        EventsAfterAnswer(s2.(llmErrors := 0), e, TextOf(reply.value));
        EventsAfterCalls(cfg, s2.(llmErrors := 0), e, TextOf(reply.value), CallsOf(reply.value));
      }
    }
  }

  lemma QuietAppend(a: seq<TurnEvent>, b: seq<TurnEvent>)
    requires Quiet(b)
    ensures Quiet(a) ==> Quiet(a + b)
  {
  }

  lemma EventsAfterFailure(s: TurnState, hint: Hint)
    requires EventsOk(s) && s.end == Running
    ensures EventsOk(AfterFailure(s, hint))
  {
    OneMoreEvent(s.events, TurnError);
    OneMoreEvent(s.events, TurnProgress);
    hide Quiet;
  }

  lemma EventsAfterAnswer(s: TurnState, e: IterEnv, text: string)
    requires EventsOk(s) && s.end == Running
    ensures EventsOk(AfterAnswer(s, e, text))
  {
    OneMoreEvent(s.events, TurnError);
    OneMoreEvent(s.events, TurnProgress);
    OneMoreEvent(s.events, TurnDone);
    hide Quiet, StoredAnswer;
  }

  lemma RequestsStep(cfg: Config, s: TurnState, e: IterEnv)
    requires RequestsOk(s) && s.end == Running
    ensures RequestsOk(Step(cfg, s, e))
  {
    hide Context.Chosen, Reacted;
    CountersReacted(cfg, Asked(s, e, Context.Chosen(s.history, e.remaining)), e);
    Context.ChosenPaired(s.history, e.remaining);
  }

  lemma CountersAfterCalls(cfg: Config, s: TurnState, e: IterEnv, text: string, calls: seq<ToolCall>)
    requires s.end == Running && s.hint == NoHint
    ensures var s' := AfterCalls(cfg, s, e, text, calls);
            && s'.requests == s.requests && s'.providerCalls == s.providerCalls
            && s'.iteration == s.iteration + (if s'.end == Running then 1 else 0)
            && s'.verifications == s.verifications && s'.hint != VerificationHint
  {
  }

  lemma CountersReacted(cfg: Config, s: TurnState, e: IterEnv)
    requires s.end == Running && s.hint == NoHint
    ensures var s' := Reacted(cfg, s, e);
            && s'.requests == s.requests && s'.providerCalls == s.providerCalls
            && s'.iteration == s.iteration + (if s'.end == Running then 1 else 0)
            && s'.verifications == s.verifications + (if s'.hint == VerificationHint then 1 else 0)
            && (s'.hint == VerificationHint ==> s.verifications < VERIFICATION_MAX_ATTEMPTS)
  {
    var reply := e.call.reply;
    if reply.Some? && !StreamFailed(reply.value) && CallsOf(reply.value) != [] {
      var s2 := Emit(s, Forwarded(reply.value)).(llmErrors := 0);
      CountersAfterCalls(cfg, s2, e, TextOf(reply.value), CallsOf(reply.value));
    }
  }

  lemma CountersStep(cfg: Config, s: TurnState, e: IterEnv)
    requires CountersOk(s) && s.end == Running
    ensures CountersOk(Step(cfg, s, e))
    ensures Step(cfg, s, e).iteration == s.iteration + (if Step(cfg, s, e).end == Running then 1 else 0)
    ensures |Step(cfg, s, e).requests| <= |s.requests| + 1
  {
    var messages := Context.Chosen(s.history, e.remaining);
    if messages != [] {
      CountersReacted(cfg, Asked(s, e, messages), e);
      assert Asked(s, e, messages).requests[..|s.requests|] == s.requests;
    }
  }

  lemma {:induction false} FirstApplicableIsCandidate(s: seq<Strategy>, tried: set<string>, reframe: Reframe)
    ensures var r := FirstApplicable(s, tried, reframe); r.Some? ==> Candidate(s, tried, reframe, r.value)
  {
    if s != [] {
      FirstApplicableIsCandidate(s[1..], tried, reframe);
    }
  }

  lemma StrategiesAfterBatch(cfg: Config, s: TurnState, e: IterEnv, failed: seq<FailedTool>)
    requires StrategiesOk(cfg, s)
    ensures StrategiesOk(cfg, AfterBatch(cfg, s, e, failed))
  {
    FirstApplicableIsCandidate(cfg.strategies, s.tried, e.reframe);
    var s' := AfterBatch(cfg, s, e, failed);
    if s'.used != s.used {
      assert s'.used[..|s.used|] == s.used;
      forall i | 0 <= i < |s.used| ensures s.used[i].name in s.tried {
        NamesContain(s.used, i);
      }
    }
  }

  lemma StrategiesAfterCalls(cfg: Config, s: TurnState, e: IterEnv, text: string, calls: seq<ToolCall>)
    requires StrategiesOk(cfg, s)
    ensures StrategiesOk(cfg, AfterCalls(cfg, s, e, text, calls))
  {
    if e.callsEncoded.Some? {
      var s1 := Emit(s.(stored := s.stored + [StoredCalls(e.callsEncoded.value, text, calls)]), [TurnToolActivity]);
      StrategiesAfterBatch(cfg, s1, e, Failed(calls, e.run, cfg.policy, |calls|));
    }
  }

  lemma StrategiesStep(cfg: Config, s: TurnState, e: IterEnv)
    requires StrategiesOk(cfg, s)
    ensures StrategiesOk(cfg, Step(cfg, s, e))
  {
    hide Context.Chosen, AfterCalls, CallsOf, TextOf;
    var s1 := Asked(s, e, Context.Chosen(s.history, e.remaining));
    var reply := e.call.reply;
    if reply.Some? {
      var s2 := Emit(s1, Forwarded(reply.value)).(llmErrors := 0);
      StrategiesAfterCalls(cfg, s2, e, TextOf(reply.value), CallsOf(reply.value));
    }
  }

  // ---------------------------------------------------------------- theorems about whole turns

  lemma InvCounters(cfg: Config, s: TurnState)
    requires TurnInv(cfg, s)
    ensures CountersOk(s)
  {
  }

  lemma StepKeeps(cfg: Config, s: TurnState, e: IterEnv)
    requires TurnInv(cfg, s) && s.end == Running
    ensures TurnInv(cfg, Step(cfg, s, e))
  {
    EventsStep(cfg, s, e);
    RequestsStep(cfg, s, e);
    CountersStep(cfg, s, e);
    StrategiesStep(cfg, s, e);
  }

  lemma StartInv(cfg: Config, history: seq<Message>)
    ensures TurnInv(cfg, Start(history))
  {
  }

  lemma {:induction false} RunKeeps(cfg: Config, history: seq<Message>, env: nat -> IterEnv, n: nat)
    ensures var s := StateAt(cfg, history, env, n);
            && TurnInv(cfg, s)
            && |s.requests| <= n
            && (s.end == Running ==> s.iteration == n)
  {
    StartInv(cfg, history);
    hide Step, TurnInv;
    if n > 0 {
      RunKeeps(cfg, history, env, n - 1);
      var s := StateAt(cfg, history, env, n - 1);
      if s.end == Running {
        StepKeeps(cfg, s, env(n - 1));
        assert CountersOk(s) by { InvCounters(cfg, s); }
        CountersStep(cfg, s, env(n - 1));
      }
    }
  }

  /**
   * A failed batch leads to a cooldown that is cancelled: the model calls tools, the calls are stored, some
   * tool has to be replanned, an untried strategy applies, and the wait after it is cancelled.
   */
  ghost predicate BreaksOff(cfg: Config, s: TurnState, e: IterEnv) {
    && Context.Chosen(s.history, e.remaining) != []
    && !ModelFails(e) && CallsOf(e.call.reply.value) != [] && e.callsEncoded.Some? && e.callsSaved
    && Failed(CallsOf(e.call.reply.value), e.run, cfg.policy, |CallsOf(e.call.reply.value)|) != []
    && |s.used| < 3 && (exists c :: Candidate(cfg.strategies, s.tried, e.reframe, c))
    && e.cooldownCancelled
  }

  lemma {:induction false} ApplicableExists(s: seq<Strategy>, tried: set<string>, reframe: Reframe)
    ensures FirstApplicable(s, tried, reframe).Some? <==> exists c :: Candidate(s, tried, reframe, c)
  {
    if s != [] {
      ApplicableExists(s[1..], tried, reframe);
      if s[0].name !in tried && reframe(s[0]).Some? {
        assert Candidate(s, tried, reframe, s[0]);
      } else if c :| Candidate(s, tried, reframe, c) {
        assert Candidate(s[1..], tried, reframe, c);
      } else if c :| Candidate(s[1..], tried, reframe, c) {
        assert Candidate(s, tried, reframe, c);
      }
    }
  }

  lemma BreaksOffAfterCalls(cfg: Config, s: TurnState, e: IterEnv, text: string, calls: seq<ToolCall>)
    requires s.end == Running
    ensures AfterCalls(cfg, s, e, text, calls).end == CooldownCancelled <==>
            && e.callsEncoded.Some? && e.callsSaved && Failed(calls, e.run, cfg.policy, |calls|) != []
            && |s.used| < RETRY_MAX_ATTEMPTS && (exists c :: Candidate(cfg.strategies, s.tried, e.reframe, c))
            && e.cooldownCancelled
  {
    ApplicableExists(cfg.strategies, s.tried, e.reframe);
    hide Failed, Results, FirstApplicable, Candidate, StoredCalls, StoredResults;
  }

  lemma BreaksOffStep(cfg: Config, s: TurnState, e: IterEnv)
    requires s.end == Running
    ensures Step(cfg, s, e).end == CooldownCancelled <==> BreaksOff(cfg, s, e)
  {
    hide Context.Chosen, AfterCalls, TextOf, CallsOf, Failed, Candidate;
    var s1 := Asked(s, e, Context.Chosen(s.history, e.remaining));
    if !ModelFails(e) {
      var events := e.call.reply.value;
      var s2 := Emit(s1, Forwarded(events)).(llmErrors := 0);
      BreaksOffAfterCalls(cfg, s2, e, TextOf(events), CallsOf(events));
    }
  }

  /** At iteration n, which the turn reaches, it breaks off. */
  ghost predicate BreaksOffAt(cfg: Config, history: seq<Message>, env: nat -> IterEnv, n: nat) {
    StateAt(cfg, history, env, n).end == Running && BreaksOff(cfg, StateAt(cfg, history, env, n), env(n))
  }

  lemma CooldownExactlyWhen(cfg: Config, history: seq<Message>, env: nat -> IterEnv, n: nat)
    requires StateAt(cfg, history, env, n).end == Running
    ensures StateAt(cfg, history, env, n + 1).end == CooldownCancelled <==> BreaksOffAt(cfg, history, env, n)
  {
    hide Step, BreaksOff;
    BreaksOffStep(cfg, StateAt(cfg, history, env, n), env(n));
  }

  lemma {:induction false} CancelledExactlyWhen(cfg: Config, history: seq<Message>, env: nat -> IterEnv, n: nat)
    ensures StateAt(cfg, history, env, n).end == CooldownCancelled <==>
            exists m: nat :: m < n && BreaksOffAt(cfg, history, env, m)
  {
    hide Step, BreaksOff;
    if n > 0 {
      CancelledExactlyWhen(cfg, history, env, n - 1);
      var s := StateAt(cfg, history, env, n - 1);
      if s.end == Running {
        CooldownExactlyWhen(cfg, history, env, n - 1);
      }
      if m: nat :| m < n && BreaksOffAt(cfg, history, env, m) {
        assert m < n - 1 || m == n - 1;
      }
    }
  }

  /**
   * Under every environment the turn ends; every request it sends is well paired; provider calls,
   * verification retries and strategies are bounded; and exactly one terminal event is emitted, as
   * the last one, except that it emits none exactly if it breaks off at one of its iterations.
   */
  lemma TurnSafety(cfg: Config, history: seq<Message>, env: nat -> IterEnv)
    ensures var s := Final(cfg, history, env);
            && s.end != Running
            && (forall r :: r in s.requests ==> r.messages != [] && WellPaired(r.messages))
            && |s.requests| <= cfg.maxToolIter
            && s.providerCalls <= 4 * cfg.maxToolIter
            && VerificationHints(s.requests) <= s.verifications <= 2
            && |s.used| <= 3
            && (forall i, j :: 0 <= i < j < |s.used| ==> s.used[i].name != s.used[j].name)
            && (if exists n: nat :: n < cfg.maxToolIter && BreaksOffAt(cfg, history, env, n) then Quiet(s.events)
                else s.events != [] && Quiet(s.events[..|s.events| - 1])
                     && s.events[|s.events| - 1]
                        == if s.end == Answered || s.end == OutOfIterations then TurnDone else TurnError)
  {
    RunKeeps(cfg, history, env, cfg.maxToolIter);
    CancelledExactlyWhen(cfg, history, env, cfg.maxToolIter);
    hide BreaksOffAt, StateAt;
    var s := StateAt(cfg, history, env, cfg.maxToolIter);
    var f := Final(cfg, history, env);
    assert f.requests == s.requests && f.providerCalls == s.providerCalls;
    assert s.providerCalls <= (LLM_MAX_RETRIES + 1) * cfg.maxToolIter;
    if s.end == Running {
      assert f.events[..|f.events| - 1] == s.events;
    }
  }

  /** The terminal event goes with the end. */
  lemma FinalEvents(cfg: Config, history: seq<Message>, env: nat -> IterEnv)
    ensures EventsOk(Final(cfg, history, env)) && Final(cfg, history, env).end != Running
  {
    RunKeeps(cfg, history, env, cfg.maxToolIter);
    var s := StateAt(cfg, history, env, cfg.maxToolIter);
    hide StateAt, RequestsOk, StrategiesOk, CountersOk;
    if s.end == Running {
      OneMoreEvent(s.events, TurnDone);
    }
  }

  lemma ErrorsStep(cfg: Config, s: TurnState, e: IterEnv)
    requires s.end == Running && Context.Chosen(s.history, e.remaining) != []
    ensures var s' := Step(cfg, s, e);
            && (s'.end == LlmFailed <==> ModelFails(e) && s.llmErrors >= LLM_MAX_ERRORS)
            && s'.llmErrors == if ModelFails(e) then s.llmErrors + 1 else 0
  {
    var s1 := Asked(s, e, Context.Chosen(s.history, e.remaining));
    assert s1.llmErrors == s.llmErrors;
    assert Step(cfg, s, e) == Reacted(cfg, s1, e);
    if !ModelFails(e) {
      var events := e.call.reply.value;
      ErrorsAfterCalls(cfg, Emit(s1, Forwarded(events)).(llmErrors := 0), e, TextOf(events), CallsOf(events));
    }
  }

  lemma ErrorsAfterCalls(cfg: Config, s: TurnState, e: IterEnv, text: string, calls: seq<ToolCall>)
    requires s.end == Running
    ensures AfterCalls(cfg, s, e, text, calls).llmErrors == s.llmErrors
    ensures AfterCalls(cfg, s, e, text, calls).end != LlmFailed
  {
  }

  /** The model failures in a row that end just before iteration n. */
  function FailureStreak(env: nat -> IterEnv, n: nat): nat {
    if n == 0 || !ModelFails(env(n - 1)) then 0 else FailureStreak(env, n - 1) + 1
  }

  lemma {:induction false} ErrorsCountStreak(cfg: Config, history: seq<Message>, env: nat -> IterEnv, n: nat)
    requires StateAt(cfg, history, env, n).end == Running
    ensures StateAt(cfg, history, env, n).llmErrors == FailureStreak(env, n) <= LLM_MAX_ERRORS
  {
    if n > 0 {
      ErrorsCountStreak(cfg, history, env, n - 1);
      ErrorsStep(cfg, StateAt(cfg, history, env, n - 1), env(n - 1));
    }
  }

  /** The turn fails at an iteration exactly when it is the third consecutive one whose model call fails. */
  lemma FailsOnThirdInARow(cfg: Config, history: seq<Message>, env: nat -> IterEnv, n: nat)
    requires StateAt(cfg, history, env, n).end == Running
    requires Context.Chosen(StateAt(cfg, history, env, n).history, env(n).remaining) != []
    ensures StateAt(cfg, history, env, n + 1).end == LlmFailed <==>
            n >= 2 && ModelFails(env(n)) && ModelFails(env(n - 1)) && ModelFails(env(n - 2))
  {
    ErrorsCountStreak(cfg, history, env, n);
    ErrorsStep(cfg, StateAt(cfg, history, env, n), env(n));
    if n >= 2 {
      assert FailureStreak(env, n - 1) == if ModelFails(env(n - 2)) then FailureStreak(env, n - 2) + 1 else 0;
    }
  }

  /** The model answers without calling a tool, and the answer does not pass verification. */
  predicate Rejected(e: IterEnv) {
    !ModelFails(e) && CallsOf(e.call.reply.value) == [] && e.verificationFailed
  }

  /** The rejected answers before iteration n. */
  function Rejections(env: nat -> IterEnv, n: nat): nat {
    if n == 0 then 0 else Rejections(env, n - 1) + if Rejected(env(n - 1)) then 1 else 0
  }

  lemma AnswerStep(cfg: Config, s: TurnState, e: IterEnv)
    requires s.end == Running
    ensures var s' := Step(cfg, s, e);
            && (s'.end == Running ==> s'.verifications == s.verifications + if Rejected(e) then 1 else 0)
            && (s'.end == Answered <==>
                  && Context.Chosen(s.history, e.remaining) != []
                  && !ModelFails(e) && CallsOf(e.call.reply.value) == [] && e.answerSaved && e.sessionTouched
                  && (e.verificationFailed ==> s.verifications >= VERIFICATION_MAX_ATTEMPTS))
  {
    hide Context.Chosen, Failed, Results, TextOf, Forwarded;
  }

  lemma {:induction false} VerificationsCount(cfg: Config, history: seq<Message>, env: nat -> IterEnv, n: nat)
    requires StateAt(cfg, history, env, n).end == Running
    ensures StateAt(cfg, history, env, n).verifications == Rejections(env, n)
  {
    hide Step;
    if n > 0 {
      VerificationsCount(cfg, history, env, n - 1);
      AnswerStep(cfg, StateAt(cfg, history, env, n - 1), env(n - 1));
    }
  }

  /**
   * The turn ends with an answer at an iteration exactly when the model answers there without calling a
   * tool, the answer is persisted, and it passes verification or two answers were rejected before.
   */
  lemma AnswersExactlyWhen(cfg: Config, history: seq<Message>, env: nat -> IterEnv, n: nat)
    requires StateAt(cfg, history, env, n).end == Running
    requires Context.Chosen(StateAt(cfg, history, env, n).history, env(n).remaining) != []
    ensures StateAt(cfg, history, env, n + 1).end == Answered <==>
            && !ModelFails(env(n)) && CallsOf(env(n).call.reply.value) == []
            && env(n).answerSaved && env(n).sessionTouched
            && (env(n).verificationFailed ==> Rejections(env, n) >= 2)
  {
    hide Step;
    VerificationsCount(cfg, history, env, n);
    AnswerStep(cfg, StateAt(cfg, history, env, n), env(n));
  }

  // ---------------------------------------------------------------- turns that reach no model

  /**
   * From iteration n on no request of the turn is accepted: there is nothing to send, or the calls fail until
   * the turn gives up or its iterations run out.
   */
  predicate Silent(history: seq<Message>, env: nat -> IterEnv, n: nat, maxToolIter: nat)
    decreases if n < maxToolIter then maxToolIter - n else 0
  {
    || n >= maxToolIter || n > LLM_MAX_ERRORS || Context.Chosen(history, env(n).remaining) == []
    || (env(n).call.reply.None? && Silent(history, env, n + 1, maxToolIter))
  }

  /** As long as nothing was accepted, the turn is in its first few iterations and its history is as loaded. */
  ghost predicate Unheard(history: seq<Message>, s: TurnState, n: nat) {
    s.end == Running && s.history == history && s.llmErrors == n && s.replies == 0
  }

  lemma UnheardStep(cfg: Config, history: seq<Message>, s: TurnState, e: IterEnv, n: nat)
    requires Unheard(history, s, n)
    ensures var s' := Step(cfg, s, e);
            && (s'.replies > 0 <==> Context.Chosen(history, e.remaining) != [] && e.call.reply.Some?)
            && (s'.replies == 0 ==>
                  if Context.Chosen(history, e.remaining) == [] || n + 1 > LLM_MAX_ERRORS then s'.end != Running
                  else Unheard(history, s', n + 1))
  {
    hide Context.Chosen;
    RepliesReacted(cfg, Asked(s, e, Context.Chosen(history, e.remaining)), e);
  }

  lemma RepliesReacted(cfg: Config, s: TurnState, e: IterEnv)
    ensures Reacted(cfg, s, e).replies == s.replies
  {
    hide Failed, Results, CallsOf, TextOf, Forwarded, StreamFailed, FirstApplicable;
  }

  /** A turn that has ended is not changed by the iterations it did not use, and no accepted request is forgotten. */
  lemma {:induction false} EndedStays(cfg: Config, history: seq<Message>, env: nat -> IterEnv, n: nat, m: nat)
    requires n <= m
    ensures StateAt(cfg, history, env, n).replies <= StateAt(cfg, history, env, m).replies
    ensures StateAt(cfg, history, env, n).end != Running ==>
              StateAt(cfg, history, env, m) == StateAt(cfg, history, env, n)
    decreases m - n
  {
    hide Reacted;
    if n < m {
      EndedStays(cfg, history, env, n, m - 1);
      var s := StateAt(cfg, history, env, m - 1);
      RepliesReacted(cfg, Asked(s, env(m - 1), Context.Chosen(s.history, env(m - 1).remaining)), env(m - 1));
    }
  }

  lemma {:induction false} SilentFrom(cfg: Config, history: seq<Message>, env: nat -> IterEnv, n: nat)
    requires n <= cfg.maxToolIter && n <= LLM_MAX_ERRORS
    requires Unheard(history, StateAt(cfg, history, env, n), n)
    ensures StateAt(cfg, history, env, cfg.maxToolIter).replies == 0 <==> Silent(history, env, n, cfg.maxToolIter)
    decreases cfg.maxToolIter - n
  {
    hide Step, Context.Chosen;
    var s := StateAt(cfg, history, env, n);
    if n < cfg.maxToolIter {
      assert StateAt(cfg, history, env, n + 1) == Step(cfg, s, env(n));
      UnheardStep(cfg, history, s, env(n), n);
      EndedStays(cfg, history, env, n + 1, cfg.maxToolIter);
      if n == LLM_MAX_ERRORS {
        assert Silent(history, env, n + 1, cfg.maxToolIter);
      } else if Unheard(history, StateAt(cfg, history, env, n + 1), n + 1) {
        SilentFrom(cfg, history, env, n + 1);
      }
    }
  }

  /** No request of a turn is accepted exactly when nothing can be sent or every call fails until it gives up. */
  lemma UnheardExactlyWhen(cfg: Config, history: seq<Message>, env: nat -> IterEnv)
    ensures Final(cfg, history, env).replies == 0 <==> Silent(history, env, 0, cfg.maxToolIter)
  {
    hide Step;
    SilentFrom(cfg, history, env, 0);
  }

  lemma FirstReplyIsHeard(cfg: Config, history: seq<Message>, env: nat -> IterEnv)
    requires cfg.maxToolIter > 0 && Context.Chosen(history, env(0).remaining) != [] && env(0).call.reply.Some?
    ensures Final(cfg, history, env).replies > 0
  {
    hide Context.Chosen;
    assert !Silent(history, env, 0, cfg.maxToolIter);
    hide Silent, Final;
    UnheardExactlyWhen(cfg, history, env);
  }

  /** A strategy is used only when it has the highest priority among the untried applicable ones. */
  lemma StrategyIsBest(cfg: Config, s: TurnState, e: IterEnv, failed: seq<FailedTool>)
    requires Descending(cfg.strategies)
    ensures var s' := AfterBatch(cfg, s, e, failed);
            && (s'.used == s.used <==>
                  failed == [] || |s.used| >= RETRY_MAX_ATTEMPTS
                  || forall c :: c in cfg.strategies ==> !Candidate(cfg.strategies, s.tried, e.reframe, c))
            && (s'.used != s.used ==>
                  && |s'.used| == |s.used| + 1 && s'.used[..|s.used|] == s.used
                  && Candidate(cfg.strategies, s.tried, e.reframe, s'.used[|s.used|])
                  && forall c :: c in cfg.strategies && Candidate(cfg.strategies, s.tried, e.reframe, c) ==>
                                   c.priority <= s'.used[|s.used|].priority)
  {
    FirstIsHighest(cfg.strategies, s.tried, e.reframe);
  }

  /** A result says what the last attempt that ran the tool reported, under the call's id, and nothing if none did. */
  ghost predicate Reports(r: ToolResult, call: ToolCall, attempts: seq<Attempt>) {
    if Started(attempts) then exists k: nat :: ReportsAttempt(r, call, attempts, k) else r == UNSET
  }

  ghost predicate ReportsAttempt(r: ToolResult, call: ToolCall, attempts: seq<Attempt>, k: nat) {
    && IsLastRun(attempts, k)
    && r == ToolResult(call.id, attempts[k].content, attempts[k].isError, attempts[k].images, Permanent)
  }

  lemma {:induction false} LastRunExists(attempts: seq<Attempt>) returns (k: nat)
    requires Started(attempts)
    ensures IsLastRun(attempts, k)
  {
    var front := attempts[..|attempts| - 1];
    if Last(attempts).Ran? {
      k := |attempts| - 1;
    } else {
      assert forall j :: 0 <= j < |front| ==> front[j] == attempts[j];
      k := LastRunExists(front);
    }
  }

  lemma SlotReports(call: ToolCall, attempts: seq<Attempt>)
    ensures Reports(Slot(call, attempts).(kind := Permanent), call, attempts)
  {
    SlotId(call, attempts);
    if Started(attempts) {
      var k := LastRunExists(attempts);
      SlotIsLastRun(call, attempts, k);
      hide Slot, Started, IsLastRun;
      assert ReportsAttempt(Slot(call, attempts).(kind := Permanent), call, attempts, k);
    }
  }

  /**
   * The pair that a completed batch of iteration e appends to the in-memory history: the text and the calls of
   * the reply, and one result per call, which reports the last attempt that ran the tool.
   */
  ghost predicate IsPairOf(a: Message, b: Message, e: IterEnv, p: Policy) {
    var asked, answered := Context.MessageToLLM(a), Context.MessageToLLM(b);
    && e.call.reply.Some?
    && asked.toolCalls == CallsOf(e.call.reply.value) && asked.content == TextOf(e.call.reply.value)
    && IsCalls(asked) && IsResults(answered) && |answered.toolResults| == |asked.toolCalls|
    && forall i :: 0 <= i < |asked.toolCalls| ==>
         Reports(answered.toolResults[i], asked.toolCalls[i], Attempts(e.run, p, i, 0))
  }

  ghost predicate IsPairFrom(a: Message, b: Message, env: nat -> IterEnv, n: nat, p: Policy) {
    exists m: nat :: m < n && IsPairOf(a, b, env(m), p)
  }

  /** From an index on, the history is pairs of the first n iterations. */
  ghost predicate PairsAfter(h: seq<Message>, from: nat, env: nat -> IterEnv, n: nat, p: Policy) {
    && from <= |h| && (|h| - from) % 2 == 0
    && forall i :: from <= i < |h| - 1 && (i - from) % 2 == 0 ==> IsPairFrom(h[i], h[i + 1], env, n, p)
  }

  /** An iteration leaves the history alone, or appends its pair. */
  lemma PairsStep(cfg: Config, s: TurnState, e: IterEnv)
    requires s.end == Running
    ensures var h, h' := s.history, Step(cfg, s, e).history;
            || h' == h
            || (|h'| == |h| + 2 && h <= h' && IsPairOf(h'[|h|], h'[|h| + 1], e, cfg.policy))
  {
    hide Context.Chosen, AfterCalls, AfterAnswer, IsPairOf;
    var reply := e.call.reply;
    if reply.Some? && !StreamFailed(reply.value) && CallsOf(reply.value) != [] {
      var s1 := Asked(s, e, Context.Chosen(s.history, e.remaining));
      var s2 := Emit(s1, Forwarded(reply.value)).(llmErrors := 0);
      PairsAfterCalls(cfg, s2, e);
    } else {
      AnswerKeepsHistory(s, e);
    }
  }

  lemma AnswerKeepsHistory(s: TurnState, e: IterEnv)
    ensures forall s', text :: AfterAnswer(s', e, text).history == s'.history
  {
  }

  /** What a batch leaves in history and store: nothing, its calls in the store, or the pair in both. */
  lemma CallsRecorded(cfg: Config, s: TurnState, e: IterEnv, text: string, calls: seq<ToolCall>)
    requires s.end == Running
    ensures var s' := AfterCalls(cfg, s, e, text, calls);
            && s'.verifications == s.verifications && s'.end != Answered
            && if e.callsEncoded.None? || !e.callsSaved then
                 s'.history == s.history && s'.stored == s.stored && s'.end == StoreFailed
               else
                 var m := StoredCalls(e.callsEncoded.value, text, calls);
                 if s'.end == Running then
                   && e.resultsEncoded.Some?
                   && var results := StoredResults(e.resultsEncoded.value, Results(calls, e.run, cfg.policy));
                      s'.history == s.history + [m, results] && s'.stored == s.stored + [m] + [results]
                 else
                   && s'.history == s.history && s'.stored == s.stored + [m]
                   && (s'.end == CooldownCancelled || s'.end == StoreFailed)
  {
    hide Failed, Results;
  }

  lemma PairsAfterCalls(cfg: Config, s: TurnState, e: IterEnv)
    requires s.end == Running && e.call.reply.Some? && CallsOf(e.call.reply.value) != []
    ensures var events := e.call.reply.value;
            var h, h' := s.history, AfterCalls(cfg, s, e, TextOf(events), CallsOf(events)).history;
            h' == h || (|h'| == |h| + 2 && h <= h' && IsPairOf(h'[|h|], h'[|h| + 1], e, cfg.policy))
  {
    var text, calls := TextOf(e.call.reply.value), CallsOf(e.call.reply.value);
    CallsRecorded(cfg, s, e, text, calls);
    var s' := AfterCalls(cfg, s, e, text, calls);
    hide AfterCalls, TextOf, CallsOf;
    if s'.end == Running {
      BatchIsPair(cfg, e, text, calls);
    }
  }

  lemma BatchIsPair(cfg: Config, e: IterEnv, text: string, calls: seq<ToolCall>)
    requires e.callsEncoded.Some? && e.resultsEncoded.Some? && e.call.reply.Some?
    requires calls == CallsOf(e.call.reply.value) != [] && text == TextOf(e.call.reply.value)
    ensures IsPairOf(StoredCalls(e.callsEncoded.value, text, calls),
                     StoredResults(e.resultsEncoded.value, Results(calls, e.run, cfg.policy)), e, cfg.policy)
  {
    var results := Results(calls, e.run, cfg.policy);
    forall i | 0 <= i < |calls|
      ensures Reports(results[i].(kind := Permanent), calls[i], Attempts(e.run, cfg.policy, i, 0))
    {
      SlotReports(calls[i], Attempts(e.run, cfg.policy, i, 0));
    }
    hide Results, Reports, Attempts;
  }

  /**
   * The in-memory history is the loaded one followed by the complete pairs of some iterations: one result
   * per call, in call order, under the call's id unless the tool was never started.
   */
  lemma {:induction false} HistoryGrowsByPairs(cfg: Config, history: seq<Message>, env: nat -> IterEnv, n: nat)
    ensures history <= StateAt(cfg, history, env, n).history
    ensures PairsAfter(StateAt(cfg, history, env, n).history, |history|, env, n, cfg.policy)
  {
    hide Step, IsPairOf, PairsAfter;
    if n == 0 {
      NoPairs(history, env, cfg.policy);
    } else {
      HistoryGrowsByPairs(cfg, history, env, n - 1);
      var s, s' := StateAt(cfg, history, env, n - 1), StateAt(cfg, history, env, n);
      PairsKept(s.history, |history|, env, n - 1, cfg.policy);
      if s.end == Running {
        PairsStep(cfg, s, env(n - 1));
        if s'.history != s.history {
          PairsGrow(s.history, |history|, env, n - 1, cfg.policy, s'.history);
        }
      }
    }
  }

  lemma NoPairs(h: seq<Message>, env: nat -> IterEnv, p: Policy)
    ensures PairsAfter(h, |h|, env, 0, p)
  {
  }

  lemma PairsKept(h: seq<Message>, from: nat, env: nat -> IterEnv, n: nat, p: Policy)
    requires PairsAfter(h, from, env, n, p)
    ensures PairsAfter(h, from, env, n + 1, p)
  {
    hide IsPairOf;
    forall i | from <= i < |h| - 1 && (i - from) % 2 == 0 ensures IsPairFrom(h[i], h[i + 1], env, n + 1, p) {
      assert IsPairFrom(h[i], h[i + 1], env, n, p);
    }
  }

  lemma PairsGrow(h: seq<Message>, from: nat, env: nat -> IterEnv, n: nat, p: Policy, h': seq<Message>)
    requires PairsAfter(h, from, env, n + 1, p) && |h'| == |h| + 2 && h <= h'
    requires IsPairOf(h'[|h|], h'[|h| + 1], env(n), p)
    ensures PairsAfter(h', from, env, n + 1, p)
  {
    hide IsPairOf;
    assert IsPairFrom(h'[|h|], h'[|h| + 1], env, n + 1, p);
    hide IsPairFrom;
    forall i | from <= i < |h'| - 1 && (i - from) % 2 == 0 ensures IsPairFrom(h'[i], h'[i + 1], env, n + 1, p) {
      if i < |h| - 1 {
        assert h'[i] == h[i] && h'[i + 1] == h[i + 1];
      } else {
        assert i == |h|;
      }
    }
  }

  // ---------------------------------------------------------------- what is persisted

  /** The stored messages that belong to tool batches. */
  function ToolPart(ms: seq<Message>): seq<Message> {
    if ms == [] then []
    else ToolPart(ms[..|ms| - 1]) + if IsPlain(Context.MessageToLLM(ms[|ms| - 1])) then [] else [ms[|ms| - 1]]
  }

  function AnswerCount(ms: seq<Message>): nat {
    if ms == [] then 0
    else AnswerCount(ms[..|ms| - 1]) + if IsPlain(Context.MessageToLLM(ms[|ms| - 1])) then 1 else 0
  }

  lemma StoredSnoc(ms: seq<Message>, m: Message)
    ensures ToolPart(ms + [m]) == ToolPart(ms) + if IsPlain(Context.MessageToLLM(m)) then [] else [m]
    ensures AnswerCount(ms + [m]) == AnswerCount(ms) + if IsPlain(Context.MessageToLLM(m)) then 1 else 0
  {
    assert (ms + [m])[..|ms|] == ms;
  }

  /** The turn stopped between storing a batch's calls and storing its results. */
  predicate Dangling(ms: seq<Message>) {
    ms != [] && IsCalls(Context.MessageToLLM(ms[|ms| - 1]))
  }

  /** The tool messages on top of the loaded history are those that are stored, but for dangling calls. */
  ghost predicate StoreOk(loaded: seq<Message>, s: TurnState) {
    && loaded <= s.history
    && ToolPart(s.stored) == s.history[|loaded|..] + (if Dangling(s.stored) then [s.stored[|s.stored| - 1]] else [])
    && (Dangling(s.stored) ==> s.end == CooldownCancelled || s.end == StoreFailed)
    && (s.end == CooldownCancelled ==> Dangling(s.stored))
    && s.verifications <= AnswerCount(s.stored)
       <= s.verifications + (if s.end == Answered || s.end == StoreFailed then 1 else 0)
    && (s.end == Answered ==> AnswerCount(s.stored) == s.verifications + 1)
  }

  lemma StoreAfterAnswer(loaded: seq<Message>, s: TurnState, e: IterEnv, text: string)
    requires StoreOk(loaded, s) && s.end == Running
    ensures StoreOk(loaded, AfterAnswer(s, e, text))
  {
    StoredSnoc(s.stored, StoredAnswer(text));
    hide ToolPart, AnswerCount;
  }

  lemma StorePair(loaded: seq<Message>, s: TurnState, m: Message, results: Message, s': TurnState)
    requires StoreOk(loaded, s) && s.end == s'.end == Running && s'.verifications == s.verifications
    requires IsCalls(Context.MessageToLLM(m)) && IsResults(Context.MessageToLLM(results))
    requires !IsCalls(Context.MessageToLLM(results))
    requires s'.history == s.history + [m, results] && s'.stored == s.stored + [m] + [results]
    ensures StoreOk(loaded, s')
  {
    hide ToolPart, AnswerCount, IsCalls, IsResults, Context.MessageToLLM;
    StoredSnoc(s.stored, m);
    StoredSnoc(s.stored + [m], results);
    assert s'.history[|loaded|..] == s.history[|loaded|..] + [m, results];
  }

  lemma StoreDangling(loaded: seq<Message>, s: TurnState, m: Message, s': TurnState)
    requires StoreOk(loaded, s) && s.end == Running && s'.verifications == s.verifications
    requires IsCalls(Context.MessageToLLM(m))
    requires s'.history == s.history && s'.stored == s.stored + [m]
    requires s'.end == CooldownCancelled || s'.end == StoreFailed
    ensures StoreOk(loaded, s')
  {
    hide ToolPart, AnswerCount, IsCalls, IsResults, Context.MessageToLLM;
    StoredSnoc(s.stored, m);
  }

  lemma StoreAfterCalls(loaded: seq<Message>, cfg: Config, s: TurnState, e: IterEnv, text: string, calls: seq<ToolCall>)
    requires StoreOk(loaded, s) && s.end == Running && calls != []
    ensures StoreOk(loaded, AfterCalls(cfg, s, e, text, calls))
  {
    CallsRecorded(cfg, s, e, text, calls);
    var s' := AfterCalls(cfg, s, e, text, calls);
    hide ToolPart, AnswerCount, AfterCalls, Results;
    if e.callsEncoded.Some? && e.callsSaved {
      var m := StoredCalls(e.callsEncoded.value, text, calls);
      if s'.end == Running {
        StorePair(loaded, s, m, StoredResults(e.resultsEncoded.value, Results(calls, e.run, cfg.policy)), s');
      } else {
        StoreDangling(loaded, s, m, s');
      }
    }
  }

  lemma StoreStep(loaded: seq<Message>, cfg: Config, s: TurnState, e: IterEnv)
    requires StoreOk(loaded, s) && s.end == Running
    ensures StoreOk(loaded, Step(cfg, s, e))
  {
    hide Context.Chosen, AfterCalls, AfterAnswer, CallsOf, TextOf, ToolPart, AnswerCount;
    var s1 := Asked(s, e, Context.Chosen(s.history, e.remaining));
    var reply := e.call.reply;
    if reply.Some? {
      var s2 := Emit(s1, Forwarded(reply.value)).(llmErrors := 0);
      if CallsOf(reply.value) != [] {
        StoreAfterCalls(loaded, cfg, s2, e, TextOf(reply.value), CallsOf(reply.value));
      }
      StoreAfterAnswer(loaded, s2, e, TextOf(reply.value));
    }
  }

  /**
   * Throughout every turn, the store gets exactly the tool messages of the in-memory history, in order,
   * followed by dangling calls only if the turn ended by a cancelled cooldown or a failed store; and it
   * gets one answer for each verification retry and one more if the turn is answered.
   */
  lemma {:induction false} StoreMirrorsHistory(cfg: Config, history: seq<Message>, env: nat -> IterEnv, n: nat)
    ensures StoreOk(history, StateAt(cfg, history, env, n))
  {
    hide Step;
    if n > 0 {
      StoreMirrorsHistory(cfg, history, env, n - 1);
      var s := StateAt(cfg, history, env, n - 1);
      if s.end == Running {
        StoreStep(history, cfg, s, env(n - 1));
      }
    }
  }

  /** Without the message in front of the last one, one place fewer gives the same end of a sequence. */
  lemma OnePlaceFewer(a: seq<Message>, c: Message, u: Message, limit: nat) returns (kept: seq<Message>)
    requires limit >= 2
    ensures Store.LastOf(a + [c] + [u], limit) == kept + [c] + [u]
    ensures Store.LastOf(a + [u], limit - 1) == kept + [u]
    ensures kept == if |a| <= limit - 2 then a else a[|a| - (limit - 2)..]
  {
    kept := if |a| <= limit - 2 then a else a[|a| - (limit - 2)..];
    var x, y := a + [c] + [u], a + [u];
    if |a| > limit - 2 {
      assert x[|x| - limit..] == kept + [c] + [u];
      assert y[|y| - (limit - 1)..] == kept + [u];
    }
  }

  /**
   * However a turn broke off between calls and results: when a later turn loads the last messages of the
   * session, behind a summary or not, the dangling calls take one place and are not sent. What is sent is what
   * would be sent without them from one place fewer; under a budget, a suffix of it.
   */
  lemma BrokenOffTurnHeals(
    cfg: Config, history: seq<Message>, env: nat -> IterEnv, n: nat,
    summary: seq<Message>, rows: seq<Message>, user: Message, limit: nat, remaining: Option<int>)
    returns (front: seq<ChatMessage>)
    requires Dangling(StateAt(cfg, history, env, n).stored) && user.contentType == TypeText && limit >= 2
    ensures var stored := StateAt(cfg, history, env, n).stored;
            && Context.Chosen(summary + Store.LastOf(rows + stored[..|stored| - 1] + [user], limit - 1), remaining)
               == front + Context.Chosen(summary + Store.LastOf(rows + stored + [user], limit), remaining)
            && (remaining.None? ==> front == [])
  {
    var stored := StateAt(cfg, history, env, n).stored;
    hide StateAt, Context.Unbudgeted, Context.Selected, Store.LastOf;
    var a, c := rows + stored[..|stored| - 1], stored[|stored| - 1];
    assert rows + stored + [user] == a + [c] + [user];
    var kept := OnePlaceFewer(a, c, user, limit);
    assert summary + (kept + [c] + [user]) == (summary + kept) + [c] + [user];
    assert summary + (kept + [user]) == (summary + kept) + [user];
    front := [];
    if remaining.Some? {
      front := Context.DanglingOnlyCosts(summary + kept, c, [user], remaining.value);
    } else {
      Context.DanglingLeavesNoTrace(summary + kept, c, [user]);
    }
  }

  lemma OnePlaceMore(s: seq<Message>, limit: nat)
    requires 0 < limit
    ensures |s| < limit ==> Store.LastOf(s, limit) == Store.LastOf(s, limit - 1)
    ensures limit <= |s| ==> Store.LastOf(s, limit) != [] && Store.LastOf(s, limit)[1..] == Store.LastOf(s, limit - 1)
  {
  }

  /** The message that a message put in front of the last one displaces from the end of a sequence, if any. */
  function Displaced(a: seq<Message>, limit: nat): seq<Message>
    requires limit >= 2
  {
    if |a| + 2 <= limit then [] else [a[|a| + 1 - limit]]
  }

  lemma LoadsDiffer(a: seq<Message>, c: Message, u: Message, limit: nat) returns (kept: seq<Message>)
    requires limit >= 2
    ensures Store.LastOf(a + [c] + [u], limit) == kept + [c] + [u]
    ensures Store.LastOf(a + [u], limit) == Displaced(a, limit) + (kept + [u])
    ensures kept == if |a| <= limit - 2 then a else a[|a| - (limit - 2)..]
  {
    kept := OnePlaceFewer(a, c, u, limit);
    var y := a + [u];
    if |a| > limit - 2 {
      var k := |a| - (limit - 2);
      assert y[|y| - limit..] == [a[k - 1]] + (a[k..] + [u]);
    } else {
      assert y == [] + (a + [u]);
    }
  }

  /**
   * A later turn sends exactly what it would send without the dangling calls, if and only if none of the
   * messages would be sent that the calls crowd out: the one they displace from the load, and those that no
   * longer fit the budget for their tokens.
   */
  lemma HealsFullyExactlyWhen(
    cfg: Config, history: seq<Message>, env: nat -> IterEnv, n: nat, rows: seq<Message>, user: Message, limit: nat,
    budget: int)
    returns (kept: seq<Message>)
    requires Dangling(StateAt(cfg, history, env, n).stored) && user.contentType == TypeText && limit >= 2
    ensures var stored := StateAt(cfg, history, env, n).stored;
            var calls := stored[|stored| - 1];
            var with, without := rows + stored + [user], rows + stored[..|stored| - 1] + [user];
            var out := Displaced(rows + stored[..|stored| - 1], limit);
            var start := |out| + Context.StartWithout(kept, calls, [user], budget);
            var loaded := Store.LastOf(without, limit);
            && Store.LastOf(with, limit) == kept + [calls] + [user] && loaded == out + (kept + [user])
            && Context.Start(loaded, budget) <= start <= |loaded|
            && (Context.Selected(Store.LastOf(with, limit), budget) == Context.Selected(loaded, budget) <==>
                Context.NoneKept(loaded, Context.Start(loaded, budget), start))
  {
    var stored := StateAt(cfg, history, env, n).stored;
    hide StateAt, Context.Selected, Context.Start, Context.StartWithout, Context.NoneKept, Store.LastOf;
    var a, c := rows + stored[..|stored| - 1], stored[|stored| - 1];
    assert rows + stored + [user] == a + [c] + [user];
    kept := LoadsDiffer(a, c, user, limit);
    Context.DisplacedExactlyWhen(Displaced(a, limit), kept, c, [user], budget);
  }

  /**
   * Without a budget a later turn sends exactly what it would send without the dangling calls, if and only if
   * the session fits into the load, or the message they displace would not be sent anyway.
   */
  lemma HealsWithoutBudgetExactlyWhen(
    cfg: Config, history: seq<Message>, env: nat -> IterEnv, n: nat, rows: seq<Message>, user: Message, limit: nat)
    requires Dangling(StateAt(cfg, history, env, n).stored) && user.contentType == TypeText && limit >= 2
    ensures var stored := StateAt(cfg, history, env, n).stored;
            var with, without := rows + stored + [user], rows + stored[..|stored| - 1] + [user];
            Context.Unbudgeted(Store.LastOf(with, limit)) == Context.Unbudgeted(Store.LastOf(without, limit)) <==>
            |with| <= limit || !Context.Kept(Context.Decoded(Store.LastOf(without, limit)), 0)
  {
    var stored := StateAt(cfg, history, env, n).stored;
    var front := BrokenOffTurnHeals(cfg, history, env, n, [], rows, user, limit, None);
    hide StateAt, Context.Unbudgeted;
    var with, without := rows + stored + [user], rows + stored[..|stored| - 1] + [user];
    var fewer, all, loaded := Store.LastOf(without, limit - 1), Store.LastOf(without, limit), Store.LastOf(with, limit);
    OnePlaceMore(without, limit);
    assert |with| == |without| + 1;
    hide *;
    assert [] + loaded == loaded && [] + fewer == fewer;
    if |with| > limit {
      Context.OldestIsMissedExactlyWhen(all);
    }
  }

  /** A recovery hint goes out with the next request and with no other; what is hinted next is independent of it. */
  lemma HintIsSentOnce(cfg: Config, s: TurnState, e: IterEnv)
    requires s.end == Running && Context.Chosen(s.history, e.remaining) != []
    ensures var s' := Step(cfg, s, e);
            && |s'.requests| == |s.requests| + 1 && s'.requests[|s.requests|].hint == s.hint
            && s'.hint == Step(cfg, s.(hint := NoHint), e).hint
  {
    hide Context.Chosen, AfterCalls, AfterFailure, AfterAnswer;
    var messages := Context.Chosen(s.history, e.remaining);
    var s1, s2 := Asked(s, e, messages), Asked(s.(hint := NoHint), e, messages);
    CountersReacted(cfg, s1, e);
    assert s1 == s2.(requests := s1.requests);
    RequestsDoNotMatter(cfg, s2, e, s1.requests);
  }

  lemma RequestsDoNotMatter(cfg: Config, s: TurnState, e: IterEnv, rs: seq<Request>)
    ensures Reacted(cfg, s.(requests := rs), e).hint == Reacted(cfg, s, e).hint
  {
    hide AfterCalls, CallsOf, TextOf, Forwarded, StreamFailed, StoredAnswer;
    if e.call.reply.Some? {
      var events := e.call.reply.value;
      var s2 := Emit(s, Forwarded(events)).(llmErrors := 0);
      RequestsAfterCalls(cfg, s2, e, TextOf(events), CallsOf(events), rs);
      assert Emit(s.(requests := rs), Forwarded(events)).(llmErrors := 0) == s2.(requests := rs);
    }
  }

  lemma RequestsAfterBatch(cfg: Config, s: TurnState, e: IterEnv, failed: seq<FailedTool>, rs: seq<Request>)
    ensures AfterBatch(cfg, s.(requests := rs), e, failed) == AfterBatch(cfg, s, e, failed).(requests := rs)
  {
    hide FirstApplicable;
  }

  lemma RequestsAfterCalls(cfg: Config, s: TurnState, e: IterEnv, text: string, calls: seq<ToolCall>, rs: seq<Request>)
    ensures AfterCalls(cfg, s.(requests := rs), e, text, calls).hint == AfterCalls(cfg, s, e, text, calls).hint
  {
    if e.callsEncoded.Some? {
      hide Failed, Results, StoredCalls, StoredResults, AfterBatch;
      var stored := StoredCalls(e.callsEncoded.value, text, calls);
      var s1 := Emit(s.(stored := s.stored + [stored]), [TurnToolActivity]);
      RequestsAfterBatch(cfg, s1, e, Failed(calls, e.run, cfg.policy, |calls|), rs);
      assert Emit(s.(requests := rs).(stored := s.stored + [stored]), [TurnToolActivity]) == s1.(requests := rs);
    }
  }
}
