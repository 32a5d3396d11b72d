/** The loops of the turn engine, proved against the state machine of module Turn. */
module TurnLoop {
  import opened Llm
  import opened ChatRetry
  import opened Recovery
  import opened Retry
  import opened ToolBatch
  import opened Turn
  import Context
  import Store
  import Compaction

  /** The rotator mirrors what the state records of it. */
  ghost predicate Mirrors(r: Rotator, cfg: Config, s: TurnState)
    reads r
  {
    && r.Valid() && r.strategies == cfg.strategies && r.maxAttempts == RETRY_MAX_ATTEMPTS
    && r.tried == s.tried && r.attempts == |s.used|
  }

  /** Decides what the next prompt is told about tools that failed: the hint of a strategy, or a summary. */
  method HandleReplans(cfg: Config, s0: TurnState, e: IterEnv, failed: seq<FailedTool>, rotator: Rotator?)
    returns (s: TurnState)
    requires s0.end == Running
    requires rotator == null ==> cfg.strategies == []
    requires rotator != null ==> Mirrors(rotator, cfg, s0)
    modifies rotator
    ensures s == AfterBatch(cfg, s0, e, failed)
    ensures rotator != null ==> Mirrors(rotator, cfg, s)
  {
    s := s0;
    if |failed| == 0 {
      return;
    }
    var next := None;
    if rotator != null {
      next := rotator.Next(e.reframe);
    }
    assert next == Dispensed(cfg, s, e);
    match next {
      case Some(st) =>
        var text := e.reframe(st).value;
        s := s.(hint := if text == "" then NoHint else StrategyHint(text),
                tried := s.tried + {st.name}, used := s.used + [st]);
        if e.cooldownCancelled {
          s := s.(end := CooldownCancelled);
          assert s.events + [] == s.events;
        }
      case None =>
        s := s.(hint := ReplanHint(failed));
    }
  }

  /** Runs the calls of one reply, decides what the next prompt is told, and records the pair. */
  method HandleCalls(
    cfg: Config, s0: TurnState, e: IterEnv, text: string, calls: seq<ToolCall>, rotator: Rotator?)
    returns (s: TurnState)
    requires s0.end == Running
    requires rotator == null ==> cfg.strategies == []
    requires rotator != null ==> Mirrors(rotator, cfg, s0)
    modifies rotator
    ensures s == AfterCalls(cfg, s0, e, text, calls)
    ensures rotator != null ==> Mirrors(rotator, cfg, s)
  {
    hide Results, Failed, AfterBatch, StoredCalls, StoredResults;
    s := s0;
    if e.callsEncoded.None? || !e.callsSaved {
      return Stop(s, StoreFailed, [TurnError]);
    }
    var callsMsg := StoredCalls(e.callsEncoded.value, text, calls);
    s := s.(stored := s.stored + [callsMsg]);
    var results, failed := RunToolCalls(calls, e.run, cfg.policy);
    s := s.(events := s.events + [TurnToolActivity]);
    s := HandleReplans(cfg, s, e, failed, rotator);
    if s.end != Running {
      return;
    }
    if e.resultsEncoded.None? || !e.resultsSaved {
      return Stop(s, StoreFailed, [TurnError]);
    }
    var resultsMsg := StoredResults(e.resultsEncoded.value, results);
    s := s.(stored := s.stored + [resultsMsg]);
    s := s.(history := s.history + [callsMsg, resultsMsg], iteration := s.iteration + 1,
            events := s.events + [TurnProgress]);
  }

  /** A failed model call: give up after the third in a row, otherwise tell the next prompt. */
  method HandleFailure(s0: TurnState, hint: Hint) returns (s: TurnState)
    ensures s == AfterFailure(s0, hint)
  {
    s := s0.(llmErrors := s0.llmErrors + 1);
    if s.llmErrors > LLM_MAX_ERRORS {
      return Stop(s, LlmFailed, [TurnError]);
    }
    s := s.(hint := hint, iteration := s.iteration + 1, events := s.events + [TurnProgress]);
  }

  /** Reads a stream: text, calls, and whether it broke off. */
  method Consume(events: seq<ChatEvent>)
    returns (text: string, calls: seq<ToolCall>, failed: bool, out: seq<TurnEvent>)
    ensures text == TextOf(events) && calls == CallsOf(events)
    ensures failed == StreamFailed(events) && out == Forwarded(events)
  {
    NoEvents();
    assert Forwarded([]) == [];
    hide TextOf, CallsOf, Forwarded;
    text, calls, failed, out := "", [], false, [];
    for n := 0 to |events|
      invariant text == TextOf(events[..n]) && calls == CallsOf(events[..n]) && out == Forwarded(events[..n])
      invariant failed <==> EventError in events[..n]
    {
      assert events[..n + 1] == events[..n] + [events[n]];
      EventSnoc(events[..n], events[n]);
      ForwardedSnoc(events[..n], events[n]);
      match events[n] {
        case EventToken(token) =>
          text := text + token;
          out := out + [TurnToken(token)];
        case EventToolCall(call) =>
          calls := calls + [call];
          out := out + [TurnToolCall(call)];
        case EventDone(_, _) =>
        case EventError =>
          failed := true;
      }
    }
    assert events[..|events|] == events;
  }

  lemma {:induction false} ForwardedSnoc(a: seq<ChatEvent>, ev: ChatEvent)
    ensures Forwarded(a + [ev]) == Forwarded(a) + ForwardOne(ev)
  {
    hide ForwardOne;
    var s := a + [ev];
    if a == [] {
      assert s == [ev] && s[1..] == [];
    } else {
      assert s[0] == a[0] && s[1..] == a[1..] + [ev];
      ForwardedSnoc(a[1..], ev);
    }
  }

  /** One reply, from the request that was settled to the end of the iteration. */
  method HandleReply(cfg: Config, s0: TurnState, e: IterEnv, rotator: Rotator?)
    returns (s: TurnState)
    requires s0.end == Running
    requires rotator == null ==> cfg.strategies == []
    requires rotator != null ==> Mirrors(rotator, cfg, s0)
    modifies rotator
    ensures s == Reacted(cfg, s0, e)
    ensures rotator != null ==> Mirrors(rotator, cfg, s)
  {
    var reply := e.call.reply;
    if reply.None? {
      s := HandleFailure(s0, CallFailedHint);
      return;
    }
    var text, calls, streamFailed, out := Consume(reply.value);
    s := s0.(events := s0.events + out);
    if streamFailed {
      s := HandleFailure(s, StreamFailedHint);
      return;
    }
    s := s.(llmErrors := 0);
    if |calls| > 0 {
      s := HandleCalls(cfg, s, e, text, calls, rotator);
      return;
    }
    if !e.answerSaved {
      return Stop(s, StoreFailed, [TurnError]);
    }
    s := s.(stored := s.stored + [StoredAnswer(text)]);
    if !e.sessionTouched {
      return Stop(s, StoreFailed, [TurnError]);
    }
    if e.verificationFailed && s.verifications + 1 <= VERIFICATION_MAX_ATTEMPTS {
      s := s.(verifications := s.verifications + 1, hint := VerificationHint,
              iteration := s.iteration + 1, events := s.events + [TurnProgress]);
      return;
    }
    s := Stop(s, Answered, [TurnDone]);
  }

  /** An iteration's environment together with the provider its model call goes to. */
  datatype RawEnv = RawEnv(provider: Provider, rest: IterEnv)

  function Resolve(raw: RawEnv): IterEnv {
    raw.rest.(call := Chat(raw.provider, 0))
  }

  /** One pass through the loop: select, ask, react. */
  method RunIteration(cfg: Config, s0: TurnState, raw: RawEnv, rotator: Rotator?) returns (s: TurnState)
    requires s0.end == Running
    requires rotator == null ==> cfg.strategies == []
    requires rotator != null ==> Mirrors(rotator, cfg, s0)
    modifies rotator
    ensures s == Step(cfg, s0, Resolve(raw))
    ensures rotator != null ==> Mirrors(rotator, cfg, s)
  {
    hide Context.Selected, Context.Unbudgeted, Reacted, Chat;
    var messages;
    if raw.rest.remaining.Some? {
      messages := Context.SelectHistory(s0.history, raw.rest.remaining.value);
    } else {
      messages := Context.BuildContext(s0.history);
    }
    s := s0.(hint := NoHint);
    if |messages| == 0 {
      return Stop(s, NoMessages, [TurnError]);
    }
    var reply, calls, delays := ChatWithRetry(raw.provider);
    var e := raw.rest.(call := ChatRun(reply, calls, delays));
    s := s.(requests := s.requests + [Request(messages, s0.hint)],
            providerCalls := s.providerCalls + calls,
            replies := s.replies + (if reply.Some? then 1 else 0), events := s.events + Notices(|delays|));
    s := HandleReply(cfg, s, e, rotator);
  }

  function Resolved(raw: nat -> RawEnv): nat -> IterEnv {
    (n: nat) => Resolve(raw(n))
  }

  /** The turn after its history has been loaded; `order` is the order in which strategies are tried. */
  method RunAgenticLoop(
    maxToolIter: nat, policy: Policy, strategies: seq<Strategy>, history: seq<Message>, raw: nat -> RawEnv)
    returns (final: TurnState, order: seq<Strategy>)
    ensures Descending(order) && multiset(order) == multiset(strategies)
    ensures final == Final(Config(maxToolIter, policy, order), history, Resolved(raw))
  {
    hide Step;
    order := [];
    var rotator: Rotator? := null;
    if |strategies| > 0 {
      rotator := new Rotator(strategies, RETRY_MAX_ATTEMPTS);
      order := rotator.strategies;
    }
    var cfg := Config(maxToolIter, policy, order);
    final := Start(history);
    while final.iteration < maxToolIter
      invariant final.iteration <= maxToolIter && final.end == Running
      invariant final == StateAt(cfg, history, Resolved(raw), final.iteration)
      invariant rotator != null ==> fresh(rotator) && Mirrors(rotator, cfg, final)
      invariant rotator == null ==> cfg.strategies == []
    {
      ghost var n := final.iteration;
      final := RunIteration(cfg, final, raw(final.iteration), rotator);
      assert final == StateAt(cfg, history, Resolved(raw), n + 1);
      if final.end != Running {
        EndedStays(cfg, history, Resolved(raw), n + 1, maxToolIter);
        return;
      }
      RunKeeps(cfg, history, Resolved(raw), n + 1);
    }
    final := Stop(final, OutOfIterations, [TurnDone]);
  }

  /**
   * A whole turn. The user message is stored, or the caller gets an error; the session is compacted and its
   * end loaded, with the user message last; and the loop runs over it.
   */
  method RunTurn(
    store: Store.Store, userMsg: Message, saved: bool, sessionFound: bool, compaction: Compaction.Env, loaded: bool,
    maxToolIter: nat, policy: Policy, strategies: seq<Strategy>, raw: nat -> RawEnv)
    returns (final: Option<TurnState>, order: seq<Strategy>, history: seq<Message>)
    requires Compaction.NewIds(store.rows, userMsg, compaction)
    modifies store
    ensures Descending(order) && multiset(order) == multiset(strategies)
    ensures final.Some? <==> saved
    ensures final.Some? && sessionFound && loaded ==>
              && history == Store.LastOf(Store.Ordered(store.rows, userMsg.session), 50)
              && final.value == Final(Config(maxToolIter, policy, order), history, Resolved(raw))
    ensures final.Some? && sessionFound && loaded && old(Compaction.Undisturbed(store.rows, userMsg, compaction)) ==>
              history != [] && history[|history| - 1] == Store.Stored(userMsg)
    ensures final.Some? && !(sessionFound && loaded) ==> final.value == Stop(Start([]), StoreFailed, [TurnError])
    ensures final.Some? ==> Sound(final.value, maxToolIter)
  {
    hide *;
    history := [];
    var outcome, recent := Compaction.BeginTurn(store, userMsg, saved, sessionFound, compaction, loaded);
    if !saved {
      order := SortByPriority(strategies);
      return None, order, [];
    }
    if recent.None? {
      NoTurn(maxToolIter);
      order := SortByPriority(strategies);
      return Some(Stop(Start([]), StoreFailed, [TurnError])), order, [];
    }
    history := recent.value;
    if old(Compaction.Undisturbed(store.rows, userMsg, compaction)) {
      LoadIsTail(history, Store.Ordered(store.rows, userMsg.session), userMsg, outcome.value);
    }
    var end;
    end, order := RunAgenticLoop(maxToolIter, policy, strategies, history, raw);
    FinalIsSound(Config(maxToolIter, policy, order), history, Resolved(raw));
    final := Some(end);
  }

  lemma LoadIsTail(h: seq<Message>, all: seq<Message>, userMsg: Message, outcome: Compaction.Outcome)
    requires Compaction.LoadsTurn(h, all, userMsg, outcome)
    ensures h == Store.LastOf(all, 50)
    ensures h != [] && h[|h| - 1] == Store.Stored(userMsg)
  {
  }

  /** What holds of every turn that started. */
  ghost predicate Sound(s: TurnState, maxToolIter: nat) {
    && s.end != Running && EventsOk(s)
    && (forall r :: r in s.requests ==> r.messages != [] && WellPaired(r.messages))
    && s.providerCalls <= (LLM_MAX_RETRIES + 1) * maxToolIter
  }

  lemma NoTurn(maxToolIter: nat)
    ensures Sound(Stop(Start([]), StoreFailed, [TurnError]), maxToolIter)
  {
  }

  lemma FinalIsSound(cfg: Config, history: seq<Message>, env: nat -> IterEnv)
    ensures Sound(Final(cfg, history, env), cfg.maxToolIter)
  {
    hide Final, EventsOk, BreaksOffAt;
    TurnSafety(cfg, history, env);
    FinalEvents(cfg, history, env);
  }

  // ---------------------------------------------------------------- subagents

  /** What one iteration of a subagent appends to its conversation. */
  function Appended(e: IterEnv): seq<ChatMessage> {
    if e.call.reply.None? then [ChatMessage(User, "[System: LLM call failed]", [], [])]
    else if ModelFails(e) then [ChatMessage(User, "[System: Stream interrupted]", [], [])]
    else
      var events := e.call.reply.value;
      var calls := CallsOf(events);
      if calls == [] then []
      else [ChatMessage(Assistant, TextOf(events), calls, []), ChatMessage(User, "", [], FirstResults(calls, e.run))]
  }

  /** A subagent runs each call once. */
  function FirstResults(calls: seq<ToolCall>, run: Runs): (r: seq<ToolResult>)
    ensures |r| == |calls|
  {
    seq(|calls|, i requires 0 <= i < |calls| => Slot(calls[i], [run(i, 0)]))
  }

  /** The conversation a subagent sends at iteration n. */
  function Conversation(prompt: string, env: nat -> IterEnv, n: nat): seq<ChatMessage> {
    if n == 0 then [ChatMessage(User, prompt, [], [])]
    else Conversation(prompt, env, n - 1) + Appended(env(n - 1))
  }

  /** What an attempt at a call that is made once reports, or the zero value if the tool never ran. */
  predicate ReportsOnce(r: ToolResult, call: ToolCall, a: Attempt) {
    if a.Ran? then r == ToolResult(call.id, a.content, a.isError, a.images, a.kind) else r == UNSET
  }

  /**
   * After a failing call the subagent is told so; an answer adds nothing; and calls add the text with all of them,
   * followed by one result per call, in order.
   */
  lemma AppendedExactly(e: IterEnv)
    ensures var more := Appended(e);
            if ModelFails(e) then
              && |more| == 1 && IsPlain(more[0]) && more[0].role == User
              && more[0].content == if e.call.reply.None? then "[System: LLM call failed]"
                                    else "[System: Stream interrupted]"
            else if CallsOf(e.call.reply.value) == [] then more == []
            else
              var calls := CallsOf(e.call.reply.value);
              && |more| == 2 && more[0] == ChatMessage(Assistant, TextOf(e.call.reply.value), calls, [])
              && more[1].role == User && more[1].content == "" && more[1].toolCalls == []
              && |more[1].toolResults| == |calls|
              && forall i :: 0 <= i < |calls| ==> ReportsOnce(more[1].toolResults[i], calls[i], e.run(i, 0))
  {
    if !ModelFails(e) {
      var calls := CallsOf(e.call.reply.value);
      forall i | 0 <= i < |calls| ensures ReportsOnce(Slot(calls[i], [e.run(i, 0)]), calls[i], e.run(i, 0)) {
        SlotId(calls[i], [e.run(i, 0)]);
        if e.run(i, 0).Ran? {
          SlotIsLastRun(calls[i], [e.run(i, 0)], 0);
        }
      }
      hide Slot, CallsOf, TextOf;
    }
  }

  lemma ConversationUnfolds(prompt: string, env: nat -> IterEnv, n: nat)
    ensures Conversation(prompt, env, 0) == [ChatMessage(User, prompt, [], [])]
    ensures Conversation(prompt, env, n + 1) == Conversation(prompt, env, n) + Appended(env(n))
  {
  }

  /** A subagent's conversation is well paired at every iteration. */
  lemma {:induction false} ConversationPaired(prompt: string, env: nat -> IterEnv, n: nat)
    ensures WellPaired(Conversation(prompt, env, n)) && Conversation(prompt, env, n) != []
  {
    hide Appended;
    if n > 0 {
      ConversationPaired(prompt, env, n - 1);
      AppendedPaired(env(n - 1));
      AppendPaired(Conversation(prompt, env, n - 1), Appended(env(n - 1)));
    }
  }

  lemma AppendedPaired(e: IterEnv)
    ensures WellPaired(Appended(e))
  {
  }

  lemma AppendPaired(a: seq<ChatMessage>, b: seq<ChatMessage>)
    requires WellPaired(a) && WellPaired(b)
    ensures WellPaired(a + b)
  {
    var s := a + b;
    forall i | 0 <= i < |s| && IsCalls(s[i]) ensures i + 1 < |s| && IsResults(s[i + 1]) {
      if i < |a| {
        assert IsCalls(a[i]);
      } else {
        assert IsCalls(b[i - |a|]);
      }
    }
    forall i | 0 <= i < |s| && IsResults(s[i]) ensures 0 < i && IsCalls(s[i - 1]) {
      if i < |a| {
        assert IsResults(a[i]);
      } else {
        assert IsResults(b[i - |a|]);
      }
    }
  }

  /** The final answer, when the model calls no tool. */
  function SubAnswer(e: IterEnv): Option<string> {
    if !ModelFails(e) && CallsOf(e.call.reply.value) == [] then Some(TextOf(e.call.reply.value)) else None
  }

  /** One iteration of a subagent: ask, and either answer or extend the conversation. */
  method SubIteration(messages: seq<ChatMessage>, raw: RawEnv)
    returns (failed: bool, answer: Option<string>, next: seq<ChatMessage>, calls: nat)
    ensures var e := Resolve(raw);
            failed == ModelFails(e) && answer == SubAnswer(e) && next == messages + Appended(e) && calls == e.call.calls
    ensures calls <= 4
  {
    var reply;
    var delays;
    reply, calls, delays := ChatWithRetry(raw.provider);
    answer := None;
    if reply.None? {
      return true, None, messages + [ChatMessage(User, "[System: LLM call failed]", [], [])], calls;
    }
    var text, toolCalls, broken, forwarded := Consume(reply.value);
    if broken {
      return true, None, messages + [ChatMessage(User, "[System: Stream interrupted]", [], [])], calls;
    }
    if |toolCalls| == 0 {
      assert messages + [] == messages;
      return false, Some(text), messages, calls;
    }
    var results, _ := RunBatch(toolCalls, raw.rest.run);
    assert results == FirstResults(toolCalls, raw.rest.run);
    next := messages + [ChatMessage(Assistant, text, toolCalls, []), ChatMessage(User, "", [], results)];
    failed := false;
  }

  /** How often the first n iterations call the provider. */
  function ProviderCalls(env: nat -> IterEnv, n: nat): nat {
    if n == 0 then 0 else ProviderCalls(env, n - 1) + env(n - 1).call.calls
  }

  datatype SubResult = Refusal | Failure | Answer(text: string) | Exhausted

  /**
   * The request of iteration n: the conversation as it is then, well paired and not empty; the iteration before gave
   * no answer, and fewer than three failed in a row.
   */
  ghost predicate IsSubRequest(prompt: string, env: nat -> IterEnv, request: seq<ChatMessage>, n: nat) {
    && request == Conversation(prompt, env, n) && WellPaired(request) && request != []
    && FailureStreak(env, n) <= 2 && (n > 0 ==> SubAnswer(env(n - 1)).None?)
  }

  /** The requests of a subagent, and the provider calls they took, at most four each. */
  ghost predicate SubRan(prompt: string, env: nat -> IterEnv, requests: seq<seq<ChatMessage>>, providerCalls: nat) {
    && (forall n :: 0 <= n < |requests| ==> IsSubRequest(prompt, env, requests[n], n))
    && providerCalls == ProviderCalls(env, |requests|) <= 4 * |requests|
  }

  lemma SubRanNext(
    prompt: string, env: nat -> IterEnv, requests: seq<seq<ChatMessage>>, providerCalls: nat, calls: nat)
    requires SubRan(prompt, env, requests, providerCalls) && FailureStreak(env, |requests|) <= 2
    requires |requests| > 0 ==> SubAnswer(env(|requests| - 1)).None?
    requires calls == env(|requests|).call.calls <= 4
    ensures SubRan(prompt, env, requests + [Conversation(prompt, env, |requests|)], providerCalls + calls)
  {
    var n, request := |requests|, Conversation(prompt, env, |requests|);
    ConversationPaired(prompt, env, n);
    SubNext(env, n);
    hide Conversation, WellPaired, SubAnswer, ProviderCalls, FailureStreak;
    assert IsSubRequest(prompt, env, request, n);
    hide IsSubRequest;
  }

  lemma SubNext(env: nat -> IterEnv, n: nat)
    ensures ProviderCalls(env, n + 1) == ProviderCalls(env, n) + env(n).call.calls
    ensures FailureStreak(env, n + 1) == if ModelFails(env(n)) then FailureStreak(env, n) + 1 else 0
  {
    hide ModelFails;
  }

  lemma SubStarts(prompt: string, env: nat -> IterEnv)
    ensures Continues(prompt, env, [], 0) && SubRan(prompt, env, [], 0) && FailureStreak(env, 0) == 0
    ensures Conversation(prompt, env, 0) == [ChatMessage(User, prompt, [], [])]
  {
  }

  /** The first thing a subagent is asked is its prompt. */
  lemma FirstRequest(prompt: string, env: nat -> IterEnv, requests: seq<seq<ChatMessage>>, providerCalls: nat)
    requires SubRan(prompt, env, requests, providerCalls)
    ensures |requests| > 0 ==> requests[0] == [ChatMessage(User, prompt, [], [])]
  {
    hide WellPaired, SubAnswer, ProviderCalls;
    if |requests| > 0 {
      assert IsSubRequest(prompt, env, requests[0], 0);
    }
  }

  /** The model answers without calling a tool. */
  predicate AnswersWith(e: IterEnv, text: string) {
    !ModelFails(e) && CallsOf(e.call.reply.value) == [] && text == TextOf(e.call.reply.value)
  }

  /** What the result says about the last iteration. */
  ghost predicate SubEnds(result: SubResult, env: nat -> IterEnv, requests: nat, maxToolIter: nat) {
    match result
    case Refusal => requests == 0
    case Failure => requests > 0 && FailureStreak(env, requests) == 3
    case Answer(text) => requests > 0 && AnswersWith(env(requests - 1), text)
    case Exhausted =>
      && requests == maxToolIter && FailureStreak(env, maxToolIter) <= 2
      && (maxToolIter > 0 ==> SubAnswer(env(maxToolIter - 1)).None?)
  }

  lemma SubAnswered(env: nat -> IterEnv, n: nat, text: string, maxToolIter: nat)
    requires SubAnswer(env(n)) == Some(text)
    ensures SubEnds(Answer(text), env, n + 1, maxToolIter)
  {
    hide CallsOf, TextOf, StreamFailed;
  }

  lemma SubFailed(env: nat -> IterEnv, n: nat, maxToolIter: nat)
    requires FailureStreak(env, n + 1) == 3
    ensures SubEnds(Failure, env, n + 1, maxToolIter)
  {
    hide FailureStreak;
  }

  lemma SubExhausted(prompt: string, env: nat -> IterEnv, requests: seq<seq<ChatMessage>>, providerCalls: nat)
    requires Continues(prompt, env, requests, providerCalls)
    ensures SubEnds(Exhausted, env, |requests|, |requests|) && SubRan(prompt, env, requests, providerCalls)
  {
    hide FailureStreak, SubAnswer, SubRan;
  }

  /** The last iteration neither answered nor was the third failure in a row, so the subagent goes on. */
  ghost predicate Continues(
    prompt: string, env: nat -> IterEnv, requests: seq<seq<ChatMessage>>, providerCalls: nat)
  {
    && SubRan(prompt, env, requests, providerCalls) && FailureStreak(env, |requests|) <= 2
    && (|requests| > 0 ==> SubAnswer(env(|requests| - 1)).None?)
  }

  /** One iteration more. */
  lemma SubPass(
    prompt: string, raw: nat -> RawEnv, requests: seq<seq<ChatMessage>>, providerCalls: nat, calls: nat)
    requires Continues(prompt, Resolved(raw), requests, providerCalls)
    requires calls == Resolve(raw(|requests|)).call.calls <= 4
    ensures var env, n, e := Resolved(raw), |requests|, Resolve(raw(|requests|));
            var requests' := requests + [Conversation(prompt, env, n)];
            && env(n) == e && Conversation(prompt, env, n + 1) == Conversation(prompt, env, n) + Appended(e)
            && SubRan(prompt, env, requests', providerCalls + calls)
            && FailureStreak(env, n + 1) == (if ModelFails(e) then FailureStreak(env, n) + 1 else 0)
            && FailureStreak(env, n) <= 2
            && (FailureStreak(env, n + 1) <= 2 && SubAnswer(e).None? ==>
                  Continues(prompt, env, requests', providerCalls + calls))
  {
    var env, n := Resolved(raw), |requests|;
    assert env(n) == Resolve(raw(n));
    hide Conversation, SubAnswer, ModelFails, FailureStreak, Resolve, Resolved, SubRan, Appended;
    ConversationUnfolds(prompt, env, n);
    SubRanNext(prompt, env, requests, providerCalls, calls);
    SubNext(env, n);
  }

  lemma SubRefused(env: nat -> IterEnv, maxToolIter: nat)
    ensures SubEnds(Refusal, env, 0, maxToolIter)
  {
  }

  /** A subagent: refused beyond the depth limit, otherwise asked until it answers, fails or runs out of iterations. */
  method RunSubturn(depth: nat, prompt: string, maxToolIter: nat, raw: nat -> RawEnv)
    returns (result: SubResult, requests: seq<seq<ChatMessage>>, providerCalls: nat)
    ensures result == Refusal <==> depth >= 3
    ensures |requests| <= maxToolIter && SubRan(prompt, Resolved(raw), requests, providerCalls)
    ensures SubEnds(result, Resolved(raw), |requests|, maxToolIter)
  {
    assert MAX_SUBAGENT_DEPTH == 3 && LLM_MAX_ERRORS == 2;
    hide *;
    ghost var env := Resolved(raw);
    SubStarts(prompt, env);
    requests, providerCalls := [], 0;
    if depth >= MAX_SUBAGENT_DEPTH {
      SubRefused(env, maxToolIter);
      return Refusal, requests, providerCalls;
    }
    var messages := [ChatMessage(User, prompt, [], [])];
    var llmErrors: nat := 0;
    for iteration := 0 to maxToolIter
      invariant |requests| == iteration && Continues(prompt, env, requests, providerCalls)
      invariant messages == Conversation(prompt, env, iteration) && llmErrors == FailureStreak(env, iteration)
    {
      var failed, answer, next, calls := SubIteration(messages, raw(iteration));
      SubPass(prompt, raw, requests, providerCalls, calls);
      requests := requests + [messages];
      providerCalls := providerCalls + calls;
      llmErrors := if failed then llmErrors + 1 else 0;
      if llmErrors > LLM_MAX_ERRORS {
        SubFailed(env, iteration, maxToolIter);
        return Failure, requests, providerCalls;
      }
      if answer.Some? {
        SubAnswered(env, iteration, answer.value, maxToolIter);
        return Answer(answer.value), requests, providerCalls;
      }
      messages := next;
    }
    SubExhausted(prompt, env, requests, providerCalls);
    result := Exhausted;
  }
}
