/**
 * What a turn leaves behind and what its listener is shown, message by message: over every environment the
 * store, the in-memory history, the emitted events, the counters and the hints are exactly those that the
 * replies, the tools and the database of the iterations reached so far determine.
 */
module Transcript {
  import opened Llm
  import opened ToolBatch
  import opened Retry
  import opened Turn
  import ChatRetry
  import Context
  import Recovery
  import TurnLoop

  // ---------------------------------------------------------------- what is stored is what is read back

  /** Encoded calls are read back with the text and the calls they were made from. */
  lemma CallsDecode(raw: string, text: string, calls: seq<ToolCall>)
    ensures Context.MessageToLLM(StoredCalls(raw, text, calls)) == ChatMessage(Assistant, text, calls, [])
  {
  }

  /** Encoded results are read back as they were, but for the kinds of their errors. */
  lemma ResultsDecode(raw: string, results: seq<ToolResult>)
    ensures Context.MessageToLLM(StoredResults(raw, results)) == ChatMessage(User, "", [], WithoutKinds(results))
  {
  }

  /** A text is read back as it is, whoever wrote it. */
  lemma TextDecodes(m: Message)
    requires m.contentType == TypeText
    ensures Context.MessageToLLM(m) == ChatMessage(m.role, m.content.raw, [], [])
  {
  }

  lemma DecodedSnoc(ms: seq<Message>, m: Message)
    ensures Context.Decoded(ms + [m]) == Context.Decoded(ms) + [Context.MessageToLLM(m)]
  {
    hide Context.MessageToLLM;
  }

  // ---------------------------------------------------------------- the session

  /** The turn reaches iteration m and has something to send there. */
  predicate Asks(cfg: Config, history: seq<Message>, env: nat -> IterEnv, m: nat) {
    var s := StateAt(cfg, history, env, m);
    s.end == Running && Context.Chosen(s.history, env(m).remaining) != []
  }

  /** The results of a batch get into the session: no cancelled cooldown and no failing store comes between. */
  ghost predicate Completes(cfg: Config, s: TurnState, e: IterEnv) {
    !BreaksOff(cfg, s, e) && e.resultsEncoded.Some? && e.resultsSaved
  }

  /** What a reply of the model adds to the session. */
  ghost function Adds(cfg: Config, s: TurnState, e: IterEnv): seq<ChatMessage>
    requires !ModelFails(e)
  {
    var text, calls := TextOf(e.call.reply.value), CallsOf(e.call.reply.value);
    if calls == [] then if e.answerSaved then [ChatMessage(Assistant, text, [], [])] else []
    else if e.callsEncoded.None? || !e.callsSaved then []
    else if Completes(cfg, s, e) then
      [ChatMessage(Assistant, text, calls, []),
       ChatMessage(User, "", [], WithoutKinds(Results(calls, e.run, cfg.policy)))]
    else [ChatMessage(Assistant, text, calls, [])]
  }

  /** What the first n iterations add to the session. */
  ghost function Added(cfg: Config, history: seq<Message>, env: nat -> IterEnv, n: nat): seq<ChatMessage> {
    if n == 0 then []
    else
      Added(cfg, history, env, n - 1)
      + if Asks(cfg, history, env, n - 1) && !ModelFails(env(n - 1))
        then Adds(cfg, StateAt(cfg, history, env, n - 1), env(n - 1)) else []
  }

  /** The calls of a reply: what gets into store and history. */
  lemma CallsAdd(cfg: Config, s: TurnState, s0: TurnState, e: IterEnv)
    requires s.end == Running && !ModelFails(e) && CallsOf(e.call.reply.value) != []
    requires Context.Chosen(s0.history, e.remaining) != [] && s.used == s0.used && s.tried == s0.tried
    ensures var text, calls := TextOf(e.call.reply.value), CallsOf(e.call.reply.value);
            var s' := AfterCalls(cfg, s, e, text, calls);
            && Context.Decoded(s'.stored) == Context.Decoded(s.stored) + Adds(cfg, s0, e)
            && Context.Decoded(s'.history)
               == Context.Decoded(s.history) + (if |Adds(cfg, s0, e)| == 2 then Adds(cfg, s0, e) else [])
            && (s'.end == Running <==> |Adds(cfg, s0, e)| == 2)
  {
    var text, calls := TextOf(e.call.reply.value), CallsOf(e.call.reply.value);
    CallsRecorded(cfg, s, e, text, calls);
    BreaksOffAfterCalls(cfg, s, e, text, calls);
    CallsRunOn(cfg, s, e, text, calls);
    var s' := AfterCalls(cfg, s, e, text, calls);
    hide AfterCalls, TextOf, CallsOf, Results, Context.Decoded, Context.Chosen, Context.MessageToLLM, ToolBatch.Failed,
         StoredCalls, StoredResults, Candidate;
    if e.callsEncoded.Some? && e.callsSaved {
      CallsDecode(e.callsEncoded.value, text, calls);
      var m := StoredCalls(e.callsEncoded.value, text, calls);
      DecodedSnoc(s.stored, m);
      if s'.end == Running {
        var results := Results(calls, e.run, cfg.policy);
        var r := StoredResults(e.resultsEncoded.value, results);
        ResultsDecode(e.resultsEncoded.value, results);
        DecodedSnoc(s.stored + [m], r);
        DecodedSnoc(s.history, m);
        DecodedSnoc(s.history + [m], r);
        assert s.history + [m, r] == s.history + [m] + [r];
      }
    }
  }

  /** After its calls a turn goes on unless the batch breaks off or something cannot be stored. */
  lemma CallsRunOn(cfg: Config, s: TurnState, e: IterEnv, text: string, calls: seq<ToolCall>)
    requires s.end == Running
    ensures var s' := AfterCalls(cfg, s, e, text, calls);
            s'.end == Running <==>
            && e.callsEncoded.Some? && e.callsSaved && s'.end != CooldownCancelled
            && e.resultsEncoded.Some? && e.resultsSaved
  {
    hide ToolBatch.Failed, Results, FirstApplicable, StoredCalls, StoredResults;
  }

  /** What one iteration adds to store and history. */
  lemma StepAdds(cfg: Config, s: TurnState, e: IterEnv)
    requires s.end == Running
    ensures var s' := Step(cfg, s, e);
            var added := if Context.Chosen(s.history, e.remaining) != [] && !ModelFails(e) then Adds(cfg, s, e) else [];
            && Context.Decoded(s'.stored) == Context.Decoded(s.stored) + added
            && Context.Decoded(s'.history) == Context.Decoded(s.history) + (if |added| == 2 then added else [])
  {
    var messages := Context.Chosen(s.history, e.remaining);
    hide Context.Chosen, AfterCalls, CallsOf, TextOf, Results, Completes, Context.Decoded, Forwarded;
    if messages != [] && !ModelFails(e) {
      var text, calls := TextOf(e.call.reply.value), CallsOf(e.call.reply.value);
      var s1 := Emit(Asked(s, e, messages), Forwarded(e.call.reply.value)).(llmErrors := 0);
      if calls != [] {
        CallsAdd(cfg, s1, s, e);
      } else {
        assert Step(cfg, s, e) == AfterAnswer(s1, e, text);
        AnswerAdds(s1, e, text);
      }
    }
  }

  lemma AnswerAdds(s: TurnState, e: IterEnv, text: string)
    ensures AfterAnswer(s, e, text).history == s.history
    ensures Context.Decoded(AfterAnswer(s, e, text).stored)
            == Context.Decoded(s.stored) + (if e.answerSaved then [ChatMessage(Assistant, text, [], [])] else [])
  {
    TextDecodes(StoredAnswer(text));
    DecodedSnoc(s.stored, StoredAnswer(text));
    hide Context.Decoded;
  }

  /**
   * Throughout every turn, what it has stored so far reads back as exactly this: for each iteration whose model
   * call succeeds, the answer if it calls no tool and is saved, or the text with its calls if they are saved, and
   * the results behind them if the batch completes. The history grows by the completed pairs, and by these only.
   */
  lemma {:induction false} StoreIsTranscript(cfg: Config, history: seq<Message>, env: nat -> IterEnv, n: nat)
    ensures Context.Decoded(StateAt(cfg, history, env, n).stored) == Added(cfg, history, env, n)
    ensures Context.Decoded(StateAt(cfg, history, env, n).history)
            == Context.Decoded(history) + Pairs(cfg, history, env, n)
  {
    hide Step, Adds, Context.Chosen, ModelFails;
    if n > 0 {
      StoreIsTranscript(cfg, history, env, n - 1);
      var s := StateAt(cfg, history, env, n - 1);
      if s.end == Running {
        StepAdds(cfg, s, env(n - 1));
      }
    }
  }

  /** The pairs of calls and results among what the first n iterations add. */
  ghost function Pairs(cfg: Config, history: seq<Message>, env: nat -> IterEnv, n: nat): seq<ChatMessage> {
    if n == 0 then []
    else
      Pairs(cfg, history, env, n - 1)
      + if Asks(cfg, history, env, n - 1) && !ModelFails(env(n - 1))
           && |Adds(cfg, StateAt(cfg, history, env, n - 1), env(n - 1))| == 2
        then Adds(cfg, StateAt(cfg, history, env, n - 1), env(n - 1)) else []
  }

  /** The turn fails over the store at an iteration exactly when something that it has to store there is not stored. */
  lemma StoreFailsExactlyWhen(cfg: Config, history: seq<Message>, env: nat -> IterEnv, n: nat)
    requires Asks(cfg, history, env, n)
    ensures var s, e := StateAt(cfg, history, env, n), env(n);
            StateAt(cfg, history, env, n + 1).end == StoreFailed <==>
            && !ModelFails(e)
            && if CallsOf(e.call.reply.value) == [] then !e.answerSaved || !e.sessionTouched
               else || e.callsEncoded.None? || !e.callsSaved
                    || (!BreaksOff(cfg, s, e) && (e.resultsEncoded.None? || !e.resultsSaved))
  {
    var s, e := StateAt(cfg, history, env, n), env(n);
    hide Context.Chosen, AfterCalls, CallsOf, TextOf, Forwarded, BreaksOff;
    BreaksOffStep(cfg, s, e);
    if !ModelFails(e) && CallsOf(e.call.reply.value) != [] {
      var events := e.call.reply.value;
      var s1 := Emit(Asked(s, e, Context.Chosen(s.history, e.remaining)), Forwarded(events)).(llmErrors := 0);
      CallsRecorded(cfg, s1, e, TextOf(events), CallsOf(events));
      CallsRunOn(cfg, s1, e, TextOf(events), CallsOf(events));
      assert Step(cfg, s, e) == AfterCalls(cfg, s1, e, TextOf(events), CallsOf(events));
      NotSaved(cfg, s, e);
    }
  }

  lemma NotSaved(cfg: Config, s: TurnState, e: IterEnv)
    ensures BreaksOff(cfg, s, e) ==> e.callsEncoded.Some? && e.callsSaved
  {
  }

  // ---------------------------------------------------------------- answers

  /** The model answers at iteration m without calling a tool, and the answer is saved. */
  predicate AnswersAt(cfg: Config, history: seq<Message>, env: nat -> IterEnv, m: nat) {
    Asks(cfg, history, env, m) && !ModelFails(env(m)) && CallsOf(env(m).call.reply.value) == [] && env(m).answerSaved
  }

  /** The answers of the first n iterations. */
  function AnswersUpTo(cfg: Config, history: seq<Message>, env: nat -> IterEnv, n: nat): seq<ChatMessage> {
    if n == 0 then []
    else
      AnswersUpTo(cfg, history, env, n - 1)
      + if AnswersAt(cfg, history, env, n - 1)
        then [ChatMessage(Assistant, TextOf(env(n - 1).call.reply.value), [], [])] else []
  }

  function PlainsOf(msgs: seq<ChatMessage>): seq<ChatMessage> {
    if msgs == [] then []
    else PlainsOf(msgs[..|msgs| - 1]) + if IsPlain(msgs[|msgs| - 1]) then [msgs[|msgs| - 1]] else []
  }

  lemma PlainsSnoc(msgs: seq<ChatMessage>, m: ChatMessage)
    ensures PlainsOf(msgs + [m]) == PlainsOf(msgs) + if IsPlain(m) then [m] else []
  {
    assert (msgs + [m])[..|msgs|] == msgs;
  }

  lemma PlainAdds(cfg: Config, s: TurnState, e: IterEnv, before: seq<ChatMessage>)
    requires !ModelFails(e)
    ensures PlainsOf(before + Adds(cfg, s, e))
            == PlainsOf(before) + if CallsOf(e.call.reply.value) == [] && e.answerSaved
                                  then [ChatMessage(Assistant, TextOf(e.call.reply.value), [], [])] else []
  {
    var text, calls := TextOf(e.call.reply.value), CallsOf(e.call.reply.value);
    var asked, answered := ChatMessage(Assistant, text, calls, []),
      ChatMessage(User, "", [], WithoutKinds(Results(calls, e.run, cfg.policy)));
    hide PlainsOf, TextOf, CallsOf, Completes, Results;
    PlainsSnoc(before, asked);
    PlainsSnoc(before + [asked], answered);
    assert before + [asked, answered] == before + [asked] + [answered] && before + [] == before;
  }

  /**
   * The plain messages that a turn has stored are, in order, the texts of the replies that call no tool and were
   * saved, one for each such iteration and nothing else.
   */
  lemma {:induction false} AnswersAreStored(cfg: Config, history: seq<Message>, env: nat -> IterEnv, n: nat)
    ensures PlainsOf(Context.Decoded(StateAt(cfg, history, env, n).stored)) == AnswersUpTo(cfg, history, env, n)
  {
    StoreIsTranscript(cfg, history, env, n);
    hide StateAt, Context.Decoded, Adds, Asks, ModelFails, PlainsOf;
    PlainsOfAdded(cfg, history, env, n);
  }

  lemma {:induction false} PlainsOfAdded(cfg: Config, history: seq<Message>, env: nat -> IterEnv, n: nat)
    ensures PlainsOf(Added(cfg, history, env, n)) == AnswersUpTo(cfg, history, env, n)
  {
    hide StateAt, Adds, Asks, ModelFails;
    if n > 0 {
      PlainsOfAdded(cfg, history, env, n - 1);
      var before := Added(cfg, history, env, n - 1);
      hide PlainsOf;
      if Asks(cfg, history, env, n - 1) && !ModelFails(env(n - 1)) {
        PlainAdds(cfg, StateAt(cfg, history, env, n - 1), env(n - 1), before);
      } else {
        assert before + [] == before;
      }
    }
  }

  // ---------------------------------------------------------------- what the listener is shown

  /** The tokens and calls among a provider's events. */
  function Spoken(events: seq<ChatEvent>): seq<ChatEvent> {
    if events == [] then []
    else
      var last := events[|events| - 1];
      Spoken(events[..|events| - 1]) + if last.EventToken? || last.EventToolCall? then [last] else []
  }

  /** The tokens and calls among a turn's events, as the provider's events they stand for. */
  function Shown(events: seq<TurnEvent>): seq<ChatEvent> {
    if events == [] then []
    else Shown(events[..|events| - 1]) + match events[|events| - 1]
         case TurnToken(token) => [EventToken(token)]
         case TurnToolCall(call) => [EventToolCall(call)]
         case _ => []
  }

  lemma {:induction false} ShownAppend(a: seq<TurnEvent>, b: seq<TurnEvent>)
    ensures Shown(a + b) == Shown(a) + Shown(b)
  {
    if b == [] {
      assert a + b == a;
    } else {
      ShownAppend(a, b[..|b| - 1]);
      assert (a + b)[..|a + b| - 1] == a + b[..|b| - 1];
    }
  }

  /** Everything the model says is forwarded, in order. */
  lemma {:induction false} ForwardsSpoken(events: seq<ChatEvent>)
    ensures Shown(Forwarded(events)) == Spoken(events)
  {
    if events == [] {
      assert Forwarded([]) == [];
    } else {
      var front, last := events[..|events| - 1], events[|events| - 1];
      ForwardsSpoken(front);
      assert events == front + [last];
      TurnLoop.ForwardedSnoc(front, last);
      hide Forwarded;
      ShownAppend(Forwarded(front), ForwardOne(last));
      OneShown(last);
    }
  }

  lemma OneShown(ev: ChatEvent)
    ensures Shown(ForwardOne(ev)) == if ev.EventToken? || ev.EventToolCall? then [ev] else []
  {
    assert ForwardOne(ev) == [] || ForwardOne(ev)[..0] == [];
  }

  function Progress(events: seq<TurnEvent>): nat {
    if events == [] then 0
    else Progress(events[..|events| - 1]) + if events[|events| - 1] == TurnProgress then 1 else 0
  }

  lemma {:induction false} ProgressAppend(a: seq<TurnEvent>, b: seq<TurnEvent>)
    ensures Progress(a + b) == Progress(a) + Progress(b)
  {
    if b == [] {
      assert a + b == a;
    } else {
      ProgressAppend(a, b[..|b| - 1]);
      assert (a + b)[..|a + b| - 1] == a + b[..|b| - 1];
    }
  }

  lemma {:induction false} NoticesShow(n: nat)
    ensures Shown(Notices(n)) == [] && Progress(Notices(n)) == n
  {
    if n > 0 {
      NoticesShow(n - 1);
      assert Notices(n)[..n - 1] == Notices(n - 1);
    }
  }

  lemma {:induction false} ForwardsNoProgress(events: seq<ChatEvent>)
    ensures Progress(Forwarded(events)) == 0
  {
    if events != [] {
      ForwardsNoProgress(events[1..]);
      ProgressAppend(ForwardOne(events[0]), Forwarded(events[1..]));
      assert ForwardOne(events[0]) == [] || ForwardOne(events[0])[..0] == [];
    }
  }

  /** What an iteration emits besides notices and the model's words: one progress event if the turn goes on. */
  predicate IsTail(tail: seq<TurnEvent>, goesOn: bool) {
    if goesOn then tail == [TurnProgress] || tail == [TurnToolActivity, TurnProgress]
    else || tail == [TurnError] || tail == [TurnDone]
         || tail == [TurnToolActivity] || tail == [TurnToolActivity, TurnError]
  }

  lemma TailShows(tail: seq<TurnEvent>, goesOn: bool)
    requires IsTail(tail, goesOn)
    ensures Shown(tail) == [] && Progress(tail) == if goesOn then 1 else 0
  {
    OneEvent(tail[0]);
    if |tail| == 1 {
      assert tail == [tail[0]];
    } else {
      OneEvent(tail[1]);
      assert tail == [tail[0]] + [tail[1]];
      ShownAppend([tail[0]], [tail[1]]);
      ProgressAppend([tail[0]], [tail[1]]);
    }
  }

  lemma OneEvent(ev: TurnEvent)
    ensures !ev.TurnToken? && !ev.TurnToolCall? ==> Shown([ev]) == []
    ensures Progress([ev]) == if ev == TurnProgress then 1 else 0
  {
    assert [ev][..0] == [];
  }

  lemma CallsTail(cfg: Config, s: TurnState, e: IterEnv, text: string, calls: seq<ToolCall>)
    returns (tail: seq<TurnEvent>)
    requires s.end == Running
    ensures var s' := AfterCalls(cfg, s, e, text, calls);
            IsTail(tail, s'.end == Running) && s'.events == s.events + tail
  {
    hide ToolBatch.Failed, Results, Dispensed, StoredCalls, StoredResults;
    var s' := AfterCalls(cfg, s, e, text, calls);
    if e.callsEncoded.None? || !e.callsSaved {
      tail := [TurnError];
    } else {
      var ran := s.events + [TurnToolActivity];
      tail := if s'.end == Running then [TurnToolActivity, TurnProgress]
              else if s'.end == CooldownCancelled then [TurnToolActivity] else [TurnToolActivity, TurnError];
      assert ran + [] == ran;
      assert s'.events == if s'.end == Running then ran + [TurnProgress]
                          else if s'.end == CooldownCancelled then ran else ran + [TurnError];
    }
  }

  lemma StepTail(cfg: Config, s: TurnState, e: IterEnv) returns (tail: seq<TurnEvent>)
    requires s.end == Running && Context.Chosen(s.history, e.remaining) != []
    ensures var s' := Step(cfg, s, e);
            var said := if e.call.reply.Some? then Forwarded(e.call.reply.value) else [];
            IsTail(tail, s'.end == Running) && s'.events == s.events + Notices(|e.call.delays|) + said + tail
  {
    hide Context.Chosen, AfterCalls, CallsOf, TextOf, Forwarded;
    var s1 := Asked(s, e, Context.Chosen(s.history, e.remaining));
    var s' := Step(cfg, s, e);
    if e.call.reply.None? {
      tail := if s'.end == Running then [TurnProgress] else [TurnError];
      assert s1.events + [] == s1.events;
    } else {
      var events := e.call.reply.value;
      var s2 := Emit(s1, Forwarded(events));
      if !StreamFailed(events) && CallsOf(events) != [] {
        tail := CallsTail(cfg, s2.(llmErrors := 0), e, TextOf(events), CallsOf(events));
      } else {
        tail := if s'.end == Running then [TurnProgress] else if s'.end == Answered then [TurnDone] else [TurnError];
      }
    }
  }

  /** What the model has said in the first n iterations, also in streams that broke off. */
  function SpokenUpTo(cfg: Config, history: seq<Message>, env: nat -> IterEnv, n: nat): seq<ChatEvent> {
    if n == 0 then []
    else
      SpokenUpTo(cfg, history, env, n - 1)
      + if Asks(cfg, history, env, n - 1) && env(n - 1).call.reply.Some?
        then Spoken(env(n - 1).call.reply.value) else []
  }

  lemma StepShows(cfg: Config, s: TurnState, e: IterEnv)
    requires s.end == Running
    ensures var s' := Step(cfg, s, e);
            var asks := Context.Chosen(s.history, e.remaining) != [];
            && Shown(s'.events)
               == Shown(s.events) + (if asks && e.call.reply.Some? then Spoken(e.call.reply.value) else [])
            && Progress(s'.events) == Progress(s.events) + (if asks then |e.call.delays| else 0)
                                      + (if s'.end == Running then 1 else 0)
  {
    var s' := Step(cfg, s, e);
    if Context.Chosen(s.history, e.remaining) == [] {
      assert s'.events == s.events + [TurnError] && s'.end != Running;
      hide *;
      OneEvent(TurnError);
      ShownAppend(s.events, [TurnError]);
      ProgressAppend(s.events, [TurnError]);
    } else {
      var tail := StepTail(cfg, s, e);
      hide *;
      NothingSaid();
      var said := if e.call.reply.Some? then Forwarded(e.call.reply.value) else [];
      if e.call.reply.Some? {
        ForwardsSpoken(e.call.reply.value);
        ForwardsNoProgress(e.call.reply.value);
      }
      TailShows(tail, s'.end == Running);
      EventsShow(s.events, |e.call.delays|, said, tail);
    }
  }

  lemma EventsShow(events: seq<TurnEvent>, waits: nat, said: seq<TurnEvent>, tail: seq<TurnEvent>)
    ensures var all := events + Notices(waits) + said + tail;
            && Shown(all) == Shown(events) + Shown(said) + Shown(tail)
            && Progress(all) == Progress(events) + waits + Progress(said) + Progress(tail)
  {
    hide *;
    var notices := Notices(waits);
    NoticesShow(waits);
    ShownAppend(events, notices);
    ShownAppend(events + notices, said);
    ShownAppend(events + notices + said, tail);
    ProgressAppend(events, notices);
    ProgressAppend(events + notices, said);
    ProgressAppend(events + notices + said, tail);
  }

  lemma NothingSaid()
    ensures Shown([]) == [] && Progress([]) == 0
  {
  }

  /** Throughout every turn the listener is shown every token and every call of every reply, in order, and no other. */
  lemma {:induction false} ListenerIsShown(cfg: Config, history: seq<Message>, env: nat -> IterEnv, n: nat)
    ensures Shown(StateAt(cfg, history, env, n).events) == SpokenUpTo(cfg, history, env, n)
  {
    hide Step, Context.Chosen, Spoken;
    if n > 0 {
      ListenerIsShown(cfg, history, env, n - 1);
      var s := StateAt(cfg, history, env, n - 1);
      if s.end == Running {
        StepShows(cfg, s, env(n - 1));
      }
    }
  }

  // ---------------------------------------------------------------- what is counted

  /** What the iterations that send something add up to: requests, provider calls, replies and announced waits. */
  datatype Tally = Tally(requests: nat, calls: nat, replies: nat, waits: nat)

  function TallyOf(cfg: Config, history: seq<Message>, env: nat -> IterEnv, n: nat): Tally {
    if n == 0 then Tally(0, 0, 0, 0)
    else
      var t, c := TallyOf(cfg, history, env, n - 1), env(n - 1).call;
      if !Asks(cfg, history, env, n - 1) then t
      else Tally(t.requests + 1, t.calls + c.calls, t.replies + (if c.reply.Some? then 1 else 0), t.waits + |c.delays|)
  }

  lemma StepCounts(cfg: Config, s: TurnState, e: IterEnv)
    requires s.end == Running
    ensures var s' := Step(cfg, s, e);
            var asks := Context.Chosen(s.history, e.remaining) != [];
            && |s'.requests| == |s.requests| + (if asks then 1 else 0)
            && s'.providerCalls == s.providerCalls + (if asks then e.call.calls else 0)
            && s'.replies == s.replies + (if asks && e.call.reply.Some? then 1 else 0)
            && s'.iteration == s.iteration + (if s'.end == Running then 1 else 0)
  {
    var messages := Context.Chosen(s.history, e.remaining);
    hide Context.Chosen, Reacted;
    if messages != [] {
      var s1 := Asked(s, e, messages);
      CountersReacted(cfg, s1, e);
      RepliesReacted(cfg, s1, e);
    }
  }

  /**
   * Throughout every turn: one request for each iteration that has something to send, as many provider calls and
   * accepted requests as those took, and one progress event for each announced wait and each iteration that goes on.
   */
  lemma {:induction false} RunTallies(cfg: Config, history: seq<Message>, env: nat -> IterEnv, n: nat)
    ensures var s, t := StateAt(cfg, history, env, n), TallyOf(cfg, history, env, n);
            && |s.requests| == t.requests && s.providerCalls == t.calls && s.replies == t.replies
            && Progress(s.events) == t.waits + s.iteration
  {
    hide Step, Context.Chosen;
    if n > 0 {
      RunTallies(cfg, history, env, n - 1);
      var s := StateAt(cfg, history, env, n - 1);
      if s.end == Running {
        StepCounts(cfg, s, env(n - 1));
        StepShows(cfg, s, env(n - 1));
      }
    }
  }

  // ---------------------------------------------------------------- what the next request is told

  /** What the model is told after iteration e in a turn that goes on. */
  ghost predicate Hints(cfg: Config, s: TurnState, e: IterEnv, s': TurnState) {
    if e.call.reply.None? then s'.hint == CallFailedHint
    else if EventError in e.call.reply.value then s'.hint == StreamFailedHint
    else
      var calls := CallsOf(e.call.reply.value);
      var failed := ToolBatch.Failed(calls, e.run, cfg.policy, |calls|);
      if calls == [] then s'.hint == VerificationHint
      else if failed == [] then s'.hint == NoHint && s'.used == s.used
      else if |s.used| >= 3 || (forall c :: c in cfg.strategies ==> !Candidate(cfg.strategies, s.tried, e.reframe, c))
        then s'.hint == ReplanHint(failed) && s'.used == s.used
      else exists c :: Applied(cfg, s, e, s', c)
  }

  /** The strategy was untried and applies, and what it says is the hint. */
  ghost predicate Applied(cfg: Config, s: TurnState, e: IterEnv, s': TurnState, c: Strategy) {
    && Candidate(cfg.strategies, s.tried, e.reframe, c) && s'.used == s.used + [c]
    && s'.hint == if e.reframe(c).value == "" then NoHint else StrategyHint(e.reframe(c).value)
  }

  lemma BatchHints(cfg: Config, s: TurnState, e: IterEnv, failed: seq<FailedTool>)
    requires s.hint == NoHint
    ensures var s' := AfterBatch(cfg, s, e, failed);
            if failed == [] then s'.hint == NoHint && s'.used == s.used
            else if |s.used| >= 3 || forall c :: c in cfg.strategies ==>
                                       !Candidate(cfg.strategies, s.tried, e.reframe, c)
              then s'.hint == ReplanHint(failed) && s'.used == s.used
            else exists c :: Applied(cfg, s, e, s', c)
  {
    ApplicableExists(cfg.strategies, s.tried, e.reframe);
    FirstApplicableIsCandidate(cfg.strategies, s.tried, e.reframe);
    var next := Dispensed(cfg, s, e);
    hide FirstApplicable;
    if failed != [] && next.Some? {
      assert Applied(cfg, s, e, AfterBatch(cfg, s, e, failed), next.value);
    }
  }

  lemma CallsHint(cfg: Config, s: TurnState, e: IterEnv, text: string, calls: seq<ToolCall>) returns (s1: TurnState)
    requires s.end == Running && AfterCalls(cfg, s, e, text, calls).end == Running
    ensures s1.used == s.used && s1.tried == s.tried && s1.hint == s.hint
    ensures var s2 := AfterBatch(cfg, s1, e, ToolBatch.Failed(calls, e.run, cfg.policy, |calls|));
            AfterCalls(cfg, s, e, text, calls).hint == s2.hint && AfterCalls(cfg, s, e, text, calls).used == s2.used
  {
    hide ToolBatch.Failed, Results, Dispensed, StoredResults;
    s1 := Emit(s.(stored := s.stored + [StoredCalls(e.callsEncoded.value, text, calls)]), [TurnToolActivity]);
  }

  lemma StepHints(cfg: Config, s: TurnState, e: IterEnv)
    requires s.end == Running && Step(cfg, s, e).end == Running
    ensures Hints(cfg, s, e, Step(cfg, s, e))
  {
    hide Context.Chosen, AfterCalls, CallsOf, TextOf, Forwarded, ToolBatch.Failed, Candidate;
    var s1 := Asked(s, e, Context.Chosen(s.history, e.remaining));
    if !ModelFails(e) && CallsOf(e.call.reply.value) != [] {
      var events := e.call.reply.value;
      var s2 := Emit(s1, Forwarded(events)).(llmErrors := 0);
      var s3 := CallsHint(cfg, s2, e, TextOf(events), CallsOf(events));
      var failed := ToolBatch.Failed(CallsOf(events), e.run, cfg.policy, |CallsOf(events)|);
      BatchHints(cfg, s3, e, failed);
      if c :| Applied(cfg, s3, e, AfterBatch(cfg, s3, e, failed), c) {
        assert Applied(cfg, s, e, Step(cfg, s, e), c);
      }
    }
  }

  /**
   * The request of every iteration but the first is told what happened at the iteration before: that the call or
   * the stream failed, that the answer was rejected, which strategy to try or which tools were given up, or nothing.
   */
  lemma RequestIsTold(cfg: Config, history: seq<Message>, env: nat -> IterEnv, n: nat)
    requires Asks(cfg, history, env, n)
    ensures var s, s' := StateAt(cfg, history, env, n), StateAt(cfg, history, env, n + 1);
            && |s'.requests| == |s.requests| + 1
            && s'.requests[|s.requests|] == Request(Context.Chosen(s.history, env(n).remaining), s.hint)
            && (if n == 0 then s.hint == NoHint else Hints(cfg, StateAt(cfg, history, env, n - 1), env(n - 1), s))
  {
    var s := StateAt(cfg, history, env, n);
    hide Step, Context.Chosen, Hints;
    StepCounts(cfg, s, env(n));
    HintIsSentOnce(cfg, s, env(n));
    StepSends(cfg, s, env(n));
    if n > 0 {
      StepHints(cfg, StateAt(cfg, history, env, n - 1), env(n - 1));
    }
  }

  lemma StepSends(cfg: Config, s: TurnState, e: IterEnv)
    requires s.end == Running && Context.Chosen(s.history, e.remaining) != []
    ensures Step(cfg, s, e).requests == s.requests + [Request(Context.Chosen(s.history, e.remaining), s.hint)]
  {
    hide Context.Chosen, Reacted;
    CountersReacted(cfg, Asked(s, e, Context.Chosen(s.history, e.remaining)), e);
  }
}
