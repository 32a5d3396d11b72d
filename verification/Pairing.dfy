/**
 * That the results in a request answer the calls in front of them, by id. The messages of a session come from
 * its turns, from its users and from writers without the session lock; loading, compaction, budgets and
 * sanitising take parts of them away. Wherever results still stand right behind calls, they are their own.
 */
module Pairing {
  import opened Llm
  import opened Turn
  import Context
  import TurnLoop
  import ToolBatch
  import Recovery

  /** In a stored history, results right behind calls answer those calls. */
  ghost predicate Matching(h: seq<Message>) {
    Matched(Context.Decoded(h))
  }

  // ---------------------------------------------------------------- sanitising and rendering

  lemma MatchedCons(m: ChatMessage, rest: seq<ChatMessage>)
    requires !IsCalls(m) && Matched(rest)
    ensures Matched([m] + rest)
  {
    var s := [m] + rest;
    forall i | 0 < i < |s| && IsCalls(s[i - 1]) && IsResults(s[i]) ensures Answers(s[i - 1], s[i]) {
      assert i > 1;
      assert s[i] == rest[i - 1] && s[i - 1] == rest[i - 2];
    }
  }

  lemma MatchedConsPair(calls: ChatMessage, results: ChatMessage, rest: seq<ChatMessage>)
    requires Answers(calls, results) && !IsCalls(results) && Matched(rest)
    ensures Matched([calls, results] + rest)
  {
    var s := [calls, results] + rest;
    forall i | 0 < i < |s| && IsCalls(s[i - 1]) && IsResults(s[i]) ensures Answers(s[i - 1], s[i]) {
      if i > 2 {
        assert s[i] == rest[i - 2] && s[i - 1] == rest[i - 3];
      }
    }
  }

  /** Sanitising brings no results behind calls that they did not follow before. */
  lemma {:induction false} SanitizeKeepsMatched(msgs: seq<ChatMessage>, i: nat)
    requires Exclusive(msgs) && Matched(msgs) && i <= |msgs|
    ensures Matched(Context.SanitizeFrom(msgs, i))
    decreases |msgs| - i
  {
    hide Matched, IsResults, IsCalls;
    if i == |msgs| {
      NothingIsMatched();
    } else if IsCalls(msgs[i]) && i + 1 < |msgs| && IsResults(msgs[i + 1]) {
      SanitizeKeepsMatched(msgs, i + 2);
      AnsweredAt(msgs, i + 1);
      MatchedConsPair(msgs[i], msgs[i + 1], Context.SanitizeFrom(msgs, i + 2));
    } else {
      SanitizeKeepsMatched(msgs, i + 1);
      if !IsCalls(msgs[i]) {
        MatchedCons(msgs[i], Context.SanitizeFrom(msgs, i + 1));
      }
    }
  }

  lemma NothingIsMatched()
    ensures Matched([])
  {
  }

  lemma AnsweredAt(msgs: seq<ChatMessage>, i: nat)
    requires Matched(msgs) && 0 < i < |msgs| && IsCalls(msgs[i - 1]) && IsResults(msgs[i])
    ensures Answers(msgs[i - 1], msgs[i])
  {
  }

  /** Taking images out of results leaves their ids, and calls have none. */
  lemma RenderedLike(h: seq<Message>, i: nat)
    requires i < |h|
    ensures var m, r := Context.MessageToLLM(h[i]), Context.Rendered(h, i);
            && (IsCalls(m) <==> IsCalls(r)) && (IsResults(m) <==> IsResults(r))
            && m.toolCalls == r.toolCalls && |m.toolResults| == |r.toolResults|
            && forall j :: 0 <= j < |m.toolResults| ==>
                 && r.toolResults[j].callId == m.toolResults[j].callId
                 && (m.toolResults[j] == UNSET ==> r.toolResults[j] == UNSET)
  {
    hide Context.MessageToLLM, Context.HasImages, Context.KeepsImages;
  }

  lemma RenderedAnswers(h: seq<Message>, j: nat)
    requires Matching(h) && 0 < j < |h| && IsCalls(Context.Rendered(h, j - 1)) && IsResults(Context.Rendered(h, j))
    ensures Answers(Context.Rendered(h, j - 1), Context.Rendered(h, j))
  {
    var d := Context.Decoded(h);
    RenderedLike(h, j - 1);
    RenderedLike(h, j);
    hide Context.Rendered, Context.MessageToLLM, IsCalls, IsResults, Matched;
    assert d[j - 1] == Context.MessageToLLM(h[j - 1]) && d[j] == Context.MessageToLLM(h[j]);
    AnsweredAt(d, j);
  }

  lemma RenderedMatched(h: seq<Message>, k: nat)
    requires Matching(h) && k <= |h|
    ensures Matched(Context.RenderedFrom(h, k))
  {
    var r := Context.RenderedFrom(h, k);
    hide Context.RenderedFrom, Context.Rendered, Exclusive, IsCalls, IsResults, Answers, Matching;
    forall i | 0 < i < |r| && IsCalls(r[i - 1]) && IsResults(r[i]) ensures Answers(r[i - 1], r[i]) {
      Context.RenderedAt(h, k, i - 1);
      Context.RenderedAt(h, k, i);
      RenderedAnswers(h, k + i);
    }
  }

  /** What the model is sent answers by id if the history does. */
  lemma ChosenMatched(h: seq<Message>, budget: Option<int>)
    requires Matching(h)
    ensures Matched(Context.Chosen(h, budget))
  {
    if budget.Some? {
      Context.SelectedFromStart(h, budget.value);
      RenderedMatched(h, Context.Start(h, budget.value));
      SanitizeKeepsMatched(Context.RenderedFrom(h, Context.Start(h, budget.value)), 0);
      hide Context.Selected, Context.RenderedFrom, Context.SanitizeFrom, Matched;
    } else {
      SanitizeKeepsMatched(Context.Decoded(h), 0);
      hide Context.SanitizeFrom, Matched;
    }
  }

  // ---------------------------------------------------------------- one turn

  lemma MatchingAppends(h: seq<Message>, a: Message, b: Message)
    requires Matching(h)
    requires IsCalls(Context.MessageToLLM(a)) && Answers(Context.MessageToLLM(a), Context.MessageToLLM(b))
    ensures Matching(h + [a, b])
  {
    var s, d := Context.Decoded(h + [a, b]), Context.Decoded(h);
    forall i | 0 < i < |s| && IsCalls(s[i - 1]) && IsResults(s[i]) ensures Answers(s[i - 1], s[i]) {
      if i < |h| {
        assert s[i] == d[i] && s[i - 1] == d[i - 1];
      }
    }
  }

  lemma PairAnswers(a: Message, b: Message, e: IterEnv, p: Recovery.Policy)
    requires IsPairOf(a, b, e, p)
    ensures IsCalls(Context.MessageToLLM(a)) && Answers(Context.MessageToLLM(a), Context.MessageToLLM(b))
  {
    hide ToolBatch.Started, ToolBatch.Attempts, Context.MessageToLLM, CallsOf, ToolBatch.IsLastRun;
  }

  lemma StepKeepsMatching(cfg: Config, s: TurnState, e: IterEnv)
    requires s.end == Running && Matching(s.history)
    ensures Matching(Step(cfg, s, e).history)
  {
    hide *;
    PairsStep(cfg, s, e);
    var h, h' := s.history, Step(cfg, s, e).history;
    if h' != h {
      var a, b := h'[|h|], h'[|h| + 1];
      PairAnswers(a, b, e, cfg.policy);
      MatchingAppends(h, a, b);
      assert h' == h + [a, b];
    }
  }

  /** The requests so far, and the one of the next iteration, which is selected from the history. */
  lemma StepRequests(cfg: Config, s: TurnState, e: IterEnv)
    requires s.end == Running
    ensures var rs, rs' := s.requests, Step(cfg, s, e).requests;
            rs' == rs || rs' == rs + [Request(Context.Chosen(s.history, e.remaining), s.hint)]
  {
    hide Context.Chosen, Reacted;
    CountersReacted(cfg, Asked(s, e, Context.Chosen(s.history, e.remaining)), e);
  }

  lemma {:induction false} RequestsMatched(cfg: Config, history: seq<Message>, env: nat -> IterEnv, n: nat)
    requires Matching(history)
    ensures var s := StateAt(cfg, history, env, n);
            Matching(s.history) && forall r :: r in s.requests ==> Matched(r.messages)
  {
    hide Step, Matching, Matched, Context.Chosen;
    if n > 0 {
      RequestsMatched(cfg, history, env, n - 1);
      var s := StateAt(cfg, history, env, n - 1);
      if s.end == Running {
        StepKeepsMatching(cfg, s, env(n - 1));
        StepRequests(cfg, s, env(n - 1));
        ChosenMatched(s.history, env(n - 1).remaining);
      }
    }
  }

  /**
   * In every request of a turn over a matching history, each results message stands right behind the calls it
   * answers: one result per call, under the call's id, or the zero value where the tool never ran.
   */
  lemma RequestsAnswer(cfg: Config, history: seq<Message>, env: nat -> IterEnv, r: Request, i: nat)
    requires Matching(history) && r in Final(cfg, history, env).requests
    requires i < |r.messages| && IsResults(r.messages[i])
    ensures 0 < i && IsCalls(r.messages[i - 1]) && Answers(r.messages[i - 1], r.messages[i])
  {
    RequestsMatched(cfg, history, env, cfg.maxToolIter);
    TurnSafety(cfg, history, env);
    hide StateAt, Answers, BreaksOffAt;
  }

  // ---------------------------------------------------------------- a session of many turns

  /** Every results message comes right behind its calls. */
  ghost predicate Answered(tools: seq<Message>) {
    forall i :: 0 <= i < |tools| && IsResults(Context.MessageToLLM(tools[i])) ==>
      && 0 < i && IsCalls(Context.MessageToLLM(tools[i - 1]))
      && Answers(Context.MessageToLLM(tools[i - 1]), Context.MessageToLLM(tools[i]))
  }

  lemma AnsweredAppend(a: seq<Message>, b: seq<Message>)
    requires Answered(a) && Answered(b)
    ensures Answered(a + b)
  {
    var s := a + b;
    hide Context.MessageToLLM, Answers, IsCalls, IsResults;
    forall i | 0 <= i < |s| && IsResults(Context.MessageToLLM(s[i]))
      ensures 0 < i && IsCalls(Context.MessageToLLM(s[i - 1]))
              && Answers(Context.MessageToLLM(s[i - 1]), Context.MessageToLLM(s[i]))
    {
      if i < |a| {
        assert s[i] == a[i];
      } else {
        assert s[i] == b[i - |a|];
      }
    }
  }

  /** What a turn stores, without its answers, is calls and their results. */
  lemma StoredAnswered(cfg: Config, history: seq<Message>, env: nat -> IterEnv, n: nat)
    ensures Answered(ToolPart(StateAt(cfg, history, env, n).stored))
  {
    StoreMirrorsHistory(cfg, history, env, n);
    HistoryGrowsByPairs(cfg, history, env, n);
    var s := StateAt(cfg, history, env, n);
    var pairs, last := s.history[|history|..], if Dangling(s.stored) then [s.stored[|s.stored| - 1]] else [];
    PairsAnswered(s.history, |history|, env, n, cfg.policy);
    CallsAnswered(last);
    hide *;
    AnsweredAppend(pairs, last);
    StoredParts(history, s);
  }

  lemma StoredParts(loaded: seq<Message>, s: TurnState)
    requires StoreOk(loaded, s)
    ensures |loaded| <= |s.history|
    ensures ToolPart(s.stored)
            == s.history[|loaded|..] + (if Dangling(s.stored) then [s.stored[|s.stored| - 1]] else [])
  {
    hide ToolPart, AnswerCount;
  }

  lemma CallsAnswered(ms: seq<Message>)
    requires |ms| <= 1 && forall i :: 0 <= i < |ms| ==> IsCalls(Context.MessageToLLM(ms[i]))
    ensures Answered(ms)
  {
  }

  lemma PairsAnswered(h: seq<Message>, from: nat, env: nat -> IterEnv, n: nat, p: Recovery.Policy)
    requires PairsAfter(h, from, env, n, p)
    ensures Answered(h[from..])
  {
    var tools := h[from..];
    hide IsPairOf, Answers;
    forall i | 0 <= i < |tools| && IsResults(Context.MessageToLLM(tools[i]))
      ensures 0 < i && IsCalls(Context.MessageToLLM(tools[i - 1]))
              && Answers(Context.MessageToLLM(tools[i - 1]), Context.MessageToLLM(tools[i]))
    {
      var k := if i % 2 == 0 then i else i - 1;
      assert IsPairFrom(h[from + k], h[from + k + 1], env, n, p);
      var m: nat :| m < n && IsPairOf(h[from + k], h[from + k + 1], env(m), p);
      PairAnswers(h[from + k], h[from + k + 1], env(m), p);
    }
  }

  lemma AnsweredFront(tools: seq<Message>, last: Message)
    ensures Answered(tools + [last]) ==> Answered(tools)
  {
    var all := tools + [last];
    hide Context.MessageToLLM, Answers, IsCalls, IsResults;
    if Answered(all) {
      forall i | 0 <= i < |tools| && IsResults(Context.MessageToLLM(tools[i]))
        ensures 0 < i && IsCalls(Context.MessageToLLM(tools[i - 1]))
                && Answers(Context.MessageToLLM(tools[i - 1]), Context.MessageToLLM(tools[i]))
      {
        assert all[i] == tools[i] && (i > 0 ==> all[i - 1] == tools[i - 1]);
      }
    }
  }

  /** The message answers the one before it, if both are about tools. */
  predicate Fits(prev: Message, last: Message) {
    IsCalls(Context.MessageToLLM(prev)) && IsResults(Context.MessageToLLM(last)) ==>
      Answers(Context.MessageToLLM(prev), Context.MessageToLLM(last))
  }

  lemma MatchingSnoc(front: seq<Message>, last: Message)
    requires Matching(front) && (front == [] || Fits(front[|front| - 1], last))
    ensures Matching(front + [last])
  {
    var s, d := Context.Decoded(front + [last]), Context.Decoded(front);
    hide Answers, IsCalls, IsResults, Context.MessageToLLM;
    forall i | 0 < i < |s| && IsCalls(s[i - 1]) && IsResults(s[i]) ensures Answers(s[i - 1], s[i]) {
      if i < |front| {
        assert s[i] == d[i] && s[i - 1] == d[i - 1];
      }
    }
  }

  /** Two tool messages next to each other at the end of the log are so among its tool messages. */
  lemma LastFits(before: seq<Message>, prev: Message, last: Message)
    requires Answered(ToolPart(before + [prev] + [last]))
    ensures Fits(prev, last)
  {
    StoredSnoc(before + [prev], last);
    StoredSnoc(before, prev);
    var tools := ToolPart(before);
    hide ToolPart, Context.MessageToLLM, Answers;
    if IsCalls(Context.MessageToLLM(prev)) && IsResults(Context.MessageToLLM(last)) {
      var all := tools + [prev] + [last];
      assert ToolPart(before + [prev] + [last]) == all;
      assert all[|tools| + 1] == last && all[|tools|] == prev;
    }
  }

  /** Whatever plain messages stand between them: if the tool messages alone are answered, the log matches. */
  lemma {:induction false} WovenMatches(log: seq<Message>)
    requires Answered(ToolPart(log))
    ensures Matching(log)
  {
    if log == [] {
      NothingIsMatched();
    } else {
      hide ToolPart, Answered, Matching, Fits, Context.MessageToLLM, IsPlain;
      var front, last := log[..|log| - 1], log[|log| - 1];
      assert log == front + [last];
      StoredSnoc(front, last);
      AnsweredFront(ToolPart(front), last);
      assert ToolPart(front) + [] == ToolPart(front);
      WovenMatches(front);
      if front != [] {
        var before, prev := front[..|front| - 1], front[|front| - 1];
        assert front == before + [prev];
        LastFits(before, prev, last);
      }
      MatchingSnoc(front, last);
    }
  }

  /** A turn that ran, with its configuration, its loaded history and its environment. */
  datatype Past = Past(cfg: Config, history: seq<Message>, env: nat -> IterEnv, iterations: nat)

  function ToolsOf(p: Past): seq<Message> {
    ToolPart(StateAt(p.cfg, p.history, p.env, p.iterations).stored)
  }

  /** The tool messages of all turns, one turn after the other. */
  function ToolsOfAll(past: seq<Past>): seq<Message> {
    if past == [] then [] else ToolsOfAll(past[..|past| - 1]) + ToolsOf(past[|past| - 1])
  }

  lemma {:induction false} AllAnswered(past: seq<Past>)
    ensures Answered(ToolsOfAll(past))
  {
    if past == [] {
      CallsAnswered([]);
    } else {
      hide Answered, StateAt, ToolPart;
      var last := past[|past| - 1];
      AllAnswered(past[..|past| - 1]);
      StoredAnswered(last.cfg, last.history, last.env, last.iterations);
      AnsweredAppend(ToolsOfAll(past[..|past| - 1]), ToolsOf(last));
    }
  }

  /**
   * A session whose tool messages are those its turns stored, one turn after the other, matches: whatever users
   * and other writers put between them, however its turns ended, and also when only the end of it is loaded,
   * behind a summary or not.
   */
  lemma SessionMatches(log: seq<Message>, past: seq<Past>, k: nat, summary: seq<Message>)
    requires ToolPart(log) == ToolsOfAll(past) && k <= |log|
    requires |summary| <= 1 && forall i :: 0 <= i < |summary| ==> IsPlain(Context.MessageToLLM(summary[i]))
    ensures Matching(log) && Matching(summary + log[k..])
  {
    hide ToolPart, ToolsOfAll, Answered, Matching, Context.MessageToLLM;
    AllAnswered(past);
    WovenMatches(log);
    TailMatches(log, k, summary);
  }

  lemma TailMatches(log: seq<Message>, k: nat, summary: seq<Message>)
    requires Matching(log) && k <= |log| && |summary| <= 1
    requires forall i :: 0 <= i < |summary| ==> IsPlain(Context.MessageToLLM(summary[i]))
    ensures Matching(summary + log[k..])
  {
    var all, d := Context.Decoded(summary + log[k..]), Context.Decoded(log);
    hide Answers;
    forall i | 0 < i < |all| && IsCalls(all[i - 1]) && IsResults(all[i]) ensures Answers(all[i - 1], all[i]) {
      var j := k + i - |summary|;
      assert i > |summary|;
      assert all[i] == d[j] && all[i - 1] == d[j - 1];
    }
  }

  // ---------------------------------------------------------------- subagents

  /** A subagent's conversation matches at every iteration. */
  lemma {:induction false} ConversationMatched(prompt: string, env: nat -> IterEnv, n: nat)
    ensures Matched(TurnLoop.Conversation(prompt, env, n))
  {
    hide TurnLoop.Appended;
    if n > 0 {
      ConversationMatched(prompt, env, n - 1);
      TurnLoop.ConversationPaired(prompt, env, n - 1);
      AppendedMatches(TurnLoop.Conversation(prompt, env, n - 1), env(n - 1));
    }
  }

  lemma AppendedMatches(c: seq<ChatMessage>, e: IterEnv)
    requires Matched(c) && WellPaired(c)
    ensures Matched(c + TurnLoop.Appended(e))
  {
    var more := TurnLoop.Appended(e);
    AppendedAnswers(e);
    var s := c + more;
    hide TurnLoop.Appended, Answers;
    forall i | 0 < i < |s| && IsCalls(s[i - 1]) && IsResults(s[i]) ensures Answers(s[i - 1], s[i]) {
      if i < |c| {
        assert s[i] == c[i] && s[i - 1] == c[i - 1];
      } else {
        assert s[i] == more[i - |c|];
      }
    }
  }

  lemma AppendedAnswers(e: IterEnv)
    ensures var more := TurnLoop.Appended(e);
            && (more != [] ==> !IsResults(more[0])) && |more| <= 2
            && (|more| == 2 ==> Answers(more[0], more[1]))
  {
    var more := TurnLoop.Appended(e);
    if |more| == 2 {
      var calls := CallsOf(e.call.reply.value);
      forall i | 0 <= i < |calls|
        ensures more[1].toolResults[i].callId == calls[i].id || more[1].toolResults[i] == UNSET
      {
        ToolBatch.SlotId(calls[i], [e.run(i, 0)]);
      }
    }
  }
}
