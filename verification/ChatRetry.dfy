/** One model call: up to LLMMaxRetries + 1 attempts with waits in between. */
module ChatRetry {
  import opened Llm

  const LLM_MAX_RETRIES: nat := 3
  const LLM_BASE_RETRY_DELAY: int := 5_000_000_000
  const LLM_MAX_RETRY_DELAY: int := 60_000_000_000

  /** The provider's reply to one attempt: refused, with the delay it asks for or 0, or a stream of events. */
  datatype ChatReply = Refused(retryable: bool, retryAfter: int) | Accepted(events: seq<ChatEvent>)

  function Doubled(delay: int, times: nat): int {
    if times == 0 then delay else 2 * Doubled(delay, times - 1)
  }

  /** How long to wait after attempt a: what the provider asks for, or a doubling delay up to a maximum. */
  function Delay(retryAfter: int, a: nat): int {
    if retryAfter != 0 then retryAfter
    else if Doubled(LLM_BASE_RETRY_DELAY, a) > LLM_MAX_RETRY_DELAY then LLM_MAX_RETRY_DELAY
    else Doubled(LLM_BASE_RETRY_DELAY, a)
  }

  /** The reply to the n-th attempt, and whether the wait after it ends by cancellation. */
  datatype Provider = Provider(chat: nat -> ChatReply, waitCancelled: nat -> bool)

  /** A settled call: the reply, how often the provider was called, and the delays that were announced. */
  datatype ChatRun = ChatRun(reply: Option<seq<ChatEvent>>, calls: nat, delays: seq<int>)

  /** Attempts a, a+1, ... until one is accepted, one fails for good, or the retries run out. */
  function Chat(p: Provider, a: nat): (r: ChatRun)
    requires a <= LLM_MAX_RETRIES
    ensures 1 <= r.calls <= LLM_MAX_RETRIES + 1 - a
    decreases LLM_MAX_RETRIES - a
  {
    match p.chat(a)
    case Accepted(events) => ChatRun(Some(events), 1, [])
    case Refused(retryable, retryAfter) =>
      if !retryable || a == LLM_MAX_RETRIES then ChatRun(None, 1, [])
      else if p.waitCancelled(a) then ChatRun(None, 1, [Delay(retryAfter, a)])
      else
        var rest := Chat(p, a + 1);
        ChatRun(rest.reply, rest.calls + 1, [Delay(retryAfter, a)] + rest.delays)
  }

  /** Attempt n is reached: all earlier ones were refused in a retryable way and waited out. */
  ghost predicate Reaches(p: Provider, a: nat, n: nat) {
    forall m :: a <= m < n ==> p.chat(m).Refused? && p.chat(m).retryable && !p.waitCancelled(m)
  }

  lemma {:induction false} ChatCorrectFrom(p: Provider, a: nat)
    requires a <= LLM_MAX_RETRIES
    ensures 1 <= Chat(p, a).calls <= LLM_MAX_RETRIES + 1 - a
    ensures Reaches(p, a, a + Chat(p, a).calls - 1)
    ensures Chat(p, a).reply == match p.chat(a + Chat(p, a).calls - 1)
                                case Accepted(events) => Some(events)
                                case Refused(_, _) => None
    ensures Chat(p, a).reply.None? ==> a + Chat(p, a).calls == LLM_MAX_RETRIES + 1
                                       || !Reaches(p, a, a + Chat(p, a).calls)
    decreases LLM_MAX_RETRIES - a
  {
    if Chat(p, a).calls > 1 {
      ChatCorrectFrom(p, a + 1);
      if !Reaches(p, a + 1, a + 1 + Chat(p, a + 1).calls) && Reaches(p, a, a + Chat(p, a).calls) {
        assert Reaches(p, a + 1, a + 1 + Chat(p, a + 1).calls);
      }
    }
  }

  /** A request is tried at most LLMMaxRetries + 1 times, and succeeds as soon as a reached attempt does. */
  lemma ChatCorrect(p: Provider)
    ensures 1 <= Chat(p, 0).calls <= LLM_MAX_RETRIES + 1
    ensures Chat(p, 0).reply.Some? <==>
            exists n :: 0 <= n <= LLM_MAX_RETRIES && p.chat(n).Accepted? && Reaches(p, 0, n)
  {
    ChatCorrectFrom(p, 0);
    var last := Chat(p, 0).calls - 1;
    if Chat(p, 0).reply.Some? {
      assert p.chat(last).Accepted? && Reaches(p, 0, last);
    }
    if n :| 0 <= n <= LLM_MAX_RETRIES && p.chat(n).Accepted? && Reaches(p, 0, n) {
      assert n >= last;
      assert n <= last;
    }
  }

  lemma {:induction false} DelaysFrom(p: Provider, a: nat)
    requires a <= LLM_MAX_RETRIES
    ensures var run := Chat(p, a);
            && run.calls - 1 <= |run.delays| <= run.calls && |run.delays| <= LLM_MAX_RETRIES - a
            && forall k :: 0 <= k < |run.delays| ==>
                 p.chat(a + k).Refused? && run.delays[k] == Delay(p.chat(a + k).retryAfter, a + k)
    decreases LLM_MAX_RETRIES - a
  {
    hide Delay;
    if Chat(p, a).calls > 1 {
      DelaysFrom(p, a + 1);
      var more := Chat(p, a + 1).delays;
      forall k | 0 < k <= |more| ensures Chat(p, a).delays[k] == Delay(p.chat(a + k).retryAfter, a + k) {
        assert more[k - 1] == Delay(p.chat(a + 1 + (k - 1)).retryAfter, a + 1 + (k - 1));
      }
    }
  }

  /**
   * The announced waits: after attempt k the provider's own delay, or five seconds doubled k times. With
   * three retries the maximum of a minute never comes into play.
   */
  lemma DelaysDouble(p: Provider)
    ensures var run := Chat(p, 0);
            && run.calls - 1 <= |run.delays| <= run.calls && |run.delays| <= LLM_MAX_RETRIES
            && forall k :: 0 <= k < |run.delays| ==>
                 && p.chat(k).Refused?
                 && run.delays[k] == if p.chat(k).retryAfter != 0 then p.chat(k).retryAfter
                                     else Doubled(LLM_BASE_RETRY_DELAY, k)
  {
    DelaysFrom(p, 0);
    var run := Chat(p, 0);
    assert Doubled(LLM_BASE_RETRY_DELAY, 0) == 5_000_000_000 && Doubled(LLM_BASE_RETRY_DELAY, 1) == 10_000_000_000;
    assert Doubled(LLM_BASE_RETRY_DELAY, 2) == 20_000_000_000;
    forall k | 0 <= k < |run.delays|
      ensures p.chat(k).Refused?
      ensures run.delays[k] == if p.chat(k).retryAfter != 0 then p.chat(k).retryAfter
              else Doubled(LLM_BASE_RETRY_DELAY, k)
    {
      assert run.delays[k] == Delay(p.chat(0 + k).retryAfter, 0 + k);
      assert k == 0 || k == 1 || k == 2;
    }
  }

  lemma ChatUnfolds(p: Provider, a: nat)
    requires a <= LLM_MAX_RETRIES
    ensures p.chat(a).Accepted? ==> Chat(p, a) == ChatRun(Some(p.chat(a).events), 1, [])
    ensures p.chat(a).Refused? && (!p.chat(a).retryable || a == LLM_MAX_RETRIES) ==> Chat(p, a) == ChatRun(None, 1, [])
    ensures p.chat(a).Refused? && p.chat(a).retryable && a < LLM_MAX_RETRIES && p.waitCancelled(a) ==>
              Chat(p, a) == ChatRun(None, 1, [Delay(p.chat(a).retryAfter, a)])
    ensures p.chat(a).Refused? && p.chat(a).retryable && a < LLM_MAX_RETRIES && !p.waitCancelled(a) ==>
              Chat(p, a) == ChatRun(Chat(p, a + 1).reply, Chat(p, a + 1).calls + 1,
                                    [Delay(p.chat(a).retryAfter, a)] + Chat(p, a + 1).delays)
  {
    hide Delay;
  }

  method ChatWithRetry(p: Provider) returns (reply: Option<seq<ChatEvent>>, calls: nat, delays: seq<int>)
    ensures ChatRun(reply, calls, delays) == Chat(p, 0)
    ensures 1 <= calls <= LLM_MAX_RETRIES + 1
  {
    hide Chat, Doubled;
    calls, delays := 0, [];
    var attempt := 0;
    while attempt <= LLM_MAX_RETRIES
      invariant 0 <= attempt <= LLM_MAX_RETRIES && calls == attempt
      invariant Chat(p, 0).reply == Chat(p, attempt).reply && Chat(p, 0).calls == calls + Chat(p, attempt).calls
      invariant Chat(p, 0).delays == delays + Chat(p, attempt).delays
      decreases LLM_MAX_RETRIES + 1 - attempt
    {
      ChatUnfolds(p, attempt);
      calls := calls + 1;
      match p.chat(attempt) {
        case Accepted(events) =>
          return Some(events), calls, delays;
        case Refused(retryable, retryAfter) =>
          if !retryable {
            return None, calls, delays;
          }
          var delay := retryAfter;
          if delay == 0 {
            delay := Doubled(LLM_BASE_RETRY_DELAY, attempt);
            if delay > LLM_MAX_RETRY_DELAY {
              delay := LLM_MAX_RETRY_DELAY;
            }
          }
          if attempt >= LLM_MAX_RETRIES {
            break;
          }
          assert delay == Delay(retryAfter, attempt);
          delays := delays + [delay];
          if p.waitCancelled(attempt) {
            return None, calls, delays;
          }
          attempt := attempt + 1;
      }
    }
    reply := None;
  }

  /** A settled model call. */
  type ModelCall = c: ChatRun | 1 <= c.calls <= LLM_MAX_RETRIES + 1 witness ChatRun(None, 1, [])
}
