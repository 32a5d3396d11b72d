/**
 * The approval protocol: requests register a one-place channel under their id and wait; responders
 * look the id up and send without blocking. Both sides interleave freely, responses may be late or
 * repeated, and a request may time out at any moment.
 */
module Approval {
  import opened Llm

  datatype Mode = Auto | Ask | Deny | Unknown(name: string)

  /** A channel with room for one value, and all values that were ever put into it. */
  datatype Channel = Channel(buffer: Option<bool>, delivered: seq<bool>)

  datatype Request =
    | New
    | Registered(channel: nat)
    | Decided(channel: nat, approved: bool, timedOut: bool)
    | Returned(via: Option<nat>, approved: bool, timedOut: bool)

  datatype Responder = Idle | Found(channel: nat, approved: bool)

  datatype State = State(
    mode: Mode, requests: map<string, Request>, channels: seq<Channel>, pending: map<string, nat>,
    responders: map<nat, Responder>)

  datatype Step =
    | Begin(id: string)
    | LookUp(r: nat, id: string, approved: bool)
    | Send(r: nat)
    | Discard(r: nat)
    | Receive(id: string)
    | TimeOut(id: string)
    | Unregister(id: string)

  predicate Asks(mode: Mode) {
    mode != Auto && mode != Deny
  }

  function SetRequest(s: State, id: string, q: Request): State {
    s.(requests := s.requests[id := q])
  }

  /** The responder has found a channel. */
  predicate HasChannel(s: State, r: nat) {
    r in s.responders && s.responders[r].Found? && s.responders[r].channel < |s.channels|
  }

  /** A send needs a free place in the channel; the default branch of the responder is for a full one. */
  predicate Enabled(s: State, step: Step) {
    match step
    case Begin(id) => id in s.requests && s.requests[id] == New
    case LookUp(r, _, _) => r in s.responders && s.responders[r] == Idle
    case Send(r) => HasChannel(s, r) && s.channels[s.responders[r].channel].buffer.None?
    case Discard(r) => HasChannel(s, r) && s.channels[s.responders[r].channel].buffer.Some?
    case Receive(id) =>
      && id in s.requests && s.requests[id].Registered?
      && s.requests[id].channel < |s.channels| && s.channels[s.requests[id].channel].buffer.Some?
    case TimeOut(id) => id in s.requests && s.requests[id].Registered?
    case Unregister(id) => id in s.requests && s.requests[id].Decided?
  }

  function Put(c: Channel, v: bool): Channel {
    Channel(Some(v), c.delivered + [v])
  }

  function After(s: State, step: Step): State
    requires Enabled(s, step)
  {
    match step
    case Begin(id) =>
      if s.mode == Auto then SetRequest(s, id, Returned(None, true, false))
      else if s.mode == Deny then SetRequest(s, id, Returned(None, false, false))
      else
        var c := |s.channels|;
        SetRequest(s, id, Registered(c)).(channels := s.channels + [Channel(None, [])], pending := s.pending[id := c])
    case LookUp(r, id, approved) =>
      if id in s.pending then s.(responders := s.responders[r := Found(s.pending[id], approved)]) else s
    case Send(r) =>
      var f := s.responders[r];
      s.(channels := s.channels[f.channel := Put(s.channels[f.channel], f.approved)],
        responders := s.responders[r := Idle])
    case Discard(r) => s.(responders := s.responders[r := Idle])
    case Receive(id) =>
      var c := s.requests[id].channel;
      SetRequest(s, id, Decided(c, s.channels[c].buffer.value, false))
        .(channels := s.channels[c := s.channels[c].(buffer := None)])
    case TimeOut(id) => SetRequest(s, id, Decided(s.requests[id].channel, false, true))
    case Unregister(id) =>
      var q := s.requests[id];
      SetRequest(s, id, Returned(Some(q.channel), q.approved, q.timedOut)).(pending := s.pending - {id})
  }

  ghost predicate Init(s: State) {
    && s.channels == [] && s.pending == map[]
    && (forall id :: id in s.requests ==> s.requests[id] == New)
    && forall r :: r in s.responders ==> s.responders[r] == Idle
  }

  ghost predicate IsRun(trace: seq<State>, steps: seq<Step>) {
    && |trace| == |steps| + 1 && Init(trace[0])
    && forall i :: 0 <= i < |steps| ==> Enabled(trace[i], steps[i]) && trace[i + 1] == After(trace[i], steps[i])
  }

  // ---------------------------------------------------------------- invariant

  function ChannelOf(q: Request): Option<nat> {
    match q
    case New => None
    case Registered(c) => Some(c)
    case Decided(c, _, _) => Some(c)
    case Returned(c, _, _) => c
  }

  predicate InFlight(q: Request) {
    q.Registered? || q.Decided?
  }

  /** What is still in the channel of a waiting request is the first thing delivered to it. */
  predicate Waits(c: Channel) {
    c.delivered == if c.buffer.Some? then [c.buffer.value] else []
  }

  /** The answer is the first thing delivered, unless the request timed out. */
  predicate Answers(c: Channel, approved: bool, timedOut: bool) {
    if timedOut then !approved else c.delivered != [] && c.delivered[0] == approved
  }

  predicate RequestOk(s: State, q: Request) {
    match q
    case New => true
    case Registered(c) => Asks(s.mode) && c < |s.channels| && Waits(s.channels[c])
    case Decided(c, approved, timedOut) =>
      Asks(s.mode) && c < |s.channels| && Answers(s.channels[c], approved, timedOut)
    case Returned(c, approved, timedOut) =>
      if c.Some? then Asks(s.mode) && c.value < |s.channels| && Answers(s.channels[c.value], approved, timedOut)
      else !Asks(s.mode) && approved == (s.mode == Auto) && !timedOut
  }

  predicate Shared(p: Request, q: Request) {
    ChannelOf(p).Some? && ChannelOf(p) == ChannelOf(q)
  }

  ghost predicate ChannelsDistinct(s: State) {
    forall a, b :: a in s.requests && b in s.requests && Shared(s.requests[a], s.requests[b]) ==> a == b
  }

  ghost predicate PendingOk(s: State) {
    && (forall id :: id in s.pending <==> id in s.requests && InFlight(s.requests[id]))
    && (forall id :: id in s.pending ==> ChannelOf(s.requests[id]) == Some(s.pending[id]))
  }

  ghost predicate Inv(s: State) {
    && (forall id :: id in s.requests ==> RequestOk(s, s.requests[id]))
    && (forall r :: r in s.responders && s.responders[r].Found? ==> s.responders[r].channel < |s.channels|)
    && (forall id :: id in s.requests && ChannelOf(s.requests[id]).Some? ==>
       ChannelOf(s.requests[id]).value < |s.channels|)
    && ChannelsDistinct(s) && PendingOk(s)
  }

  lemma RequestsStep(s: State, step: Step, id: string)
    requires Inv(s) && Enabled(s, step) && id in s.requests
    ensures var s' := After(s, step); id in s'.requests && RequestOk(s', s'.requests[id])
  {
    assert RequestOk(s, s.requests[id]);
    if step.Receive? {
      assert RequestOk(s, s.requests[step.id]);
      if step.id != id {
        assert !Shared(s.requests[step.id], s.requests[id]);
      }
    }
    if step.Send? {
      assert HasChannel(s, step.r);
    }
    hide Inv, PendingOk, ChannelsDistinct;
    if step.Receive? || step.Send? {
      OneChannelChanges(s, step, id);
    }
  }

  /** A step that uses a channel leaves the answers of the others alone. */
  lemma OneChannelChanges(s: State, step: Step, id: string)
    requires Enabled(s, step) && id in s.requests && RequestOk(s, s.requests[id]) && (step.Receive? || step.Send?)
    requires step.Receive? ==> RequestOk(s, s.requests[step.id])
    requires step.Receive? && step.id != id ==> !Shared(s.requests[step.id], s.requests[id])
    ensures var s' := After(s, step); id in s'.requests && RequestOk(s', s'.requests[id])
  {
  }

  lemma DistinctStep(s: State, step: Step)
    requires Inv(s) && Enabled(s, step)
    ensures ChannelsDistinct(After(s, step))
  {
    hide RequestOk, PendingOk;
  }

  lemma PendingStep(s: State, step: Step)
    requires Inv(s) && Enabled(s, step)
    ensures PendingOk(After(s, step))
  {
    hide RequestOk, ChannelsDistinct;
  }

  lemma RequestsStay(s: State, step: Step)
    requires Enabled(s, step)
    ensures After(s, step).requests.Keys == s.requests.Keys
  {
  }

  lemma ChannelsStep(s: State, step: Step)
    requires Inv(s) && Enabled(s, step)
    ensures var s' := After(s, step);
            && (forall r :: r in s'.responders && s'.responders[r].Found? ==> s'.responders[r].channel < |s'.channels|)
            && (forall id :: id in s'.requests && ChannelOf(s'.requests[id]).Some? ==>
                  ChannelOf(s'.requests[id]).value < |s'.channels|)
  {
    hide RequestOk, ChannelsDistinct;
  }

  lemma InvStep(s: State, step: Step)
    requires Inv(s) && Enabled(s, step)
    ensures Inv(After(s, step))
  {
    var s' := After(s, step);
    RequestsStay(s, step);
    ChannelsStep(s, step);
    DistinctStep(s, step);
    PendingStep(s, step);
    hide RequestOk, ChannelsDistinct, PendingOk, After;
    forall id | id in s'.requests ensures RequestOk(s', s'.requests[id]) {
      RequestsStep(s, step, id);
    }
  }

  lemma {:induction false} InvAlways(trace: seq<State>, steps: seq<Step>, n: nat)
    requires IsRun(trace, steps) && n < |trace|
    ensures Inv(trace[n])
  {
    hide After;
    if n > 0 {
      InvAlways(trace, steps, n - 1);
      InvStep(trace[n - 1], steps[n - 1]);
    }
  }

  /**
   * In every interleaving the pending map holds exactly the requests in flight, and in a mode that
   * asks, a request returns true only if the first response delivered to it was an approval.
   */
  lemma ApprovalSafety(trace: seq<State>, steps: seq<Step>, n: nat, id: string)
    requires IsRun(trace, steps) && n < |trace| && id in trace[n].requests
    ensures var s := trace[n];
            var q := s.requests[id];
            && (id in s.pending <==> InFlight(q))
            && (q.Returned? && Asks(s.mode) ==>
                  && q.via.Some? && q.via.value < |s.channels|
                  && var c := s.channels[q.via.value];
                     && (q.approved ==> !q.timedOut && c.delivered != [] && c.delivered[0])
                     && (!q.timedOut ==> c.delivered != [] && c.delivered[0] == q.approved))
            && (q.Returned? && s.mode == Deny ==> !q.approved)
            && (q.Returned? && s.mode == Auto ==> q.approved && !q.timedOut)
  {
    InvAlways(trace, steps, n);
    assert RequestOk(trace[n], trace[n].requests[id]);
  }

  /**
   * Respond never blocks: at every point of every run, a responder that found a channel can either send or
   * discard its response, and is done after it. What it sends is delivered, what it discards comes second.
   */
  lemma RespondNeverBlocks(trace: seq<State>, steps: seq<Step>, n: nat, r: nat)
    requires IsRun(trace, steps) && n < |trace| && r in trace[n].responders && trace[n].responders[r].Found?
    ensures var s, c := trace[n], trace[n].responders[r].channel;
            && c < |s.channels|
            && (Enabled(s, Send(r)) <==> !Enabled(s, Discard(r)))
            && (Enabled(s, Send(r)) ==>
                  && After(s, Send(r)).responders[r] == Idle
                  && After(s, Send(r)).channels[c].delivered == s.channels[c].delivered + [s.responders[r].approved])
            && (Enabled(s, Discard(r)) ==>
                  && After(s, Discard(r)).responders[r] == Idle && After(s, Discard(r)).channels == s.channels
                  && s.channels[c].delivered != [])
  {
    InvAlways(trace, steps, n);
    BufferedIsDelivered(trace, steps, n);
  }

  ghost predicate BuffersOk(s: State) {
    forall c :: 0 <= c < |s.channels| && s.channels[c].buffer.Some? ==> s.channels[c].delivered != []
  }

  lemma {:induction false} BufferedIsDelivered(trace: seq<State>, steps: seq<Step>, n: nat)
    requires IsRun(trace, steps) && n < |trace|
    ensures BuffersOk(trace[n])
  {
    if n > 0 {
      BufferedIsDelivered(trace, steps, n - 1);
    }
  }

  /**
   * A request never hangs: one that waits can time out, which denies it, or takes what is in its channel, and one
   * that is decided returns just that and is no longer pending.
   */
  lemma RequestReturns(trace: seq<State>, steps: seq<Step>, n: nat, id: string)
    requires IsRun(trace, steps) && n < |trace| && id in trace[n].requests
    ensures var s, q := trace[n], trace[n].requests[id];
            && (q.New? ==> Enabled(s, Begin(id)))
            && (q.Registered? ==>
                  && q.channel < |s.channels|
                  && Enabled(s, TimeOut(id)) && After(s, TimeOut(id)).requests[id] == Decided(q.channel, false, true)
                  && (Enabled(s, Receive(id)) <==> s.channels[q.channel].buffer.Some?)
                  && (Enabled(s, Receive(id)) ==>
                        After(s, Receive(id)).requests[id]
                        == Decided(q.channel, s.channels[q.channel].buffer.value, false)))
            && (q.Decided? ==>
                  && Enabled(s, Unregister(id)) && id !in After(s, Unregister(id)).pending
                  && After(s, Unregister(id)).requests[id] == Returned(Some(q.channel), q.approved, q.timedOut))
  {
    InvAlways(trace, steps, n);
    assert RequestOk(trace[n], trace[n].requests[id]);
  }

  // ---------------------------------------------------------------- who approved

  /** Step i is a responder's answer to the request, which is in flight. */
  predicate Responds(trace: seq<State>, steps: seq<Step>, i: nat, id: string, c: nat, approved: bool)
    requires i < |steps| && i < |trace|
  {
    steps[i].LookUp? && steps[i].id == id && steps[i].approved == approved
    && id in trace[i].pending && trace[i].pending[id] == c
  }

  ghost predicate Responded(trace: seq<State>, steps: seq<Step>, n: nat, c: nat, approved: bool)
    requires n <= |steps| < |trace|
  {
    exists i, id :: 0 <= i < n && Responds(trace, steps, i, id, c, approved)
  }

  lemma FoundStep(s: State, step: Step, r: nat)
    requires Enabled(s, step) && r in After(s, step).responders && After(s, step).responders[r].Found?
    ensures || (r in s.responders && s.responders[r] == After(s, step).responders[r])
            || (&& step.LookUp? && step.r == r && step.id in s.pending
                && After(s, step).responders[r] == Found(s.pending[step.id], step.approved))
  {
  }

  /** What a responder carries was passed to it as the answer to a request in flight. */
  lemma {:induction false} FoundBy(trace: seq<State>, steps: seq<Step>, n: nat, r: nat)
    requires IsRun(trace, steps) && n < |trace| && r in trace[n].responders && trace[n].responders[r].Found?
    ensures Responded(trace, steps, n, trace[n].responders[r].channel, trace[n].responders[r].approved)
  {
    hide After, Enabled;
    if n > 0 {
      FoundStep(trace[n - 1], steps[n - 1], r);
      var f := trace[n].responders[r];
      if r in trace[n - 1].responders && trace[n - 1].responders[r] == f {
        FoundBy(trace, steps, n - 1, r);
        var i, id :| 0 <= i < n - 1 && Responds(trace, steps, i, id, f.channel, f.approved);
        assert Responds(trace, steps, i, id, f.channel, f.approved);
      } else {
        assert Responds(trace, steps, n - 1, steps[n - 1].id, f.channel, f.approved);
      }
    }
  }

  lemma DeliveredStep(s: State, step: Step, c: nat, k: nat)
    requires Enabled(s, step) && c < |After(s, step).channels| && k < |After(s, step).channels[c].delivered|
    ensures || (c < |s.channels| && k < |s.channels[c].delivered|
                && s.channels[c].delivered[k] == After(s, step).channels[c].delivered[k])
            || (&& step.Send? && s.responders[step.r].channel == c
                && After(s, step).channels[c].delivered[k] == s.responders[step.r].approved)
  {
  }

  /** What is delivered to a channel was passed to a responder as the answer to the request that waits there. */
  lemma {:induction false} DeliveredBy(trace: seq<State>, steps: seq<Step>, n: nat, c: nat, k: nat)
    requires IsRun(trace, steps) && n < |trace| && c < |trace[n].channels| && k < |trace[n].channels[c].delivered|
    ensures Responded(trace, steps, n, c, trace[n].channels[c].delivered[k])
  {
    hide After, Enabled;
    if n > 0 {
      DeliveredStep(trace[n - 1], steps[n - 1], c, k);
      var v := trace[n].channels[c].delivered[k];
      if c < |trace[n - 1].channels| && k < |trace[n - 1].channels[c].delivered|
         && trace[n - 1].channels[c].delivered[k] == v {
        DeliveredBy(trace, steps, n - 1, c, k);
      } else {
        SenderFound(trace[n - 1], steps[n - 1].r);
        FoundBy(trace, steps, n - 1, steps[n - 1].r);
      }
      var i, id :| 0 <= i < n - 1 && Responds(trace, steps, i, id, c, v);
      assert Responds(trace, steps, i, id, c, v);
    }
  }

  lemma SenderFound(s: State, r: nat)
    requires Enabled(s, Send(r))
    ensures r in s.responders && s.responders[r].Found?
  {
  }

  lemma ChannelStep(s: State, step: Step, id: string)
    requires Enabled(s, step) && id in s.requests
    ensures id in After(s, step).requests
    ensures ChannelOf(s.requests[id]).Some? ==> ChannelOf(After(s, step).requests[id]) == ChannelOf(s.requests[id])
  {
  }

  /** A request keeps its channel. */
  lemma {:induction false} ChannelStays(trace: seq<State>, steps: seq<Step>, m: nat, n: nat, id: string)
    requires IsRun(trace, steps) && m <= n < |trace| && id in trace[m].requests
    requires ChannelOf(trace[m].requests[id]).Some?
    ensures id in trace[n].requests && ChannelOf(trace[n].requests[id]) == ChannelOf(trace[m].requests[id])
  {
    hide After, Enabled;
    if m < n {
      ChannelStays(trace, steps, m, n - 1, id);
      ChannelStep(trace[n - 1], steps[n - 1], id);
    }
  }

  /** Channels are not shared, so what was answered for a channel was answered for the request that has it. */
  lemma AnswersItsRequest(
    trace: seq<State>, steps: seq<Step>, n: nat, id: string, i: nat, other: string, c: nat, v: bool)
    requires IsRun(trace, steps) && i < n < |trace| && id in trace[n].requests
    requires ChannelOf(trace[n].requests[id]) == Some(c) && Responds(trace, steps, i, other, c, v)
    ensures other == id
  {
    InvAlways(trace, steps, i);
    InvAlways(trace, steps, n);
    hide IsRun;
    assert other in trace[i].requests && ChannelOf(trace[i].requests[other]) == Some(c);
    ChannelStays(trace, steps, i, n, other);
    assert Shared(trace[n].requests[id], trace[n].requests[other]);
  }

  /**
   * In a mode that asks, a request that returns without timing out returns what some responder was called with for
   * this very request, while it was in flight. So it is approved only if somebody approved it.
   */
  lemma SomebodyAnswered(trace: seq<State>, steps: seq<Step>, n: nat, id: string) returns (i: nat)
    requires IsRun(trace, steps) && n < |trace| && id in trace[n].requests
    requires trace[n].requests[id].Returned? && Asks(trace[n].mode) && !trace[n].requests[id].timedOut
    ensures i < n && steps[i].LookUp? && steps[i].id == id && steps[i].approved == trace[n].requests[id].approved
    ensures id in trace[i].pending
  {
    var q := trace[n].requests[id];
    ApprovalSafety(trace, steps, n, id);
    var c := q.via.value;
    DeliveredBy(trace, steps, n, c, 0);
    var other;
    i, other :| 0 <= i < n && Responds(trace, steps, i, other, c, q.approved);
    AnswersItsRequest(trace, steps, n, id, i, other, c, q.approved);
  }

  // ---------------------------------------------------------------- the gate in front of the tools

  /** Whether executeTool goes on to run the tool, given the answer of the approver it asked. */
  function ReachesTool(approver: Option<Mode>, autoApprove: bool, answer: Request): bool {
    if approver.Some? && !autoApprove then answer.Returned? && answer.approved && !answer.timedOut else true
  }

  /** The first response delivered for the request is an approval. */
  ghost predicate FirstApproves(s: State, q: Request) {
    && q.Returned? && q.via.Some? && q.via.value < |s.channels|
    && s.channels[q.via.value].delivered != [] && s.channels[q.via.value].delivered[0]
  }

  /**
   * With an approver whose request has returned, a tool runs exactly without approver, in an auto-approved context,
   * in auto mode, or, in a mode that asks, when the request did not time out and the first response delivered for
   * it was an approval, with which some responder was called for this request.
   */
  lemma ToolRunsExactlyWhen(trace: seq<State>, steps: seq<Step>, n: nat, id: string, approver: Option<Mode>,
    autoApprove: bool)
    requires IsRun(trace, steps) && n < |trace| && id in trace[n].requests
    requires approver.Some? ==> approver.value == trace[n].mode
    requires approver.Some? && !autoApprove ==> trace[n].requests[id].Returned?
    ensures var s, q := trace[n], trace[n].requests[id];
            ReachesTool(approver, autoApprove, q) <==>
            || approver.None? || autoApprove || s.mode == Auto
            || (Asks(s.mode) && FirstApproves(s, q) && !q.timedOut)
    ensures approver.Some? && !autoApprove && Asks(trace[n].mode)
            && ReachesTool(approver, autoApprove, trace[n].requests[id]) ==>
              exists i :: 0 <= i < n && steps[i].LookUp? && steps[i].id == id && steps[i].approved
                          && id in trace[i].pending
  {
    ApprovalSafety(trace, steps, n, id);
    if approver.Some? && !autoApprove && Asks(trace[n].mode)
       && ReachesTool(approver, autoApprove, trace[n].requests[id]) {
      var i := SomebodyAnswered(trace, steps, n, id);
    }
  }
}
