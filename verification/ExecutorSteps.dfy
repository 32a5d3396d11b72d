/**
 * The executor: batches of tasks that share one counting semaphore. Every goroutine of every batch
 * takes its steps in any order; a running task may start a batch of its own and wait for it. A task
 * that has a timeout gets a deadline, and everything started from the task ends its waits with it.
 */
module ExecutorSteps {
  import opened Llm

  datatype TaskId = TaskId(batch: nat, index: nat)

  datatype Pc = Waiting | Running | Nested(child: nat) | Wrote | Done

  /** A task, whether its deadline has passed, and its result slot: how often it was written, with which id. */
  datatype Task = Task(pc: Pc, expired: bool, writes: nat, written: string)

  datatype Batch = Batch(ids: seq<string>, parent: Option<TaskId>, cancelled: bool, returned: bool)

  datatype State = State(limit: nat, timeout: int, slotsHeld: int, batches: seq<Batch>, tasks: map<TaskId, Task>)

  datatype Step =
    | Start(ids: seq<string>, parent: Option<TaskId>)
    | Cancel(batch: nat)
    | Acquire(t: TaskId)
    | Expire(t: TaskId)
    | GiveUp(t: TaskId)
    | Finish(t: TaskId)
    | Release(t: TaskId)
    | Return(batch: nat)

  predicate Holds(pc: Pc) {
    pc.Running? || pc.Nested? || pc.Wrote?
  }

  /** The tasks between acquire and release. */
  function Holders(s: State): set<TaskId> {
    set t | t in s.tasks && Holds(s.tasks[t].pc)
  }

  predicate AllDone(s: State, b: nat) {
    forall t :: t in s.tasks && t.batch == b ==> s.tasks[t].pc == Done
  }

  predicate InBatch(s: State, t: TaskId) {
    t in s.tasks && t.batch < |s.batches| && t.index < |s.batches[t.batch].ids|
  }

  function IdOf(s: State, t: TaskId): string
    requires InBatch(s, t)
  {
    s.batches[t.batch].ids[t.index]
  }

  function Move(s: State, t: TaskId, task: Task, held: int): State {
    s.(tasks := s.tasks[t := task], slotsHeld := held)
  }

  /** The tasks of a new batch, all waiting, their slots at the zero value. */
  function AddTasks(tasks: map<TaskId, Task>, b: nat, n: nat): (r: map<TaskId, Task>)
    ensures forall t :: t in r <==> t in tasks || (t.batch == b && t.index < n)
    ensures forall t :: t in r ==> r[t] == if t.batch == b && t.index < n then Task(Waiting, false, 0, "") else tasks[t]
  {
    if n == 0 then tasks else AddTasks(tasks, b, n - 1)[TaskId(b, n - 1) := Task(Waiting, false, 0, "")]
  }

  /**
   * The context a batch waits on is done: it was cancelled, or the task that started the batch is past
   * its deadline, or the context of that task's own batch is done.
   */
  predicate CtxDone(s: State, b: nat)
    requires b < |s.batches|
  {
    || s.batches[b].cancelled
    || (&& s.batches[b].parent.Some? && s.batches[b].parent.value in s.tasks && s.batches[b].parent.value.batch < b
        && (s.tasks[s.batches[b].parent.value].expired || CtxDone(s, s.batches[b].parent.value.batch)))
  }

  // ---------------------------------------------------------------- steps

  /** The goroutine or the caller can take this step. */
  predicate Enabled(s: State, step: Step) {
    match step
    case Start(ids, parent) => parent.Some? ==> InBatch(s, parent.value) && s.tasks[parent.value].pc == Running
    case Cancel(b) => b < |s.batches|
    case Acquire(t) => InBatch(s, t) && s.tasks[t].pc == Waiting && s.slotsHeld < s.limit
    case GiveUp(t) => InBatch(s, t) && s.tasks[t].pc == Waiting && CtxDone(s, t.batch)
    case Expire(t) =>
      InBatch(s, t) && s.timeout > 0 && (s.tasks[t].pc.Running? || s.tasks[t].pc.Nested?) && !s.tasks[t].expired
    case Finish(t) => InBatch(s, t) && s.tasks[t].pc == Running
    case Release(t) => InBatch(s, t) && s.tasks[t].pc == Wrote
    case Return(b) => b < |s.batches| && !s.batches[b].returned && AllDone(s, b)
  }

  function AfterStart(s: State, ids: seq<string>, parent: Option<TaskId>): State
    requires parent.Some? ==> parent.value in s.tasks
  {
    var b := |s.batches|;
    var tasks := if parent.Some? then s.tasks[parent.value := s.tasks[parent.value].(pc := Nested(b))] else s.tasks;
    s.(batches := s.batches + [Batch(ids, parent, false, false)], tasks := AddTasks(tasks, b, |ids|))
  }

  function AfterReturn(s: State, b: nat): State
    requires b < |s.batches|
  {
    var parent := s.batches[b].parent;
    s.(batches := s.batches[b := s.batches[b].(returned := true)],
       tasks := if parent.Some? && parent.value in s.tasks
                then s.tasks[parent.value := s.tasks[parent.value].(pc := Running)] else s.tasks)
  }

  /** The task with its result written. */
  function Written(s: State, t: TaskId, pc: Pc): Task
    requires InBatch(s, t)
  {
    s.tasks[t].(pc := pc, writes := s.tasks[t].writes + 1, written := IdOf(s, t))
  }

  function After(s: State, step: Step): State
    requires Enabled(s, step)
  {
    match step
    case Start(ids, parent) => AfterStart(s, ids, parent)
    case Cancel(b) => s.(batches := s.batches[b := s.batches[b].(cancelled := true)])
    case Acquire(t) => Move(s, t, s.tasks[t].(pc := Running), s.slotsHeld + 1)
    case Expire(t) => s.(tasks := s.tasks[t := s.tasks[t].(expired := true)])
    case GiveUp(t) => Move(s, t, Written(s, t, Done), s.slotsHeld)
    case Finish(t) => Move(s, t, Written(s, t, Wrote), s.slotsHeld)
    case Release(t) => Move(s, t, s.tasks[t].(pc := Done), s.slotsHeld - 1)
    case Return(b) => AfterReturn(s, b)
  }

  const DEFAULT_CONCURRENCY: nat := 4
  const DEFAULT_TOOL_TIMEOUT: int := 120_000_000_000

  /** The slots of an executor: a concurrency that is not positive stands for the default. */
  function Limit(concurrency: int): (limit: nat)
    ensures limit > 0
  {
    if concurrency <= 0 then DEFAULT_CONCURRENCY else concurrency
  }

  /** The timeout of every task: zero stands for the default, and only a negative one for none. */
  function Timeout(configured: int): (timeout: int)
    ensures timeout > 0 <==> configured >= 0
  {
    if configured == 0 then DEFAULT_TOOL_TIMEOUT else configured
  }

  function Init(concurrency: int, configured: int): State {
    State(Limit(concurrency), Timeout(configured), 0, [], map[])
  }

  ghost predicate IsRun(trace: seq<State>, steps: seq<Step>, concurrency: int, configured: int) {
    && |trace| == |steps| + 1 && trace[0] == Init(concurrency, configured)
    && forall i :: 0 <= i < |steps| ==> Enabled(trace[i], steps[i]) && trace[i + 1] == After(trace[i], steps[i])
  }

  // ---------------------------------------------------------------- the invariant

  /** Every batch has exactly one task per id. */
  ghost predicate Shape(s: State) {
    forall t :: t in s.tasks <==> t.batch < |s.batches| && t.index < |s.batches[t.batch].ids|
  }

  /** A slot is written exactly when its task has written, once, with the task's id. */
  predicate SlotOk(task: Task, id: string) {
    if task.pc.Wrote? || task.pc.Done? then task.writes == 1 && task.written == id else task.writes == 0
  }

  ghost predicate SlotsOk(s: State) {
    forall t :: InBatch(s, t) ==> SlotOk(s.tasks[t], IdOf(s, t))
  }

  ghost predicate SemaphoreOk(s: State) {
    s.slotsHeld == |Holders(s)| <= s.limit
  }

  /** A task that waits for a batch is that batch's parent; the batch is later and has not returned. */
  predicate WaitsRight(s: State, t: TaskId)
    requires t in s.tasks
  {
    s.tasks[t].pc.Nested? ==>
      && t.batch < s.tasks[t].pc.child < |s.batches|
      && s.batches[s.tasks[t].pc.child].parent == Some(t) && !s.batches[s.tasks[t].pc.child].returned
  }

  predicate BatchRight(s: State, b: nat)
    requires b < |s.batches|
  {
    && (s.batches[b].returned ==> AllDone(s, b))
    && (!s.batches[b].returned && s.batches[b].parent.Some? ==>
          s.batches[b].parent.value in s.tasks && s.tasks[s.batches[b].parent.value].pc == Nested(b))
  }

  ghost predicate NestingOk(s: State) {
    && (forall t :: t in s.tasks ==> WaitsRight(s, t))
    && (forall b :: 0 <= b < |s.batches| ==> BatchRight(s, b))
  }

  ghost predicate Inv(s: State) {
    Shape(s) && SlotsOk(s) && SemaphoreOk(s) && NestingOk(s)
  }

  /** A step of one task that neither waits for a batch before nor after. */
  lemma MoveNesting(s: State, t: TaskId, task: Task, held: int)
    requires Shape(s) && NestingOk(s) && t in s.tasks
    requires !s.tasks[t].pc.Nested? && !task.pc.Nested? && s.tasks[t].pc != Done
    ensures NestingOk(Move(s, t, task, held))
  {
    var s' := Move(s, t, task, held);
    forall u | u in s'.tasks ensures WaitsRight(s', u) {
      assert WaitsRight(s, u);
    }
    forall b | 0 <= b < |s'.batches| ensures BatchRight(s', b) {
      assert BatchRight(s, b);
    }
  }

  lemma MoveHolders(s: State, t: TaskId, task: Task, held: int)
    requires t in s.tasks
    ensures |Holders(Move(s, t, task, held))|
            == |Holders(s)| + (if Holds(task.pc) then 1 else 0) - (if Holds(s.tasks[t].pc) then 1 else 0)
  {
    var s' := Move(s, t, task, held);
    if Holds(task.pc) {
      assert Holders(s') == Holders(s) + {t};
    } else {
      assert Holders(s') == Holders(s) - {t};
    }
  }

  lemma MoveKeeps(s: State, t: TaskId, task: Task, held: int)
    requires Inv(s) && InBatch(s, t) && SlotOk(task, IdOf(s, t))
    requires !s.tasks[t].pc.Nested? && !task.pc.Nested? && s.tasks[t].pc != Done
    requires held <= s.limit
    requires held == s.slotsHeld + (if Holds(task.pc) then 1 else 0) - (if Holds(s.tasks[t].pc) then 1 else 0)
    ensures Inv(Move(s, t, task, held))
  {
    var s' := Move(s, t, task, held);
    MoveNesting(s, t, task, held);
    MoveHolders(s, t, task, held);
    hide NestingOk, Holders, Holds;
    forall u | InBatch(s', u) ensures SlotOk(s'.tasks[u], IdOf(s', u)) {
      assert InBatch(s, u);
    }
  }

  lemma CancelKeeps(s: State, b: nat)
    requires Inv(s) && b < |s.batches|
    ensures Inv(s.(batches := s.batches[b := s.batches[b].(cancelled := true)]))
  {
    var s' := s.(batches := s.batches[b := s.batches[b].(cancelled := true)]);
    assert Holders(s') == Holders(s);
    forall u | InBatch(s', u) ensures SlotOk(s'.tasks[u], IdOf(s', u)) {
      assert InBatch(s, u);
    }
    forall u | u in s'.tasks ensures WaitsRight(s', u) {
      assert WaitsRight(s, u);
    }
    forall c | 0 <= c < |s'.batches| ensures BatchRight(s', c) {
      assert BatchRight(s, c);
    }
  }

  lemma ExpireKeeps(s: State, t: TaskId)
    requires Inv(s) && InBatch(s, t)
    ensures Inv(s.(tasks := s.tasks[t := s.tasks[t].(expired := true)]))
  {
    var s' := s.(tasks := s.tasks[t := s.tasks[t].(expired := true)]);
    assert Holders(s') == Holders(s);
    forall u | InBatch(s', u) ensures SlotOk(s'.tasks[u], IdOf(s', u)) {
      assert InBatch(s, u) && SlotOk(s.tasks[u], IdOf(s, u));
    }
    forall u | u in s'.tasks ensures WaitsRight(s', u) {
      assert WaitsRight(s, u);
    }
    forall c | 0 <= c < |s'.batches| ensures BatchRight(s', c) {
      assert BatchRight(s, c);
    }
  }

  lemma StartNesting(s: State, ids: seq<string>, parent: Option<TaskId>)
    requires Shape(s) && NestingOk(s)
             && (parent.Some? ==> parent.value in s.tasks && s.tasks[parent.value].pc == Running)
    ensures NestingOk(AfterStart(s, ids, parent))
  {
    var s' := AfterStart(s, ids, parent);
    forall u | u in s'.tasks ensures WaitsRight(s', u) {
      if u in s.tasks {
        assert WaitsRight(s, u);
      }
    }
    forall c | 0 <= c < |s'.batches| ensures BatchRight(s', c) {
      if c < |s.batches| {
        assert BatchRight(s, c);
      }
    }
  }

  lemma StartSlots(s: State, ids: seq<string>, parent: Option<TaskId>)
    requires Shape(s) && SlotsOk(s) && (parent.Some? ==> parent.value in s.tasks && s.tasks[parent.value].pc == Running)
    ensures Shape(AfterStart(s, ids, parent)) && SlotsOk(AfterStart(s, ids, parent))
  {
    var s' := AfterStart(s, ids, parent);
    forall u | InBatch(s', u) ensures SlotOk(s'.tasks[u], IdOf(s', u)) {
      if u in s.tasks {
        assert InBatch(s, u) && SlotOk(s.tasks[u], IdOf(s, u));
      }
    }
  }

  lemma StartHolders(s: State, ids: seq<string>, parent: Option<TaskId>)
    requires Shape(s) && (parent.Some? ==> parent.value in s.tasks && s.tasks[parent.value].pc == Running)
    ensures Holders(AfterStart(s, ids, parent)) == Holders(s)
  {
  }

  lemma StartKeeps(s: State, ids: seq<string>, parent: Option<TaskId>)
    requires Inv(s) && (parent.Some? ==> parent.value in s.tasks && s.tasks[parent.value].pc == Running)
    ensures Inv(AfterStart(s, ids, parent))
  {
    StartNesting(s, ids, parent);
    StartSlots(s, ids, parent);
    StartHolders(s, ids, parent);
    hide NestingOk, SlotsOk, Holders, Shape;
  }

  lemma ReturnNesting(s: State, b: nat)
    requires Shape(s) && NestingOk(s) && Enabled(s, Return(b))
    ensures NestingOk(AfterReturn(s, b))
  {
    var s' := AfterReturn(s, b);
    assert BatchRight(s, b);
    forall u | u in s'.tasks ensures WaitsRight(s', u) {
      assert WaitsRight(s, u);
    }
    forall c | 0 <= c < |s'.batches| ensures BatchRight(s', c) {
      assert BatchRight(s, c);
    }
  }

  lemma ReturnKeeps(s: State, b: nat)
    requires Inv(s) && Enabled(s, Return(b))
    ensures Inv(AfterReturn(s, b))
  {
    var s' := AfterReturn(s, b);
    ReturnNesting(s, b);
    assert BatchRight(s, b);
    assert Holders(s') == Holders(s);
    forall u | InBatch(s', u) ensures SlotOk(s'.tasks[u], IdOf(s', u)) {
      assert InBatch(s, u) && SlotOk(s.tasks[u], IdOf(s, u));
    }
  }

  lemma InvStep(s: State, step: Step)
    requires Inv(s) && Enabled(s, step)
    ensures Inv(After(s, step))
  {
    hide AfterStart, AfterReturn, Move;
    match step
    case Start(ids, parent) => StartKeeps(s, ids, parent);
    case Cancel(b) => CancelKeeps(s, b);
    case Acquire(t) => MoveKeeps(s, t, s.tasks[t].(pc := Running), s.slotsHeld + 1);
    case Expire(t) => ExpireKeeps(s, t);
    case GiveUp(t) => MoveKeeps(s, t, Written(s, t, Done), s.slotsHeld);
    case Finish(t) => MoveKeeps(s, t, Written(s, t, Wrote), s.slotsHeld);
    case Release(t) => MoveKeeps(s, t, s.tasks[t].(pc := Done), s.slotsHeld - 1);
    case Return(b) => ReturnKeeps(s, b);
  }

  lemma {:induction false} InvAlways(trace: seq<State>, steps: seq<Step>, concurrency: int, configured: int, n: nat)
    requires IsRun(trace, steps, concurrency, configured) && n < |trace|
    ensures Inv(trace[n]) && trace[n].limit == Limit(concurrency) && trace[n].timeout == Timeout(configured)
  {
    hide After;
    if n == 0 {
      InitInv(concurrency, configured);
    } else {
      InvAlways(trace, steps, concurrency, configured, n - 1);
      InvStep(trace[n - 1], steps[n - 1]);
      SettingsStay(trace[n - 1], steps[n - 1]);
    }
  }

  lemma InitInv(concurrency: int, configured: int)
    ensures Inv(Init(concurrency, configured))
  {
    assert Holders(Init(concurrency, configured)) == {};
  }

  lemma SettingsStay(s: State, step: Step)
    requires Enabled(s, step)
    ensures After(s, step).limit == s.limit && After(s, step).timeout == s.timeout
  {
  }

  /**
   * In every interleaving the slots held are exactly the tasks between acquire and release and never
   * exceed the limit, and a batch that has returned holds none and has every result slot written
   * exactly once, with the id of its task.
   */
  lemma ExecutorSafety(trace: seq<State>, steps: seq<Step>, concurrency: int, configured: int, n: nat)
    requires IsRun(trace, steps, concurrency, configured) && n < |trace|
    ensures var s := trace[n];
            && s.slotsHeld == |Holders(s)| <= s.limit && s.limit == (if concurrency <= 0 then 4 else concurrency)
            && s.timeout == (if configured == 0 then 120_000_000_000 else configured)
            && forall t :: InBatch(s, t) && s.batches[t.batch].returned ==>
                 t !in Holders(s) && s.tasks[t].writes == 1 && s.tasks[t].written == IdOf(s, t)
  {
    InvAlways(trace, steps, concurrency, configured, n);
    var s := trace[n];
    forall t | InBatch(s, t) && s.batches[t.batch].returned
      ensures t !in Holders(s) && s.tasks[t].writes == 1 && s.tasks[t].written == IdOf(s, t)
    {
      assert BatchRight(s, t.batch) && SlotOk(s.tasks[t], IdOf(s, t));
    }
  }

  // ---------------------------------------------------------------- cancellation

  /** Batch c is batch b, or was started by a task of a batch below b. */
  predicate Below(s: State, c: nat, b: nat)
    requires c < |s.batches|
  {
    || c == b
    || (&& s.batches[c].parent.Some? && s.batches[c].parent.value in s.tasks && s.batches[c].parent.value.batch < c
        && Below(s, s.batches[c].parent.value.batch, b))
  }

  lemma {:induction false} DoneBelow(s: State, c: nat, b: nat)
    requires b < |s.batches| && c < |s.batches| && Below(s, c, b) && CtxDone(s, b)
    ensures CtxDone(s, c)
  {
    if c != b {
      DoneBelow(s, s.batches[c].parent.value.batch, b);
    }
  }

  /** Cancelling a batch reaches every task that waits for a slot, in it or in a batch started below it. */
  lemma CancelReaches(s: State, b: nat, t: TaskId)
    requires Enabled(s, Cancel(b))
    requires var s' := After(s, Cancel(b));
             InBatch(s', t) && s'.tasks[t].pc == Waiting && Below(s', t.batch, b)
    ensures Enabled(After(s, Cancel(b)), GiveUp(t))
  {
    DoneBelow(After(s, Cancel(b)), t.batch, b);
  }

  /** So does the deadline of a task: it reaches every task that waits below the batch it started. */
  lemma DeadlineReaches(s: State, u: TaskId, b: nat, t: TaskId)
    requires Enabled(s, Expire(u)) && b < |s.batches| && s.batches[b].parent == Some(u) && u.batch < b
    requires var s' := After(s, Expire(u));
             InBatch(s', t) && s'.tasks[t].pc == Waiting && Below(s', t.batch, b)
    ensures Enabled(After(s, Expire(u)), GiveUp(t))
  {
    DoneBelow(After(s, Expire(u)), t.batch, b);
  }

  /** Only what waits gives up, and only when its context is done: nothing else is cut short. */
  lemma GivesUpExactlyWhen(s: State, t: TaskId)
    requires InBatch(s, t)
    ensures Enabled(s, GiveUp(t)) <==>
            && s.tasks[t].pc == Waiting
            && exists b :: 0 <= b <= t.batch && Below(s, t.batch, b)
                           && (s.batches[b].cancelled || ParentExpired(s, b))
  {
    CtxDoneExactlyWhen(s, t.batch);
  }

  /** The task that started the batch is past its deadline. */
  predicate ParentExpired(s: State, b: nat)
    requires b < |s.batches|
  {
    && s.batches[b].parent.Some? && s.batches[b].parent.value in s.tasks && s.batches[b].parent.value.batch < b
    && s.tasks[s.batches[b].parent.value].expired
  }

  lemma {:induction false} CtxDoneExactlyWhen(s: State, c: nat)
    requires c < |s.batches|
    ensures CtxDone(s, c) <==>
            exists b :: 0 <= b <= c && Below(s, c, b) && (s.batches[b].cancelled || ParentExpired(s, b))
  {
    var parent := s.batches[c].parent;
    if s.batches[c].cancelled || ParentExpired(s, c) {
      assert Below(s, c, c);
    } else if parent.Some? && parent.value in s.tasks && parent.value.batch < c {
      CtxDoneExactlyWhen(s, parent.value.batch);
      if CtxDone(s, c) {
        var b :| 0 <= b <= parent.value.batch && Below(s, parent.value.batch, b)
                 && (s.batches[b].cancelled || ParentExpired(s, b));
        assert Below(s, c, b);
      }
      if b :| 0 <= b <= c && Below(s, c, b) && (s.batches[b].cancelled || ParentExpired(s, b)) {
        BelowIsLater(s, parent.value.batch, b);
      }
    }
  }

  lemma {:induction false} BelowIsLater(s: State, c: nat, b: nat)
    requires c < |s.batches| && Below(s, c, b)
    ensures b <= c
  {
    if c != b {
      BelowIsLater(s, s.batches[c].parent.value.batch, b);
    }
  }

  // ---------------------------------------------------------------- progress

  /** A step the executor takes by itself, as opposed to a new batch or a cancellation from outside. */
  predicate Own(step: Step) {
    !step.Start? && !step.Cancel?
  }

  ghost predicate Stuck(s: State) {
    forall step :: Own(step) ==> !Enabled(s, step)
  }

  /** Nothing can happen until a deadline passes. */
  ghost predicate Stalled(s: State) {
    forall step :: Own(step) && !step.Expire? ==> !Enabled(s, step)
  }

  ghost predicate Unfinished(s: State) {
    exists b :: 0 <= b < |s.batches| && !s.batches[b].returned
  }

  /** Every slot is held by a task that waits for a batch of its own, and nothing else can move. */
  ghost predicate Deadlocked(s: State) {
    && |Holders(s)| == s.limit
    && (forall t :: t in Holders(s) ==> s.tasks[t].pc.Nested?)
    && (forall b :: 0 <= b < |s.batches| && !s.batches[b].returned ==> !AllDone(s, b))
    && (forall t :: InBatch(s, t) && s.tasks[t].pc == Waiting ==> !CtxDone(s, t.batch))
  }

  /** Without waiting tasks, a stalled executor has returned every batch: the latest one could always return. */
  lemma {:induction false} AllReturned(s: State, b: nat)
    requires Inv(s) && Stalled(s) && (forall t :: t in s.tasks ==> s.tasks[t].pc != Waiting)
    requires b < |s.batches|
    ensures s.batches[b].returned
    decreases |s.batches| - b
  {
    if !s.batches[b].returned {
      forall t | t in s.tasks && t.batch == b ensures s.tasks[t].pc == Done {
        assert WaitsRight(s, t) && InBatch(s, t);
        assert !Enabled(s, Finish(t)) && !Enabled(s, Release(t));
        if s.tasks[t].pc.Nested? {
          AllReturned(s, s.tasks[t].pc.child);
        }
      }
      assert Enabled(s, Return(b));
      assert Own(Return(b));
    }
  }

  lemma StalledIsDeadlocked(s: State)
    requires Inv(s) && Unfinished(s) && Stalled(s)
    ensures Deadlocked(s)
  {
    if forall t :: t in s.tasks ==> s.tasks[t].pc != Waiting {
      var b :| 0 <= b < |s.batches| && !s.batches[b].returned;
      AllReturned(s, b);
    } else {
      var w :| w in s.tasks && s.tasks[w].pc == Waiting;
      StalledWithWaiting(s, w);
    }
  }

  lemma StalledWithWaiting(s: State, w: TaskId)
    requires Shape(s) && SemaphoreOk(s) && Stalled(s) && w in s.tasks && s.tasks[w].pc == Waiting
    ensures Deadlocked(s)
  {
    assert InBatch(s, w) && !Enabled(s, Acquire(w));
    forall t | t in Holders(s) ensures s.tasks[t].pc.Nested? {
      assert InBatch(s, t) && !Enabled(s, Finish(t)) && !Enabled(s, Release(t));
    }
    forall b | 0 <= b < |s.batches| && !s.batches[b].returned ensures !AllDone(s, b) {
      assert !Enabled(s, Return(b));
    }
    forall t | InBatch(s, t) && s.tasks[t].pc == Waiting ensures !CtxDone(s, t.batch) {
      assert !Enabled(s, GiveUp(t));
    }
  }

  lemma DeadlockedIsStalled(s: State)
    requires Inv(s) && Deadlocked(s)
    ensures Stalled(s)
  {
    hide NestingOk, SlotsOk, CtxDone;
    forall step | Own(step) && !step.Expire? ensures !Enabled(s, step) {
      if (step.Finish? || step.Release?) && step.t in s.tasks && Holds(s.tasks[step.t].pc) {
        assert step.t in Holders(s);
      }
    }
  }

  /**
   * An unfinished executor can do nothing but wait for a deadline exactly when all its slots are held by
   * tasks that wait for batches they started on the same executor.
   */
  lemma StalledIffDeadlocked(s: State)
    requires Inv(s) && Unfinished(s)
    ensures Stalled(s) <==> Deadlocked(s)
  {
    hide *;
    if Stalled(s) {
      StalledIsDeadlocked(s);
    }
    if Deadlocked(s) {
      DeadlockedIsStalled(s);
    }
  }

  /**
   * Below a task that is past its deadline something can move: follow the chain of nested batches down to
   * a task that still waits for a slot. Its context is done with the deadline, so it can give up.
   */
  lemma {:induction false} ExpiredCanMove(s: State, t: TaskId)
    requires Inv(s) && Deadlocked(s) && t in s.tasks && s.tasks[t].pc.Nested?
    requires forall u :: u in s.tasks && s.tasks[u].pc.Nested? ==> s.tasks[u].expired
    ensures false
    decreases |s.batches| - t.batch
  {
    assert WaitsRight(s, t) && InBatch(s, t);
    var b := s.tasks[t].pc.child;
    assert !AllDone(s, b);
    var u :| u in s.tasks && u.batch == b && s.tasks[u].pc != Done;
    assert InBatch(s, u);
    if s.tasks[u].pc == Waiting {
      assert CtxDone(s, b);
    } else {
      assert u in Holders(s);
      ExpiredCanMove(s, u);
    }
  }

  lemma NoneOrSome(s: State)
    ensures Holders(s) == {} || exists t :: t in Holders(s)
  {
    if forall t :: t !in Holders(s) {
      assert Holders(s) == {};
    }
  }

  /** With deadlines no unfinished executor is ever stuck. */
  lemma DeadlinesUnstick(s: State)
    requires Inv(s) && Unfinished(s) && s.limit > 0 && s.timeout > 0
    ensures !Stuck(s)
  {
    if Stuck(s) {
      assert Stalled(s);
      StalledIsDeadlocked(s);
      forall u | u in s.tasks && s.tasks[u].pc.Nested? ensures s.tasks[u].expired {
        assert InBatch(s, u) && Own(Expire(u)) && !Enabled(s, Expire(u));
      }
      NoneOrSome(s);
      var t :| t in Holders(s);
      ExpiredCanMove(s, t);
    }
  }

  lemma WithoutDeadlines(s: State)
    requires s.timeout <= 0
    ensures Stuck(s) <==> Stalled(s)
  {
    hide CtxDone, AllDone;
  }

  /**
   * At any point of any run, an unfinished executor is stuck exactly when its slots are all held by tasks
   * that wait for nested batches and a negative timeout was configured, which leaves tasks without deadline.
   */
  lemma StuckExactlyWhen(trace: seq<State>, steps: seq<Step>, concurrency: int, configured: int, n: nat)
    requires IsRun(trace, steps, concurrency, configured) && n < |trace| && Unfinished(trace[n])
    ensures Stuck(trace[n]) <==> configured < 0 && Deadlocked(trace[n])
  {
    InvAlways(trace, steps, concurrency, configured, n);
    hide *;
    if configured < 0 {
      WithoutDeadlines(trace[n]);
      StalledIffDeadlocked(trace[n]);
    } else {
      DeadlinesUnstick(trace[n]);
    }
  }

  function NestedTasks(s: State): set<TaskId> {
    set t | t in s.tasks && s.tasks[t].pc.Nested?
  }

  lemma DeadlockTakesLimit(s: State)
    requires Deadlocked(s)
    ensures |NestedTasks(s)| == s.limit
  {
    assert Holders(s) == NestedTasks(s);
  }

  /** While fewer tasks than slots wait for nested batches, a step is possible without waiting for a deadline. */
  lemma ProgressWithoutDeepNesting(trace: seq<State>, steps: seq<Step>, concurrency: int, configured: int, n: nat)
    requires IsRun(trace, steps, concurrency, configured) && n < |trace| && Unfinished(trace[n])
    requires |NestedTasks(trace[n])| < Limit(concurrency)
    ensures !Stalled(trace[n])
  {
    InvAlways(trace, steps, concurrency, configured, n);
    hide *;
    StalledIffDeadlocked(trace[n]);
    if Deadlocked(trace[n]) {
      DeadlockTakesLimit(trace[n]);
    }
  }

  lemma OnlySlotIsNested(s: State)
    requires Inv(s) && s.limit == 1 && |s.batches| == 2 && TaskId(0, 0) in s.tasks && TaskId(1, 0) in s.tasks
    requires s.tasks[TaskId(0, 0)].pc == Nested(1) && s.tasks[TaskId(1, 0)].pc == Waiting
    requires s.tasks.Keys == {TaskId(0, 0), TaskId(1, 0)}
    requires !s.batches[0].cancelled && !s.batches[1].cancelled && s.batches[0].parent == None
    requires !s.tasks[TaskId(0, 0)].expired
    ensures Deadlocked(s)
  {
    assert Holders(s) == {TaskId(0, 0)};
    assert !CtxDone(s, 0) && !CtxDone(s, 1);
  }

  /**
   * One slot, a task that holds it, and a batch started from that task: nothing can happen before the
   * deadline of the outer task, and without one nothing can happen at all.
   */
  lemma NestedBatchStalls(configured: int) returns (trace: seq<State>, steps: seq<Step>)
    ensures |trace| == 4 && IsRun(trace, steps, 1, configured) && Unfinished(trace[3])
    ensures steps == [Start(["outer"], None), Acquire(TaskId(0, 0)), Start(["inner"], Some(TaskId(0, 0)))]
    ensures Stalled(trace[3]) && (Stuck(trace[3]) <==> configured < 0)
  {
    var t := TaskId(0, 0);
    steps := [Start(["outer"], None), Acquire(t), Start(["inner"], Some(t))];
    var s1 := After(Init(1, configured), steps[0]);
    var s2 := After(s1, steps[1]);
    var s3 := After(s2, steps[2]);
    trace := [Init(1, configured), s1, s2, s3];
    assert !s3.batches[0].returned && s3.tasks.Keys == {t, TaskId(1, 0)};
    assert s3.tasks[t] == Task(Nested(1), false, 0, "") && s3.tasks[TaskId(1, 0)].pc == Waiting;
    assert s3.batches == [Batch(["outer"], None, false, false), Batch(["inner"], Some(t), false, false)];
    assert IsRun(trace, steps, 1, configured);
    assert Unfinished(s3);
    hide *;
    InvAlways(trace, steps, 1, configured, 3);
    OnlySlotIsNested(s3);
    StalledIffDeadlocked(s3);
    StuckExactlyWhen(trace, steps, 1, configured, 3);
  }

  // ---------------------------------------------------------------- every batch returns

  function Weight(task: Task): nat {
    (match task.pc
     case Waiting => 6
     case Running => 4
     case Nested(_) => 4
     case Wrote => 2
     case Done => 0) + if task.expired then 0 else 1
  }

  /** The work left in the first n tasks of a batch. */
  function BatchWork(s: State, b: nat, n: nat): nat {
    if n == 0 then 0
    else BatchWork(s, b, n - 1) + if TaskId(b, n - 1) in s.tasks then Weight(s.tasks[TaskId(b, n - 1)]) else 0
  }

  /** The work left in the first n batches. */
  function Work(s: State, n: nat): nat
    requires n <= |s.batches|
  {
    if n == 0 then 0
    else Work(s, n - 1) + BatchWork(s, n - 1, |s.batches[n - 1].ids|) + if s.batches[n - 1].returned then 0 else 1
  }

  /** No task and no batch has more work left than before. */
  ghost predicate NoMore(s: State, s': State) {
    && s'.tasks.Keys == s.tasks.Keys && |s'.batches| == |s.batches|
    && (forall t :: t in s.tasks ==> Weight(s'.tasks[t]) <= Weight(s.tasks[t]))
    && (forall b :: 0 <= b < |s.batches| ==> s'.batches[b].ids == s.batches[b].ids)
    && (forall b :: 0 <= b < |s.batches| ==> s.batches[b].returned ==> s'.batches[b].returned)
  }

  lemma {:induction false} BatchWorkShrinks(s: State, s': State, b: nat, n: nat)
    requires NoMore(s, s')
    ensures BatchWork(s', b, n) <= BatchWork(s, b, n)
    ensures forall t :: t in s.tasks && t.batch == b && t.index < n && Weight(s'.tasks[t]) < Weight(s.tasks[t]) ==>
                          BatchWork(s', b, n) < BatchWork(s, b, n)
  {
    hide Weight;
    if n > 0 {
      BatchWorkShrinks(s, s', b, n - 1);
    }
  }

  lemma {:induction false} WorkShrinks(s: State, s': State, n: nat)
    requires NoMore(s, s') && n <= |s.batches|
    ensures Work(s', n) <= Work(s, n)
    ensures forall t :: InBatch(s, t) && t.batch < n && Weight(s'.tasks[t]) < Weight(s.tasks[t]) ==>
            Work(s', n) < Work(s, n)
    ensures forall b :: 0 <= b < n && s'.batches[b].returned && !s.batches[b].returned ==> Work(s', n) < Work(s, n)
  {
    hide Weight, BatchWork;
    if n > 0 {
      WorkShrinks(s, s', n - 1);
      BatchWorkShrinks(s, s', n - 1, |s.batches[n - 1].ids|);
    }
  }

  /** The one task that a step moves, or the batch that it returns, has less work left. */
  ghost predicate Lowers(s: State, step: Step, s': State) {
    match step
    case Return(b) => b < |s.batches| && b < |s'.batches| && s'.batches[b].returned && !s.batches[b].returned
    case Start(_, _) => false
    case Cancel(_) => false
    case _ => InBatch(s, step.t) && step.t in s'.tasks && Weight(s'.tasks[step.t]) < Weight(s.tasks[step.t])
  }

  lemma ReturnLowers(s: State, b: nat)
    requires Inv(s) && Enabled(s, Return(b))
    ensures NoMore(s, AfterReturn(s, b)) && Lowers(s, Return(b), AfterReturn(s, b))
  {
    assert BatchRight(s, b);
    hide AllDone;
  }

  lemma TaskLowers(s: State, t: TaskId, s': State)
    requires t in s.tasks && t in s'.tasks && s'.tasks == s.tasks[t := s'.tasks[t]] && s'.batches == s.batches
    requires Weight(s'.tasks[t]) < Weight(s.tasks[t])
    ensures NoMore(s, s')
  {
    hide Weight;
  }

  lemma StepLowers(s: State, step: Step)
    requires Inv(s) && Own(step) && Enabled(s, step)
    ensures NoMore(s, After(s, step)) && Lowers(s, step, After(s, step))
  {
    if step.Return? {
      hide AfterReturn, Lowers, NoMore;
      ReturnLowers(s, step.batch);
    } else {
      hide CtxDone, AllDone, NoMore, Inv;
      TaskLowers(s, step.t, After(s, step));
    }
  }

  /** Every step the executor takes by itself leaves less work. */
  lemma OwnStepWorks(s: State, step: Step)
    requires Inv(s) && Own(step) && Enabled(s, step)
    ensures |After(s, step).batches| == |s.batches|
    ensures Work(After(s, step), |s.batches|) < Work(s, |s.batches|)
  {
    StepLowers(s, step);
    hide After, Work, Weight;
    WorkShrinks(s, After(s, step), |s.batches|);
  }

  /** A stretch of a run in which no batch is started and none is cancelled from outside. */
  ghost predicate OwnRun(trace: seq<State>, steps: seq<Step>) {
    && |trace| == |steps| + 1
    && forall i :: 0 <= i < |steps| ==>
         Own(steps[i]) && Enabled(trace[i], steps[i]) && trace[i + 1] == After(trace[i], steps[i])
  }

  lemma {:induction false} OwnRunEnds(trace: seq<State>, steps: seq<Step>, n: nat)
    requires OwnRun(trace, steps) && Inv(trace[0]) && n < |trace|
    ensures Inv(trace[n]) && trace[n].limit == trace[0].limit && trace[n].timeout == trace[0].timeout
    ensures |trace[n].batches| == |trace[0].batches|
    ensures n + Work(trace[n], |trace[n].batches|) <= Work(trace[0], |trace[0].batches|)
  {
    hide After, Work, Inv, Enabled;
    if n > 0 {
      OwnRunEnds(trace, steps, n - 1);
      InvStep(trace[n - 1], steps[n - 1]);
      SettingsStay(trace[n - 1], steps[n - 1]);
      OwnStepWorks(trace[n - 1], steps[n - 1]);
    }
  }

  /**
   * With deadlines every batch returns: from any state the executor takes only boundedly many steps by
   * itself, in whatever order, and when it can take no more, every batch has returned.
   */
  lemma EveryBatchReturns(trace: seq<State>, steps: seq<Step>)
    requires OwnRun(trace, steps) && Inv(trace[0]) && trace[0].limit > 0 && trace[0].timeout > 0
    ensures |steps| <= Work(trace[0], |trace[0].batches|)
    ensures Stuck(trace[|steps|]) ==> forall b :: 0 <= b < |trace[|steps|].batches| ==>
            trace[|steps|].batches[b].returned
  {
    hide Inv, Stuck, Work;
    OwnRunEnds(trace, steps, |steps|);
    if Unfinished(trace[|steps|]) {
      DeadlinesUnstick(trace[|steps|]);
    }
  }
}
