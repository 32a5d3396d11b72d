/**
 * Session locks: concurrent turns, each of which looks up its session's lock, takes it, appends its
 * user message, appends whatever its loop appends, and unlocks on every path. Other writers may
 * append to a session without the lock. A message carries the time at which it was made, and a session is
 * read in the order of these times; a turn makes and appends a message before it makes the next one, while
 * a message of another writer may be appended long after it was made.
 */
module SessionLocks {
  import opened Llm

  datatype Pc = Fresh | HasLock | Locked | Running | Ended

  /** A turn, the lock it looked up, and how often it has unlocked. */
  datatype Turn = Turn(session: string, pc: Pc, lock: nat, unlocks: nat)

  /** One message, by a turn or by a writer without the lock, and when it was made. */
  datatype Record = Record(session: string, author: Option<nat>, isUserMessage: bool, stamp: nat)

  /** A writer without the lock: it makes one message and then appends it. */
  datatype Writer = NotYet | Made(record: Record) | Appended

  datatype State = State(
    locks: map<string, nat>, owners: seq<Option<nat>>, turns: map<nat, Turn>, log: seq<Record>,
    clock: nat, writers: map<nat, Writer>)

  datatype Step =
    | LookUp(t: nat)
    | Lock(t: nat)
    | AppendUser(t: nat, stored: bool)
    | Append(t: nat)
    | Finish(t: nat)
    | Make(w: nat, session: string)
    | Insert(w: nat)

  predicate Inside(turn: Turn) {
    turn.pc == Locked || turn.pc == Running
  }

  /** Two turns of one session, both between lock and unlock. */
  predicate BothInside(a: Turn, b: Turn) {
    Inside(a) && Inside(b) && a.session == b.session
  }

  function Unlocked(s: State, t: nat): State
    requires t in s.turns && s.turns[t].lock < |s.owners|
  {
    s.(owners := s.owners[s.turns[t].lock := None],
       turns := s.turns[t := s.turns[t].(pc := Ended, unlocks := s.turns[t].unlocks + 1)])
  }

  predicate Enabled(s: State, step: Step) {
    match step
    case LookUp(t) => t in s.turns && s.turns[t].pc == Fresh
    case Lock(t) =>
      t in s.turns && s.turns[t].pc == HasLock && s.turns[t].lock < |s.owners| && s.owners[s.turns[t].lock] == None
    case AppendUser(t, _) => t in s.turns && s.turns[t].pc == Locked && s.turns[t].lock < |s.owners|
    case Append(t) => t in s.turns && s.turns[t].pc == Running
    case Finish(t) => t in s.turns && s.turns[t].pc == Running && s.turns[t].lock < |s.owners|
    case Make(w, _) => w in s.writers && s.writers[w] == NotYet
    case Insert(w) => w in s.writers && s.writers[w].Made?
  }

  function After(s: State, step: Step): State
    requires Enabled(s, step)
  {
    match step
    case LookUp(t) =>
      var name := s.turns[t].session;
      var s' := if name in s.locks then s
                else s.(locks := s.locks[name := |s.owners|], owners := s.owners + [None]);
      s'.(turns := s.turns[t := s.turns[t].(pc := HasLock, lock := s'.locks[name])])
    case Lock(t) =>
      s.(owners := s.owners[s.turns[t].lock := Some(t)], turns := s.turns[t := s.turns[t].(pc := Locked)])
    case AppendUser(t, stored) =>
      if stored then
        s.(log := s.log + [Record(s.turns[t].session, Some(t), true, s.clock)], clock := s.clock + 1,
           turns := s.turns[t := s.turns[t].(pc := Running)])
      else Unlocked(s, t)
    case Append(t) =>
      s.(log := s.log + [Record(s.turns[t].session, Some(t), false, s.clock)], clock := s.clock + 1)
    case Finish(t) => Unlocked(s, t)
    case Make(w, name) =>
      s.(writers := s.writers[w := Made(Record(name, None, false, s.clock))], clock := s.clock + 1)
    case Insert(w) => s.(log := s.log + [s.writers[w].record], writers := s.writers[w := Appended])
  }

  ghost predicate Init(s: State) {
    && s.locks == map[] && s.owners == [] && s.log == [] && (forall w :: w in s.writers ==> s.writers[w] == NotYet)
    && forall t :: t in s.turns ==> s.turns[t].pc == Fresh && s.turns[t].unlocks == 0
  }

  ghost predicate IsRun(trace: seq<State>, steps: seq<Step>) {
    && |trace| == |steps| + 1 && Init(trace[0])
    && forall i :: 0 <= i < |steps| ==> Enabled(trace[i], steps[i]) && trace[i + 1] == After(trace[i], steps[i])
  }

  // ---------------------------------------------------------------- invariant: locks

  predicate TurnOk(s: State, t: nat)
    requires t in s.turns
  {
    var turn := s.turns[t];
    && (turn.pc == HasLock || Inside(turn) ==>
          turn.session in s.locks && s.locks[turn.session] == turn.lock < |s.owners|)
    && (Inside(turn) ==> s.owners[turn.lock] == Some(t))
    && turn.unlocks == if turn.pc == Ended then 1 else 0
  }

  ghost predicate LocksOk(s: State) {
    && (forall t :: t in s.turns ==> TurnOk(s, t))
    && (forall name :: name in s.locks ==> s.locks[name] < |s.owners|)
    && (forall l :: 0 <= l < |s.owners| && s.owners[l].Some? ==>
          s.owners[l].value in s.turns && Inside(s.turns[s.owners[l].value]) && s.turns[s.owners[l].value].lock == l)
    && (forall a, b :: a in s.locks && b in s.locks && s.locks[a] == s.locks[b] ==> a == b)
  }

  lemma LookUpKeeps(s: State, t: nat)
    requires LocksOk(s) && Enabled(s, LookUp(t))
    ensures LocksOk(After(s, LookUp(t)))
  {
    var s' := After(s, LookUp(t));
    forall u | u in s'.turns ensures TurnOk(s', u) {
      assert TurnOk(s, u);
    }
  }

  lemma LockKeeps(s: State, t: nat)
    requires LocksOk(s) && Enabled(s, Lock(t))
    ensures LocksOk(After(s, Lock(t)))
  {
    var s' := After(s, Lock(t));
    assert TurnOk(s, t);
    forall u | u in s'.turns ensures TurnOk(s', u) {
      assert TurnOk(s, u);
    }
  }

  lemma UnlockKeeps(s: State, t: nat)
    requires LocksOk(s) && t in s.turns && Inside(s.turns[t])
    ensures TurnOk(s, t) && LocksOk(Unlocked(s, t))
  {
    assert TurnOk(s, t);
    var s' := Unlocked(s, t);
    forall u | u in s'.turns ensures TurnOk(s', u) {
      assert TurnOk(s, u);
    }
  }

  lemma LocksStep(s: State, step: Step)
    requires LocksOk(s) && Enabled(s, step)
    ensures LocksOk(After(s, step))
  {
    match step
    case LookUp(t) => LookUpKeeps(s, t);
    case Lock(t) => LockKeeps(s, t);
    case Finish(t) => UnlockKeeps(s, t);
    case AppendUser(t, stored) =>
      UnlockKeeps(s, t);
      var s' := After(s, step);
      if stored {
        forall u | u in s'.turns ensures TurnOk(s', u) {
          assert TurnOk(s, u);
        }
      }
    case _ =>
      var s' := After(s, step);
      forall u | u in s'.turns ensures TurnOk(s', u) {
        assert TurnOk(s, u);
      }
  }

  // ---------------------------------------------------------------- invariant: blocks

  predicate By(r: Record, t: nat) {
    r.author == Some(t)
  }

  /** Records of one session written by turns. */
  predicate SameSession(a: Record, b: Record) {
    a.session == b.session && a.author.Some? && b.author.Some?
  }

  /** From its first record on, a running turn is the only one that writes to its session. */
  ghost predicate OwnsTail(s: State, t: nat) {
    forall i, j :: 0 <= i < j < |s.log| && By(s.log[i], t) && SameSession(s.log[i], s.log[j]) ==> By(s.log[j], t)
  }

  /** A turn writes only to its own session, starts with its user message and has no second one. */
  ghost predicate RecordsOk(s: State) {
    && (forall i :: 0 <= i < |s.log| && s.log[i].author.Some? ==>
          s.log[i].author.value in s.turns && s.turns[s.log[i].author.value].session == s.log[i].session)
    && (forall i :: 0 <= i < |s.log| && s.log[i].author.Some? ==>
          (s.log[i].isUserMessage <==> forall j :: 0 <= j < i ==> s.log[j].author != s.log[i].author))
  }

  ghost predicate Quiet(s: State, t: nat) {
    forall i :: 0 <= i < |s.log| ==> !By(s.log[i], t)
  }

  ghost predicate BlocksOk(s: State) {
    && RecordsOk(s)
    && (forall t :: t in s.turns && (s.turns[t].pc == Fresh || s.turns[t].pc == HasLock || s.turns[t].pc == Locked) ==>
          Quiet(s, t))
    && (forall t :: t in s.turns && s.turns[t].pc == Running ==> !Quiet(s, t) && OwnsTail(s, t))
    && Contiguous(s.log)
  }

  predicate Brackets(a: Record, b: Record, c: Record) {
    SameSession(a, b) && SameSession(a, c) && a.author == c.author
  }

  /** Between two records of a turn, no other turn has written to that session. */
  ghost predicate Contiguous(log: seq<Record>) {
    forall i, j, k :: 0 <= i < j < k < |log| && Brackets(log[i], log[j], log[k]) ==> log[j].author == log[i].author
  }

  lemma Exclusive(s: State, t: nat, u: nat)
    requires LocksOk(s) && t in s.turns && u in s.turns
    requires BothInside(s.turns[t], s.turns[u])
    ensures t == u
  {
    assert TurnOk(s, t) && TurnOk(s, u);
  }

  lemma RecordsAppend(s: State, t: nat, r: Record, s': State)
    requires RecordsOk(s) && t in s.turns && r == Record(s.turns[t].session, Some(t), r.isUserMessage, r.stamp)
    requires r.isUserMessage <==> Quiet(s, t)
    requires s'.log == s.log + [r] && s'.turns == s.turns[t := s.turns[t].(pc := Running)]
    ensures RecordsOk(s')
  {
    var n := |s.log|;
    assert s'.log[n] == r && forall i :: 0 <= i < n ==> s'.log[i] == s.log[i];
    assert Quiet(s, t) <==> forall j :: 0 <= j < n ==> s'.log[j].author != r.author by {
      assert forall j :: 0 <= j < n ==> (By(s.log[j], t) <==> s'.log[j].author == r.author);
    }
  }

  lemma ContiguousAppend(log: seq<Record>, r: Record)
    requires Contiguous(log)
    requires forall i, j :: 0 <= i < j < |log| && Brackets(log[i], log[j], r) ==> log[j].author == r.author
    ensures Contiguous(log + [r])
  {
    var l := log + [r];
    forall i, j, k | 0 <= i < j < k < |l| && Brackets(l[i], l[j], l[k]) ensures l[j].author == l[i].author {
      assert l[i] == log[i] && l[j] == log[j];
    }
  }

  /** Another running turn keeps its session to itself. */
  lemma TailAppend(s: State, u: nat, r: Record, s': State)
    requires !Quiet(s, u) && OwnsTail(s, u) && s'.log == s.log + [r]
    requires By(r, u) || forall i :: 0 <= i < |s.log| && By(s.log[i], u) ==> !SameSession(s.log[i], r)
    ensures !Quiet(s', u) && OwnsTail(s', u)
  {
    var i :| 0 <= i < |s.log| && By(s.log[i], u);
    assert By(s'.log[i], u);
  }

  lemma FirstTail(s: State, t: nat, r: Record, s': State)
    requires Quiet(s, t) && By(r, t) && s'.log == s.log + [r]
    ensures !Quiet(s', t) && OwnsTail(s', t)
  {
    assert By(s'.log[|s.log|], t);
    assert forall i :: 0 <= i < |s.log| ==> s'.log[i] == s.log[i];
  }

  /** Appending to the log by the turn that owns its session. */
  lemma BlocksAppend(s: State, t: nat, r: Record, s': State)
    requires LocksOk(s) && BlocksOk(s) && t in s.turns && Inside(s.turns[t])
    requires r == Record(s.turns[t].session, Some(t), s.turns[t].pc == Locked, r.stamp)
    requires s'.log == s.log + [r] && s'.turns == s.turns[t := s.turns[t].(pc := Running)]
    ensures BlocksOk(s')
  {
    RecordsAppend(s, t, r, s');
    assert forall i, j :: 0 <= i < j < |s.log| && Brackets(s.log[i], s.log[j], r) ==> s.log[j].author == r.author by {
      forall i, j | 0 <= i < j < |s.log| && Brackets(s.log[i], s.log[j], r) ensures s.log[j].author == r.author {
        assert By(s.log[i], t);
      }
    }
    ContiguousAppend(s.log, r);
    forall u | u in s'.turns && s'.turns[u].pc == Running ensures !Quiet(s', u) && OwnsTail(s', u) {
      if Quiet(s, u) {
        FirstTail(s, u, r, s');
      } else {
        if u != t && s.turns[u].session == r.session {
          Exclusive(s, t, u);
        }
        TailAppend(s, u, r, s');
      }
    }
    hide Contiguous, RecordsOk, OwnsTail, LocksOk;
    forall u | u in s'.turns && (s'.turns[u].pc == Fresh || s'.turns[u].pc == HasLock || s'.turns[u].pc == Locked)
      ensures Quiet(s', u)
    {
      assert Quiet(s, u);
    }
  }

  lemma RecordsOutside(s: State, r: Record, s': State)
    requires RecordsOk(s) && r.author == None && s'.log == s.log + [r] && s'.turns == s.turns
    ensures RecordsOk(s')
  {
    assert forall i :: 0 <= i < |s.log| ==> s'.log[i] == s.log[i];
  }

  lemma BlocksOutside(s: State, r: Record, s': State)
    requires BlocksOk(s) && r.author == None && s'.log == s.log + [r] && s'.turns == s.turns
    ensures BlocksOk(s')
  {
    RecordsOutside(s, r, s');
    ContiguousAppend(s.log, r);
    forall u | u in s'.turns && s'.turns[u].pc == Running ensures !Quiet(s', u) && OwnsTail(s', u) {
      TailAppend(s, u, r, s');
    }
    hide RecordsOk, Contiguous, OwnsTail;
    forall u | u in s'.turns && (s'.turns[u].pc == Fresh || s'.turns[u].pc == HasLock || s'.turns[u].pc == Locked)
      ensures Quiet(s', u)
    {
      assert Quiet(s, u);
    }
  }

  /** A step that appends nothing and starts no loop. */
  lemma BlocksOther(s: State, s': State)
    requires BlocksOk(s) && s'.log == s.log && s'.turns.Keys == s.turns.Keys
    requires forall u :: u in s.turns ==> s'.turns[u].session == s.turns[u].session
    requires forall u :: u in s.turns ==> (s'.turns[u].pc == Running ==> s.turns[u].pc == Running)
    requires forall u :: u in s.turns ==>
               s'.turns[u].pc == Fresh || s'.turns[u].pc == HasLock || s'.turns[u].pc == Locked ==>
               s.turns[u].pc == Fresh || s.turns[u].pc == HasLock || s.turns[u].pc == Locked
    ensures BlocksOk(s')
  {
    assert forall u :: (Quiet(s', u) <==> Quiet(s, u)) && (OwnsTail(s', u) <==> OwnsTail(s, u));
    hide Quiet, OwnsTail, Contiguous, RecordsOk;
    RecordsOther(s, s');
    forall u | u in s'.turns && s'.turns[u].pc == Running ensures !Quiet(s', u) && OwnsTail(s', u) {
      assert s.turns[u].pc == Running;
    }
  }

  lemma RecordsOther(s: State, s': State)
    requires RecordsOk(s) && s'.log == s.log && s'.turns.Keys == s.turns.Keys
    requires forall u :: u in s.turns ==> s'.turns[u].session == s.turns[u].session
    ensures RecordsOk(s')
  {
  }

  lemma BlocksStep(s: State, step: Step)
    requires LocksOk(s) && BlocksOk(s) && StampsOk(s) && Enabled(s, step)
    ensures BlocksOk(After(s, step))
  {
    var s' := After(s, step);
    hide BlocksOk, LocksOk;
    if step.Append? || (step.AppendUser? && step.stored) {
      BlocksAppend(s, step.t, s'.log[|s.log|], s');
    } else if step.Insert? {
      BlocksOutside(s, s'.log[|s.log|], s');
    } else {
      BlocksOther(s, s');
    }
  }

  /** Times are in the past, those of turns grow with the log, and a message that waits is nobody's turn's. */
  ghost predicate StampsOk(s: State) {
    && (forall i :: 0 <= i < |s.log| ==> s.log[i].stamp < s.clock)
    && (forall w :: w in s.writers && s.writers[w].Made? ==>
          s.writers[w].record.author == None && s.writers[w].record.stamp < s.clock)
    && Ascending(s.log)
  }

  /** In the order of appending, the messages of turns are also in the order of their times. */
  ghost predicate Ascending(log: seq<Record>) {
    forall i, j :: 0 <= i < j < |log| && log[i].author.Some? && log[j].author.Some? ==> log[i].stamp < log[j].stamp
  }

  lemma StampsStep(s: State, step: Step)
    requires StampsOk(s) && Enabled(s, step)
    ensures StampsOk(After(s, step))
  {
  }

  lemma {:induction false} InvAlways(trace: seq<State>, steps: seq<Step>, n: nat)
    requires IsRun(trace, steps) && n < |trace|
    ensures LocksOk(trace[n]) && BlocksOk(trace[n]) && StampsOk(trace[n])
  {
    if n > 0 {
      InvAlways(trace, steps, n - 1);
      LocksStep(trace[n - 1], steps[n - 1]);
      StampsStep(trace[n - 1], steps[n - 1]);
      BlocksStep(trace[n - 1], steps[n - 1]);
    }
  }

  /**
   * In every interleaving: at most one turn per session is between lock and unlock; a turn has
   * unlocked exactly once when it ended and not before; the messages that turns append to a session
   * form contiguous blocks, one per turn, and a block starts with its turn's only user message; and these
   * messages are in the same order by appending and by time.
   */
  lemma TurnsAreSerialised(trace: seq<State>, steps: seq<Step>, n: nat)
    requires IsRun(trace, steps) && n < |trace|
    ensures var s := trace[n];
            && (forall t, u :: t in s.turns && u in s.turns && BothInside(s.turns[t], s.turns[u]) ==> t == u)
            && (forall t :: t in s.turns ==> s.turns[t].unlocks == if s.turns[t].pc == Ended then 1 else 0)
            && Contiguous(s.log) && Ascending(s.log)
            && (forall i :: 0 <= i < |s.log| && s.log[i].author.Some? ==>
                  (s.log[i].isUserMessage <==> forall j :: 0 <= j < i ==> s.log[j].author != s.log[i].author))
  {
    InvAlways(trace, steps, n);
    var s := trace[n];
    forall t, u | t in s.turns && u in s.turns && BothInside(s.turns[t], s.turns[u]) ensures t == u {
      Exclusive(s, t, u);
    }
    forall t | t in s.turns ensures s.turns[t].unlocks == if s.turns[t].pc == Ended then 1 else 0 {
      assert TurnOk(s, t);
    }
  }

  /** How a turn that is between lock and unlock gets out at once: its message is not stored, or its loop is over. */
  function LastStep(s: State, u: nat): Step
    requires u in s.turns
  {
    if s.turns[u].pc == Locked then AppendUser(u, false) else Finish(u)
  }

  /**
   * No turn waits in vain: at any point of any run, the lock of a waiting turn is free, or it is held by a turn of
   * the same session that can get out, and then the waiting turn can get in. Whether its user message is stored or
   * not, every turn that got in gets out.
   */
  lemma WaiterGetsIn(trace: seq<State>, steps: seq<Step>, n: nat, t: nat)
    requires IsRun(trace, steps) && n < |trace| && t in trace[n].turns && trace[n].turns[t].pc == HasLock
    ensures var s := trace[n];
            || Enabled(s, Lock(t))
            || exists u :: && u in s.turns && Inside(s.turns[u]) && s.turns[u].session == s.turns[t].session
                           && Enabled(s, LastStep(s, u)) && After(s, LastStep(s, u)).turns[u].pc == Ended
                           && Enabled(After(s, LastStep(s, u)), Lock(t))
  {
    InvAlways(trace, steps, n);
    hide IsRun, BlocksOk, StampsOk;
    var s := trace[n];
    assert TurnOk(s, t);
    if !Enabled(s, Lock(t)) {
      var u := s.owners[s.turns[t].lock].value;
      assert TurnOk(s, u) && Inside(s.turns[u]);
      assert Enabled(s, LastStep(s, u));
    }
  }

  /** A turn that stores its user message goes on to its loop, and can append and finish there. */
  lemma StoredGoesOn(trace: seq<State>, steps: seq<Step>, n: nat, t: nat)
    requires IsRun(trace, steps) && n < |trace| && t in trace[n].turns && trace[n].turns[t].pc == Locked
    ensures var s := trace[n];
            && Enabled(s, AppendUser(t, true)) && After(s, AppendUser(t, true)).turns[t].pc == Running
            && Enabled(After(s, AppendUser(t, true)), Append(t)) && Enabled(After(s, AppendUser(t, true)), Finish(t))
  {
    InvAlways(trace, steps, n);
    assert TurnOk(trace[n], t);
  }

  // ---------------------------------------------------------------- writers without the lock

  /** The log only grows, by at most one record a step, time goes on, and an ended turn stays ended. */
  lemma LogStep(s: State, step: Step)
    requires Enabled(s, step)
    ensures s.log <= After(s, step).log && |After(s, step).log| <= |s.log| + 1 && s.clock <= After(s, step).clock
    ensures After(s, step).turns.Keys == s.turns.Keys
    ensures forall t :: t in s.turns && s.turns[t].pc == Ended ==> After(s, step).turns[t].pc == Ended
    ensures forall t :: t in s.turns ==> After(s, step).turns[t].session == s.turns[t].session
  {
  }

  lemma {:induction false} LogGrows(trace: seq<State>, steps: seq<Step>, m: nat, n: nat)
    requires IsRun(trace, steps) && m <= n < |trace|
    ensures trace[m].log <= trace[n].log && trace[m].clock <= trace[n].clock
    ensures trace[n].turns.Keys == trace[m].turns.Keys
    ensures forall t :: t in trace[m].turns && trace[m].turns[t].pc == Ended ==> trace[n].turns[t].pc == Ended
    ensures forall t :: t in trace[m].turns ==> trace[n].turns[t].session == trace[m].turns[t].session
  {
    hide After, Enabled;
    if m < n {
      LogGrows(trace, steps, m, n - 1);
      LogStep(trace[n - 1], steps[n - 1]);
    }
  }

  /** The step that appends record r. */
  predicate Appends(s: State, step: Step, r: Record) {
    match step
    case Insert(w) => w in s.writers && s.writers[w] == Made(r)
    case Append(t) =>
      t in s.turns && s.turns[t].pc == Running && r == Record(s.turns[t].session, Some(t), false, s.clock)
    case AppendUser(t, _) =>
      t in s.turns && s.turns[t].pc == Locked && r == Record(s.turns[t].session, Some(t), true, s.clock)
    case _ => false
  }

  lemma StepOfRecord(s: State, step: Step)
    requires Enabled(s, step) && |After(s, step).log| == |s.log| + 1
    ensures Appends(s, step, After(s, step).log[|s.log|])
  {
  }

  /** Every record of the log was appended by a step. */
  lemma {:induction false} AppendedBy(trace: seq<State>, steps: seq<Step>, n: nat, i: nat) returns (m: nat)
    requires IsRun(trace, steps) && n < |trace| && i < |trace[n].log|
    ensures m < n && |trace[m].log| == i < |trace[m + 1].log| && Appends(trace[m], steps[m], trace[n].log[i])
  {
    hide After, Enabled, Appends;
    if n == 0 {
      assert false;
    } else {
      LogStep(trace[n - 1], steps[n - 1]);
      if i < |trace[n - 1].log| {
        m := AppendedBy(trace, steps, n - 1, i);
      } else {
        m := n - 1;
        StepOfRecord(trace[m], steps[m]);
      }
    }
  }

  lemma MadeStep(s: State, step: Step, w: nat)
    requires Enabled(s, step)
    ensures After(s, step).writers.Keys == s.writers.Keys
    ensures w in s.writers && After(s, step).writers[w].Made? ==>
              || s.writers[w] == After(s, step).writers[w]
              || (step.Make? && step.w == w
                  && After(s, step).writers[w].record == Record(step.session, None, false, s.clock))
    ensures w in s.writers && s.writers[w].Made? ==>
              After(s, step).writers[w] == s.writers[w] || After(s, step).writers[w] == Appended
    ensures w in s.writers && s.writers[w] == Appended ==> After(s, step).writers[w] == Appended
  {
  }

  /** A message that waits to be appended was made by a step, at the time it carries. */
  lemma {:induction false} MadeBy(trace: seq<State>, steps: seq<Step>, n: nat, w: nat) returns (m: nat)
    requires IsRun(trace, steps) && n < |trace| && w in trace[n].writers && trace[n].writers[w].Made?
    ensures m < n && steps[m] == Make(w, trace[n].writers[w].record.session)
    ensures trace[n].writers[w].record.stamp == trace[m].clock
  {
    if n == 0 {
      assert false;
    } else {
      hide After, Enabled;
      MadeStep(trace[n - 1], steps[n - 1], w);
      if trace[n - 1].writers[w] == trace[n].writers[w] {
        m := MadeBy(trace, steps, n - 1, w);
      } else {
        m := n - 1;
      }
    }
  }

  /** It stays what it is until it is appended. */
  lemma {:induction false} MadeStays(trace: seq<State>, steps: seq<Step>, m: nat, n: nat, w: nat)
    requires IsRun(trace, steps) && m <= n < |trace| && w in trace[m].writers && trace[m].writers[w].Made?
    ensures w in trace[n].writers && (trace[n].writers[w] == trace[m].writers[w] || trace[n].writers[w] == Appended)
  {
    hide After, Enabled;
    if m < n {
      MadeStays(trace, steps, m, n - 1, w);
      MadeStep(trace[n - 1], steps[n - 1], w);
    }
  }

  /** In the order of their times, a record without author lies between two records of turn t. */
  predicate Splits(a: Record, b: Record, c: Record, t: nat) {
    && By(a, t) && By(c, t) && b.author == None && b.session == a.session
    && a.stamp < b.stamp < c.stamp
  }

  ghost predicate BlockIsSplit(log: seq<Record>, t: nat) {
    exists i, j, k :: 0 <= i < |log| && 0 <= j < |log| && 0 <= k < |log| && Splits(log[i], log[j], log[k], t)
  }

  /**
   * A writer without the lock makes a message while t is running, t appends again later, and the message is
   * appended at some point.
   */
  predicate WritesInto(trace: seq<State>, steps: seq<Step>, t: nat, w: nat, a: nat, b: nat, d: nat)
    requires |trace| == |steps| + 1 && a < b < |steps| && a < d < |steps|
  {
    && t in trace[a].turns && trace[a].turns[t].pc == Running
    && steps[a] == Make(w, trace[a].turns[t].session) && steps[b] == Append(t) && steps[d] == Insert(w)
  }

  ghost predicate WrittenInto(trace: seq<State>, steps: seq<Step>, t: nat, n: nat)
    requires |trace| == |steps| + 1 && n < |trace|
  {
    exists w: nat, a, b, d :: 0 <= a < b < n && a < d < n && WritesInto(trace, steps, t, w, a, b, d)
  }

  /** A turn with a record is running or has ended, and the record is in its session. */
  lemma RunsAt(s: State, t: nat, i: nat)
    requires BlocksOk(s) && i < |s.log| && By(s.log[i], t)
    ensures t in s.turns && (s.turns[t].pc == Running || s.turns[t].pc == Ended)
            && s.log[i].session == s.turns[t].session
  {
    assert !Quiet(s, t);
  }

  /** If t had written something before time went past step a, it was running or had ended at step a. */
  lemma WroteBefore(trace: seq<State>, steps: seq<Step>, n: nat, t: nat, i: nat, a: nat)
    requires IsRun(trace, steps) && n < |trace| && i < |trace[n].log| && By(trace[n].log[i], t)
    requires a < n && trace[n].log[i].stamp < trace[a].clock
    ensures i < |trace[a].log| && t in trace[a].turns && trace[a].turns[t].session == trace[n].log[i].session
    ensures trace[a].turns[t].pc == Running || trace[a].turns[t].pc == Ended
  {
    var p := AppendedBy(trace, steps, n, i);
    InvAlways(trace, steps, p);
    InvAlways(trace, steps, a);
    LogGrows(trace, steps, a, n);
    if a <= p {
      LogGrows(trace, steps, a, p);
      assert false;
    }
    LogGrows(trace, steps, p + 1, a);
    assert trace[p + 1] == After(trace[p], steps[p]);
    hide IsRun, Enabled, LocksOk, BlocksOk;
    RunsAt(trace[a], t, i);
  }

  lemma AuthoredBy(s: State, step: Step, r: Record, t: nat)
    requires Appends(s, step, r) && By(r, t) && StampsOk(s)
    ensures r.stamp == s.clock && t in s.turns
    ensures (step == Append(t) && s.turns[t].pc == Running) || (step.AppendUser? && s.turns[t].pc == Locked)
  {
  }

  /** If t wrote something after time went past step a, it appended it later than step a. */
  lemma WritesAfter(trace: seq<State>, steps: seq<Step>, n: nat, t: nat, i: nat, k: nat, a: nat) returns (b: nat)
    requires IsRun(trace, steps) && n < |trace| && k < |trace[n].log| && By(trace[n].log[k], t)
    requires a < n && trace[a].clock < trace[n].log[k].stamp
    requires i < |trace[a].log| && By(trace[a].log[i], t) && t in trace[a].turns
    requires trace[a].turns[t].pc == Running || trace[a].turns[t].pc == Ended
    ensures a < b < n && steps[b] == Append(t) && trace[a].turns[t].pc == Running
  {
    b := AppendedBy(trace, steps, n, k);
    InvAlways(trace, steps, b);
    AuthoredBy(trace[b], steps[b], trace[n].log[k], t);
    hide Appends, LocksOk, BlocksOk, StampsOk;
    if b <= a {
      LogGrows(trace, steps, b, a);
      assert false;
    }
    LogGrows(trace, steps, a, b);
    hide IsRun;
    assert trace[b].log[i] == trace[a].log[i];
    RunsAt(trace[b], t, i);
  }

  lemma SplitIsWritten(trace: seq<State>, steps: seq<Step>, n: nat, t: nat, i: nat, j: nat, k: nat)
    requires IsRun(trace, steps) && n < |trace| && i < |trace[n].log| && j < |trace[n].log| && k < |trace[n].log|
    requires Splits(trace[n].log[i], trace[n].log[j], trace[n].log[k], t)
    ensures |trace| == |steps| + 1 && WrittenInto(trace, steps, t, n)
  {
    var d := AppendedBy(trace, steps, n, j);
    assert steps[d].Insert?;
    var w := steps[d].w;
    var a := MadeBy(trace, steps, d, w);
    WroteBefore(trace, steps, n, t, i, a);
    LogGrows(trace, steps, a, n);
    var b := WritesAfter(trace, steps, n, t, i, k, a);
    assert |trace| == |steps| + 1;
    hide IsRun;
    assert WritesInto(trace, steps, t, w, a, b, d);
  }

  lemma AppendAt(trace: seq<State>, steps: seq<Step>, b: nat, n: nat, t: nat)
    requires IsRun(trace, steps) && b < n < |trace| && steps[b] == Append(t)
    ensures |trace[b].log| < |trace[n].log| && t in trace[b].turns
    ensures trace[n].log[|trace[b].log|] == Record(trace[b].turns[t].session, Some(t), false, trace[b].clock)
  {
    assert Enabled(trace[b], steps[b]) && trace[b + 1] == After(trace[b], steps[b]);
    LogGrows(trace, steps, b + 1, n);
    hide IsRun;
  }

  lemma InsertAt(trace: seq<State>, steps: seq<Step>, d: nat, n: nat, w: nat)
    requires IsRun(trace, steps) && d < n < |trace| && steps[d] == Insert(w)
    ensures |trace[d].log| < |trace[n].log| && w in trace[d].writers && trace[d].writers[w].Made?
    ensures trace[n].log[|trace[d].log|] == trace[d].writers[w].record
  {
    assert Enabled(trace[d], steps[d]) && trace[d + 1] == After(trace[d], steps[d]);
    LogGrows(trace, steps, d + 1, n);
    hide IsRun;
  }

  lemma MakeAt(trace: seq<State>, steps: seq<Step>, a: nat, d: nat, w: nat, session: string)
    requires IsRun(trace, steps) && a < d < |trace| && steps[a] == Make(w, session)
    requires w in trace[d].writers && trace[d].writers[w].Made?
    ensures trace[d].writers[w].record == Record(session, None, false, trace[a].clock)
    ensures trace[a + 1].clock == trace[a].clock + 1
  {
    assert Enabled(trace[a], steps[a]) && trace[a + 1] == After(trace[a], steps[a]);
    MadeStays(trace, steps, a + 1, d, w);
    hide IsRun;
  }

  /** A running turn has written something, before now. */
  lemma RunningHasWritten(s: State, t: nat) returns (i: nat)
    requires BlocksOk(s) && StampsOk(s) && t in s.turns && s.turns[t].pc == Running
    ensures i < |s.log| && By(s.log[i], t) && s.log[i].session == s.turns[t].session && s.log[i].stamp < s.clock
  {
    assert !Quiet(s, t);
    i :| 0 <= i < |s.log| && By(s.log[i], t);
    RunsAt(s, t, i);
  }

  lemma WrittenIsSplit(
    trace: seq<State>, steps: seq<Step>, n: nat, t: nat, w: nat, a: nat, b: nat, d: nat)
    requires IsRun(trace, steps) && n < |trace| && a < b < n && a < d < n && WritesInto(trace, steps, t, w, a, b, d)
    ensures BlockIsSplit(trace[n].log, t)
  {
    InvAlways(trace, steps, a);
    InsertAt(trace, steps, d, n, w);
    AppendAt(trace, steps, b, n, t);
    MakeAt(trace, steps, a, d, w, trace[a].turns[t].session);
    LogGrows(trace, steps, a, n);
    LogGrows(trace, steps, a + 1, b);
    hide IsRun, LocksOk, BlocksOk, StampsOk;
    var i := RunningHasWritten(trace[a], t);
    var log := trace[n].log;
    assert log[i] == trace[a].log[i];
    assert Splits(log[i], log[|trace[d].log|], log[|trace[b].log|], t);
  }

  /**
   * Over every run: when the session is read, a record of a writer without the lock lies inside a turn's block
   * exactly when such a writer made it while the turn was running, the turn appended again after that, and the
   * record was appended at all, be it long after the turn.
   */
  lemma SplitExactlyWhen(trace: seq<State>, steps: seq<Step>, n: nat, t: nat)
    requires IsRun(trace, steps) && n < |trace|
    ensures BlockIsSplit(trace[n].log, t) <==> WrittenInto(trace, steps, t, n)
  {
    assert |trace| == |steps| + 1;
    hide IsRun, Splits, WritesInto;
    if BlockIsSplit(trace[n].log, t) {
      var log := trace[n].log;
      var i, j, k :| 0 <= i < |log| && 0 <= j < |log| && 0 <= k < |log| && Splits(log[i], log[j], log[k], t);
      SplitIsWritten(trace, steps, n, t, i, j, k);
    }
    if WrittenInto(trace, steps, t, n) {
      var w: nat, a, b, d :| 0 <= a < b < n && a < d < n && WritesInto(trace, steps, t, w, a, b, d);
      WrittenIsSplit(trace, steps, n, t, w, a, b, d);
    }
  }

  /** A turn that has stored its user message. */
  lemma FirstSteps() returns (trace: seq<State>)
    ensures |trace| == 4 && Init(trace[0])
    ensures var steps := [LookUp(0), Lock(0), AppendUser(0, true)];
            forall i :: 0 <= i < 3 ==> Enabled(trace[i], steps[i]) && trace[i + 1] == After(trace[i], steps[i])
    ensures trace[3] == State(map["s" := 0], [Some(0)], map[0 := Turn("s", Running, 0, 0)],
                              [Record("s", Some(0), true, 0)], 1, map[7 := NotYet])
  {
    var s0 := State(map[], [], map[0 := Turn("s", Fresh, 0, 0)], [], 0, map[7 := NotYet]);
    var s1 := After(s0, LookUp(0));
    assert s1 == State(map["s" := 0], [None], map[0 := Turn("s", HasLock, 0, 0)], [], 0, map[7 := NotYet]);
    var s2 := After(s1, Lock(0));
    assert s2 == State(map["s" := 0], [Some(0)], map[0 := Turn("s", Locked, 0, 0)], [], 0, map[7 := NotYet]);
    var s3 := After(s2, AppendUser(0, true));
    trace := [s0, s1, s2, s3];
  }

  /** A message is made, the turn appends, the message is appended. */
  lemma LastSteps(s3: State) returns (s4: State, s5: State, s6: State)
    requires |s3.log| == 1 && s3.log[0] == Record("s", Some(0), true, 0) && s3.clock == 1
    requires 0 in s3.turns && s3.turns[0].pc == Running && s3.turns[0].session == "s"
    requires 7 in s3.writers && s3.writers[7] == NotYet
    ensures Enabled(s3, Make(7, "s")) && s4 == After(s3, Make(7, "s"))
    ensures Enabled(s4, Append(0)) && s5 == After(s4, Append(0))
    ensures Enabled(s5, Insert(7)) && s6 == After(s5, Insert(7))
    ensures |s6.log| == 3 && Splits(s6.log[0], s6.log[2], s6.log[1], 0)
  {
    s4 := After(s3, Make(7, "s"));
    s5 := After(s4, Append(0));
    s6 := After(s5, Insert(7));
  }

  /**
   * The order in which a session is read is not free of gaps: a message made during a turn, and appended after
   * all of the turn's messages, is read in between them.
   */
  lemma OutsiderSplitsBlock() returns (trace: seq<State>, steps: seq<Step>)
    ensures steps == [LookUp(0), Lock(0), AppendUser(0, true), Make(7, "s"), Append(0), Insert(7)]
    ensures |trace| == 7 && IsRun(trace, steps) && |trace[6].log| == 3
    ensures Splits(trace[6].log[0], trace[6].log[2], trace[6].log[1], 0)
  {
    steps := [LookUp(0), Lock(0), AppendUser(0, true), Make(7, "s"), Append(0), Insert(7)];
    var first := FirstSteps();
    hide After, Enabled, Init, Splits;
    var s4, s5, s6 := LastSteps(first[3]);
    trace := first + [s4, s5, s6];
    var before := [LookUp(0), Lock(0), AppendUser(0, true)];
    forall i | 0 <= i < |steps| ensures Enabled(trace[i], steps[i]) && trace[i + 1] == After(trace[i], steps[i]) {
      if i < 3 {
        assert steps[i] == before[i] && trace[i] == first[i] && trace[i + 1] == first[i + 1];
      }
    }
  }
}
