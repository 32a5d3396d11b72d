/**
 * The memory store under concurrency. Tool calls of one reply run in parallel and all sessions share the
 * store, and a set is a lookup followed by an upsert without a transaction. Lookups, upserts and deletions
 * of any number of threads interleave arbitrarily.
 */
module MemorySteps {
  import Memory

  type Key = Memory.Key

  type Rows = Memory.Rows

  /** A thread does nothing, or is past the lookup of a set. */
  datatype Pc = Idle | Checked(key: Key, value: string)

  datatype State = State(rows: Rows, threads: map<nat, Pc>)

  datatype Step =
    | LookUp(t: nat, key: Key, value: string, getOk: bool)
    | Upsert(t: nat, createOk: bool)
    | Remove(key: Key, deleteOk: bool)

  predicate Enabled(s: State, step: Step) {
    match step
    case LookUp(t, _, _, _) => t in s.threads && s.threads[t] == Idle
    case Upsert(t, _) => t in s.threads && s.threads[t].Checked?
    case Remove(_, _) => true
  }

  /** The lookup of an immutable key refuses the set if it succeeds and finds the key. */
  predicate Refuses(s: State, immutable: set<string>, key: Key, getOk: bool) {
    key.name in immutable && getOk && key in s.rows
  }

  function After(s: State, step: Step, immutable: set<string>): State
    requires Enabled(s, step)
  {
    match step
    case LookUp(t, key, value, getOk) =>
      if Refuses(s, immutable, key, getOk) then s else s.(threads := s.threads[t := Checked(key, value)])
    case Upsert(t, createOk) =>
      State(if createOk then s.rows[s.threads[t].key := s.threads[t].value] else s.rows, s.threads[t := Idle])
    case Remove(key, deleteOk) => s.(rows := Memory.AfterDelete(s.rows, immutable, key.agent, key.name, deleteOk))
  }

  ghost predicate IsRun(trace: seq<State>, steps: seq<Step>, immutable: set<string>) {
    && |trace| == |steps| + 1
    && forall i :: 0 <= i < |steps| ==>
         Enabled(trace[i], steps[i]) && trace[i + 1] == After(trace[i], steps[i], immutable)
  }

  /** A lookup right before the upsert of the same thread is one sequential set. */
  lemma TwoStepsAreSet(s: State, t: nat, key: Key, value: string, getOk: bool, createOk: bool, immutable: set<string>)
    requires t in s.threads && s.threads[t] == Idle
    ensures var s1 := After(s, LookUp(t, key, value, getOk), immutable);
            var s2 := if s1.threads[t].Checked? then After(s1, Upsert(t, createOk), immutable) else s1;
            s2.rows == Memory.AfterSet(s.rows, immutable, key.agent, key.name, value, getOk, createOk)
            && s2.threads == s.threads
  {
    assert s.threads[t := Checked(key, value)][t := Idle] == s.threads;
  }

  // ---------------------------------------------------------------- when an immutable key changes

  /** Some thread is past its lookup of the key and carries another value for it. */
  ghost predicate OtherValueInFlight(s: State, k: Key) {
    exists t :: t in s.threads && Carries(s.threads[t], k) && k in s.rows && s.threads[t].value != s.rows[k]
  }

  predicate Carries(pc: Pc, k: Key) {
    pc.Checked? && pc.key == k
  }

  /** No lookup of the key fails. */
  predicate LooksUp(step: Step, k: Key) {
    step.LookUp? && step.key == k ==> step.getOk
  }

  /** An immutable key that is present stays, and changes at a step exactly if that upserts another value. */
  lemma ChangesExactlyWhen(s: State, step: Step, immutable: set<string>, k: Key)
    requires Enabled(s, step) && k in s.rows && k.name in immutable
    ensures k in After(s, step, immutable).rows
    ensures After(s, step, immutable).rows[k] != s.rows[k] <==>
            && step.Upsert? && step.createOk && Carries(s.threads[step.t], k)
            && s.threads[step.t].value != s.rows[k]
  {
  }

  /** While lookups of the key succeed, no new thread gets past one. */
  lemma NoneGetsPast(s: State, step: Step, immutable: set<string>, k: Key)
    requires Enabled(s, step) && k in s.rows && k.name in immutable && LooksUp(step, k)
    requires !OtherValueInFlight(s, k)
    ensures !OtherValueInFlight(After(s, step, immutable), k) && After(s, step, immutable).rows[k] == s.rows[k]
  {
    var s' := After(s, step, immutable);
    ChangesExactlyWhen(s, step, immutable, k);
    forall t | t in s'.threads && Carries(s'.threads[t], k) ensures s'.threads[t].value == s'.rows[k] {
      assert t in s.threads && Carries(s.threads[t], k);
    }
  }

  /**
   * An immutable key that is present keeps its value in every interleaving, as long as no other value for it
   * is in flight to begin with and no lookup of it fails.
   */
  lemma {:induction false} ImmutableStays(
    trace: seq<State>, steps: seq<Step>, immutable: set<string>, k: Key, n: nat)
    requires IsRun(trace, steps, immutable) && n < |trace| && k in trace[0].rows && k.name in immutable
    requires !OtherValueInFlight(trace[0], k) && forall i :: 0 <= i < n ==> LooksUp(steps[i], k)
    ensures k in trace[n].rows && trace[n].rows[k] == trace[0].rows[k] && !OtherValueInFlight(trace[n], k)
  {
    hide OtherValueInFlight, After;
    if n > 0 {
      ImmutableStays(trace, steps, immutable, k, n - 1);
      ChangesExactlyWhen(trace[n - 1], steps[n - 1], immutable, k);
      NoneGetsPast(trace[n - 1], steps[n - 1], immutable, k);
    }
  }

  /** Some continuation in which no lookup of the key fails changes its value. */
  ghost predicate CanChange(s: State, immutable: set<string>, k: Key) {
    exists trace, steps :: Changes(s, immutable, k, trace, steps)
  }

  ghost predicate Changes(s: State, immutable: set<string>, k: Key, trace: seq<State>, steps: seq<Step>) {
    && IsRun(trace, steps, immutable) && trace[0] == s && (forall i :: 0 <= i < |steps| ==> LooksUp(steps[i], k))
    && k in s.rows && (k in trace[|steps|].rows ==> trace[|steps|].rows[k] != s.rows[k])
  }

  /**
   * With lookups that succeed, an immutable key that is present can still change exactly when a thread that
   * looked it up before it was set is about to write another value.
   */
  lemma CanChangeExactlyWhen(s: State, immutable: set<string>, k: Key)
    requires k in s.rows && k.name in immutable
    ensures CanChange(s, immutable, k) <==> OtherValueInFlight(s, k)
  {
    if OtherValueInFlight(s, k) {
      var t :| t in s.threads && Carries(s.threads[t], k) && k in s.rows && s.threads[t].value != s.rows[k];
      var step := Upsert(t, true);
      var s' := After(s, step, immutable);
      assert Changes(s, immutable, k, [s, s'], [step]);
    } else if CanChange(s, immutable, k) {
      var trace, steps :| Changes(s, immutable, k, trace, steps);
      hide OtherValueInFlight, After, Enabled;
      ImmutableStays(trace, steps, immutable, k, |steps|);
      assert false;
    }
  }

  /**
   * A run that overwrites an immutable key although every lookup succeeds: two threads look it up before
   * either has set it.
   */
  lemma SetsRace() returns (trace: seq<State>, steps: seq<Step>)
    ensures |trace| == 5 && IsRun(trace, steps, {"name"}) && trace[0].rows == map[]
    ensures forall i :: 0 <= i < |steps| ==> LooksUp(steps[i], Memory.Key("agent", "name"))
    ensures trace[3].rows == map[Memory.Key("agent", "name") := "first"]
    ensures trace[4].rows == map[Memory.Key("agent", "name") := "second"]
  {
    var k := Memory.Key("agent", "name");
    steps := [LookUp(0, k, "first", true), LookUp(1, k, "second", true), Upsert(0, true), Upsert(1, true)];
    var none: Rows := map[];
    var s0 := State(none, map[0 := Idle, 1 := Idle]);
    var s1 := State(none, map[0 := Checked(k, "first"), 1 := Idle]);
    var s2 := State(none, map[0 := Checked(k, "first"), 1 := Checked(k, "second")]);
    var s3 := State(map[k := "first"], map[0 := Idle, 1 := Checked(k, "second")]);
    var s4 := State(map[k := "second"], map[0 := Idle, 1 := Idle]);
    assert After(s0, steps[0], {"name"}) == s1;
    assert After(s1, steps[1], {"name"}) == s2;
    assert After(s2, steps[2], {"name"}) == s3;
    assert After(s3, steps[3], {"name"}) == s4;
    hide After;
    trace := [s0, s1, s2, s3, s4];
  }
}
