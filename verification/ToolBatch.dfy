/** One batch of tool calls: the parallel first attempts and the sequential recovery that follows. */
module ToolBatch {
  import opened Llm
  import opened Recovery

  /** One attempt at a tool: it ran, or the turn was cancelled before it could. */
  datatype Attempt =
    | NotStarted
    | Ran(content: string, isError: bool, images: seq<Image>, kind: ErrorKind)

  /** The environment: what attempt a at call i does. */
  type Runs = (nat, nat) -> Attempt

  datatype FailedTool = FailedTool(name: string, retries: nat)

  function ResultOf(call: ToolCall, a: Attempt): ToolResult
    requires a.Ran?
  {
    ToolResult(call.id, a.content, a.isError, a.images, a.kind)
  }

  function ErrorOf(a: Attempt): Option<TaskError> {
    match a
    case NotStarted => Some(ContextError("context canceled"))
    case Ran(content, isError, images, kind) => ClosureError(ToolResult("", content, isError, images, kind))
  }

  predicate IsTransient(p: Policy, a: Attempt) {
    ErrorOf(a).Some? && ClassifyError(p, ErrorOf(a).value) == Transient
  }

  /** The attempts made at call i, from attempt a on. */
  function Attempts(run: Runs, p: Policy, i: nat, a: nat): (r: seq<Attempt>)
    ensures r != []
    decreases if a < p.maxRetries then p.maxRetries - a else 0
  {
    [run(i, a)] + if Decide(p, ErrorOf(run(i, a)), a) == Retry then Attempts(run, p, i, a + 1) else []
  }

  function Last(s: seq<Attempt>): Attempt
    requires s != []
  {
    s[|s| - 1]
  }

  /** A result slot holds the result of the last attempt that ran. */
  function Slot(call: ToolCall, attempts: seq<Attempt>): ToolResult {
    if attempts == [] then UNSET
    else if Last(attempts).Ran? then ResultOf(call, Last(attempts))
    else Slot(call, attempts[..|attempts| - 1])
  }

  function Results(calls: seq<ToolCall>, run: Runs, p: Policy): (r: seq<ToolResult>)
    ensures |r| == |calls|
  {
    seq(|calls|, i requires 0 <= i < |calls| => Slot(calls[i], Attempts(run, p, i, 0)))
  }

  /** The calls reported for replanning, in order, with the retries spent on each. */
  function Failed(calls: seq<ToolCall>, run: Runs, p: Policy, n: nat): seq<FailedTool>
    requires n <= |calls|
  {
    if n == 0 then []
    else
      var at := Attempts(run, p, n - 1, 0);
      Failed(calls, run, p, n - 1)
      + if IsTransient(p, Last(at)) then [FailedTool(calls[n - 1].name, |at| - 1)] else []
  }

  function Bound(p: Policy): nat {
    if p.maxRetries < 0 then 0 else p.maxRetries
  }

  lemma RetriesTransients(p: Policy, attempt: Attempt, a: nat)
    ensures Decide(p, ErrorOf(attempt), a) == Retry <==> IsTransient(p, attempt) && a < p.maxRetries
  {
  }

  lemma {:induction false} AttemptsEnd(run: Runs, p: Policy, i: nat, a: nat)
    requires a <= Bound(p)
    ensures var at := Attempts(run, p, i, a);
            |at| <= Bound(p) + 1 - a && (!IsTransient(p, Last(at)) || |at| == Bound(p) + 1 - a)
    decreases Bound(p) - a
  {
    RetriesTransients(p, run(i, a), a);
    hide Decide, IsTransient, ErrorOf;
    if Decide(p, ErrorOf(run(i, a)), a) == Retry {
      AttemptsEnd(run, p, i, a + 1);
      assert Last(Attempts(run, p, i, a)) == Last(Attempts(run, p, i, a + 1));
    }
  }

  lemma {:induction false} AttemptAt(run: Runs, p: Policy, i: nat, a: nat, k: nat)
    requires k < |Attempts(run, p, i, a)|
    ensures Attempts(run, p, i, a)[k] == run(i, a + k)
    ensures k < |Attempts(run, p, i, a)| - 1 ==> IsTransient(p, run(i, a + k))
    decreases k
  {
    RetriesTransients(p, run(i, a), a);
    hide Decide, IsTransient, ErrorOf;
    if k > 0 {
      AttemptAt(run, p, i, a + 1, k - 1);
      assert Attempts(run, p, i, a)[k] == Attempts(run, p, i, a + 1)[k - 1];
    }
  }

  /**
   * A tool is attempted between once and MaxRetries + 1 times. It is attempted again exactly after
   * transient failures: never after a success or a permanent error, and always while retries are left.
   */
  lemma AttemptDiscipline(run: Runs, p: Policy, i: nat)
    ensures var at := Attempts(run, p, i, 0);
            && 1 <= |at| <= Bound(p) + 1
            && (forall k :: 0 <= k < |at| ==> at[k] == run(i, k))
            && (forall k :: 0 <= k < |at| - 1 ==> IsTransient(p, at[k]))
            && (IsTransient(p, Last(at)) ==> |at| == Bound(p) + 1)
  {
    AttemptsEnd(run, p, i, 0);
    var at := Attempts(run, p, i, 0);
    hide Attempts, IsTransient;
    forall k | 0 <= k < |at| ensures at[k] == run(i, k) && (k < |at| - 1 ==> IsTransient(p, at[k])) {
      AttemptAt(run, p, i, 0, k);
    }
  }

  /** The attempt failed in a way that another attempt may mend: not started, or transient by kind and by text. */
  predicate Mendable(a: Attempt) {
    || a.NotStarted?
    || (&& a.isError && a.kind == Transient
        && (Contains(a.content, "timeout") || Contains(a.content, "temporary")
            || Contains(a.content, "connection refused")))
  }

  lemma MendableIsTransient(a: Attempt, maxRetries: int)
    ensures IsTransient(DefaultPolicy(maxRetries), a) <==> Mendable(a)
  {
    hide Contains;
  }

  /**
   * Under the default policy attempt k + 1 at a call is made exactly when attempt k was made, retries are left,
   * and attempt k was not started or failed with a transient kind and a text that names one of three conditions.
   */
  lemma AttemptedExactlyWhen(run: Runs, maxRetries: int, i: nat, k: nat)
    ensures var made := |Attempts(run, DefaultPolicy(maxRetries), i, 0)|;
            && made > 0 && (k + 1 < made <==> k < made && k < maxRetries && Mendable(run(i, k)))
  {
    var p := DefaultPolicy(maxRetries);
    AttemptDiscipline(run, p, i);
    MendableIsTransient(run(i, k), maxRetries);
    hide Attempts, IsTransient, Mendable;
  }

  /** All attempts that the policy allows at the call are made, and each of them is mendable. */
  ghost predicate AllMendable(run: Runs, maxRetries: int, i: nat) {
    forall k: nat :: k == 0 || k <= maxRetries ==> Mendable(run(i, k))
  }

  function Retries(maxRetries: int): nat {
    if maxRetries < 0 then 0 else maxRetries
  }

  lemma {:induction false} MadeWhileMendable(run: Runs, maxRetries: int, i: nat, k: nat)
    requires k <= Retries(maxRetries)
    ensures k < |Attempts(run, DefaultPolicy(maxRetries), i, 0)| <==> forall j: nat :: j < k ==> Mendable(run(i, j))
  {
    hide Attempts, Mendable;
    if k == 0 {
      AttemptedExactlyWhen(run, maxRetries, i, 0);
    } else {
      MadeWhileMendable(run, maxRetries, i, k - 1);
      AttemptedExactlyWhen(run, maxRetries, i, k - 1);
    }
  }

  /** The calls of a batch that are given up, in order: those at which every allowed attempt is mendable. */
  ghost function GivenUp(calls: seq<ToolCall>, run: Runs, maxRetries: int, n: nat): seq<FailedTool>
    requires n <= |calls|
  {
    if n == 0 then []
    else GivenUp(calls, run, maxRetries, n - 1)
         + if AllMendable(run, maxRetries, n - 1) then [FailedTool(calls[n - 1].name, Retries(maxRetries))] else []
  }

  /** A call is given up exactly when the last attempt allowed is made and is mendable as well. */
  lemma LastIsMendable(run: Runs, maxRetries: int, i: nat)
    ensures var p := DefaultPolicy(maxRetries);
            IsTransient(p, Last(Attempts(run, p, i, 0))) <==> AllMendable(run, maxRetries, i)
  {
    var p, r := DefaultPolicy(maxRetries), Retries(maxRetries);
    var at := Attempts(run, p, i, 0);
    AttemptDiscipline(run, p, i);
    assert Bound(p) == r && Last(at) == run(i, |at| - 1);
    hide *;
    MadeWhileMendable(run, maxRetries, i, r);
    MendableIsTransient(Last(at), maxRetries);
    AllMendableIs(run, maxRetries, i);
  }

  lemma AllMendableIs(run: Runs, maxRetries: int, i: nat)
    ensures var r := Retries(maxRetries);
            AllMendable(run, maxRetries, i) <==>
            (forall j: nat :: j < r ==> Mendable(run(i, j))) && Mendable(run(i, r))
  {
    hide Mendable;
  }

  /** Under the default policy exactly these calls are reported for replanning, with all retries spent on each. */
  lemma {:induction false} ReplannedExactlyWhen(calls: seq<ToolCall>, run: Runs, maxRetries: int, n: nat)
    requires n <= |calls|
    ensures Failed(calls, run, DefaultPolicy(maxRetries), n) == GivenUp(calls, run, maxRetries, n)
  {
    hide *;
    var p := DefaultPolicy(maxRetries);
    if n == 0 {
      NoneFailed(calls, run, p);
      GivenUpNext(calls, run, maxRetries, 0);
    } else {
      ReplannedExactlyWhen(calls, run, maxRetries, n - 1);
      GivenUpNext(calls, run, maxRetries, n);
      FailedNext(calls, run, p, n - 1);
      GivenUpEntry(calls[n - 1], run, maxRetries, n - 1);
    }
  }

  lemma GivenUpNext(calls: seq<ToolCall>, run: Runs, maxRetries: int, n: nat)
    requires n <= |calls|
    ensures GivenUp(calls, run, maxRetries, n)
            == if n == 0 then []
               else GivenUp(calls, run, maxRetries, n - 1)
                    + if AllMendable(run, maxRetries, n - 1)
                      then [FailedTool(calls[n - 1].name, Retries(maxRetries))] else []
  {
    hide AllMendable;
  }

  lemma GivenUpEntry(call: ToolCall, run: Runs, maxRetries: int, i: nat)
    ensures var p := DefaultPolicy(maxRetries);
            var at := Attempts(run, p, i, 0);
            (if IsTransient(p, Last(at)) then [FailedTool(call.name, |at| - 1)] else [])
            == if AllMendable(run, maxRetries, i) then [FailedTool(call.name, Retries(maxRetries))] else []
  {
    var p := DefaultPolicy(maxRetries);
    LastIsMendable(run, maxRetries, i);
    AttemptDiscipline(run, p, i);
    assert Bound(p) == Retries(maxRetries);
    hide *;
  }

  /** Attempt k is the last one made that ran the tool. */
  ghost predicate IsLastRun(attempts: seq<Attempt>, k: nat) {
    k < |attempts| && attempts[k].Ran? && forall j :: k < j < |attempts| ==> attempts[j].NotStarted?
  }

  /** A slot holds what the last attempt that ran the tool reported, under the call's id. */
  lemma {:induction false} SlotIsLastRun(call: ToolCall, attempts: seq<Attempt>, k: nat)
    requires IsLastRun(attempts, k)
    ensures var a := attempts[k]; Slot(call, attempts) == ToolResult(call.id, a.content, a.isError, a.images, a.kind)
  {
    if k < |attempts| - 1 {
      SlotIsLastRun(call, attempts[..|attempts| - 1], k);
    }
  }

  /** In an uncancelled batch every slot carries its call's id and its last attempt's outcome. */
  lemma UncancelledSlots(calls: seq<ToolCall>, run: Runs, p: Policy)
    requires forall i: nat, a: nat :: i < |calls| ==> run(i, a).Ran?
    ensures |Results(calls, run, p)| == |calls|
    ensures forall i :: 0 <= i < |calls| ==>
              var last := run(i, |Attempts(run, p, i, 0)| - 1);
              Results(calls, run, p)[i] == ToolResult(calls[i].id, last.content, last.isError, last.images, last.kind)
  {
    forall i | 0 <= i < |calls|
      ensures Results(calls, run, p)[i] == ResultOf(calls[i], run(i, |Attempts(run, p, i, 0)| - 1))
    {
      AttemptDiscipline(run, p, i);
    }
  }

  /** Every call reported for replanning has used up exactly MaxRetries retries. */
  lemma {:induction false} ReplansExhaustRetries(calls: seq<ToolCall>, run: Runs, p: Policy, n: nat)
    requires n <= |calls|
    ensures forall f :: f in Failed(calls, run, p, n) ==> f.retries == Bound(p)
  {
    if n > 0 {
      ReplansExhaustRetries(calls, run, p, n - 1);
      AttemptDiscipline(run, p, n - 1);
    }
  }

  /** Some attempt got as far as running the tool. */
  predicate Started(attempts: seq<Attempt>) {
    exists k :: 0 <= k < |attempts| && attempts[k].Ran?
  }

  /** A slot carries its call's id exactly if some attempt ran the tool; otherwise it keeps its zero value. */
  lemma {:induction false} SlotId(call: ToolCall, attempts: seq<Attempt>)
    ensures Started(attempts) ==> Slot(call, attempts).callId == call.id
    ensures !Started(attempts) ==> Slot(call, attempts) == UNSET
  {
    if attempts != [] {
      var front := attempts[..|attempts| - 1];
      if Last(attempts).Ran? {
        assert attempts[|attempts| - 1].Ran?;
      } else {
        SlotId(call, front);
        assert forall k :: 0 <= k < |front| ==> front[k] == attempts[k];
      }
    }
  }

  /** The parallel phase: every task runs once and fills its own slot. */
  method RunBatch(calls: seq<ToolCall>, run: Runs) returns (slots: seq<ToolResult>, errs: seq<Option<TaskError>>)
    ensures |slots| == |errs| == |calls|
    ensures forall j :: 0 <= j < |calls| ==> slots[j] == Slot(calls[j], [run(j, 0)]) && errs[j] == ErrorOf(run(j, 0))
  {
    slots, errs := [], [];
    for i := 0 to |calls|
      invariant |slots| == |errs| == i
      invariant forall j :: 0 <= j < i ==> slots[j] == Slot(calls[j], [run(j, 0)]) && errs[j] == ErrorOf(run(j, 0))
    {
      var first := run(i, 0);
      slots := slots + [if first.Ran? then ResultOf(calls[i], first) else UNSET];
      errs := errs + [ErrorOf(first)];
      assert Slot(calls[i], [first][..0]) == UNSET;
    }
  }

  /** Runs the batch, then works through its failures one call at a time. */
  method RunToolCalls(calls: seq<ToolCall>, run: Runs, p: Policy)
    returns (results: seq<ToolResult>, failed: seq<FailedTool>)
    ensures results == Results(calls, run, p)
    ensures failed == Failed(calls, run, p, |calls|)
  {
    hide Slot, Attempts, Failed, IsTransient, ErrorOf;
    NoneFailed(calls, run, p);
    var errs;
    results, errs := RunBatch(calls, run);
    failed := [];
    for i := 0 to |calls|
      invariant |results| == |calls|
      invariant forall j :: 0 <= j < i ==> results[j] == Slot(calls[j], Attempts(run, p, j, 0))
      invariant forall j :: i <= j < |calls| ==> results[j] == Slot(calls[j], [run(j, 0)])
      invariant failed == Failed(calls, run, p, i)
    {
      FailedNext(calls, run, p, i);
      var slot, retries, replan := Recover(calls[i], run, p, i, results[i], errs[i]);
      results := results[i := slot];
      if replan {
        failed := failed + [FailedTool(calls[i].name, retries)];
      }
    }
  }

  lemma NoneFailed(calls: seq<ToolCall>, run: Runs, p: Policy)
    ensures Failed(calls, run, p, 0) == []
  {
  }

  lemma FailedNext(calls: seq<ToolCall>, run: Runs, p: Policy, i: nat)
    requires i < |calls|
    ensures var at := Attempts(run, p, i, 0);
            Failed(calls, run, p, i + 1)
            == Failed(calls, run, p, i) + if IsTransient(p, Last(at)) then [FailedTool(calls[i].name, |at| - 1)] else []
  {
  }

  lemma SlotStep(call: ToolCall, attempts: seq<Attempt>, n: nat)
    requires n < |attempts|
    ensures Slot(call, attempts[..n + 1])
            == if attempts[n].Ran? then ResultOf(call, attempts[n]) else Slot(call, attempts[..n])
  {
    assert attempts[..n + 1][..n] == attempts[..n];
  }

  /** The recovery loop for one call whose first attempt is over. */
  method Recover(call: ToolCall, run: Runs, p: Policy, i: nat, slot0: ToolResult, err0: Option<TaskError>)
    returns (slot: ToolResult, attempts: nat, replan: bool)
    requires slot0 == Slot(call, [run(i, 0)]) && err0 == ErrorOf(run(i, 0))
    ensures slot == Slot(call, Attempts(run, p, i, 0))
    ensures attempts == |Attempts(run, p, i, 0)| - 1
    ensures replan <==> IsTransient(p, Last(Attempts(run, p, i, 0)))
  {
    ghost var all := Attempts(run, p, i, 0);
    var err := err0;
    slot, attempts, replan := slot0, 0, false;
    assert all[..1] == [run(i, 0)];
    while err.Some?
      invariant attempts < |all| && all[attempts..] == Attempts(run, p, i, attempts)
      invariant err == ErrorOf(run(i, attempts)) && !replan
      invariant slot == Slot(call, all[..attempts + 1])
      decreases |all| - attempts
    {
      assert all[attempts] == all[attempts..][0];
      var action := Decide(p, err, attempts);
      if action != Retry {
        replan := action == Replan;
        break;
      }
      assert all[attempts + 1..] == all[attempts..][1..] == Attempts(run, p, i, attempts + 1);
      attempts := attempts + 1;
      var again := run(i, attempts);
      assert all[attempts] == all[attempts..][0] == again;
      SlotStep(call, all, attempts);
      if again.Ran? {
        slot := ResultOf(call, again);
      }
      err := ErrorOf(again);
    }
    assert all[attempts] == all[attempts..][0];
    assert |all[attempts..]| == 1 && all[..attempts + 1] == all;
  }
}
