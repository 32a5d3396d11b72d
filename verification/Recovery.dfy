/** Classification of tool failures and the decision to retry, replan or skip. */
module Recovery {
  import opened Llm
  import opened Sequences

  /** The error a task ended with; a context error is a passed deadline or a cancellation. */
  datatype TaskError = PermanentError(msg: string) | PlainError(msg: string) | ContextError(msg: string)

  datatype Action = Skip | Retry | Replan

  predicate Contains(s: string, word: string) {
    exists i :: 0 <= i <= |s| && MatchAt(s, word, i)
  }

  /** The word stands somewhere in the text. */
  lemma ContainsIsInfix(s: string, word: string)
    ensures Contains(s, word) <==> exists a, b :: s == a + word + b
  {
    if i :| 0 <= i <= |s| && MatchAt(s, word, i) {
      assert s == s[..i] + word + s[i + |word|..];
    }
    if a, b :| s == a + word + b {
      assert s[|a|..|a| + |word|] == word;
      assert MatchAt(s, word, |a|);
    }
  }

  lemma AbsentLetter(s: string, word: string, k: nat)
    requires k < |word| && word[k] !in s
    ensures !Contains(s, word)
  {
    forall i | 0 <= i <= |s| ensures !MatchAt(s, word, i) {
      if i + |word| <= |s| {
        assert s[i..i + |word|][k] == s[i + k];
      }
    }
  }

  predicate TransientText(msg: string) {
    Contains(msg, "timeout") || Contains(msg, "temporary") || Contains(msg, "connection refused")
  }

  /** A recovery policy: how often a transient failure is retried, and which texts count as transient. */
  datatype Policy = Policy(maxRetries: int, transientText: string -> bool)

  function DefaultPolicy(maxRetries: int): Policy {
    Policy(maxRetries, s => TransientText(s))
  }

  function ClassifyError(p: Policy, err: TaskError): ErrorKind {
    match err
    case PermanentError(_) => Permanent
    case ContextError(_) => Transient
    case PlainError(msg) => if p.transientText(msg) then Transient else Permanent
  }

  function Decide(p: Policy, err: Option<TaskError>, attempt: nat): Action {
    if err.None? then Skip
    else if ClassifyError(p, err.value) == Transient then if attempt < p.maxRetries then Retry else Replan
    else Skip
  }

  /** The result runTool reports for a failing tool. */
  function FailureResult(p: Policy, call: ToolCall, err: TaskError): ToolResult {
    ToolResult(call.id, "error: " + err.msg, true, [], ClassifyError(p, err))
  }

  /** The error the task closure hands to the executor: a transient failure is flattened to its text. */
  function ClosureError(r: ToolResult): Option<TaskError> {
    if !r.isError then None
    else if r.kind == Permanent then Some(PermanentError(r.content))
    else Some(PlainError(r.content))
  }

  lemma PrefixAddsNoMatch(pre: string, msg: string, word: string)
    requires word != "" && word[0] !in pre
    ensures Contains(pre + msg, word) <==> Contains(msg, word)
  {
    var s := pre + msg;
    if Contains(s, word) {
      var i :| 0 <= i <= |s| && MatchAt(s, word, i);
      assert s[i] == s[i..i + |word|][0] == word[0];
      assert i >= |pre|;
      var j := i - |pre|;
      SliceBehind(pre, msg, j, |word|);
      assert MatchAt(msg, word, j);
    }
    if Contains(msg, word) {
      var j :| 0 <= j <= |msg| && MatchAt(msg, word, j);
      var i := j + |pre|;
      SliceBehind(pre, msg, j, |word|);
      assert MatchAt(s, word, i);
    }
  }

  lemma SliceBehind(pre: string, msg: string, j: nat, n: nat)
    requires j + n <= |msg|
    ensures (pre + msg)[|pre| + j..|pre| + j + n] == msg[j..j + n]
  {
  }

  /**
   * Which tool failures are retried: those that are not permanent and whose text names a transient
   * condition. A context error that runTool classed as transient is retried only if its text does too.
   */
  lemma RetriedExactlyWhen(call: ToolCall, err: TaskError, attempt: nat, maxRetries: int)
    ensures var p := DefaultPolicy(maxRetries);
            var action := Decide(p, ClosureError(FailureResult(p, call, err)), attempt);
            var named := Contains(err.msg, "timeout") || Contains(err.msg, "temporary")
                         || Contains(err.msg, "connection refused");
            && (action == Retry <==> attempt < maxRetries && !err.PermanentError? && named)
            && (action == Replan <==> attempt >= maxRetries && !err.PermanentError? && named)
            && FailureResult(p, call, err)
               == ToolResult(call.id, "error: " + err.msg, true, [],
                             if err.ContextError? || (err.PlainError? && named) then Transient else Permanent)
  {
    PrefixAddsNoMatch("error: ", err.msg, "timeout");
    PrefixAddsNoMatch("error: ", err.msg, "temporary");
    PrefixAddsNoMatch("error: ", err.msg, "connection refused");
  }

  const DEADLINE_EXCEEDED := "context deadline exceeded"

  lemma DeadlineTextIsPlain()
    ensures !TransientText(DEADLINE_EXCEEDED)
  {
    var s := DEADLINE_EXCEEDED;
    assert 'm' !in s && 'f' !in s;
    var w1, w2, w3 := "timeout", "temporary", "connection refused";
    assert w1[2] == 'm' && w2[2] == 'm' && w3[13] == 'f';
    AbsentLetter(s, w1, 2);
    AbsentLetter(s, w2, 2);
    AbsentLetter(s, w3, 13);
  }

  /** A tool that ran into its deadline is classed as transient and yet never retried nor replanned. */
  lemma DeadlineIsNotRetried(call: ToolCall, attempt: nat, maxRetries: int)
    ensures var err := ContextError(DEADLINE_EXCEEDED);
            var p := DefaultPolicy(maxRetries);
            && ClassifyError(p, err) == Transient
            && Decide(p, ClosureError(FailureResult(p, call, err)), attempt) == Skip
  {
    DeadlineTextIsPlain();
    RetriedExactlyWhen(call, ContextError(DEADLINE_EXCEEDED), attempt, maxRetries);
  }
}
