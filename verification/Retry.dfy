/** Rotation through recovery strategies by descending priority. */
module Retry {
  import opened Llm

  datatype Strategy = Strategy(name: string, priority: int)

  ghost predicate Descending(s: seq<Strategy>) {
    forall i, j :: 0 <= i < j < |s| ==> s[i].priority >= s[j].priority
  }

  /** What a strategy answers for the task at hand: a hint, or nothing when it does not apply. */
  type Reframe = Strategy -> Option<string>

  /** The first untried strategy that applies. */
  function FirstApplicable(s: seq<Strategy>, tried: set<string>, reframe: Reframe): Option<Strategy> {
    if s == [] then None
    else if s[0].name !in tried && reframe(s[0]).Some? then Some(s[0])
    else FirstApplicable(s[1..], tried, reframe)
  }

  predicate Candidate(s: seq<Strategy>, tried: set<string>, reframe: Reframe, c: Strategy) {
    c in s && c.name !in tried && reframe(c).Some?
  }

  /** In priority order, the first applicable strategy has the highest priority of all candidates. */
  lemma {:induction false} FirstIsHighest(s: seq<Strategy>, tried: set<string>, reframe: Reframe)
    requires Descending(s)
    ensures var r := FirstApplicable(s, tried, reframe);
            && (r.None? <==> forall c :: c in s ==> !Candidate(s, tried, reframe, c))
            && (r.Some? ==> && Candidate(s, tried, reframe, r.value)
                            && forall c :: c in s && Candidate(s, tried, reframe, c) ==> c.priority <= r.value.priority)
  {
    if s != [] {
      FirstIsHighest(s[1..], tried, reframe);
      assert forall c :: c in s <==> c == s[0] || c in s[1..];
      if s[0].name !in tried && reframe(s[0]).Some? {
        assert Candidate(s, tried, reframe, s[0]);
      } else {
        assert forall c :: c in s && Candidate(s, tried, reframe, c) ==>
               c in s[1..] && Candidate(s[1..], tried, reframe, c);
      }
    }
  }

  /** Inserts behind every strategy of at least the same priority. */
  function Insert(s: seq<Strategy>, x: Strategy): (r: seq<Strategy>)
    ensures multiset(r) == multiset(s) + multiset{x}
  {
    if s == [] || s[0].priority < x.priority then [x] + s
    else
      assert s == [s[0]] + s[1..];
      [s[0]] + Insert(s[1..], x)
  }

  lemma {:induction false} InsertKeepsOrder(s: seq<Strategy>, x: Strategy)
    requires Descending(s)
    ensures Descending(Insert(s, x))
  {
    if s != [] && s[0].priority >= x.priority {
      InsertKeepsOrder(s[1..], x);
      var rest := Insert(s[1..], x);
      forall j | 0 <= j < |rest| ensures rest[j].priority <= s[0].priority {
        assert rest[j] in multiset(rest);
      }
    }
  }

  /** The sorted copy; the order among equal priorities is not something the caller may rely on. */
  method SortByPriority(s: seq<Strategy>) returns (sorted: seq<Strategy>)
    ensures Descending(sorted) && multiset(sorted) == multiset(s)
  {
    sorted := [];
    for n := 0 to |s|
      invariant Descending(sorted) && multiset(sorted) == multiset(s[..n])
    {
      InsertKeepsOrder(sorted, s[n]);
      assert s[..n + 1] == s[..n] + [s[n]];
      sorted := Insert(sorted, s[n]);
    }
    assert s[..|s|] == s;
  }

  class Rotator {
    var strategies: seq<Strategy>
    var maxAttempts: nat
    var tried: set<string>
    var attempts: nat

    ghost predicate Valid()
      reads this
    {
      Descending(strategies) && |tried| == attempts <= maxAttempts
    }

    constructor (strategies: seq<Strategy>, maxAttempts: nat)
      ensures Valid() && multiset(this.strategies) == multiset(strategies)
      ensures this.maxAttempts == maxAttempts && tried == {}
    {
      var sorted := SortByPriority(strategies);
      this.strategies := sorted;
      this.maxAttempts := maxAttempts;
      this.tried := {};
      this.attempts := 0;
    }

    /**
     * Dispenses the highest-priority strategy that applies and was not tried, and marks it tried;
     * nothing when the attempts are used up or no strategy qualifies.
     */
    method Next(reframe: Reframe) returns (s: Option<Strategy>)
      requires Valid()
      modifies this`tried, this`attempts
      ensures Valid()
      ensures s == if old(attempts) >= maxAttempts then None else FirstApplicable(strategies, old(tried), reframe)
      ensures tried == if s.Some? then old(tried) + {s.value.name} else old(tried)
      ensures s.None? <==> old(attempts) >= maxAttempts
                           || forall c :: c in strategies ==> !Candidate(strategies, old(tried), reframe, c)
      ensures s.Some? ==> Candidate(strategies, old(tried), reframe, s.value)
      ensures s.Some? ==> forall c :: c in strategies && Candidate(strategies, old(tried), reframe, c) ==>
                                        c.priority <= s.value.priority
    {
      if attempts >= maxAttempts {
        return None;
      }
      FirstIsHighest(strategies, tried, reframe);
      for n := 0 to |strategies|
        invariant tried == old(tried) && attempts == old(attempts)
        invariant FirstApplicable(strategies[n..], tried, reframe) == FirstApplicable(strategies, tried, reframe)
      {
        var st := strategies[n];
        assert strategies[n..][1..] == strategies[n + 1..];
        if st.name in tried {
          continue;
        }
        if reframe(st).None? {
          continue;
        }
        tried := tried + {st.name};
        attempts := attempts + 1;
        return Some(st);
      }
      s := None;
    }

    method Reset()
      requires Valid()
      modifies this`tried, this`attempts
      ensures Valid() && tried == {}
    {
      tried := {};
      attempts := 0;
    }
  }
}
