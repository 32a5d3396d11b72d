/**
 * The context builder: which stored messages are sent to the model, and how tool-call and
 * tool-result messages that lost their partner are removed.
 */
module Context {
  import opened Llm

  const IMAGE_TOKEN_ESTIMATE: nat := 1600
  const MAX_RECENT_IMAGE_MESSAGES: nat := 3
  const DEFAULT_BUDGET: int := 128000
  const DEFAULT_OUTPUT_RESERVE: int := 4096

  function EstimateTokens(s: string): nat {
    (|s| + 3) / 4
  }

  /** Decodes a stored message; a body that does not decode is passed on as text. */
  function MessageToLLM(m: Message): (r: ChatMessage)
    ensures r.role == m.role && (r.toolCalls == [] || r.toolResults == [])
    ensures r.toolCalls != [] ==> m.contentType == TypeToolCalls && m.content.calls.Some?
    ensures r.toolResults != [] ==> m.contentType == TypeToolResults && m.content.results.Some?
    ensures (m.contentType == TypeToolCalls && m.content.calls.None?)
            || (m.contentType == TypeToolResults && m.content.results.None?) ==>
              r == ChatMessage(m.role, m.content.raw, [], [])
  {
    if m.contentType == TypeToolCalls && m.content.calls.Some? then
      ChatMessage(m.role, m.content.calls.value.text, m.content.calls.value.calls, [])
    else if m.contentType == TypeToolResults && m.content.results.Some? then
      ChatMessage(m.role, "", [], m.content.results.value)
    else
      ChatMessage(m.role, m.content.raw, [], [])
  }

  // ---------------------------------------------------------------- sanitising

  /** The greedy pass, two messages at a time. */
  function SanitizeFrom(msgs: seq<ChatMessage>, i: nat): seq<ChatMessage>
    requires i <= |msgs|
    decreases |msgs| - i
  {
    if i == |msgs| then []
    else if IsCalls(msgs[i]) then
      if i + 1 < |msgs| && IsResults(msgs[i + 1])
      then [msgs[i], msgs[i + 1]] + SanitizeFrom(msgs, i + 2)
      else SanitizeFrom(msgs, i + 1)
    else if IsResults(msgs[i]) then SanitizeFrom(msgs, i + 1)
    else [msgs[i]] + SanitizeFrom(msgs, i + 1)
  }

  function Sanitize(msgs: seq<ChatMessage>): seq<ChatMessage> {
    SanitizeFrom(msgs, 0)
  }

  /** The local reading: a message survives by looking only at its two neighbours. */
  predicate Kept(msgs: seq<ChatMessage>, i: nat)
    requires i < |msgs|
  {
    || IsPlain(msgs[i])
    || (IsCalls(msgs[i]) && i + 1 < |msgs| && IsResults(msgs[i + 1]))
    || (IsResults(msgs[i]) && 0 < i && IsCalls(msgs[i - 1]))
  }

  function KeptFrom(msgs: seq<ChatMessage>, i: nat): seq<ChatMessage>
    requires i <= |msgs|
    decreases |msgs| - i
  {
    if i == |msgs| then []
    else (if Kept(msgs, i) then [msgs[i]] else []) + KeptFrom(msgs, i + 1)
  }

  lemma {:induction false} GreedyIsLocal(msgs: seq<ChatMessage>, i: nat)
    requires Exclusive(msgs) && i <= |msgs|
    requires 0 < i < |msgs| && IsResults(msgs[i]) ==> !IsCalls(msgs[i - 1])
    ensures SanitizeFrom(msgs, i) == KeptFrom(msgs, i)
    decreases |msgs| - i
  {
    if i < |msgs| {
      if IsCalls(msgs[i]) && i + 1 < |msgs| && IsResults(msgs[i + 1]) {
        GreedyIsLocal(msgs, i + 2);
        assert KeptFrom(msgs, i + 1) == [msgs[i + 1]] + KeptFrom(msgs, i + 2);
      } else {
        GreedyIsLocal(msgs, i + 1);
      }
    }
  }

  /** The greedy pass keeps exactly the plain messages and the adjacent call/results pairs. */
  lemma SanitizeIsLocalFilter(msgs: seq<ChatMessage>)
    requires Exclusive(msgs)
    ensures Sanitize(msgs) == KeptFrom(msgs, 0)
  {
    GreedyIsLocal(msgs, 0);
  }

  lemma PairedCons(m: ChatMessage, rest: seq<ChatMessage>)
    requires IsPlain(m) && WellPaired(rest) && Exclusive(rest)
    ensures WellPaired([m] + rest) && Exclusive([m] + rest)
  {
  }

  lemma PairedConsPair(calls: ChatMessage, results: ChatMessage, rest: seq<ChatMessage>)
    requires IsCalls(calls) && !IsResults(calls) && IsResults(results) && !IsCalls(results)
    requires WellPaired(rest) && Exclusive(rest)
    ensures WellPaired([calls, results] + rest) && Exclusive([calls, results] + rest)
  {
    hide IsCalls, IsResults;
  }

  lemma {:induction false} SanitizeFromPaired(msgs: seq<ChatMessage>, i: nat)
    requires Exclusive(msgs) && i <= |msgs|
    ensures WellPaired(SanitizeFrom(msgs, i)) && Exclusive(SanitizeFrom(msgs, i))
    decreases |msgs| - i
  {
    hide IsCalls, IsResults, WellPaired;
    if i == |msgs| {
      NothingIsPaired();
    } else if IsCalls(msgs[i]) && i + 1 < |msgs| && IsResults(msgs[i + 1]) {
      SanitizeFromPaired(msgs, i + 2);
      PairedConsPair(msgs[i], msgs[i + 1], SanitizeFrom(msgs, i + 2));
    } else {
      SanitizeFromPaired(msgs, i + 1);
      if IsPlain(msgs[i]) {
        PairedCons(msgs[i], SanitizeFrom(msgs, i + 1));
      }
    }
  }

  lemma NothingIsPaired()
    ensures WellPaired([]) && Exclusive([])
  {
  }

  lemma {:induction false} PairedIsFixed(msgs: seq<ChatMessage>, i: nat)
    requires WellPaired(msgs) && i <= |msgs|
    ensures KeptFrom(msgs, i) == msgs[i..]
    decreases |msgs| - i
  {
    if i < |msgs| {
      PairedIsFixed(msgs, i + 1);
    }
  }

  /** The result is well paired, and sanitising it again changes nothing. */
  lemma SanitizeSound(msgs: seq<ChatMessage>)
    requires Exclusive(msgs)
    ensures WellPaired(Sanitize(msgs))
    ensures Sanitize(Sanitize(msgs)) == Sanitize(msgs)
  {
    SanitizeFromPaired(msgs, 0);
    var once := Sanitize(msgs);
    GreedyIsLocal(once, 0);
    PairedIsFixed(once, 0);
  }

  lemma KeptShifts(msgs: seq<ChatMessage>, k: nat, j: nat)
    requires 0 < j && k + j < |msgs|
    ensures Kept(msgs[k..], j) == Kept(msgs, k + j)
  {
  }

  lemma {:induction false} KeptSuffix(msgs: seq<ChatMessage>, k: nat, j: nat)
    requires 0 < j && k + j <= |msgs|
    ensures KeptFrom(msgs[k..], j) == KeptFrom(msgs, k + j)
    decreases |msgs| - j
  {
    if k + j < |msgs| {
      KeptShifts(msgs, k, j);
      hide Kept;
      KeptSuffix(msgs, k, j + 1);
    }
  }

  lemma {:induction false} KeptFromIsSuffix(msgs: seq<ChatMessage>, i: nat, k: nat) returns (front: seq<ChatMessage>)
    requires i <= k <= |msgs|
    ensures KeptFrom(msgs, i) == front + KeptFrom(msgs, k)
    decreases k - i
  {
    hide Kept;
    if i == k {
      front := [];
    } else {
      var rest := KeptFromIsSuffix(msgs, i + 1, k);
      front := (if Kept(msgs, i) then [msgs[i]] else []) + rest;
    }
  }

  /** Sanitising a suffix gives a suffix of sanitising the whole. */
  lemma TruncationKeepsSuffix(msgs: seq<ChatMessage>, k: nat) returns (front: seq<ChatMessage>)
    requires Exclusive(msgs) && k <= |msgs|
    ensures Sanitize(msgs) == front + Sanitize(msgs[k..])
  {
    SanitizeIsLocalFilter(msgs);
    SanitizeIsLocalFilter(msgs[k..]);
    front := KeptFromIsSuffix(msgs, 0, k);
    if k < |msgs| {
      KeptSuffix(msgs, k, 1);
      if Kept(msgs, k) && !Kept(msgs[k..], 0) {
        front := front + [msgs[k]];
      }
    }
  }

  /** How many of the first k messages survive. */
  function KeptCount(msgs: seq<ChatMessage>, k: nat): nat
    requires k <= |msgs|
  {
    if k == 0 then 0 else KeptCount(msgs, k - 1) + if Kept(msgs, k - 1) then 1 else 0
  }

  lemma {:induction false} KeptLength(msgs: seq<ChatMessage>, k: nat)
    requires k <= |msgs|
    ensures |KeptFrom(msgs, 0)| == KeptCount(msgs, k) + |KeptFrom(msgs, k)|
    ensures KeptCount(msgs, k) == 0 <==> forall j :: 0 <= j < k ==> !Kept(msgs, j)
    ensures KeptCount(msgs, k) == 0 ==> KeptFrom(msgs, 0) == KeptFrom(msgs, k)
  {
    hide Kept;
    if k > 0 {
      KeptLength(msgs, k - 1);
    }
  }

  /** Without the messages before k, the first one left may lose its partner; the others are judged as before. */
  lemma SuffixKeeps(msgs: seq<ChatMessage>, k: nat)
    requires Exclusive(msgs) && k <= |msgs|
    ensures |KeptFrom(msgs[k..], 0)| <= |KeptFrom(msgs, k)|
    ensures k == 0 || !Kept(msgs, k - 1) ==> KeptFrom(msgs[k..], 0) == KeptFrom(msgs, k)
  {
    var rest := msgs[k..];
    if k < |msgs| {
      KeptSuffix(msgs, k, 1);
      assert KeptFrom(msgs, k) == (if Kept(msgs, k) then [msgs[k]] else []) + KeptFrom(msgs, k + 1);
      assert KeptFrom(rest, 0) == (if Kept(rest, 0) then [msgs[k]] else []) + KeptFrom(msgs, k + 1);
    }
  }

  /** Taking the first messages away changes nothing exactly when all of them would be removed anyway. */
  lemma PrefixIsMissedExactlyWhen(msgs: seq<ChatMessage>, k: nat)
    requires Exclusive(msgs) && k <= |msgs|
    ensures Sanitize(msgs) == Sanitize(msgs[k..]) <==> forall j :: 0 <= j < k ==> !Kept(msgs, j)
  {
    SanitizeIsLocalFilter(msgs);
    SanitizeIsLocalFilter(msgs[k..]);
    KeptLength(msgs, k);
    SuffixKeeps(msgs, k);
    hide Kept, KeptFrom, Sanitize, KeptCount;
  }

  method SanitizeToolPairs(msgs: seq<ChatMessage>) returns (result: seq<ChatMessage>)
    ensures result == Sanitize(msgs)
    ensures Exclusive(msgs) ==> WellPaired(result) && result == KeptFrom(msgs, 0)
  {
    if Exclusive(msgs) {
      SanitizeSound(msgs);
      SanitizeIsLocalFilter(msgs);
    }
    hide *;
    SanitizeStarts(msgs);
    result := [];
    var i := 0;
    while i < |msgs|
      invariant 0 <= i <= |msgs|
      invariant result + SanitizeFrom(msgs, i) == Sanitize(msgs)
    {
      SanitizeUnfolds(msgs, i);
      if IsCalls(msgs[i]) {
        if i + 1 < |msgs| && IsResults(msgs[i + 1]) {
          result := result + [msgs[i], msgs[i + 1]];
          i := i + 2;
          continue;
        }
        i := i + 1;
        continue;
      }
      if IsResults(msgs[i]) {
        i := i + 1;
        continue;
      }
      result := result + [msgs[i]];
      i := i + 1;
    }
  }

  lemma SanitizeStarts(msgs: seq<ChatMessage>)
    ensures Sanitize(msgs) == SanitizeFrom(msgs, 0) && SanitizeFrom(msgs, |msgs|) == []
  {
  }

  lemma SanitizeUnfolds(msgs: seq<ChatMessage>, i: nat)
    requires i < |msgs|
    ensures IsCalls(msgs[i]) && i + 1 < |msgs| && IsResults(msgs[i + 1]) ==>
              SanitizeFrom(msgs, i) == [msgs[i], msgs[i + 1]] + SanitizeFrom(msgs, i + 2)
    ensures IsCalls(msgs[i]) && !(i + 1 < |msgs| && IsResults(msgs[i + 1])) ==>
              SanitizeFrom(msgs, i) == SanitizeFrom(msgs, i + 1)
    ensures !IsCalls(msgs[i]) && IsResults(msgs[i]) ==> SanitizeFrom(msgs, i) == SanitizeFrom(msgs, i + 1)
    ensures !IsCalls(msgs[i]) && !IsResults(msgs[i]) ==>
              SanitizeFrom(msgs, i) == [msgs[i]] + SanitizeFrom(msgs, i + 1)
  {
    hide IsCalls, IsResults;
  }

  /** The pass from an index on looks only at what follows. */
  lemma {:induction false} SanitizeShifts(a: seq<ChatMessage>, b: seq<ChatMessage>, i: nat)
    requires i <= |b|
    ensures SanitizeFrom(a + b, |a| + i) == SanitizeFrom(b, i)
    decreases |b| - i
  {
    hide IsCalls, IsResults;
    var s, k := a + b, |a| + i;
    if i < |b| {
      assert s[k] == b[i];
      SanitizeShifts(a, b, i + 1);
      if i + 1 < |b| {
        assert s[k + 1] == b[i + 1];
        SanitizeShifts(a, b, i + 2);
      }
    }
  }

  /** Calls whose results never came: nothing changes when they are taken out beforehand. */
  lemma {:induction false} DanglingFrom(a: seq<ChatMessage>, c: ChatMessage, b: seq<ChatMessage>, i: nat)
    requires IsCalls(c) && !IsResults(c) && (b == [] || !IsResults(b[0])) && i <= |a|
    ensures SanitizeFrom(a + [c] + b, i) == SanitizeFrom(a + b, i)
    decreases |a| - i
  {
    hide IsCalls, IsResults, SanitizeFrom;
    var s, t := a + [c] + b, a + b;
    SanitizeUnfolds(s, i);
    if i == |a| {
      assert s[i] == c && (b != [] ==> s[i + 1] == b[0]);
      SanitizeShifts(a + [c], b, 0);
      SanitizeShifts(a, b, 0);
    } else {
      SanitizeUnfolds(t, i);
      assert s[i] == t[i] == a[i];
      assert i + 1 == |a| ==> s[i + 1] == c && (b != [] ==> t[i + 1] == b[0]);
      DanglingFrom(a, c, b, i + 1);
      if i + 1 < |a| {
        assert s[i + 1] == t[i + 1] == a[i + 1];
        DanglingFrom(a, c, b, i + 2);
      }
    }
  }

  // ---------------------------------------------------------------- selecting history

  function ImageCount(results: seq<ToolResult>): nat {
    if results == [] then 0 else |results[0].images| + ImageCount(results[1..])
  }

  function ImageTokens(results: seq<ToolResult>): nat {
    IMAGE_TOKEN_ESTIMATE * ImageCount(results)
  }

  predicate HasImages(m: Message) {
    exists j :: 0 <= j < |MessageToLLM(m).toolResults| && |MessageToLLM(m).toolResults[j].images| > 0
  }

  /** How many messages from index i on bear images. */
  function ImageMessagesFrom(h: seq<Message>, i: nat): nat
    requires i <= |h|
    decreases |h| - i
  {
    if i == |h| then 0 else (if HasImages(h[i]) then 1 else 0) + ImageMessagesFrom(h, i + 1)
  }

  /** The message is among the three most recent image-bearing ones. */
  predicate KeepsImages(h: seq<Message>, i: nat)
    requires i < |h|
  {
    HasImages(h[i]) && ImageMessagesFrom(h, i + 1) < MAX_RECENT_IMAGE_MESSAGES
  }

  function StripImages(results: seq<ToolResult>): (r: seq<ToolResult>)
    ensures |r| == |results|
    ensures forall j :: 0 <= j < |r| ==> r[j] == results[j].(images := [])
  {
    if results == [] then [] else [results[0].(images := [])] + StripImages(results[1..])
  }

  function Rendered(h: seq<Message>, i: nat): ChatMessage
    requires i < |h|
  {
    var m := MessageToLLM(h[i]);
    if HasImages(h[i]) && !KeepsImages(h, i) then m.(toolResults := StripImages(m.toolResults)) else m
  }

  function Tokens(h: seq<Message>, i: nat): nat
    requires i < |h|
  {
    EstimateTokens(h[i].content.raw)
    + if KeepsImages(h, i) then ImageTokens(MessageToLLM(h[i]).toolResults) else 0
  }

  /** What sending the suffix that starts at i costs. */
  function Cost(h: seq<Message>, i: nat): nat
    requires i <= |h|
    decreases |h| - i
  {
    if i == |h| then 0 else Tokens(h, i) + Cost(h, i + 1)
  }

  function RenderedFrom(h: seq<Message>, i: nat): (r: seq<ChatMessage>)
    requires i <= |h|
    ensures |r| == |h| - i && Exclusive(r)
    ensures forall j :: 0 <= j < |r| ==> r[j] == Rendered(h, i + j)
    decreases |h| - i
  {
    if i == |h| then [] else [Rendered(h, i)] + RenderedFrom(h, i + 1)
  }

  /** The start of the longest suffix that fits: exactly the suffixes from there on fit. */
  function LongestFit(h: seq<Message>, budget: nat, i: nat): (k: nat)
    requires i <= |h|
    ensures i <= k <= |h|
    ensures forall j :: i <= j <= |h| ==> (Cost(h, j) <= budget <==> k <= j)
    decreases |h| - i
  {
    if Cost(h, i) <= budget then
      assert forall j :: i <= j <= |h| ==> Cost(h, j) <= budget by {
        forall j | i <= j <= |h| ensures Cost(h, j) <= budget { CostDecreases(h, i, j); }
      }
      i
    else LongestFit(h, budget, i + 1)
  }

  lemma {:induction false} CostDecreases(h: seq<Message>, i: nat, j: nat)
    requires i <= j <= |h|
    ensures Cost(h, j) <= Cost(h, i)
    decreases j - i
  {
    if i < j {
      CostDecreases(h, i + 1, j);
    }
  }

  /** What the model is sent for a history and a budget. */
  function Selected(h: seq<Message>, budget: int): seq<ChatMessage> {
    if budget <= 0 || h == [] then [] else Sanitize(RenderedFrom(h, LongestFit(h, budget, 0)))
  }

  lemma SelectedPaired(h: seq<Message>, budget: int)
    ensures WellPaired(Selected(h, budget))
  {
    if budget > 0 && h != [] {
      SanitizeSound(RenderedFrom(h, LongestFit(h, budget, 0)));
    }
  }

  function Decoded(h: seq<Message>): (r: seq<ChatMessage>)
    ensures |r| == |h| && Exclusive(r)
  {
    seq(|h|, i requires 0 <= i < |h| => MessageToLLM(h[i]))
  }

  /** What the model is sent by a runtime without a context builder: the whole history, sanitised. */
  function Unbudgeted(h: seq<Message>): seq<ChatMessage> {
    Sanitize(Decoded(h))
  }

  /** What the model is sent, with a context builder that has the given budget left, or without one. */
  function Chosen(h: seq<Message>, budget: Option<int>): seq<ChatMessage> {
    if budget.Some? then Selected(h, budget.value) else Unbudgeted(h)
  }

  lemma ChosenPaired(h: seq<Message>, budget: Option<int>)
    ensures WellPaired(Chosen(h, budget))
  {
    hide Selected, Decoded;
    if budget.Some? {
      SelectedPaired(h, budget.value);
    } else {
      SanitizeSound(Decoded(h));
    }
  }

  /** The oldest message of a load is missed exactly when it would be sent. */
  lemma OldestIsMissedExactlyWhen(h: seq<Message>)
    requires h != []
    ensures Unbudgeted(h) == Unbudgeted(h[1..]) <==> !Kept(Decoded(h), 0)
  {
    assert Decoded(h)[1..] == Decoded(h[1..]);
    PrefixIsMissedExactlyWhen(Decoded(h), 1);
    assert (forall j :: 0 <= j < 1 ==> !Kept(Decoded(h), j)) <==> !Kept(Decoded(h), 0);
  }

  method BuildContext(h: seq<Message>) returns (result: seq<ChatMessage>)
    ensures result == Unbudgeted(h) && WellPaired(result)
  {
    var msgs: seq<ChatMessage> := [];
    for n := 0 to |h|
      invariant msgs == Decoded(h)[..n]
    {
      msgs := msgs + [MessageToLLM(h[n])];
    }
    assert msgs == Decoded(h);
    hide Decoded;
    result := SanitizeToolPairs(msgs);
  }

  lemma RenderedSuffix(h: seq<Message>, k: nat, k': nat)
    requires k <= k' <= |h|
    ensures RenderedFrom(h, k') == RenderedFrom(h, k)[k' - k..]
  {
    hide Rendered, RenderedFrom;
    var a, b := RenderedFrom(h, k'), RenderedFrom(h, k)[k' - k..];
    assert forall j :: 0 <= j < |a| ==> a[j] == Rendered(h, k' + j) == b[j];
  }

  /** Raising the budget only adds messages at the front. */
  lemma LargerBudgetExtends(h: seq<Message>, small: int, large: int) returns (front: seq<ChatMessage>)
    requires small <= large
    ensures Selected(h, large) == front + Selected(h, small)
  {
    hide *;
    SelectedFromStart(h, small);
    SelectedFromStart(h, large);
    StartsEarlier(h, small, large);
    var k, k' := Start(h, large), Start(h, small);
    RenderedSuffix(h, k, k');
    front := TruncationKeepsSuffix(RenderedFrom(h, k), k' - k);
  }

  lemma StartsEarlier(h: seq<Message>, small: int, large: int)
    requires small <= large
    ensures Start(h, large) <= Start(h, small) <= |h|
  {
    if 0 < small {
      FitsMore(h, small, large);
    }
    hide LongestFit;
  }

  lemma FitsMore(h: seq<Message>, small: nat, large: nat)
    requires small <= large
    ensures LongestFit(h, large, 0) <= LongestFit(h, small, 0) <= |h|
  {
    hide LongestFit, Cost;
    assert Cost(h, LongestFit(h, small, 0)) <= small;
  }

  // ---------------------------------------------------------------- one builder for all sessions

  /** Where the selection of a history starts. */
  function Start(h: seq<Message>, budget: int): nat {
    if budget <= 0 then |h| else LongestFit(h, budget, 0)
  }

  lemma SelectedFromStart(h: seq<Message>, budget: int)
    ensures Start(h, budget) <= |h| && Selected(h, budget) == Sanitize(RenderedFrom(h, Start(h, budget)))
  {
  }

  predicate Fits(h: seq<Message>, j: nat, budget: int)
    requires j <= |h|
  {
    budget > 0 && Cost(h, j) <= budget
  }

  /**
   * Two budgets select the same part of a history exactly when each suffix fits both or neither. So a rebuild
   * with the tokens counted for another session may repeat a selection or not.
   */
  lemma SameStartExactlyWhen(h: seq<Message>, a: int, b: int)
    ensures Start(h, a) == Start(h, b) <==> forall j :: 0 <= j < |h| ==> (Fits(h, j, a) <==> Fits(h, j, b))
  {
    hide LongestFit, Cost;
    var x, y := Start(h, a), Start(h, b);
    assert forall j :: 0 <= j < |h| ==> (Fits(h, j, a) <==> x <= j);
    assert forall j :: 0 <= j < |h| ==> (Fits(h, j, b) <==> y <= j);
    if x < y {
      assert Fits(h, x, a) && !Fits(h, x, b);
    } else if y < x {
      assert Fits(h, y, b) && !Fits(h, y, a);
    }
  }

  /** What is sent from index j of a history on, instead of from an earlier index k. */
  lemma LaterStartExactlyWhen(h: seq<Message>, k: nat, j: nat)
    requires k <= j <= |h|
    ensures Sanitize(RenderedFrom(h, k)) == Sanitize(RenderedFrom(h, j)) <==> NoneKept(h, k, j)
  {
    hide RenderedFrom, Sanitize, Exclusive, Kept;
    RenderedSuffix(h, k, j);
    PrefixIsMissedExactlyWhen(RenderedFrom(h, k), j - k);
  }

  /** Of the history from k on, no message before j survives sanitising. */
  ghost predicate NoneKept(h: seq<Message>, k: nat, j: nat)
    requires k <= j <= |h|
  {
    forall i :: 0 <= i < j - k ==> !Kept(RenderedFrom(h, k), i)
  }

  /**
   * Two budgets select the same messages exactly when, of those that only the larger one takes in, none
   * survives sanitising.
   */
  lemma SameSelectionExactlyWhen(h: seq<Message>, small: int, large: int)
    requires small <= large
    ensures Start(h, large) <= Start(h, small) <= |h|
    ensures Selected(h, small) == Selected(h, large) <==> NoneKept(h, Start(h, large), Start(h, small))
  {
    hide *;
    SelectedFromStart(h, small);
    SelectedFromStart(h, large);
    StartsEarlier(h, small, large);
    LaterStartExactlyWhen(h, Start(h, large), Start(h, small));
  }

  /** The suffix from j on fits the larger budget only. */
  predicate Between(h: seq<Message>, j: nat, small: nat, large: nat)
    requires j <= |h|
  {
    small < Cost(h, j) <= large
  }

  /** For budgets that leave room: exactly when the cost of no suffix lies between them. */
  lemma SameSuffixExactlyWhen(h: seq<Message>, small: nat, large: nat)
    requires 0 < small <= large
    ensures LongestFit(h, small, 0) == LongestFit(h, large, 0) <==>
            forall j :: 0 <= j <= |h| ==> !Between(h, j, small, large)
  {
    var x, y := LongestFit(h, small, 0), LongestFit(h, large, 0);
    FitsMore(h, small, large);
    hide Cost, LongestFit;
    if y < x {
      assert Between(h, y, small, large);
    } else {
      forall j | 0 <= j <= |h| ensures !Between(h, j, small, large) {
        assert Cost(h, j) <= large ==> y <= j;
        assert x <= j ==> Cost(h, j) <= small;
      }
    }
  }

  // ---------------------------------------------------------------- calls whose results never came

  /** Where message i of a + b is found once another message is put between a and b. */
  function Moved(a: seq<Message>, i: nat): nat {
    if i < |a| then i else i + 1
  }

  lemma {:induction false} ImagesUnmoved(a: seq<Message>, c: Message, b: seq<Message>, i: nat)
    requires IsCalls(MessageToLLM(c)) && i <= |a + b|
    ensures ImageMessagesFrom(a + [c] + b, Moved(a, i)) == ImageMessagesFrom(a + b, i)
    decreases |a + b| - i
  {
    NoImages(c);
    hide HasImages, MessageToLLM, IsCalls;
    var h, h' := a + [c] + b, a + b;
    if i < |h'| {
      ImagesUnmoved(a, c, b, i + 1);
      assert h[Moved(a, i)] == h'[i];
      if i + 1 == |a| {
        assert h[|a|] == c;
      }
    }
  }

  lemma NoImages(c: Message)
    requires IsCalls(MessageToLLM(c))
    ensures !HasImages(c)
  {
  }

  /** The other messages are rendered and charged as before. */
  lemma RenderedUnmoved(a: seq<Message>, c: Message, b: seq<Message>, i: nat)
    requires IsCalls(MessageToLLM(c)) && i < |a + b|
    ensures Rendered(a + [c] + b, Moved(a, i)) == Rendered(a + b, i)
    ensures Tokens(a + [c] + b, Moved(a, i)) == Tokens(a + b, i)
  {
    var h, h' := a + [c] + b, a + b;
    assert h[Moved(a, i)] == h'[i];
    ImagesUnmoved(a, c, b, i + 1);
    NoImages(c);
    hide HasImages, MessageToLLM, IsCalls, EstimateTokens, ImageTokens;
    if i + 1 == |a| {
      assert h[|a|] == c;
    }
  }

  lemma {:induction false} CostMoved(a: seq<Message>, c: Message, b: seq<Message>, i: nat)
    requires IsCalls(MessageToLLM(c)) && i <= |a + b|
    ensures Cost(a + [c] + b, Moved(a, i)) == Cost(a + b, i) + if i < |a| then Tokens(a + [c] + b, |a|) else 0
    decreases |a + b| - i
  {
    hide Tokens, IsCalls, MessageToLLM;
    if i < |a + b| {
      CostMoved(a, c, b, i + 1);
      RenderedUnmoved(a, c, b, i);
    }
  }

  lemma RenderedAt(h: seq<Message>, k: nat, j: nat)
    requires k + j < |h|
    ensures RenderedFrom(h, k)[j] == Rendered(h, k + j)
  {
  }

  /** From a position behind the extra message, what is sent is the same. */
  lemma SentBehind(a: seq<Message>, c: Message, b: seq<Message>, k: nat)
    requires IsCalls(MessageToLLM(c)) && |a| < k <= |a + b| + 1
    ensures RenderedFrom(a + [c] + b, k) == RenderedFrom(a + b, k - 1)
  {
    hide RenderedFrom, Rendered, IsCalls, MessageToLLM, Exclusive;
    var x, y := RenderedFrom(a + [c] + b, k), RenderedFrom(a + b, k - 1);
    assert |x| == |y|;
    forall j | 0 <= j < |x| ensures x[j] == y[j] {
      BehindRendered(a, c, b, k, j);
    }
  }

  lemma BehindRendered(a: seq<Message>, c: Message, b: seq<Message>, k: nat, j: nat)
    requires IsCalls(MessageToLLM(c)) && |a| < k && k + j <= |a + b|
    ensures RenderedFrom(a + [c] + b, k)[j] == RenderedFrom(a + b, k - 1)[j]
  {
    hide RenderedFrom, Rendered, IsCalls, MessageToLLM, Exclusive;
    RenderedUnmoved(a, c, b, k - 1 + j);
    RenderedAt(a + [c] + b, k, j);
    RenderedAt(a + b, k - 1, j);
  }

  lemma Inserted(x: seq<ChatMessage>, y: seq<ChatMessage>, n: nat, m: ChatMessage)
    requires n <= |y| && |x| == |y| + 1 && x[n] == m
    requires forall j :: 0 <= j < n ==> x[j] == y[j]
    requires forall j :: n <= j < |y| ==> x[j + 1] == y[j]
    ensures x == y[..n] + [m] + y[n..]
  {
    var z := y[..n] + [m] + y[n..];
    forall j | 0 <= j < |x| ensures x[j] == z[j] {
      if j > n {
        assert x[(j - 1) + 1] == y[j - 1];
      }
    }
  }

  lemma ExtraRendered(a: seq<Message>, c: Message, b: seq<Message>)
    requires IsCalls(MessageToLLM(c))
    ensures Rendered(a + [c] + b, |a|) == MessageToLLM(c)
  {
    NoImages(c);
    assert (a + [c] + b)[|a|] == c;
  }

  /** Message i of a + b stands, with the extra message, one further if that is in front of it. */
  lemma OtherRendered(a: seq<Message>, c: Message, b: seq<Message>, k: nat, i: nat)
    requires IsCalls(MessageToLLM(c)) && k <= |a| && k <= i < |a + b|
    ensures RenderedFrom(a + [c] + b, k)[Moved(a, i) - k] == RenderedFrom(a + b, k)[i - k]
  {
    hide Rendered, RenderedFrom, IsCalls, MessageToLLM;
    RenderedUnmoved(a, c, b, i);
    RenderedAt(a + [c] + b, k, Moved(a, i) - k);
    RenderedAt(a + b, k, i - k);
  }

  /** From a position before it, it stands between the same messages. */
  lemma SentAround(a: seq<Message>, c: Message, b: seq<Message>, k: nat)
    requires IsCalls(MessageToLLM(c)) && k <= |a|
    ensures var y := RenderedFrom(a + b, k);
            RenderedFrom(a + [c] + b, k) == y[..|a| - k] + [MessageToLLM(c)] + y[|a| - k..]
  {
    hide Rendered, RenderedFrom, IsCalls, MessageToLLM, Exclusive;
    var x, y, n := RenderedFrom(a + [c] + b, k), RenderedFrom(a + b, k), |a| - k;
    ExtraRendered(a, c, b);
    RenderedAt(a + [c] + b, k, n);
    forall j | 0 <= j < n ensures x[j] == y[j] {
      OtherRendered(a, c, b, k, k + j);
    }
    forall j | n <= j < |y| ensures x[j + 1] == y[j] {
      OtherRendered(a, c, b, k, k + j);
    }
    Inserted(x, y, n, MessageToLLM(c));
  }

  lemma SanitizedAround(a: seq<Message>, c: Message, b: seq<Message>, k: nat)
    requires IsCalls(MessageToLLM(c)) && (b == [] || !IsResults(MessageToLLM(b[0]))) && k <= |a|
    ensures Sanitize(RenderedFrom(a + [c] + b, k)) == Sanitize(RenderedFrom(a + b, k))
  {
    assert !IsResults(MessageToLLM(c));
    SentAround(a, c, b, k);
    NextIsNoResult(a, b, k);
    var y, n := RenderedFrom(a + b, k), |a| - k;
    hide *;
    assert y[..n] + y[n..] == y;
    DanglingIsDropped(y[..n], MessageToLLM(c), y[n..]);
  }

  lemma DanglingIsDropped(a: seq<ChatMessage>, c: ChatMessage, b: seq<ChatMessage>)
    requires IsCalls(c) && !IsResults(c) && (b == [] || !IsResults(b[0]))
    ensures Sanitize(a + [c] + b) == Sanitize(a + b)
  {
    DanglingFrom(a, c, b, 0);
  }

  lemma NextIsNoResult(a: seq<Message>, b: seq<Message>, k: nat)
    requires k <= |a| && (b == [] || !IsResults(MessageToLLM(b[0])))
    ensures var y := RenderedFrom(a + b, k)[|a| - k..]; y == [] || !IsResults(y[0])
  {
    if b != [] {
      RenderedAt(a + b, k, |a| - k);
      assert (a + b)[|a|] == b[0];
      hide RenderedFrom;
    }
  }

  /**
   * Stored calls without results: they are never sent, and all they do is count against the budget. What
   * is sent with them in the history is a suffix of what is sent without them.
   */
  lemma DanglingOnlyCosts(a: seq<Message>, c: Message, b: seq<Message>, budget: int) returns (front: seq<ChatMessage>)
    requires IsCalls(MessageToLLM(c)) && (b == [] || !IsResults(MessageToLLM(b[0])))
    ensures Selected(a + b, budget) == front + Selected(a + [c] + b, budget)
  {
    hide *;
    FitsEarlier(a, c, b, budget);
    SelectedFromStart(a + b, budget);
    var k', j := Start(a + b, budget), StartWithout(a, c, b, budget);
    RenderedSuffix(a + b, k', j);
    front := TruncationKeepsSuffix(RenderedFrom(a + b, k'), j - k');
  }

  /** Where the selection of a + b would start if it began with the same message as that of a + [c] + b. */
  function StartWithout(a: seq<Message>, c: Message, b: seq<Message>, budget: int): (j: nat)
    ensures j <= |a + b|
  {
    var k := Start(a + [c] + b, budget);
    SelectedFromStart(a + [c] + b, budget);
    if k <= |a| then k else k - 1
  }

  /** What fits with the extra message also fits without it, and what it lets through is the same from there. */
  lemma FitsEarlier(a: seq<Message>, c: Message, b: seq<Message>, budget: int)
    requires IsCalls(MessageToLLM(c)) && (b == [] || !IsResults(MessageToLLM(b[0])))
    ensures Start(a + b, budget) <= StartWithout(a, c, b, budget)
    ensures Selected(a + [c] + b, budget) == Sanitize(RenderedFrom(a + b, StartWithout(a, c, b, budget)))
  {
    var h, h' := a + [c] + b, a + b;
    SelectedFromStart(h, budget);
    var k, j := Start(h, budget), StartWithout(a, c, b, budget);
    hide RenderedFrom, Sanitize, IsCalls, IsResults, MessageToLLM, Tokens, Selected;
    assert Start(h', budget) <= j by {
      if budget > 0 {
        hide LongestFit, Cost;
        CostMoved(a, c, b, j);
        CostDecreases(h, k, Moved(a, j));
      }
    }
    hide Start, StartWithout;
    assert Sanitize(RenderedFrom(h, k)) == Sanitize(RenderedFrom(h', j)) by {
      if k <= |a| {
        SanitizedAround(a, c, b, k);
      } else {
        SentBehind(a, c, b, k);
      }
    }
  }

  /**
   * Stored calls without results make no difference exactly when, of the messages that their tokens crowd out,
   * none would be sent.
   */
  lemma DanglingCostsNothingExactlyWhen(a: seq<Message>, c: Message, b: seq<Message>, budget: int)
    requires IsCalls(MessageToLLM(c)) && (b == [] || !IsResults(MessageToLLM(b[0])))
    ensures Start(a + b, budget) <= StartWithout(a, c, b, budget)
    ensures Selected(a + [c] + b, budget) == Selected(a + b, budget) <==>
            NoneKept(a + b, Start(a + b, budget), StartWithout(a, c, b, budget))
  {
    hide *;
    FitsEarlier(a, c, b, budget);
    SelectedFromStart(a + b, budget);
    LaterStartExactlyWhen(a + b, Start(a + b, budget), StartWithout(a, c, b, budget));
  }

  /** What comes before an index does not matter from there on. */
  lemma {:induction false} SuffixAlone(p: seq<Message>, h: seq<Message>, i: nat)
    requires i <= |h|
    ensures ImageMessagesFrom(p + h, |p| + i) == ImageMessagesFrom(h, i) && Cost(p + h, |p| + i) == Cost(h, i)
    ensures RenderedFrom(p + h, |p| + i) == RenderedFrom(h, i)
    decreases |h| - i
  {
    hide HasImages, MessageToLLM, EstimateTokens, ImageTokens, Exclusive;
    if i < |h| {
      assert (p + h)[|p| + i] == h[i];
      SuffixAlone(p, h, i + 1);
    }
  }

  lemma StartAlone(p: seq<Message>, h: seq<Message>, budget: int, j: nat)
    requires j <= |h| && Start(h, budget) <= j
    ensures Start(p + h, budget) <= |p| + j
  {
    SuffixAlone(p, h, j);
    hide Cost, LongestFit, ImageMessagesFrom, RenderedFrom;
  }

  /**
   * The same when the extra message has also displaced the messages p from the front: nothing is missing
   * exactly when, of all that is crowded out, none would be sent.
   */
  lemma DisplacedExactlyWhen(p: seq<Message>, a: seq<Message>, c: Message, b: seq<Message>, budget: int)
    requires IsCalls(MessageToLLM(c)) && (b == [] || !IsResults(MessageToLLM(b[0])))
    ensures Start(p + (a + b), budget) <= |p| + StartWithout(a, c, b, budget)
    ensures Selected(a + [c] + b, budget) == Selected(p + (a + b), budget) <==>
            NoneKept(p + (a + b), Start(p + (a + b), budget), |p| + StartWithout(a, c, b, budget))
  {
    hide *;
    var h, j := a + b, StartWithout(a, c, b, budget);
    FitsEarlier(a, c, b, budget);
    StartAlone(p, h, budget, j);
    SuffixAlone(p, h, j);
    SelectedFromStart(p + h, budget);
    LaterStartExactlyWhen(p + h, Start(p + h, budget), |p| + j);
  }

  /** Without a budget, the same is sent with and without them. */
  lemma DanglingLeavesNoTrace(a: seq<Message>, c: Message, b: seq<Message>)
    requires IsCalls(MessageToLLM(c)) && (b == [] || !IsResults(MessageToLLM(b[0])))
    ensures Unbudgeted(a + [c] + b) == Unbudgeted(a + b)
  {
    var x, m, y := Decoded(a), MessageToLLM(c), Decoded(b);
    assert Decoded(a + [c] + b) == x + [m] + y;
    assert Decoded(a + b) == x + y;
    DanglingFrom(x, m, y, 0);
  }

  // ---------------------------------------------------------------- images

  function ImagesOf(results: seq<ToolResult>): seq<Image> {
    if results == [] then [] else results[0].images + ImagesOf(results[1..])
  }

  /** The images that a list of messages carries. */
  function ImagesIn(msgs: seq<ChatMessage>): seq<Image> {
    if msgs == [] then [] else ImagesOf(msgs[0].toolResults) + ImagesIn(msgs[1..])
  }

  /** What the encoded messages from i on cost: a token for every four bytes of each, rounded up. */
  function TextCost(h: seq<Message>, i: nat): nat
    requires i <= |h|
    decreases |h| - i
  {
    if i == |h| then 0 else (|h[i].content.raw| + 3) / 4 + TextCost(h, i + 1)
  }

  lemma {:induction false} CountsImages(results: seq<ToolResult>)
    ensures ImageCount(results) == |ImagesOf(results)| && ImagesOf(StripImages(results)) == []
    ensures |ImagesOf(results)| > 0 <==> exists j :: 0 <= j < |results| && |results[j].images| > 0
  {
    if results != [] {
      var rest := results[1..];
      CountsImages(rest);
      assert StripImages(results)[1..] == StripImages(rest);
      if j :| 0 <= j < |rest| && |rest[j].images| > 0 {
        assert |results[j + 1].images| > 0;
      }
      if j :| 0 <= j < |results| && |results[j].images| > 0 {
        assert j == 0 || |rest[j - 1].images| > 0;
      }
    }
  }

  /** Whether a message is sent with its images, and what they cost. */
  lemma ImagesCharged(h: seq<Message>, i: nat)
    requires i < |h|
    ensures Tokens(h, i) == (|h[i].content.raw| + 3) / 4 + 1600 * |ImagesOf(Rendered(h, i).toolResults)|
    ensures ImagesOf(Rendered(h, i).toolResults) != [] <==> KeepsImages(h, i)
    ensures ImagesOf(MessageToLLM(h[i]).toolResults) != [] <==> HasImages(h[i])
    ensures KeepsImages(h, i) ==> Rendered(h, i) == MessageToLLM(h[i])
  {
    CountsImages(MessageToLLM(h[i]).toolResults);
    hide MessageToLLM, ImageMessagesFrom, ImagesOf;
  }

  /** A history is charged for its bytes and, at 1600 tokens each, for exactly the images that are sent with it. */
  lemma {:induction false} SentImagesAreCharged(h: seq<Message>, i: nat)
    requires i <= |h|
    ensures Cost(h, i) == TextCost(h, i) + 1600 * |ImagesIn(RenderedFrom(h, i))|
    decreases |h| - i
  {
    hide Tokens, Rendered, ImagesOf;
    if i < |h| {
      SentImagesAreCharged(h, i + 1);
      ImagesCharged(h, i);
      assert RenderedFrom(h, i)[1..] == RenderedFrom(h, i + 1);
    }
  }

  /** How many messages carry images. */
  function Bearing(msgs: seq<ChatMessage>): nat {
    if msgs == [] then 0 else (if ImagesOf(msgs[0].toolResults) != [] then 1 else 0) + Bearing(msgs[1..])
  }

  lemma {:induction false} BearingFrom(h: seq<Message>, i: nat)
    requires i <= |h|
    ensures Bearing(Decoded(h)[i..]) == ImageMessagesFrom(h, i)
    ensures Bearing(RenderedFrom(h, i)) == if ImageMessagesFrom(h, i) < 3 then ImageMessagesFrom(h, i) else 3
    decreases |h| - i
  {
    hide HasImages, MessageToLLM, Rendered, ImagesOf;
    if i < |h| {
      BearingFrom(h, i + 1);
      ImagesCharged(h, i);
      assert RenderedFrom(h, i)[1..] == RenderedFrom(h, i + 1) && RenderedFrom(h, i)[0] == Rendered(h, i);
      assert Decoded(h)[i..][0] == MessageToLLM(h[i]) && Decoded(h)[i..][1..] == Decoded(h)[i + 1..];
    }
  }

  lemma {:induction false} LaterBears(h: seq<Message>, i: nat, j: nat)
    requires i <= j <= |h|
    ensures ImageMessagesFrom(h, j) <= ImageMessagesFrom(h, i)
    decreases j - i
  {
    if i < j {
      LaterBears(h, i + 1, j);
    }
  }

  /**
   * Of the messages that carry images the three newest are sent with them, or all if there are fewer: no more than
   * three keep theirs, and whatever comes after one that keeps its images is sent as it is.
   */
  lemma ThreeNewestKeepImages(h: seq<Message>)
    ensures Bearing(RenderedFrom(h, 0)) == if Bearing(Decoded(h)) < 3 then Bearing(Decoded(h)) else 3
    ensures forall i, j :: 0 <= i < j < |h| && ImagesOf(Rendered(h, i).toolResults) != [] ==>
              Rendered(h, j) == MessageToLLM(h[j])
  {
    BearingFrom(h, 0);
    assert Decoded(h)[0..] == Decoded(h);
    hide *;
    forall i, j | 0 <= i < j < |h| && ImagesOf(Rendered(h, i).toolResults) != []
      ensures Rendered(h, j) == MessageToLLM(h[j])
    {
      NewerKeeps(h, i, j);
    }
  }

  lemma NewerKeeps(h: seq<Message>, i: nat, j: nat)
    requires i < j < |h| && ImagesOf(Rendered(h, i).toolResults) != []
    ensures Rendered(h, j) == MessageToLLM(h[j])
  {
    ImagesCharged(h, i);
    LaterBears(h, i + 1, j + 1);
    hide HasImages, MessageToLLM, ImagesOf, ImageMessagesFrom;
  }

  // ---------------------------------------------------------------- the selecting loop

  /** How many image-bearing messages the backward loop has counted when it arrives at index i. */
  function Seen(h: seq<Message>, i: nat): nat
    requires i <= |h|
  {
    if ImageMessagesFrom(h, i) < MAX_RECENT_IMAGE_MESSAGES then ImageMessagesFrom(h, i) else MAX_RECENT_IMAGE_MESSAGES
  }

  lemma BackwardStep(h: seq<Message>, i: nat)
    requires i < |h|
    ensures Seen(h, |h|) == Cost(h, |h|) == 0 && Cost(h, i) == Tokens(h, i) + Cost(h, i + 1)
    ensures RenderedBack(h, |h|) == [] && RenderedBack(h, i) == RenderedBack(h, i + 1) + [Rendered(h, i)]
    ensures Seen(h, i)
            == Seen(h, i + 1) + if HasImages(h[i]) && Seen(h, i + 1) < MAX_RECENT_IMAGE_MESSAGES then 1 else 0
    ensures var m, keep := MessageToLLM(h[i]), Seen(h, i + 1) < MAX_RECENT_IMAGE_MESSAGES;
            && Tokens(h, i) == EstimateTokens(h[i].content.raw)
                               + (if HasImages(h[i]) && keep then ImageTokens(m.toolResults) else 0)
            && Rendered(h, i) == if HasImages(h[i]) && !keep then m.(toolResults := StripImages(m.toolResults)) else m
  {
    hide HasImages, MessageToLLM, EstimateTokens, ImageTokens;
  }

  /** The messages from i on, last one first. */
  function RenderedBack(h: seq<Message>, i: nat): (r: seq<ChatMessage>)
    requires i <= |h|
    ensures |r| == |h| - i
    decreases |h| - i
  {
    if i == |h| then [] else RenderedBack(h, i + 1) + [Rendered(h, i)]
  }

  lemma {:induction false} BackwardIsReverse(h: seq<Message>, i: nat, r: seq<ChatMessage>)
    requires i <= |h| && |r| == |h| - i
    requires forall j :: 0 <= j < |r| ==> r[j] == RenderedBack(h, i)[|r| - 1 - j]
    ensures r == RenderedFrom(h, i)
    decreases |h| - i
  {
    hide Rendered, Exclusive;
    if i < |h| {
      assert r[0] == RenderedBack(h, i)[|r| - 1] == Rendered(h, i);
      forall j | 0 <= j < |r| - 1 ensures r[1..][j] == RenderedBack(h, i + 1)[|r| - 2 - j] {
        assert r[j + 1] == RenderedBack(h, i)[|r| - 1 - (j + 1)];
      }
      BackwardIsReverse(h, i + 1, r[1..]);
      assert r == [r[0]] + r[1..];
    }
  }

  /** Where the loop stops is where the longest fitting suffix starts. */
  lemma LoopSelects(h: seq<Message>, budget: nat, i: nat)
    requires i <= |h| && h != [] && 0 < budget && Cost(h, i) <= budget && (i > 0 ==> Cost(h, i - 1) > budget)
    ensures Selected(h, budget) == Sanitize(RenderedFrom(h, i))
  {
    hide Cost, RenderedFrom, Sanitize, LongestFit;
    assert LongestFit(h, budget, 0) == i;
  }

  method SelectHistory(h: seq<Message>, budget: int) returns (result: seq<ChatMessage>)
    ensures result == Selected(h, budget) && WellPaired(result)
  {
    if budget <= 0 || |h| == 0 {
      return [];
    }
    SelectedPaired(h, budget);
    hide *;
    BackwardStep(h, |h| - 1);
    var selected: seq<ChatMessage> := [];
    var used, seen := 0, 0;
    var i := |h|;
    while i > 0
      invariant 0 <= i <= |h|
      invariant used == Cost(h, i) <= budget
      invariant seen == Seen(h, i)
      invariant selected == RenderedBack(h, i)
    {
      BackwardStep(h, i - 1);
      var m := h[i - 1];
      var tokens := EstimateTokens(m.content.raw);
      var chatMsg := MessageToLLM(m);
      if HasImages(m) && seen < MAX_RECENT_IMAGE_MESSAGES {
        tokens := tokens + ImageTokens(chatMsg.toolResults);
        seen := seen + 1;
      } else if HasImages(m) {
        chatMsg := chatMsg.(toolResults := StripImages(chatMsg.toolResults));
      }
      assert tokens == Tokens(h, i - 1) && chatMsg == Rendered(h, i - 1);
      if used + tokens > budget {
        break;
      }
      selected := selected + [chatMsg];
      used := used + tokens;
      i := i - 1;
    }
    var reversed := Reverse(selected);
    BackwardIsReverse(h, i, reversed);
    LoopSelects(h, budget, i);
    result := SanitizeToolPairs(reversed);
  }

  method Reverse(s: seq<ChatMessage>) returns (r: seq<ChatMessage>)
    ensures |r| == |s| && forall j :: 0 <= j < |s| ==> r[j] == s[|s| - 1 - j]
  {
    var a := new ChatMessage[|s|](_ => ChatMessage(User, "", [], []));
    for i := 0 to |s|
      invariant forall j :: 0 <= j < i ==> a[|s| - 1 - j] == s[j]
    {
      a[|s| - 1 - i] := s[i];
    }
    r := a[..];
  }

  // ---------------------------------------------------------------- the builder

  datatype WorkspaceFile = WorkspaceFile(key: string, content: string)

  /** What the builder remembers of the workspace files it last sent; a hash stands for its content. */
  datatype Sent = Sent(hashes: map<string, string>, tokens: map<string, nat>)

  ghost predicate SentValid(s: Sent) {
    s.hashes.Keys == s.tokens.Keys && forall k :: k in s.hashes ==> s.tokens[k] == EstimateTokens(s.hashes[k])
  }

  /** A file is left out exactly when it is unchanged and would take the prompt past half the budget. */
  predicate Skipped(s: Sent, f: WorkspaceFile, used: nat, budget: int) {
    f.key in s.hashes && s.hashes[f.key] == f.content && used + EstimateTokens(f.content) > budget / 2
  }

  /** The files sent, in order. */
  function Included(files: seq<WorkspaceFile>, s: Sent, used: nat, budget: int): seq<WorkspaceFile> {
    if files == [] then []
    else if Skipped(s, files[0], used, budget) then Included(files[1..], s, used, budget)
    else [files[0]] + Included(files[1..], Remember(s, files[0]), used + EstimateTokens(files[0].content), budget)
  }

  function Remember(s: Sent, f: WorkspaceFile): Sent {
    Sent(s.hashes[f.key := f.content], s.tokens[f.key := EstimateTokens(f.content)])
  }

  function RememberAll(s: Sent, files: seq<WorkspaceFile>): Sent {
    if files == [] then s else Remember(RememberAll(s, files[..|files| - 1]), files[|files| - 1])
  }

  lemma RememberSnoc(s: Sent, files: seq<WorkspaceFile>, f: WorkspaceFile)
    ensures RememberAll(s, files + [f]) == Remember(RememberAll(s, files), f)
  {
    assert (files + [f])[..|files|] == files;
  }

  function WorkspaceTokens(files: seq<WorkspaceFile>): nat {
    if files == [] then 0 else EstimateTokens(files[0].content) + WorkspaceTokens(files[1..])
  }

  function FileText(f: WorkspaceFile): (text: string)
    ensures text != ""
  {
    "\n\n--- " + f.key + " ---\n" + f.content
  }

  function WorkspaceText(files: seq<WorkspaceFile>): string {
    if files == [] then ""
    else FileText(files[0]) + WorkspaceText(files[1..])
  }

  /**
   * The text has one section per file, in order: a line with the file's key, and behind it the file's content,
   * up to the next section or the end.
   */
  ghost predicate Sections(text: string, files: seq<WorkspaceFile>)
    decreases |files|
  {
    if files == [] then text == ""
    else exists rest :: IsSection(text, files[0].key, files[0].content, rest) && Sections(rest, files[1..])
  }

  predicate IsSection(text: string, key: string, content: string, rest: string) {
    text == "\n\n--- " + key + " ---\n" + content + rest
  }

  lemma {:induction false} WorkspaceIsSections(files: seq<WorkspaceFile>)
    ensures Sections(WorkspaceText(files), files)
  {
    if files != [] {
      WorkspaceIsSections(files[1..]);
      assert IsSection(WorkspaceText(files), files[0].key, files[0].content, WorkspaceText(files[1..]));
    }
  }

  /** The system prompt with the files that are sent. */
  function Prompt(systemPrompt: string, files: seq<WorkspaceFile>): string {
    systemPrompt + if files == [] then "" else "\n\n# Workspace Context" + WorkspaceText(files)
  }

  /** The prompt starts with the system prompt, and behind it come the sections of the files, if there are any. */
  ghost predicate Tells(prompt: string, systemPrompt: string, files: seq<WorkspaceFile>) {
    if files == [] then prompt == systemPrompt
    else exists text :: Sections(text, files) && prompt == systemPrompt + "\n\n# Workspace Context" + text
  }

  lemma PromptTells(systemPrompt: string, files: seq<WorkspaceFile>)
    ensures Tells(Prompt(systemPrompt, files), systemPrompt, files)
  {
    WorkspaceIsSections(files);
    hide Sections, WorkspaceText;
    var head, text := "\n\n# Workspace Context", WorkspaceText(files);
    if files == [] {
      assert systemPrompt + "" == systemPrompt;
    } else {
      assert systemPrompt + (head + text) == systemPrompt + head + text;
    }
  }

  // ---------------------------------------------------------------- which files are sent

  /** What was last sent under a key: by one of these files, or before them. */
  function LastSent(s: Sent, done: seq<WorkspaceFile>, key: string): Option<string> {
    if done == [] then if key in s.hashes then Some(s.hashes[key]) else None
    else if done[|done| - 1].key == key then Some(done[|done| - 1].content)
    else LastSent(s, done[..|done| - 1], key)
  }

  lemma {:induction false} RememberedIsLast(s: Sent, done: seq<WorkspaceFile>, key: string)
    ensures var hashes := RememberAll(s, done).hashes;
            LastSent(s, done, key) == if key in hashes then Some(hashes[key]) else None
  {
    if done != [] {
      RememberedIsLast(s, done[..|done| - 1], key);
    }
  }

  lemma {:induction false} RememberCons(s: Sent, f: WorkspaceFile, files: seq<WorkspaceFile>)
    ensures RememberAll(s, [f] + files) == RememberAll(Remember(s, f), files)
  {
    hide Remember;
    var all := [f] + files;
    if files == [] {
      assert all[..0] == [] && all == [f];
    } else {
      RememberCons(s, f, files[..|files| - 1]);
      assert all[..|all| - 1] == [f] + files[..|files| - 1];
    }
  }

  /** What is sent of a + b is what is sent of a, and then what is sent of b after that. */
  ghost predicate Splits(a: seq<WorkspaceFile>, b: seq<WorkspaceFile>, s: Sent, used: nat, budget: int) {
    var inc := Included(a, s, used, budget);
    Included(a + b, s, used, budget) == inc + Included(b, RememberAll(s, inc), used + WorkspaceTokens(inc), budget)
  }

  lemma {:induction false} IncludedAppend(
    a: seq<WorkspaceFile>, b: seq<WorkspaceFile>, s: Sent, used: nat, budget: int)
    ensures Splits(a, b, s, used, budget)
    decreases |a|
  {
    if a == [] {
      assert a + b == b;
      assert [] + Included(b, s, used, budget) == Included(b, s, used, budget);
    } else {
      hide *;
      var f, rest := a[0], a[1..];
      FirstFile(a);
      if Skipped(s, f, used, budget) {
        IncludedAppend(rest, b, s, used, budget);
        SkippedSplits(f, rest, b, s, used, budget);
      } else {
        IncludedAppend(rest, b, Remember(s, f), used + EstimateTokens(f.content), budget);
        SentSplits(f, rest, b, s, used, budget);
      }
    }
  }

  lemma FirstFile(a: seq<WorkspaceFile>)
    requires a != []
    ensures a == [a[0]] + a[1..]
  {
  }

  lemma FirstOf(f: WorkspaceFile, a: seq<WorkspaceFile>, b: seq<WorkspaceFile>)
    ensures [f] + a + b == [f] + (a + b)
  {
  }

  lemma SkippedSplits(
    f: WorkspaceFile, rest: seq<WorkspaceFile>, b: seq<WorkspaceFile>, s: Sent, used: nat, budget: int)
    requires Skipped(s, f, used, budget) && Splits(rest, b, s, used, budget)
    ensures Splits([f] + rest, b, s, used, budget)
  {
    hide Included, RememberAll, WorkspaceTokens, Skipped, Remember, EstimateTokens;
    FirstOf(f, rest, b);
    IncludedCons(f, rest, s, used, budget);
    IncludedCons(f, rest + b, s, used, budget);
  }

  lemma SentSplits(
    f: WorkspaceFile, rest: seq<WorkspaceFile>, b: seq<WorkspaceFile>, s: Sent, used: nat, budget: int)
    requires !Skipped(s, f, used, budget)
    requires Splits(rest, b, Remember(s, f), used + EstimateTokens(f.content), budget)
    ensures Splits([f] + rest, b, s, used, budget)
  {
    hide Included, RememberAll, WorkspaceTokens, Skipped, Remember, EstimateTokens;
    var s', used' := Remember(s, f), used + EstimateTokens(f.content);
    var inc := Included(rest, s', used', budget);
    FirstOf(f, rest, b);
    IncludedCons(f, rest, s, used, budget);
    IncludedCons(f, rest + b, s, used, budget);
    RememberCons(s, f, inc);
    TokensCons(f, inc);
    FirstOf(f, inc, Included(b, RememberAll(s', inc), used' + WorkspaceTokens(inc), budget));
  }

  lemma IncludedCons(f: WorkspaceFile, rest: seq<WorkspaceFile>, s: Sent, used: nat, budget: int)
    ensures Included([f] + rest, s, used, budget)
            == if Skipped(s, f, used, budget) then Included(rest, s, used, budget)
               else [f] + Included(rest, Remember(s, f), used + EstimateTokens(f.content), budget)
  {
    assert ([f] + rest)[1..] == rest;
  }

  lemma TokensCons(f: WorkspaceFile, files: seq<WorkspaceFile>)
    ensures WorkspaceTokens([f] + files) == EstimateTokens(f.content) + WorkspaceTokens(files)
  {
    assert ([f] + files)[1..] == files;
  }

  /**
   * Of the files handed to the builder, each is left out exactly when what was last sent under its key is the same
   * and it would take the prompt past half the budget, counting what is sent before it.
   */
  lemma IncludedExactlyWhen(files: seq<WorkspaceFile>, n: nat, s: Sent, used: nat, budget: int)
    requires n < |files|
    ensures var inc, f := Included(files[..n], s, used, budget), files[n];
            Included(files[..n + 1], s, used, budget)
            == inc + if && LastSent(s, inc, f.key) == Some(f.content)
                        && 2 * (used + WorkspaceTokens(inc) + (|f.content| + 3) / 4) > budget then [] else [f]
  {
    var inc, f := Included(files[..n], s, used, budget), files[n];
    assert files[..n + 1] == files[..n] + [f];
    IncludedAppend(files[..n], [f], s, used, budget);
    RememberedIsLast(s, inc, f.key);
    var s', used' := RememberAll(s, inc), used + WorkspaceTokens(inc);
    assert [f] + [] == [f];
    IncludedCons(f, [], s', used', budget);
    NoFiles(s', used', budget);
    NoFiles(Remember(s', f), used' + EstimateTokens(f.content), budget);
    hide RememberAll, WorkspaceTokens, LastSent, Included, Remember;
    assert Skipped(s', f, used', budget) <==>
           LastSent(s, inc, f.key) == Some(f.content) && 2 * (used' + (|f.content| + 3) / 4) > budget;
  }

  class ContextBuilder {
    var sent: Sent
    var budget: int
    var outputReserve: int
    var lastUsedTokens: nat

    ghost predicate Valid()
      reads this
    {
      SentValid(sent) && budget > 0 && outputReserve > 0
    }

    constructor (budget: int, outputReserve: int)
      ensures Valid()
      ensures this.budget == if budget <= 0 then 128000 else budget
      ensures this.outputReserve == if outputReserve <= 0 then 4096 else outputReserve
      ensures sent == Sent(map[], map[])
    {
      this.sent := Sent(map[], map[]);
      this.budget := if budget <= 0 then DEFAULT_BUDGET else budget;
      this.outputReserve := if outputReserve <= 0 then DEFAULT_OUTPUT_RESERVE else outputReserve;
      this.lastUsedTokens := 0;
    }

    /** The token budget left for history after the last Build. */
    function Remaining(): int
      reads this
    {
      budget - lastUsedTokens - outputReserve
    }

    /**
     * Sends the prompt with the included files, and the history that fits in what is left: when
     * messages come back, prompt, files, history and output reserve together fit the budget.
     */
    method Build(files: seq<WorkspaceFile>, history: seq<Message>, systemPrompt: string)
      returns (prompt: string, messages: seq<ChatMessage>)
      requires Valid()
      modifies this
      ensures Valid() && budget == old(budget) && outputReserve == old(outputReserve)
      ensures var inc := Included(files, old(sent), EstimateTokens(systemPrompt), budget);
              && sent == RememberAll(old(sent), inc)
              && lastUsedTokens == EstimateTokens(systemPrompt) + WorkspaceTokens(inc)
              && prompt == Prompt(systemPrompt, inc) && Tells(prompt, systemPrompt, inc)
      ensures messages == Selected(history, Remaining()) && WellPaired(messages)
      ensures messages != [] ==>
                lastUsedTokens + Cost(history, LongestFit(history, Remaining(), 0)) + outputReserve <= budget
    {
      hide Included, RememberAll, Sanitize, RenderedFrom, Cost, WellPaired, Tells;
      PromptTells(systemPrompt, Included(files, sent, EstimateTokens(systemPrompt), budget));
      var wsContext, used := AddWorkspace(files, EstimateTokens(systemPrompt));
      prompt := systemPrompt;
      if wsContext != "" {
        prompt := prompt + ("\n\n# Workspace Context" + wsContext);
      }
      lastUsedTokens := used;
      messages := SelectHistory(history, Remaining());
    }

    /** The loop of Build over the workspace files. */
    method AddWorkspace(files: seq<WorkspaceFile>, promptTokens: nat) returns (wsContext: string, used: nat)
      requires Valid()
      modifies this`sent
      ensures Valid()
      ensures var inc := Included(files, old(sent), promptTokens, budget);
              && wsContext == WorkspaceText(inc) && used == promptTokens + WorkspaceTokens(inc)
              && sent == RememberAll(old(sent), inc)
    {
      hide Included, Remember, RememberAll, WorkspaceText, WorkspaceTokens, FileText, EstimateTokens;
      NoFiles(sent, promptTokens, budget);
      ghost var done: seq<WorkspaceFile> := [];
      wsContext, used := "", promptTokens;
      for n := 0 to |files|
        invariant Valid()
        invariant done + Included(files[n..], sent, used, budget) == Included(files, old(sent), promptTokens, budget)
        invariant wsContext == WorkspaceText(done) && sent == RememberAll(old(sent), done)
        invariant used == promptTokens + WorkspaceTokens(done)
      {
        var wf := files[n];
        IncludedStep(files, n, done, sent, used, budget);
        if wf.key in sent.hashes && sent.hashes[wf.key] == wf.content {
          if used + sent.tokens[wf.key] > budget / 2 {
            assert Skipped(sent, wf, used, budget);
            continue;
          }
        }
        var tokens := EstimateTokens(wf.content);
        RememberValid(sent, wf);
        sent := Remember(sent, wf);
        wsContext := wsContext + FileText(wf);
        used := used + tokens;
        WorkspaceSnoc(done, wf);
        RememberSnoc(old(sent), done, wf);
        done := done + [wf];
      }
      assert files[|files|..] == [];
      NoFiles(sent, used, budget);
      assert done == Included(files, old(sent), promptTokens, budget);
    }

    /** Reselects with the tokens counted by the last Build, whichever session that Build served. */
    method RebuildMessages(history: seq<Message>) returns (messages: seq<ChatMessage>)
      requires Valid()
      ensures messages == Selected(history, Remaining()) && WellPaired(messages)
    {
      messages := SelectHistory(history, Remaining());
    }
  }

  function Text(n: nat): string {
    seq(n, _ => 'x')
  }

  /** One user message of eight bytes costs two tokens. */
  lemma ShortHistory(budget: int)
    ensures var m := Message("1", "a", User, TypeText, Content(Text(8), None, None), 0);
            Selected([m], budget) == if budget >= 2 then [ChatMessage(User, Text(8), [], [])] else []
  {
    var m := Message("1", "a", User, TypeText, Content(Text(8), None, None), 0);
    var h := [m];
    assert Cost(h, 1) == 0 && Cost(h, 0) == Tokens(h, 0) + Cost(h, 1) == 2;
    if budget >= 2 {
      assert LongestFit(h, budget, 0) == 0;
      var r := RenderedFrom(h, 0);
      assert r == [ChatMessage(User, Text(8), [], [])];
      assert SanitizeFrom(r, 1) == [];
    } else if budget == 1 {
      assert LongestFit(h, budget, 0) == 1;
    }
  }

  /**
   * A run in which a rebuild selects something else: session a builds with room for its history, session b
   * builds with a long prompt, and the rebuild for a is left with b's count.
   */
  method RebuildAfterAnotherSession() returns (first: seq<ChatMessage>, again: seq<ChatMessage>)
    ensures |first| == 1 && again == []
  {
    var builder := new ContextBuilder(100, 10);
    var history := [Message("1", "a", User, TypeText, Content(Text(8), None, None), 0)];
    ShortHistory(90);
    ShortHistory(1);
    TextTokens(0);
    TextTokens(356);
    NoFiles(builder.sent, 0, 100);
    hide Selected, Cost, LongestFit, Included, WorkspaceText, WorkspaceTokens, RememberAll, EstimateTokens, Text;
    var prompt;
    prompt, first := builder.Build([], history, Text(0));
    NoFiles(builder.sent, 89, 100);
    var other;
    prompt, other := builder.Build([], [], Text(356));
    again := builder.RebuildMessages(history);
  }

  lemma TextTokens(n: nat)
    ensures EstimateTokens(Text(n)) == (n + 3) / 4
  {
  }

  lemma RememberValid(s: Sent, f: WorkspaceFile)
    requires SentValid(s)
    ensures SentValid(Remember(s, f))
  {
  }

  lemma NoFiles(s: Sent, used: nat, budget: int)
    ensures WorkspaceText([]) == "" && WorkspaceTokens([]) == 0 && Included([], s, used, budget) == []
    ensures RememberAll(s, []) == s
  {
  }

  lemma IncludedStep(
    files: seq<WorkspaceFile>, n: nat, done: seq<WorkspaceFile>, s: Sent, used: nat, budget: int)
    requires n < |files|
    ensures Skipped(s, files[n], used, budget) ==>
              Included(files[n..], s, used, budget) == Included(files[n + 1..], s, used, budget)
    ensures !Skipped(s, files[n], used, budget) ==>
              done + Included(files[n..], s, used, budget)
              == done + [files[n]]
                 + Included(files[n + 1..], Remember(s, files[n]), used + EstimateTokens(files[n].content), budget)
  {
    assert files[n..][1..] == files[n + 1..];
  }

  lemma {:induction false} WorkspaceSnoc(files: seq<WorkspaceFile>, f: WorkspaceFile)
    ensures WorkspaceText(files + [f]) == WorkspaceText(files) + FileText(f)
    ensures WorkspaceTokens(files + [f]) == WorkspaceTokens(files) + EstimateTokens(f.content)
  {
    if files != [] {
      WorkspaceSnoc(files[1..], f);
      assert (files + [f])[1..] == files[1..] + [f];
    }
  }
}
