/** Session compaction: old messages are replaced by one generated summary. */
module Compaction {
  import opened Llm
  import opened Store
  import Context

  const COMPACTION_THRESHOLD: nat := 40
  const COMPACTION_KEEP_RECENT: nat := 10
  const RECENT_MESSAGES_LIMIT: nat := 50
  const ONE_SECOND: int := 1_000_000_000

  /** What the environment does during a compaction. */
  datatype Env = Env(
    countOk: bool,
    loadOk: bool,
    summary: Option<string>,   // the summary the model wrote, or an error at the call or in the stream
    deleteOk: bool,
    insertOk: bool,
    summaryId: string,         // a fresh id
    early: seq<Message>)       // what others append between counting and loading, without the session lock

  datatype Outcome = NotNeeded | Failed | SummaryLost | Compacted

  function Summary(session: string, id: string, text: string, firstKept: Message): Message {
    Message(id, session, Assistant, TypeText, Content("[Session Summary]\n" + text, None, None),
      firstKept.createdAt - ONE_SECOND)
  }

  /** A summary is read back as the assistant's words, dated a second before the first message it stands in front of. */
  lemma SummaryReads(session: string, id: string, text: string, firstKept: Message)
    ensures var m := Summary(session, id, text, firstKept);
            && Context.MessageToLLM(m) == ChatMessage(Assistant, "[Session Summary]\n" + text, [], [])
            && m.createdAt == firstKept.createdAt - 1_000_000_000
  {
  }

  /** Storing a message changes nothing of what it reads as. */
  lemma StoredReads(m: Message)
    ensures Context.MessageToLLM(Stored(m)) == Context.MessageToLLM(m)
  {
  }

  /** All but the most recent of the messages that are loaded when `count` were counted. */
  function OldOf(rows: seq<Message>, session: string, count: nat): seq<Message>
    requires COMPACTION_KEEP_RECENT < count <= |Ordered(rows, session)|
  {
    LastOf(Ordered(rows, session), count)[..count - COMPACTION_KEEP_RECENT]
  }

  /** The rows after the old messages of the session are gone. */
  function Trimmed(rows: seq<Message>, session: string, count: nat): seq<Message>
    requires COMPACTION_KEEP_RECENT < count <= |Ordered(rows, session)|
  {
    Without(rows, IdsOf(OldOf(rows, session, count)))
  }

  /** The old messages are those between the uncounted and the ten newest. */
  lemma OldIsInfix(rows: seq<Message>, session: string, count: nat)
    requires COMPACTION_KEEP_RECENT < count <= |Ordered(rows, session)|
    ensures var all := Ordered(rows, session);
            && OldOf(rows, session, count) == all[|all| - count..|all| - COMPACTION_KEEP_RECENT]
            && LastOf(all, COMPACTION_KEEP_RECENT) == all[|all| - COMPACTION_KEEP_RECENT..]
    ensures forall i :: 0 <= i < |OldOf(rows, session, count)| ==>
            OldOf(rows, session, count)[i] in Ordered(rows, session)
  {
    hide Ordered;
  }

  /** What was not counted is not loaded: that many of the oldest messages stay, next to the ten newest. */
  lemma TrimmedKeepsUncounted(rows: seq<Message>, session: string, count: nat)
    requires DistinctIds(rows) && COMPACTION_KEEP_RECENT < count <= |Ordered(rows, session)|
    ensures var all := Ordered(rows, session);
            Ordered(Trimmed(rows, session, count), session)
              == all[..|all| - count] + LastOf(all, COMPACTION_KEEP_RECENT)
  {
    hide Ordered, Without, IdsOf, DistinctIds, OldOf, LastOf;
    var all := Ordered(rows, session);
    OrderedDistinct(rows, session);
    OldIsInfix(rows, session, count);
    OrderedWithout(rows, IdsOf(OldOf(rows, session, count)), session);
    WithoutInfix(all, |all| - count, |all| - COMPACTION_KEEP_RECENT);
  }

  lemma TrimmedElsewhere(rows: seq<Message>, session: string, count: nat)
    requires DistinctIds(rows) && COMPACTION_KEEP_RECENT < count <= |Ordered(rows, session)|
    ensures forall other :: other != session ==> Ordered(Trimmed(rows, session, count), other) == Ordered(rows, other)
  {
    hide Ordered, Without, IdsOf, DistinctIds, OldOf;
    OldIsInfix(rows, session, count);
    forall other | other != session ensures Ordered(Trimmed(rows, session, count), other) == Ordered(rows, other) {
      WithoutElsewhere(rows, OldOf(rows, session, count), session, other);
    }
  }

  /** The summary is dated a second before the first kept message, so it sorts first. */
  lemma SummarySortsFirst(rows: seq<Message>, session: string, id: string, text: string)
    requires DistinctIds(rows) && |Ordered(rows, session)| > COMPACTION_KEEP_RECENT
    ensures var kept := LastOf(Ordered(rows, session), COMPACTION_KEEP_RECENT);
            var summary := Summary(session, id, text, kept[0]);
            var rows' := Trimmed(rows, session, |Ordered(rows, session)|) + [summary];
            && Ordered(rows', session) == [summary] + kept
            && forall other :: other != session ==> Ordered(rows', other) == Ordered(rows, other)
  {
    hide Trimmed, Ordered;
    var n := |Ordered(rows, session)|;
    TrimmedKeepsUncounted(rows, session, n);
    TrimmedElsewhere(rows, session, n);
    OrderedAscends(rows, session);
    var kept := LastOf(Ordered(rows, session), COMPACTION_KEEP_RECENT);
    assert Ordered(rows, session)[..0] + kept == kept;
    var summary := Summary(session, id, text, kept[0]);
    AppendOldest(Trimmed(rows, session, n), summary);
    forall other | other != session
      ensures Ordered(Trimmed(rows, session, n) + [summary], other) == Ordered(rows, other)
    {
      AppendElsewhere(Trimmed(rows, session, n), summary, other);
    }
  }

  // ---------------------------------------------------------------- one compaction

  function OutcomeOf(rows: seq<Message>, session: string, env: Env): Outcome {
    if !env.countOk then Failed
    else if |Ordered(rows, session)| <= COMPACTION_THRESHOLD then NotNeeded
    else if !env.loadOk || env.summary.None? || !env.deleteOk then Failed
    else if env.insertOk then Compacted
    else SummaryLost
  }

  /** The rows when the messages are loaded. */
  function Loaded(rows: seq<Message>, session: string, env: Env): seq<Message> {
    if env.countOk && |Ordered(rows, session)| > COMPACTION_THRESHOLD then rows + env.early else rows
  }

  lemma {:induction false} LoadedHolds(rows: seq<Message>, more: seq<Message>, session: string)
    ensures |Ordered(rows, session)| <= |Ordered(rows + more, session)|
  {
    if more == [] {
      assert rows + more == rows;
    } else {
      var front := more[..|more| - 1];
      LoadedHolds(rows, front, session);
      assert (rows + more)[..|rows + more| - 1] == rows + front;
    }
  }

  function CompactedRows(rows: seq<Message>, session: string, env: Env): seq<Message> {
    var loaded := Loaded(rows, session, env);
    var n := |Ordered(rows, session)|;
    LoadedHolds(rows, env.early, session);
    match OutcomeOf(rows, session, env)
    case NotNeeded => rows
    case Failed => loaded
    case SummaryLost => Trimmed(loaded, session, n)
    case Compacted =>
      Trimmed(loaded, session, n)
      + [Summary(session, env.summaryId, env.summary.value,
        LastOf(Ordered(loaded, session), COMPACTION_KEEP_RECENT)[0])]
  }

  /** What a session holds after a compaction of the given outcome, in terms of what it held before. */
  ghost predicate Effect(before: seq<Message>, session: string, env: Env, outcome: Outcome, after: seq<Message>) {
    match outcome
    case NotNeeded => |before| <= 40 && after == before
    case Failed => after == before
    case SummaryLost => |before| > 40 && after == LastOf(before, 10)
    case Compacted =>
      && |before| > 40 && env.summary.Some?
      && var kept := LastOf(before, 10);
         after == [Summary(session, env.summaryId, env.summary.value, kept[0])] + kept
  }

  /**
   * With no other writer between counting and loading, successful compaction leaves exactly the summary and
   * the last ten messages in order, a lost summary leaves those ten, any earlier failure leaves every row, and
   * no outcome touches another session.
   */
  lemma CompactionEffect(rows: seq<Message>, session: string, env: Env)
    requires DistinctIds(rows) && env.early == []
    ensures var rows' := CompactedRows(rows, session, env);
            && Effect(Ordered(rows, session), session, env, OutcomeOf(rows, session, env), Ordered(rows', session))
            && (OutcomeOf(rows, session, env).NotNeeded? || OutcomeOf(rows, session, env).Failed? ==> rows' == rows)
            && forall other :: other != session ==> Ordered(rows', other) == Ordered(rows, other)
  {
    assert Loaded(rows, session, env) == rows;
    var all := Ordered(rows, session);
    hide Trimmed, Ordered, Summary, Loaded, LastOf, DistinctIds;
    match OutcomeOf(rows, session, env)
    case SummaryLost => TrimmedWhole(rows, session);
    case Compacted => SummarySortsFirst(rows, session, env.summaryId, env.summary.value);
    case _ =>
  }

  /** When everything was counted, exactly the ten newest stay. */
  lemma TrimmedWhole(rows: seq<Message>, session: string)
    requires DistinctIds(rows) && |Ordered(rows, session)| > COMPACTION_KEEP_RECENT
    ensures var all := Ordered(rows, session);
            && Ordered(Trimmed(rows, session, |all|), session) == LastOf(all, COMPACTION_KEEP_RECENT)
            && forall other :: other != session ==>
               Ordered(Trimmed(rows, session, |all|), other) == Ordered(rows, other)
  {
    var all := Ordered(rows, session);
    hide *;
    TrimmedKeepsUncounted(rows, session, |all|);
    TrimmedElsewhere(rows, session, |all|);
    assert all[..0] + LastOf(all, COMPACTION_KEEP_RECENT) == LastOf(all, COMPACTION_KEEP_RECENT);
  }

  /** The environment's ids are new. */
  ghost predicate FreshIds(rows: seq<Message>, env: Env) {
    && DistinctIds(rows + env.early)
    && forall x :: x in rows + env.early ==> x.id != env.summaryId
  }

  lemma TrimmedIds(rows: seq<Message>, session: string, count: nat)
    requires DistinctIds(rows) && COMPACTION_KEEP_RECENT < count <= |Ordered(rows, session)|
    ensures DistinctIds(Trimmed(rows, session, count))
    ensures forall x :: x in Trimmed(rows, session, count) ==> x in rows
  {
    WithoutDistinct(rows, IdsOf(OldOf(rows, session, count)));
    hide Without, OldOf, IdsOf, Ordered;
  }

  lemma AppendedIds(rows: seq<Message>, m: Message)
    requires DistinctIds(rows) && forall x :: x in rows ==> x.id != m.id
    ensures DistinctIds(rows + [m])
  {
    forall i | 0 <= i < |rows| ensures rows[i].id != m.id {
      assert rows[i] in rows;
    }
  }

  lemma LoadedIds(rows: seq<Message>, session: string, env: Env)
    requires FreshIds(rows, env)
    ensures DistinctIds(rows) && DistinctIds(Loaded(rows, session, env))
    ensures forall x :: x in Loaded(rows, session, env) ==> x.id != env.summaryId
    ensures forall x :: x in Loaded(rows, session, env) ==> x in rows || x in env.early
  {
    var all := rows + env.early;
    assert forall i :: 0 <= i < |rows| ==> rows[i] == all[i];
    hide Ordered;
  }

  lemma CompactedIds(rows: seq<Message>, session: string, env: Env)
    requires FreshIds(rows, env)
    ensures DistinctIds(CompactedRows(rows, session, env))
    ensures forall x :: x in CompactedRows(rows, session, env) ==>
              x in rows || x in env.early || x.id == env.summaryId
  {
    LoadedIds(rows, session, env);
    LoadedHolds(rows, env.early, session);
    var loaded, n := Loaded(rows, session, env), |Ordered(rows, session)|;
    if env.countOk && n > COMPACTION_THRESHOLD {
      TrimmedIds(loaded, session, n);
      var kept := Trimmed(loaded, session, n);
      var text := if env.summary.Some? then env.summary.value else "";
      var summary := Summary(session, env.summaryId, text, LastOf(Ordered(loaded, session), COMPACTION_KEEP_RECENT)[0]);
        hide Ordered, Trimmed, FreshIds, DistinctIds;
      AppendedIds(kept, summary);
    }
  }

  lemma SummaryIsStored(session: string, id: string, text: string, firstKept: Message)
    ensures var m := Summary(session, id, text, firstKept); Stored(m) == m && m.id == id && m.session == session
  {
  }

  /** Compacts a session that has grown past the threshold. */
  method CompactSession(store: Store, session: string, env: Env) returns (outcome: Outcome)
    requires FreshIds(store.rows, env)
    modifies store
    ensures outcome == OutcomeOf(old(store.rows), session, env)
    ensures store.rows == CompactedRows(old(store.rows), session, env)
    ensures DistinctIds(store.rows)
  {
    hide Ordered, Summary;
    CompactedIds(store.rows, session, env);
    LoadedIds(store.rows, session, env);
    var counted := store.MessageCount(session, env.countOk);
    if counted.None? {
      return Failed;
    }
    var count := counted.value;
    if count <= COMPACTION_THRESHOLD {
      return NotNeeded;
    }
    LoadedHolds(store.rows, env.early, session);
    store.rows := store.rows + env.early;
    hide FreshIds, DistinctIds;
    outcome := ReplaceOld(store, session, count, env);
  }

  /** Loads what was counted, has it summarised, and puts the summary in place of the old messages. */
  method ReplaceOld(store: Store, session: string, count: nat, env: Env) returns (outcome: Outcome)
    requires DistinctIds(store.rows) && COMPACTION_THRESHOLD < count <= |Ordered(store.rows, session)|
    requires forall x :: x in store.rows ==> x.id != env.summaryId
    modifies store
    ensures outcome == if !env.loadOk || env.summary.None? || !env.deleteOk then Failed
                       else if env.insertOk then Compacted else SummaryLost
    ensures var rows := old(store.rows);
            store.rows == match outcome
                          case Failed => rows
                          case SummaryLost => Trimmed(rows, session, count)
                          case Compacted =>
                            Trimmed(rows, session, count)
                            + [Summary(session, env.summaryId, env.summary.value,
                                       LastOf(Ordered(rows, session), COMPACTION_KEEP_RECENT)[0])]
  {
    hide Ordered, Without, IdsOf;
    var loaded := store.RecentMessages(session, count, env.loadOk);
    if loaded.None? {
      return Failed;
    }
    var messages := loaded.value;
    var splitIdx := |messages| - COMPACTION_KEEP_RECENT;
    var oldMessages, recentMessages := messages[..splitIdx], messages[splitIdx..];
    if env.summary.None? {
      return Failed;
    }
    assert recentMessages == LastOf(Ordered(store.rows, session), COMPACTION_KEEP_RECENT);
    assert oldMessages == OldOf(store.rows, session, count);
    TrimmedIds(store.rows, session, count);
    SomeIds(oldMessages);
    var deleted := store.DeleteMessages(IdsOf(oldMessages), env.deleteOk);
    if !deleted {
      return Failed;
    }
    SummaryIsStored(session, env.summaryId, env.summary.value, recentMessages[0]);
    var ok := store.AppendMessage(Summary(session, env.summaryId, env.summary.value, recentMessages[0]), env.insertOk);
    outcome := if ok then Compacted else SummaryLost;
  }

  lemma SomeIds(ms: seq<Message>)
    ensures ms != [] ==> IdsOf(ms) != {}
  {
    if ms != [] {
      assert ms[0].id in IdsOf(ms);
    }
  }

  /**
   * A turn's history is the end of its session, with the user message last; it is the whole session unless
   * compaction failed.
   */
  ghost predicate LoadsTurn(h: seq<Message>, all: seq<Message>, userMsg: Message, outcome: Outcome) {
    && h == LastOf(all, 50)
    && h != [] && h[|h| - 1] == Stored(userMsg)
    && (outcome != Failed ==> h == all)
    && (outcome == Compacted ==> |h| == COMPACTION_KEEP_RECENT + 1)
  }

  /** The ids of the user message, of other writers' messages and of the summary are new. */
  ghost predicate NewIds(rows: seq<Message>, userMsg: Message, env: Env) {
    && DistinctIds(rows) && (forall x :: x in rows ==> x.id != userMsg.id)
    && FreshIds(rows + [Stored(userMsg)], env)
  }

  /** Nobody else writes between counting and loading, and the user message is the newest of its session. */
  ghost predicate Undisturbed(rows: seq<Message>, userMsg: Message, env: Env) {
    env.early == [] && forall x :: x in Ordered(rows, userMsg.session) ==> x.createdAt <= userMsg.createdAt
  }

  /** The start of a turn: the user message is stored, the session compacted, the history loaded. */
  method BeginTurn(store: Store, userMsg: Message, saved: bool, sessionFound: bool, env: Env, loaded: bool)
    returns (outcome: Option<Outcome>, history: Option<seq<Message>>)
    requires NewIds(store.rows, userMsg, env)
    modifies store
    ensures DistinctIds(store.rows)
    ensures outcome.Some? <==> saved && sessionFound
    ensures history.Some? <==> saved && sessionFound && loaded
    ensures var begun := if saved then old(store.rows) + [Stored(userMsg)] else old(store.rows);
            if outcome.None? then store.rows == begun
            else outcome.value == OutcomeOf(begun, userMsg.session, env)
                 && store.rows == CompactedRows(begun, userMsg.session, env)
    ensures history.Some? ==> history.value == LastOf(Ordered(store.rows, userMsg.session), 50)
    ensures history.Some? && old(Undisturbed(store.rows, userMsg, env)) ==>
              LoadsTurn(history.value, Ordered(store.rows, userMsg.session), userMsg, outcome.value)
  {
    IdsAreNew(store.rows, userMsg, env);
    if Undisturbed(store.rows, userMsg, env) {
      LoadedHistory(store.rows, userMsg, env);
    }
    hide *;
    outcome, history := None, None;
    var ok := store.AppendMessage(userMsg, saved);
    if !ok || !sessionFound {
      return;
    }
    var result := CompactSession(store, userMsg.session, env);
    outcome := Some(result);
    history := store.RecentMessages(userMsg.session, RECENT_MESSAGES_LIMIT, loaded);
  }

  lemma IdsAreNew(rows: seq<Message>, userMsg: Message, env: Env)
    requires NewIds(rows, userMsg, env)
    ensures DistinctIds(rows) && FreshIds(rows + [Stored(userMsg)], env) && userMsg.id != env.summaryId
    ensures forall x :: x in rows ==> x.id != env.summaryId && x.id != userMsg.id
  {
    var all := rows + [Stored(userMsg)] + env.early;
    assert all[|rows|] == Stored(userMsg) && Stored(userMsg) in all;
    forall x | x in rows ensures x.id != env.summaryId {
      assert x in all;
    }
    hide DistinctIds;
  }

  /** What a turn finds in the store once its message is stored and the session compacted. */
  lemma LoadedHistory(before: seq<Message>, userMsg: Message, env: Env)
    requires DistinctIds(before) && env.early == [] && userMsg.id != env.summaryId
    requires forall x :: x in before ==> x.id != env.summaryId && x.id != userMsg.id
    requires forall x :: x in Ordered(before, userMsg.session) ==> x.createdAt <= userMsg.createdAt
    ensures var begun, session := before + [Stored(userMsg)], userMsg.session;
            var all := Ordered(CompactedRows(begun, session, env), session);
            FreshIds(begun, env)
            && LoadsTurn(LastOf(all, RECENT_MESSAGES_LIMIT), all, userMsg, OutcomeOf(begun, session, env))
  {
    var stored, session := Stored(userMsg), userMsg.session;
    StoredKeeps(userMsg);
    hide Stored, Ordered, CompactedRows, OutcomeOf, DistinctIds, Effect, FreshIds;
    var begun := before + [stored];
    AppendedIds(before, stored);
    NothingEarly(begun, env);
    AppendNewest(before, stored);
    CompactionEffect(begun, session, env);
    LoadAfterCompaction(Ordered(before, session), stored, env, OutcomeOf(begun, session, env),
                        Ordered(CompactedRows(begun, session, env), session));
  }

  /** After every outcome the session ends with the user message, and all but a failed one leave it short. */
  lemma LoadAfterCompaction(before: seq<Message>, userMsg: Message, env: Env, outcome: Outcome, after: seq<Message>)
    requires Effect(before + [userMsg], userMsg.session, env, outcome, after)
    ensures && after != [] && after[|after| - 1] == userMsg
            && LastOf(after, RECENT_MESSAGES_LIMIT)[|LastOf(after, RECENT_MESSAGES_LIMIT)| - 1] == userMsg
            && (outcome != Failed ==> |after| <= RECENT_MESSAGES_LIMIT)
            && (outcome == Compacted ==> |after| == COMPACTION_KEEP_RECENT + 1)
  {
    hide Summary;
  }

  // ---------------------------------------------------------------- other writers during a compaction

  /** What the session holds after a successful compaction beside which others wrote. */
  ghost predicate Survives(all: seq<Message>, late: nat, summary: Message, x: Message)
    requires late <= |all| && COMPACTION_KEEP_RECENT <= |all|
  {
    x in all[..late] || x in all[|all| - COMPACTION_KEEP_RECENT..] || x == summary
  }

  lemma SurvivesIs(all: seq<Message>, late: nat, summary: Message, x: Message)
    requires late <= |all| && COMPACTION_KEEP_RECENT <= |all|
    ensures Survives(all, late, summary, x) <==>
            x in all[..late] + all[|all| - COMPACTION_KEEP_RECENT..] || x == summary
  {
  }

  lemma OneRowMore(rows: seq<Message>, m: Message, x: Message)
    ensures x in Ordered(rows + [m], m.session) <==> x in Ordered(rows, m.session) || x == m
  {
  }

  lemma TrimmedAndSummary(rows: seq<Message>, session: string, count: nat, summary: Message, x: Message)
    requires DistinctIds(rows) && COMPACTION_KEEP_RECENT < count <= |Ordered(rows, session)|
             && summary.session == session
    ensures var all := Ordered(rows, session);
            x in Ordered(Trimmed(rows, session, count) + [summary], session) <==>
              Survives(all, |all| - count, summary, x)
  {
    hide *;
    var all := Ordered(rows, session);
    TrimmedKeepsUncounted(rows, session, count);
    OldIsInfix(rows, session, count);
    OneRowMore(Trimmed(rows, session, count), summary, x);
    SurvivesIs(all, |all| - count, summary, x);
  }

  /** The summary that a compaction puts in front of the messages it keeps. */
  ghost predicate IsNewSummary(summary: Message, session: string, env: Env, all: seq<Message>) {
    && env.summary.Some? && |all| > COMPACTION_KEEP_RECENT
    && summary == Summary(session, env.summaryId, env.summary.value, all[|all| - COMPACTION_KEEP_RECENT])
  }

  lemma CompactedIs(rows: seq<Message>, session: string, env: Env, all: seq<Message>, n: nat, summary: Message)
    requires FreshIds(rows, env) && OutcomeOf(rows, session, env) == Compacted
    requires all == Ordered(rows + env.early, session) && n == |Ordered(rows, session)|
    requires IsNewSummary(summary, session, env, all)
    ensures COMPACTION_KEEP_RECENT < n <= |all| && DistinctIds(rows + env.early) && summary.session == session
    ensures CompactedRows(rows, session, env) == Trimmed(rows + env.early, session, n) + [summary]
  {
    hide Trimmed, Ordered, DistinctIds;
    LoadedHolds(rows, env.early, session);
    assert DistinctIds(rows + env.early);
    hide FreshIds;
  }

  /** Who is in the session after a successful compaction. */
  lemma SurvivorsOf(
    rows: seq<Message>, session: string, env: Env, all: seq<Message>, n: nat, summary: Message, x: Message)
    requires FreshIds(rows, env) && OutcomeOf(rows, session, env) == Compacted
    requires all == Ordered(rows + env.early, session) && n == |Ordered(rows, session)| <= |all|
    requires |all| > COMPACTION_KEEP_RECENT && IsNewSummary(summary, session, env, all)
    ensures x in Ordered(CompactedRows(rows, session, env), session) <==> Survives(all, |all| - n, summary, x)
  {
    hide *;
    CompactedIs(rows, session, env, all, n, summary);
    TrimmedAndSummary(rows + env.early, session, n, summary, x);
  }

  /**
   * If others append to the session between counting and loading, as many of its oldest messages stay as were
   * appended. So the session's first message, the previous summary if there is one, survives a successful
   * compaction exactly when someone did.
   */
  lemma OldestSurvivesExactlyWhen(rows: seq<Message>, session: string, env: Env, all: seq<Message>)
    requires FreshIds(rows, env) && OutcomeOf(rows, session, env) == Compacted
    requires all == Ordered(rows + env.early, session)
    ensures |all| > COMPACTION_KEEP_RECENT
    ensures all[0] in Ordered(CompactedRows(rows, session, env), session) <==> |all| > |Ordered(rows, session)|
  {
    hide *;
    var n := |Ordered(rows, session)|;
    var summary := SummaryOf(rows, session, env, all, n);
    FirstIsFresh(rows, session, env);
    SurvivorsOf(rows, session, env, all, n, summary, all[0]);
    FirstSurvives(all, |all| - n, summary);
  }

  lemma SummaryOf(rows: seq<Message>, session: string, env: Env, all: seq<Message>, n: nat) returns (summary: Message)
    requires OutcomeOf(rows, session, env) == Compacted
    requires all == Ordered(rows + env.early, session) && n == |Ordered(rows, session)|
    ensures IsNewSummary(summary, session, env, all) && summary.id == env.summaryId
    ensures COMPACTION_KEEP_RECENT < n <= |all|
  {
    LoadedHolds(rows, env.early, session);
    hide Ordered;
    summary := Summary(session, env.summaryId, env.summary.value, all[|all| - COMPACTION_KEEP_RECENT]);
  }

  lemma FirstIsFresh(rows: seq<Message>, session: string, env: Env)
    requires FreshIds(rows, env) && Ordered(rows + env.early, session) != []
    ensures DistinctIds(Ordered(rows + env.early, session)) && Ordered(rows + env.early, session)[0].id != env.summaryId
  {
    var all := Ordered(rows + env.early, session);
    OrderedDistinct(rows + env.early, session);
    hide Ordered, DistinctIds;
    OrderedHas(rows + env.early, session, all[0]);
  }

  lemma FirstSurvives(all: seq<Message>, late: nat, summary: Message)
    requires DistinctIds(all) && late <= |all| && COMPACTION_KEEP_RECENT < |all| && all[0].id != summary.id
    ensures Survives(all, late, summary, all[0]) <==> late > 0
  {
    FirstIsNotKept(all);
    hide DistinctIds;
    if late > 0 {
      assert all[..late][0] == all[0];
    }
  }

  lemma FirstIsNotKept(all: seq<Message>)
    requires DistinctIds(all) && |all| > COMPACTION_KEEP_RECENT
    ensures all[0] !in all[|all| - COMPACTION_KEEP_RECENT..]
  {
    var kept := all[|all| - COMPACTION_KEEP_RECENT..];
    forall i | 0 <= i < |kept| ensures kept[i] != all[0] {
      assert kept[i] == all[|all| - COMPACTION_KEEP_RECENT + i];
    }
  }

  /**
   * What others append while the old messages are summarised is as if it were appended after the compaction: in
   * every session the ordered view is the same.
   */
  lemma LateWritersComeAfter(
    rows: seq<Message>, session: string, count: nat, late: seq<Message>, summary: Message, view: string)
    requires COMPACTION_KEEP_RECENT < count <= |Ordered(rows, session)|
    requires forall i :: 0 <= i < |late| ==> late[i].id !in IdsOf(OldOf(rows, session, count))
    requires forall i :: 0 <= i < |late| && late[i].session == summary.session ==>
               late[i].createdAt != summary.createdAt
    ensures Ordered(Without(rows + late, IdsOf(OldOf(rows, session, count))) + [summary], view)
            == Ordered(Trimmed(rows, session, count) + [summary] + late, view)
  {
    hide Ordered, OldOf, IdsOf, Without;
    WithoutAppend(rows, late, IdsOf(OldOf(rows, session, count)));
    RowsCommute(Trimmed(rows, session, count), late, summary, view);
  }

  // ---------------------------------------------------------------- every run

  /** What happens to the store: a turn stores a message, or a session is compacted. */
  datatype Event = Say(m: Message) | Compact(session: string, env: Env)

  function IdOf(ev: Event): string {
    match ev
    case Say(m) => m.id
    case Compact(_, env) => env.summaryId
  }

  /** Messages of one session, said one after the other. */
  predicate InOrder(a: Event, b: Event) {
    a.Say? && b.Say? && a.m.session == b.m.session ==> a.m.createdAt < b.m.createdAt
  }

  /** Ids are fresh, the messages of a session carry increasing timestamps, and compactions run undisturbed. */
  ghost predicate Legal(evs: seq<Event>) {
    && (forall i, j :: 0 <= i < j < |evs| ==> IdOf(evs[i]) != IdOf(evs[j]) && InOrder(evs[i], evs[j]))
    && (forall i :: 0 <= i < |evs| && evs[i].Compact? ==> evs[i].env.early == [])
  }

  function RowsStep(rows: seq<Message>, ev: Event): seq<Message> {
    match ev
    case Say(m) => rows + [Stored(m)]
    case Compact(session, env) => CompactedRows(rows, session, env)
  }

  function RowsAfter(evs: seq<Event>): seq<Message> {
    if evs == [] then [] else RowsStep(RowsAfter(evs[..|evs| - 1]), evs[|evs| - 1])
  }

  /** Everything that was ever said in a session. */
  function Said(evs: seq<Event>, session: string): seq<Message> {
    if evs == [] then []
    else
      var last := evs[|evs| - 1];
      Said(evs[..|evs| - 1], session) + if last.Say? && last.m.session == session then [Stored(last.m)] else []
  }

  /** The message is the summary that one of the compactions of this session generated. */
  ghost predicate Generated(evs: seq<Event>, session: string, m: Message) {
    exists i :: 0 <= i < |evs| && IsSummaryOf(evs[i], session, m)
  }

  predicate IsSummaryOf(ev: Event, session: string, m: Message) {
    ev.Compact? && ev.session == session && ev.env.summary.Some? && m.id == ev.env.summaryId
    && m.content.raw == "[Session Summary]\n" + ev.env.summary.value
  }

  /** All from the k-th message on, and in front of them possibly one generated summary. */
  ghost predicate SummaryThenRest(evs: seq<Event>, session: string, k: nat, s: seq<Message>) {
    var said := Said(evs, session);
    && k <= |said|
    && (k == 0 || |said| - k >= COMPACTION_KEEP_RECENT)
    && (s == said[k..]
        || (k > 0 && s != [] && Generated(evs, session, s[0]) && s[1..] == said[k..]))
  }

  /** What is known of the store after a run. */
  ghost predicate RunInv(evs: seq<Event>) {
    var rows := RowsAfter(evs);
    && DistinctIds(rows)
    && (forall x :: x in rows ==> KnownId(evs, x.id))
    && (forall session :: HasShape(evs, session, Ordered(rows, session)))
  }

  ghost predicate HasShape(evs: seq<Event>, session: string, s: seq<Message>) {
    exists k :: SummaryThenRest(evs, session, k, s)
  }

  ghost predicate KnownId(evs: seq<Event>, id: string) {
    exists i :: 0 <= i < |evs| && IdOf(evs[i]) == id
  }

  lemma {:induction false} SaidIsFromRun(evs: seq<Event>, session: string, m: Message)
    requires m in Said(evs, session)
    ensures exists i :: 0 <= i < |evs| && evs[i].Say? && evs[i].m.session == session && Stored(evs[i].m) == m
  {
    var front, last := evs[..|evs| - 1], evs[|evs| - 1];
    if last.Say? && last.m.session == session && m == Stored(last.m) {
    } else {
      SaidIsFromRun(front, session, m);
      var i :| 0 <= i < |front| && front[i].Say? && front[i].m.session == session && Stored(front[i].m) == m;
      assert evs[i] == front[i];
    }
  }

  lemma KnownStays(evs: seq<Event>, ev: Event, id: string)
    requires KnownId(evs, id)
    ensures KnownId(evs + [ev], id)
  {
    var i :| 0 <= i < |evs| && IdOf(evs[i]) == id;
    assert IdOf((evs + [ev])[i]) == id;
  }

  lemma SaidSnoc(evs: seq<Event>, ev: Event, session: string)
    ensures Said(evs + [ev], session)
            == Said(evs, session) + if ev.Say? && ev.m.session == session then [Stored(ev.m)] else []
  {
    assert (evs + [ev])[..|evs|] == evs;
  }

  lemma GeneratedStays(evs: seq<Event>, ev: Event, session: string, m: Message)
    requires Generated(evs, session, m)
    ensures Generated(evs + [ev], session, m)
  {
    var i :| 0 <= i < |evs| && IsSummaryOf(evs[i], session, m);
    assert IsSummaryOf((evs + [ev])[i], session, m);
  }

  /** A session that an event does not concern keeps its shape. */
  lemma ShapeStays(evs: seq<Event>, ev: Event, session: string, s: seq<Message>)
    requires HasShape(evs, session, s) && !(ev.Say? && ev.m.session == session)
    ensures HasShape(evs + [ev], session, s)
  {
    hide Generated, Said;
    var k: nat :| SummaryThenRest(evs, session, k, s);
    SaidSnoc(evs, ev, session);
    assert Said(evs + [ev], session) == Said(evs, session);
    if s != [] && Generated(evs, session, s[0]) {
      GeneratedStays(evs, ev, session, s[0]);
    }
    assert SummaryThenRest(evs + [ev], session, k, s);
  }

  lemma ShapeSaid(evs: seq<Event>, m: Message, s: seq<Message>)
    requires HasShape(evs, m.session, s)
    ensures HasShape(evs + [Say(m)], m.session, s + [Stored(m)])
  {
    hide Generated, Said, Stored;
    var k: nat :| SummaryThenRest(evs, m.session, k, s);
    var said, ev := Said(evs, m.session), Say(m);
    SaidSnoc(evs, ev, m.session);
    assert (said + [Stored(m)])[k..] == said[k..] + [Stored(m)];
    var s' := s + [Stored(m)];
    if s != said[k..] {
      GeneratedStays(evs, ev, m.session, s[0]);
      assert s'[1..] == s[1..] + [Stored(m)];
    }
    assert SummaryThenRest(evs + [ev], m.session, k, s');
  }

  lemma TailIsSaid(s: seq<Message>, said: seq<Message>, k: nat)
    requires |s| > COMPACTION_THRESHOLD && k <= |said| && (s == said[k..] || s[1..] == said[k..])
    ensures |said| >= COMPACTION_KEEP_RECENT
    ensures LastOf(s, COMPACTION_KEEP_RECENT) == said[|said| - COMPACTION_KEEP_RECENT..]
  {
    var tail := said[k..];
    assert tail[|tail| - COMPACTION_KEEP_RECENT..] == said[|said| - COMPACTION_KEEP_RECENT..];
    if s[1..] == tail {
      assert s[1..][|tail| - COMPACTION_KEEP_RECENT..] == s[|s| - COMPACTION_KEEP_RECENT..];
    }
  }

  lemma ShapeCompacted(evs: seq<Event>, session: string, env: Env, outcome: Outcome, s: seq<Message>, s': seq<Message>)
    requires HasShape(evs, session, s) && Effect(s, session, env, outcome, s')
    ensures HasShape(evs + [Compact(session, env)], session, s')
  {
    hide Generated, Said, Summary, LastOf;
    var ev := Compact(session, env);
    if outcome == NotNeeded || outcome == Failed {
      ShapeStays(evs, ev, session, s);
    } else {
      var k: nat :| SummaryThenRest(evs, session, k, s);
      var said := Said(evs, session);
      SaidSnoc(evs, ev, session);
      assert Said(evs + [ev], session) == said;
      var k' := |said| - COMPACTION_KEEP_RECENT;
      var kept := LastOf(s, COMPACTION_KEEP_RECENT);
      TailIsSaid(s, said, k);
      if outcome == Compacted {
        SummaryIsGenerated(evs, session, env, kept[0]);
        assert s'[1..] == kept;
      }
      assert SummaryThenRest(evs + [ev], session, k', s');
    }
  }

  lemma SummaryIsGenerated(evs: seq<Event>, session: string, env: Env, firstKept: Message)
    requires env.summary.Some?
    ensures Generated(evs + [Compact(session, env)], session,
            Summary(session, env.summaryId, env.summary.value, firstKept))
  {
    var evs' := evs + [Compact(session, env)];
    assert IsSummaryOf(evs'[|evs|], session, Summary(session, env.summaryId, env.summary.value, firstKept));
  }

  /** A message said now is newer than every row of its session. */
  lemma SaidLater(evs: seq<Event>, m: Message, rows: seq<Message>)
    requires Legal(evs + [Say(m)]) && HasShape(evs, m.session, Ordered(rows, m.session))
    ensures forall x :: x in Ordered(rows, m.session) ==> x.createdAt <= m.createdAt
  {
    OrderedAscends(rows, m.session);
    hide Ordered, Legal;
    var s := Ordered(rows, m.session);
    if s != [] {
      LastIsSaid(evs, m.session, s);
      SaidIsFromRun(evs, m.session, s[|s| - 1]);
      hide HasShape, Said;
      var i :| 0 <= i < |evs| && evs[i].Say? && evs[i].m.session == m.session && Stored(evs[i].m) == s[|s| - 1];
      LegalOrder(evs, m, i);
      forall j | 0 <= j < |s| ensures s[j].createdAt <= m.createdAt {
      }
    }
  }

  lemma LastIsSaid(evs: seq<Event>, session: string, s: seq<Message>)
    requires HasShape(evs, session, s) && s != []
    ensures s[|s| - 1] in Said(evs, session)
  {
    hide Generated, Said;
    var k: nat :| SummaryThenRest(evs, session, k, s);
    var said := Said(evs, session);
    assert said[k..] != [] && s[|s| - 1] == said[|said| - 1];
  }

  lemma LegalOrder(evs: seq<Event>, m: Message, i: nat)
    requires Legal(evs + [Say(m)]) && i < |evs| && evs[i].Say? && evs[i].m.session == m.session
    ensures evs[i].m.createdAt < m.createdAt
  {
    var all := evs + [Say(m)];
    assert InOrder(all[i], all[|evs|]);
  }

  lemma FreshId(evs: seq<Event>, ev: Event, rows: seq<Message>)
    requires Legal(evs + [ev]) && forall x :: x in rows ==> KnownId(evs, x.id)
    ensures forall x :: x in rows ==> x.id != IdOf(ev)
  {
    var all := evs + [ev];
    forall x | x in rows ensures x.id != IdOf(ev) {
      var i :| 0 <= i < |evs| && IdOf(evs[i]) == x.id;
      assert IdOf(all[i]) != IdOf(all[|evs|]);
    }
  }

  lemma RowsSnoc(evs: seq<Event>, ev: Event)
    ensures RowsAfter(evs + [ev]) == RowsStep(RowsAfter(evs), ev)
  {
    hide RowsStep;
    assert (evs + [ev])[..|evs|] == evs;
  }

  lemma StoredKeeps(m: Message)
    ensures Stored(m).session == m.session && Stored(m).createdAt == m.createdAt && Stored(m).id == m.id
  {
  }

  /** Every new row has the id of the event. */
  lemma IdsKnown(evs: seq<Event>, ev: Event, rows: seq<Message>, rows': seq<Message>)
    requires (forall x :: x in rows ==> KnownId(evs, x.id)) && forall x :: x in rows' ==> x in rows || x.id == IdOf(ev)
    ensures forall x :: x in rows' ==> KnownId(evs + [ev], x.id)
  {
    var evs' := evs + [ev];
    forall x | x in rows' ensures KnownId(evs', x.id) {
      if x in rows {
        KnownStays(evs, ev, x.id);
      } else {
        assert IdOf(evs'[|evs|]) == x.id;
      }
    }
  }

  lemma SayKeepsShapes(evs: seq<Event>, m: Message, rows: seq<Message>)
    requires Legal(evs + [Say(m)]) && forall session :: HasShape(evs, session, Ordered(rows, session))
    ensures forall session :: HasShape(evs + [Say(m)], session, Ordered(rows + [Stored(m)], session))
  {
    hide Legal, HasShape, Ordered, Stored;
    var stored := Stored(m);
    StoredKeeps(m);
    assert HasShape(evs, m.session, Ordered(rows, m.session));
    SaidLater(evs, m, rows);
    AppendNewest(rows, stored);
    forall session ensures HasShape(evs + [Say(m)], session, Ordered(rows + [stored], session)) {
      if session == m.session {
        ShapeSaid(evs, m, Ordered(rows, session));
      } else {
        AppendElsewhere(rows, stored, session);
        assert HasShape(evs, session, Ordered(rows, session));
        ShapeStays(evs, Say(m), session, Ordered(rows, session));
      }
    }
  }

  lemma SayKeeps(evs: seq<Event>, m: Message)
    requires Legal(evs + [Say(m)]) && RunInv(evs)
    ensures RunInv(evs + [Say(m)])
  {
    var rows := RowsAfter(evs);
    hide Legal, HasShape, Ordered, RowsAfter, Stored, KnownId, DistinctIds;
    RowsSnoc(evs, Say(m));
    StoredKeeps(m);
    FreshId(evs, Say(m), rows);
    AppendedIds(rows, Stored(m));
    SayKeepsShapes(evs, m, rows);
    IdsKnown(evs, Say(m), rows, rows + [Stored(m)]);
  }

  lemma CompactKeepsShapes(evs: seq<Event>, compacted: string, env: Env, rows: seq<Message>)
    requires DistinctIds(rows) && env.early == [] && forall session :: HasShape(evs, session, Ordered(rows, session))
    ensures forall session ::
              HasShape(evs + [Compact(compacted, env)], session, Ordered(CompactedRows(rows, compacted, env), session))
  {
    hide HasShape, Ordered, Effect, CompactedRows, OutcomeOf, DistinctIds;
    CompactionEffect(rows, compacted, env);
    var ev, rows' := Compact(compacted, env), CompactedRows(rows, compacted, env);
    forall session ensures HasShape(evs + [ev], session, Ordered(rows', session)) {
      assert HasShape(evs, session, Ordered(rows, session));
      if session == compacted {
        ShapeCompacted(evs, session, env, OutcomeOf(rows, session, env), Ordered(rows, session),
          Ordered(rows', session));
      } else {
        ShapeStays(evs, ev, session, Ordered(rows, session));
      }
    }
  }

  lemma NothingEarly(rows: seq<Message>, env: Env)
    requires env.early == [] && DistinctIds(rows) && forall x :: x in rows ==> x.id != env.summaryId
    ensures FreshIds(rows, env)
  {
    assert rows + [] == rows;
  }

  lemma CompactKeeps(evs: seq<Event>, compacted: string, env: Env)
    requires Legal(evs + [Compact(compacted, env)]) && RunInv(evs)
    ensures RunInv(evs + [Compact(compacted, env)])
  {
    var ev, rows := Compact(compacted, env), RowsAfter(evs);
    assert env.early == [] by {
      assert (evs + [ev])[|evs|] == ev;
    }
    hide Legal, HasShape, Ordered, RowsAfter, CompactedRows, OutcomeOf, KnownId, DistinctIds;
    RowsSnoc(evs, ev);
    FreshId(evs, ev, rows);
    NothingEarly(rows, env);
    CompactedIds(rows, compacted, env);
    CompactKeepsShapes(evs, compacted, env, rows);
    IdsKnown(evs, ev, rows, CompactedRows(rows, compacted, env));
  }

  lemma {:induction false} RunKeeps(evs: seq<Event>)
    requires Legal(evs)
    ensures RunInv(evs)
  {
    if evs == [] {
      EmptyRun();
    } else {
      var front, last := evs[..|evs| - 1], evs[|evs| - 1];
      assert evs == front + [last];
      assert Legal(front);
      RunKeeps(front);
      match last
      case Say(m) => SayKeeps(front, m);
      case Compact(session, env) => CompactKeeps(front, session, env);
    }
  }

  lemma EmptyRun()
    ensures RunInv([])
  {
    forall session ensures HasShape([], session, Ordered([], session)) {
      assert SummaryThenRest([], session, 0, []);
    }
  }

  lemma GeneratedIsNotSaid(evs: seq<Event>, session: string, m: Message)
    requires Legal(evs) && m in Said(evs, session)
    ensures !Generated(evs, session, m)
  {
    SaidIsFromRun(evs, session, m);
    var i :| 0 <= i < |evs| && evs[i].Say? && evs[i].m.session == session && Stored(evs[i].m) == m;
    forall j | 0 <= j < |evs| ensures !IsSummaryOf(evs[j], session, m) {
      assert j < i || i < j ==> IdOf(evs[j]) != IdOf(evs[i]);
    }
  }

  /**
   * Over every run of turns and compactions, whatever fails: a session holds what was said in it from
   * some message on, in order and complete, at least the last ten, and in front of that at most one
   * generated summary, which is there only if something was dropped.
   */
  lemma SessionHoldsSummaryAndTail(evs: seq<Event>, session: string) returns (k: nat)
    requires Legal(evs)
    ensures var s, said := Ordered(RowsAfter(evs), session), Said(evs, session);
            && SummaryThenRest(evs, session, k, s)
            && (forall i :: 0 < i < |s| ==> !Generated(evs, session, s[i]))
            && (s != [] && Generated(evs, session, s[0]) ==> k > 0)
  {
    RunKeeps(evs);
    var s, said := Ordered(RowsAfter(evs), session), Said(evs, session);
    assert HasShape(evs, session, s);
    hide Ordered, RowsAfter, Said, Generated, Legal, RunInv;
    k :| SummaryThenRest(evs, session, k, s);
    forall x | x in said ensures !Generated(evs, session, x) {
      GeneratedIsNotSaid(evs, session, x);
    }
    forall i | 0 < i < |s| ensures s[i] in said {
      if s == said[k..] {
        assert s[i] == said[k + i];
      } else {
        assert s[i] == s[1..][i - 1] == said[k + i - 1];
      }
    }
    if s != [] && s == said[k..] {
      assert s[0] == said[k];
    }
  }

  // ---------------------------------------------------------------- two runs

  /** A name of its own for every number. */
  function Name(i: nat): string {
    seq(i, _ => 'x')
  }

  /** Message i of a session that was compacted before: the first one is the summary of that time. */
  function Row(i: nat): Message {
    Message(Name(i), "s", Assistant, TypeText, Content(if i == 1 then "[Session Summary]\nold" else "", None, None), i)
  }

  function Rows(n: nat): (r: seq<Message>)
    ensures |r| == n && forall i :: 0 <= i < n ==> r[i] == Row(i + 1)
  {
    seq(n, i requires 0 <= i < n => Row(i + 1))
  }

  lemma NamesDiffer(i: nat, j: nat)
    ensures Name(i) == Name(j) ==> i == j
  {
    assert |Name(i)| == i && |Name(j)| == j;
  }

  lemma {:induction false} RowsAreOrdered(n: nat)
    ensures DistinctIds(Rows(n)) && Ordered(Rows(n), "s") == Rows(n)
    ensures forall x :: x in Rows(n) ==> x.id != ""
  {
    hide Name, Ordered;
    forall i, j | 0 <= i < j < n ensures Rows(n)[i].id != Rows(n)[j].id {
      NamesDiffer(i + 1, j + 1);
    }
    forall i | 0 <= i < n ensures Rows(n)[i].id != "" {
      NamesDiffer(i + 1, 0);
      assert Name(0) == "" by { assert |Name(0)| == 0 by { NameLength(0); } }
    }
    if n == 0 {
      NothingOrdered();
    } else {
      RowsAreOrdered(n - 1);
      assert Rows(n) == Rows(n - 1) + [Row(n)];
      AppendNewest(Rows(n - 1), Row(n));
    }
  }

  lemma NameLength(i: nat)
    ensures |Name(i)| == i
  {
  }

  lemma NothingOrdered()
    ensures Ordered([], "s") == []
  {
  }

  predicate IsSummary(m: Message) {
    |m.content.raw| >= 18 && m.content.raw[..18] == "[Session Summary]\n"
  }

  lemma BothAreSummaries(m: Message)
    ensures IsSummary(Row(1)) && IsSummary(Summary("s", "", "new", m)) && Row(1).id != Summary("s", "", "new", m).id
  {
    var raw := "[Session Summary]\n" + "new";
    assert raw[..18] == "[Session Summary]\n";
    var earlier := "[Session Summary]\nold";
    assert earlier[..18] == "[Session Summary]\n";
    assert |Row(1).id| == 1;
  }

  lemma OneMoreRow(n: nat)
    ensures Rows(n) + [Row(n + 1)] == Rows(n + 1)
  {
    hide Row;
  }

  /** A run that ends with two summaries: 41 messages are counted, another one arrives before they are loaded. */
  lemma TwoSummaries() returns (env: Env, a: Message, b: Message)
    ensures env == Env(true, true, Some("new"), true, true, "", [Row(42)])
    ensures var after := Ordered(CompactedRows(Rows(41), "s", env), "s");
            a in after && b in after && a.id != b.id && IsSummary(a) && IsSummary(b)
  {
    env := Env(true, true, Some("new"), true, true, "", [Row(42)]);
    var rows, all := Rows(41), Rows(42);
    DisturbedRun(rows, all, env);
    hide *;
    a, b := Row(1), Summary("s", "", "new", all[32]);
    IsTheSummary(env, all, b);
    SurvivorsOf(rows, "s", env, all, 41, b, a);
    SurvivorsOf(rows, "s", env, all, 41, b, b);
    BothAreSummaries(all[32]);
    FirstStays(all, a, b);
  }

  lemma DisturbedRun(rows: seq<Message>, all: seq<Message>, env: Env)
    requires rows == Rows(41) && all == Rows(42) && env == Env(true, true, Some("new"), true, true, "", [Row(42)])
    ensures FreshIds(rows, env) && OutcomeOf(rows, "s", env) == Compacted
    ensures rows + env.early == all && Ordered(rows, "s") == rows && Ordered(all, "s") == all
    ensures |rows| == 41 && |all| == 42 && all[0] == Row(1)
  {
    RowsAreOrdered(41);
    RowsAreOrdered(42);
    OneMoreRow(41);
    hide Ordered, Row, DistinctIds;
  }

  lemma IsTheSummary(env: Env, all: seq<Message>, b: Message)
    requires |all| == 42 && env == Env(true, true, Some("new"), true, true, "", [Row(42)])
    requires b == Summary("s", "", "new", all[32])
    ensures IsNewSummary(b, "s", env, all) && |all| > COMPACTION_KEEP_RECENT
  {
  }

  lemma FirstStays(all: seq<Message>, a: Message, b: Message)
    requires |all| == 42 && all[0] == a
    ensures Survives(all, 1, b, a) && Survives(all, 1, b, b)
  {
    assert all[..1][0] == a;
  }

  /** A run that loses what it was to summarise: of 41 messages ten are left, and no summary. */
  lemma SummaryIsLost() returns (env: Env)
    ensures env == Env(true, true, Some("new"), true, false, "", [])
    ensures |Ordered(Rows(41), "s")| == 41 && |Ordered(CompactedRows(Rows(41), "s", env), "s")| == 10
  {
    env := Env(true, true, Some("new"), true, false, "", []);
    RowsAreOrdered(41);
    hide Ordered, Name, Rows;
    CompactionEffect(Rows(41), "s", env);
    assert OutcomeOf(Rows(41), "s", env) == SummaryLost;
    hide CompactedRows;
  }
}
