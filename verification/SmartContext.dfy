/**
 * The prompt of a turn: what changed in memory since the session's last turn is handed to the context
 * builder as one workspace file, and the turn runs with the prompt and the history that fit. The snapshots
 * are kept per session and taken before anything is sent; the files the builder remembers are not per session.
 */
module SmartContext {
  import opened Llm
  import Context
  import Memory
  import Engine = Turn
  import ChatRetry
  import Recovery
  import Retry
  import ToolBatch

  type Values = map<string, string>

  datatype Limits = Limits(budget: int, outputReserve: int)

  datatype State = State(
    rows: Memory.Rows,
    hashes: map<string, Memory.Hashes>,   // per session, the snapshot of its last turn
    sent: Context.Sent,                   // what the builder last sent, for all sessions
    views: map<string, Values>)           // per session, what the model has been told so far

  /** A change of memory, or a turn: its prompt, the history it loads, and what its environment does. */
  datatype Event =
    | Change(op: Memory.Op)
    | Turn(session: string, agent: string, systemPrompt: string, listOk: bool,
           cfg: Engine.Config, history: seq<Message>, env: nat -> Engine.IterEnv)

  /** What the system prompt of a turn costs. */
  function TokensOf(ev: Event): nat
    requires ev.Turn?
  {
    Context.EstimateTokens(ev.systemPrompt)
  }

  function LastHashes(s: State, session: string): Memory.Hashes {
    if session in s.hashes then s.hashes[session] else map[]
  }

  function View(s: State, session: string): Values {
    if session in s.views then s.views[session] else map[]
  }

  function Line(part: (string, string)): string {
    "[" + part.0 + "]: " + part.1
  }

  function Text(parts: seq<(string, string)>): string {
    if parts == [] then ""
    else if |parts| == 1 then Line(parts[0])
    else Line(parts[0]) + "\n" + Text(parts[1..])
  }

  function Changed(s: State, session: string, agent: string): Values {
    Memory.Delta(Memory.Live(s.rows, agent), LastHashes(s, session))
  }

  ghost function MemoryFile(delta: Values): Context.WorkspaceFile {
    Context.WorkspaceFile("memory", Text(Memory.Listed(delta)))
  }

  /** The files the builder is given: none when nothing changed. */
  ghost function Files(delta: Values): seq<Context.WorkspaceFile> {
    if Text(Memory.Listed(delta)) == "" then [] else [MemoryFile(delta)]
  }

  /** The files that go into the prompt. */
  ghost function Prompted(s: State, ev: Event, lim: Limits): seq<Context.WorkspaceFile>
    requires ev.Turn?
  {
    if ev.listOk
    then Context.Included(Files(Changed(s, ev.session, ev.agent)), s.sent, TokensOf(ev), lim.budget)
    else []
  }

  /** The prompt that goes with every request of the turn. */
  ghost function PromptOf(s: State, ev: Event, lim: Limits): string
    requires ev.Turn?
  {
    Context.Prompt(ev.systemPrompt, Prompted(s, ev, lim))
  }

  /** The turn's environment, with the history budget that prompt and files leave for its first request. */
  function EnvOf(ev: Event, files: seq<Context.WorkspaceFile>, lim: Limits): nat -> Engine.IterEnv
    requires ev.Turn?
  {
    var remaining := lim.budget - (TokensOf(ev) + Context.WorkspaceTokens(files)) - lim.outputReserve;
    (n: nat) => if n == 0 then ev.env(0).(remaining := Some(remaining)) else ev.env(n)
  }

  /** Some request of the turn is accepted; all of them carry the same prompt. */
  ghost predicate Heard(s: State, ev: Event, lim: Limits)
    requires ev.Turn?
  {
    Engine.Final(ev.cfg, ev.history, EnvOf(ev, Prompted(s, ev, lim), lim)).replies > 0
  }

  ghost function AfterTurn(s: State, ev: Event, lim: Limits): State
    requires ev.Turn?
  {
    if !ev.listOk then s
    else
      var delta, files := Changed(s, ev.session, ev.agent), Prompted(s, ev, lim);
      State(s.rows, s.hashes[ev.session := Memory.HashesOf(Memory.Live(s.rows, ev.agent))],
            Context.RememberAll(s.sent, files),
            if files == [] || !Heard(s, ev, lim) then s.views
            else s.views[ev.session := View(s, ev.session) + delta])
  }

  ghost function After(s: State, ev: Event, immutable: set<string>, lim: Limits): State {
    if ev.Change? then s.(rows := Memory.RowsAfter(s.rows, ev.op, immutable)) else AfterTurn(s, ev, lim)
  }

  ghost function Run(s: State, evs: seq<Event>, immutable: set<string>, lim: Limits): State {
    if evs == [] then s else After(Run(s, evs[..|evs| - 1], immutable, lim), evs[|evs| - 1], immutable, lim)
  }

  /** Something changed, but the builder takes it for what it last sent to whichever session. */
  ghost predicate Skips(s: State, ev: Event, lim: Limits) {
    && ev.Turn? && ev.listOk && Changed(s, ev.session, ev.agent) != map[]
    && Context.Skipped(s.sent, MemoryFile(Changed(s, ev.session, ev.agent)), TokensOf(ev), lim.budget)
  }

  /** Something changed, but the builder skips it, or no request of the turn is accepted. */
  ghost predicate Lost(s: State, ev: Event, lim: Limits) {
    && ev.Turn? && ev.listOk && Changed(s, ev.session, ev.agent) != map[]
    && (Skips(s, ev, lim) || !Heard(s, ev, lim))
  }

  /** A turn loses a change exactly if the builder skips it, nothing fits beside it, or every call fails. */
  lemma LostExactlyWhen(s: State, ev: Event, lim: Limits)
    requires ev.Turn? && ev.listOk && Changed(s, ev.session, ev.agent) != map[]
    ensures Lost(s, ev, lim) <==>
            || Skips(s, ev, lim)
            || Engine.Silent(ev.history, EnvOf(ev, Prompted(s, ev, lim), lim), 0, ev.cfg.maxToolIter)
  {
    hide Engine.Final, Engine.Silent, EnvOf, Prompted, Skips, Changed;
    Engine.UnheardExactlyWhen(ev.cfg, ev.history, EnvOf(ev, Prompted(s, ev, lim), lim));
  }

  lemma ListedEmpty(m: Values)
    ensures Text(Memory.Listed(m)) == "" <==> m == map[]
  {
    Memory.ListedIsMap(m);
  }

  lemma FilePrompted(s: State, ev: Event, lim: Limits)
    requires ev.Turn? && ev.listOk
    ensures var delta := Changed(s, ev.session, ev.agent);
            Prompted(s, ev, lim) == if delta == map[] || Skips(s, ev, lim) then [] else [MemoryFile(delta)]
  {
    var delta := Changed(s, ev.session, ev.agent);
    ListedEmpty(delta);
    OneFile(s.sent, MemoryFile(delta), TokensOf(ev), lim.budget);
    Context.NoFiles(s.sent, TokensOf(ev), lim.budget);
    hide Changed, Memory.Listed, Text, Context.Included, Context.Skipped, MemoryFile;
  }

  lemma OneFile(sent: Context.Sent, file: Context.WorkspaceFile, used: nat, budget: int)
    ensures Context.Included([file], sent, used, budget)
            == if Context.Skipped(sent, file, used, budget) then [] else [file]
  {
    assert [file][1..] == [];
    Context.NoFiles(Context.Remember(sent, file), used + Context.EstimateTokens(file.content), budget);
    Context.NoFiles(sent, used, budget);
    hide Context.Remember, Context.Skipped;
  }

  /** The line stands in the text, between line breaks or at its ends. */
  ghost predicate HasLine(text: string, line: string) {
    exists a, b :: StandsBetween(text, a, line, b)
  }

  predicate StandsBetween(text: string, a: string, line: string, b: string) {
    text == a + line + b && (a == "" || a[|a| - 1] == '\n') && (b == "" || b[0] == '\n')
  }

  lemma {:induction false} ListedLines(parts: seq<(string, string)>, i: nat)
    requires i < |parts|
    ensures HasLine(Text(parts), "[" + parts[i].0 + "]: " + parts[i].1)
  {
    if i == 0 {
      FirstLine(parts);
    } else {
      ListedLines(parts[1..], i - 1);
      LaterLine(Line(parts[0]), Text(parts[1..]), "[" + parts[i].0 + "]: " + parts[i].1);
    }
  }

  lemma FirstLine(parts: seq<(string, string)>)
    requires parts != []
    ensures HasLine(Text(parts), "[" + parts[0].0 + "]: " + parts[0].1)
  {
    var line := Line(parts[0]);
    assert line == "[" + parts[0].0 + "]: " + parts[0].1;
    hide Line;
    var rest := if |parts| == 1 then "" else "\n" + Text(parts[1..]);
    assert Text(parts) == "" + line + rest;
    assert StandsBetween(Text(parts), "", line, rest);
  }

  lemma LaterLine(first: string, text: string, line: string)
    requires HasLine(text, line)
    ensures HasLine(first + "\n" + text, line)
  {
    var a, b :| StandsBetween(text, a, line, b);
    var before := first + "\n" + a;
    assert first + "\n" + text == before + line + b;
    assert StandsBetween(first + "\n" + text, before, line, b);
  }

  /** The key is listed with its value. */
  lemma {:induction false} ListedAt(parts: seq<(string, string)>, n: string) returns (i: nat)
    requires n in Memory.Replayed(parts)
    ensures i < |parts| && parts[i].0 == n && parts[i].1 == Memory.Replayed(parts)[n]
  {
    if parts[0].0 == n {
      i := 0;
    } else {
      i := ListedAt(parts[1..], n);
      i := i + 1;
    }
  }

  /** Every value of the delta has its line in the memory file. */
  lemma DeltaLines(delta: Values, n: string)
    requires n in delta
    ensures HasLine(MemoryFile(delta).content, "[" + n + "]: " + delta[n])
  {
    Memory.ListedIsMap(delta);
    var i := ListedAt(Memory.Listed(delta), n);
    ListedLines(Memory.Listed(delta), i);
  }

  /** What stands in the only file of a prompt stands in the prompt. */
  lemma FileLines(systemPrompt: string, file: Context.WorkspaceFile, line: string)
    requires HasLine(file.content, line)
    ensures HasLine(Context.Prompt(systemPrompt, [file]), line)
  {
    Context.PromptTells(systemPrompt, [file]);
    var prompt := Context.Prompt(systemPrompt, [file]);
    hide Context.Prompt;
    var text :| Context.Sections(text, [file]) && prompt == systemPrompt + "\n\n# Workspace Context" + text;
    var rest :| Context.IsSection(text, file.key, file.content, rest) && Context.Sections(rest, [file][1..]);
    assert rest == "";
    var a, b :| StandsBetween(file.content, a, line, b);
    var head := systemPrompt + "\n\n# Workspace Context" + ("\n\n--- " + file.key + " ---\n");
    assert head[|head| - 1] == '\n';
    hide Context.Sections;
    assert prompt == (head + a) + line + b;
    assert StandsBetween(prompt, head + a, line, b);
  }

  /** Every changed value that the builder does not skip stands in the prompt of the turn, in a line of its own. */
  lemma ChangesArePrompted(s: State, ev: Event, lim: Limits, n: string)
    requires ev.Turn? && ev.listOk && n in Changed(s, ev.session, ev.agent) && !Skips(s, ev, lim)
    ensures HasLine(PromptOf(s, ev, lim), "[" + n + "]: " + Changed(s, ev.session, ev.agent)[n])
  {
    var delta := Changed(s, ev.session, ev.agent);
    FilePrompted(s, ev, lim);
    assert delta != map[];
    hide Changed, Skips, Prompted, HasLine, MemoryFile, Context.Prompt;
    DeltaLines(delta, n);
    FileLines(ev.systemPrompt, MemoryFile(delta), "[" + n + "]: " + delta[n]);
  }

  /** The session has been told every value of its snapshot. */
  ghost predicate Knows(s: State, session: string) {
    Covers(LastHashes(s, session), View(s, session))
  }

  /** The session already knows what it is to be told. */
  ghost predicate Redundant(delta: Values, view: Values) {
    forall n :: n in delta ==> n in view && view[n] == delta[n]
  }

  /** The state after a turn. */
  lemma TurnTells(s: State, ev: Event, lim: Limits)
    requires ev.Turn? && ev.listOk
    ensures var s' := AfterTurn(s, ev, lim);
            var delta := Changed(s, ev.session, ev.agent);
            && s'.rows == s.rows
            && s'.hashes == s.hashes[ev.session := Memory.HashesOf(Memory.Live(s.rows, ev.agent))]
            && s'.sent == (if delta == map[] || Skips(s, ev, lim) then s.sent
                           else Context.Remember(s.sent, MemoryFile(delta)))
            && s'.views == (if delta == map[] || Lost(s, ev, lim) then s.views
                            else s.views[ev.session := View(s, ev.session) + delta])
  {
    FilePrompted(s, ev, lim);
    var file := MemoryFile(Changed(s, ev.session, ev.agent));
    assert Context.RememberAll(s.sent, [file]) == Context.Remember(s.sent, file) by {
      assert [file][..0] == [];
    }
    hide Skips, Heard, Changed, Memory.HashesOf, Memory.Live, Prompted, Context.Remember, MemoryFile;
  }

  /** The values are told under the hashes of the snapshot. */
  ghost predicate Covers(hashes: Memory.Hashes, view: Values) {
    forall n :: n in hashes ==> n in view && hashes[n] == Memory.Hash(view[n])
  }

  lemma CoversAfterTelling(live: Values, last: Memory.Hashes, view: Values)
    requires Covers(last, view)
    ensures Covers(Memory.HashesOf(live), view + Memory.Delta(live, last))
    ensures Covers(Memory.HashesOf(live), view) <==> Redundant(Memory.Delta(live, last), view)
  {
    var delta, hashes := Memory.Delta(live, last), Memory.HashesOf(live);
    forall n | n in live && n !in delta ensures n in view && view[n] == live[n] {
      assert Memory.Unchanged(last, n, live[n]);
    }
    if Covers(hashes, view) {
      forall n | n in delta ensures n in view && view[n] == delta[n] {
        assert n in hashes;
      }
    }
  }

  /**
   * A session that knew its snapshot knows it after its next turn exactly when what changed was not lost, or
   * was already known to it.
   */
  lemma ToldExactlyWhen(s: State, ev: Event, lim: Limits)
    requires ev.Turn? && ev.listOk && Knows(s, ev.session)
    ensures Knows(AfterTurn(s, ev, lim), ev.session) <==>
            !Lost(s, ev, lim) || Redundant(Changed(s, ev.session, ev.agent), View(s, ev.session))
  {
    TurnView(s, ev, lim);
    TurnSnapshot(s, ev, lim);
    CoversAfterTelling(Memory.Live(s.rows, ev.agent), LastHashes(s, ev.session), View(s, ev.session));
    hide *;
    KnowsIsCovers(s, ev.session);
    KnowsIsCovers(AfterTurn(s, ev, lim), ev.session);
    ChangedIsDelta(s, ev.session, ev.agent);
  }

  lemma KnowsIsCovers(s: State, session: string)
    ensures Knows(s, session) <==> Covers(LastHashes(s, session), View(s, session))
  {
  }

  lemma ChangedIsDelta(s: State, session: string, agent: string)
    ensures Changed(s, session, agent) == Memory.Delta(Memory.Live(s.rows, agent), LastHashes(s, session))
  {
  }

  /** The view of the session after its turn. */
  lemma TurnView(s: State, ev: Event, lim: Limits)
    requires ev.Turn? && ev.listOk
    ensures View(AfterTurn(s, ev, lim), ev.session)
            == if Lost(s, ev, lim) then View(s, ev.session)
               else View(s, ev.session) + Changed(s, ev.session, ev.agent)
  {
    hide Lost, Changed, Memory.Live, Memory.HashesOf, MemoryFile, Context.Remember, AfterTurn, Skips;
    TurnTells(s, ev, lim);
    var s', view, delta := AfterTurn(s, ev, lim), View(s, ev.session), Changed(s, ev.session, ev.agent);
    if Lost(s, ev, lim) {
      assert s'.views == s.views;
    } else if delta == map[] {
      assert s'.views == s.views;
      assert view + delta == view;
    } else {
      assert s'.views == s.views[ev.session := view + delta];
    }
  }

  /** The snapshot of the session after its turn. */
  lemma TurnSnapshot(s: State, ev: Event, lim: Limits)
    requires ev.Turn? && ev.listOk
    ensures LastHashes(AfterTurn(s, ev, lim), ev.session) == Memory.HashesOf(Memory.Live(s.rows, ev.agent))
  {
    TurnTells(s, ev, lim);
    hide Lost, Skips, Changed, Memory.Live, Memory.HashesOf, MemoryFile, Context.Remember, AfterTurn;
  }

  lemma OthersStay(s: State, ev: Event, immutable: set<string>, lim: Limits, session: string)
    requires ev.Turn? ==> ev.session != session || !ev.listOk
    ensures LastHashes(After(s, ev, immutable, lim), session) == LastHashes(s, session)
    ensures View(After(s, ev, immutable, lim), session) == View(s, session)
  {
    hide Heard, Prompted, Changed, Memory.HashesOf, Memory.Live;
  }

  /** No turn of the session loses what changed. */
  ghost predicate NothingLost(s: State, evs: seq<Event>, immutable: set<string>, lim: Limits, session: string) {
    forall i :: 0 <= i < |evs| && evs[i].Turn? && evs[i].session == session ==>
      !Lost(Run(s, evs[..i], immutable, lim), evs[i], lim)
  }

  lemma {:induction false} RunTells(s: State, evs: seq<Event>, immutable: set<string>, lim: Limits, session: string)
    requires Knows(s, session) && NothingLost(s, evs, immutable, lim, session)
    ensures Knows(Run(s, evs, immutable, lim), session)
  {
    hide Lost, AfterTurn;
    if evs != [] {
      var front, last := evs[..|evs| - 1], evs[|evs| - 1];
      forall i | 0 <= i < |front| && front[i].Turn? && front[i].session == session
        ensures !Lost(Run(s, front[..i], immutable, lim), front[i], lim)
      {
        assert front[..i] == evs[..i] && front[i] == evs[i];
      }
      RunTells(s, front, immutable, lim, session);
      var before := Run(s, front, immutable, lim);
      if last.Turn? && last.session == session && last.listOk {
        ToldExactlyWhen(before, last, lim);
      } else {
        OthersStay(before, last, immutable, lim, session);
      }
    }
  }

  /**
   * Over every run of memory changes and turns of any sessions: if no turn of a session loses what changed,
   * then after each of its turns the model has been told every live value in that session. The value stands in
   * the prompt of a turn of the session with an accepted request, and no later one tells another.
   */
  lemma SessionIsInformed(rows: Memory.Rows, sent: Context.Sent, evs: seq<Event>, last: Event,
                          immutable: set<string>, lim: Limits)
    requires last.Turn? && last.listOk
    requires NothingLost(State(rows, map[], sent, map[]), evs + [last], immutable, lim, last.session)
    ensures var s := Run(State(rows, map[], sent, map[]), evs + [last], immutable, lim);
            forall n :: Memory.Key(last.agent, n) in s.rows ==>
              && n in View(s, last.session) && View(s, last.session)[n] == s.rows[Memory.Key(last.agent, n)]
              && exists i: nat :: LastTold(State(rows, map[], sent, map[]), evs + [last], immutable, lim, last.session,
                                           n, s.rows[Memory.Key(last.agent, n)], i)
  {
    var start := State(rows, map[], sent, map[]);
    var all := evs + [last];
    assert all[..|evs|] == evs && all[|evs|] == last;
    RunTells(start, all, immutable, lim, last.session);
    var before, s := Run(start, evs, immutable, lim), Run(start, all, immutable, lim);
    hide NothingLost;
    TurnTells(before, last, lim);
    hide AfterTurn, Lost, Skips, Changed, MemoryFile, Context.Remember;
    assert s == AfterTurn(before, last, lim);
    hide Memory.Live;
    hide LastTold;
    forall n | Memory.Key(last.agent, n) in s.rows
      ensures n in View(s, last.session) && View(s, last.session)[n] == s.rows[Memory.Key(last.agent, n)]
      ensures exists i: nat ::
                LastTold(start, all, immutable, lim, last.session, n, s.rows[Memory.Key(last.agent, n)], i)
    {
      Memory.LiveLookup(s.rows, last.agent, n);
      assert n in LastHashes(s, last.session);
      var i := ViewIsTold(start, all, immutable, lim, last.session, n);
    }
  }

  /** Turn i of the run is one of the session, some request of it is accepted, and its prompt has the line. */
  ghost predicate Tells(
    s: State, evs: seq<Event>, immutable: set<string>, lim: Limits, session: string, line: string, i: nat)
  {
    && i < |evs| && evs[i].Turn? && evs[i].session == session
    && var before := Run(s, evs[..i], immutable, lim);
       Heard(before, evs[i], lim) && HasLine(PromptOf(before, evs[i], lim), line)
  }

  /** A turn of the session from i on that is heard does not tell the key. */
  ghost predicate NotToldSince(
    s: State, evs: seq<Event>, immutable: set<string>, lim: Limits, session: string, n: string, i: nat)
  {
    forall j :: i < j < |evs| && evs[j].Turn? && evs[j].session == session && evs[j].listOk ==>
      var before := Run(s, evs[..j], immutable, lim);
      Lost(before, evs[j], lim) || n !in Changed(before, session, evs[j].agent)
  }

  /** Turn i tells the value, and no later turn tells the key anything. */
  ghost predicate LastTold(
    s: State, evs: seq<Event>, immutable: set<string>, lim: Limits, session: string, n: string, v: string, i: nat)
  {
    Tells(s, evs, immutable, lim, session, "[" + n + "]: " + v, i)
    && NotToldSince(s, evs, immutable, lim, session, n, i)
  }

  lemma PrefixRun(evs: seq<Event>, last: Event, i: nat)
    requires i <= |evs|
    ensures (evs + [last])[..i] == evs[..i] && (evs + [last])[..|evs|] == evs
  {
  }

  /** What has been told so far stays told, if the last event does not tell the key. */
  lemma LastToldStays(s: State, evs: seq<Event>, last: Event, immutable: set<string>, lim: Limits, session: string,
                      n: string, v: string, i: nat)
    requires LastTold(s, evs, immutable, lim, session, n, v, i)
    requires last.Turn? && last.session == session && last.listOk ==>
               var before := Run(s, evs, immutable, lim);
               Lost(before, last, lim) || n !in Changed(before, session, last.agent)
    ensures LastTold(s, evs + [last], immutable, lim, session, n, v, i)
  {
    hide Run, Lost, Changed, Heard, HasLine, PromptOf;
    var all := evs + [last];
    PrefixRun(evs, last, i);
    forall j | i < j < |all| && all[j].Turn? && all[j].session == session && all[j].listOk
      ensures Lost(Run(s, all[..j], immutable, lim), all[j], lim)
              || n !in Changed(Run(s, all[..j], immutable, lim), session, all[j].agent)
    {
      PrefixRun(evs, last, j);
      if j < |evs| {
        assert all[j] == evs[j];
      }
    }
  }

  /** A turn that loses nothing tells all that changed. */
  lemma TellsNow(s: State, evs: seq<Event>, last: Event, immutable: set<string>, lim: Limits, n: string)
    requires last.Turn? && last.listOk
    requires var before := Run(s, evs, immutable, lim);
             n in Changed(before, last.session, last.agent) && !Lost(before, last, lim)
    ensures var before := Run(s, evs, immutable, lim);
            LastTold(s, evs + [last], immutable, lim, last.session, n,
                     Changed(before, last.session, last.agent)[n], |evs|)
  {
    var before := Run(s, evs, immutable, lim);
    PrefixRun(evs, last, |evs|);
    assert Changed(before, last.session, last.agent) != map[];
    assert Heard(before, last, lim) && !Skips(before, last, lim);
    hide Run, Lost, Changed, Heard, HasLine, PromptOf, Skips;
    ChangesArePrompted(before, last, lim, n);
  }

  /** Whatever is in a session's view was told it by the prompt of an accepted request, as the last of its key. */
  lemma {:induction false} ViewIsTold(
    s: State, evs: seq<Event>, immutable: set<string>, lim: Limits, session: string, n: string)
    returns (i: nat)
    requires s.views == map[] && n in View(Run(s, evs, immutable, lim), session)
    ensures LastTold(s, evs, immutable, lim, session, n, View(Run(s, evs, immutable, lim), session)[n], i)
  {
    if evs == [] {
      assert false;
    } else {
      var front, last := evs[..|evs| - 1], evs[|evs| - 1];
      assert evs == front + [last];
      var before := Run(s, front, immutable, lim);
      assert Run(s, evs, immutable, lim) == After(before, last, immutable, lim);
      hide LastTold, Lost, Changed, AfterTurn, Run;
      if last.Turn? && last.session == session && last.listOk {
        TurnView(before, last, lim);
        if !Lost(before, last, lim) && n in Changed(before, session, last.agent) {
          TellsNow(s, front, last, immutable, lim, n);
          return |front|;
        }
      } else {
        OthersStay(before, last, immutable, lim, session);
      }
      i := ViewIsTold(s, front, immutable, lim, session, n);
      LastToldStays(s, front, last, immutable, lim, session, n, View(before, session)[n], i);
    }
  }

  /** What a turn lost is not told later either: while memory stays as it is, nothing counts as changed. */
  lemma LostIsNotRepeated(s: State, ev: Event, lim: Limits)
    requires ev.Turn? && ev.listOk
    ensures Changed(AfterTurn(s, ev, lim), ev.session, ev.agent) == map[]
  {
    TurnTells(s, ev, lim);
    hide AfterTurn, Lost, Skips, Memory.Live, MemoryFile, Context.Remember;
  }

  // ---------------------------------------------------------------- two runs

  lemma OneValue(n: string, v: string)
    ensures Memory.Listed(map[n := v]) == [(n, v)]
  {
    var m := map[n := v];
    Memory.ListedFirst(m, n);
    assert m - {n} == map[];
  }

  const START := State(map[Memory.Key("a", "k") := "v"], map[], Context.Sent(map[], map[]), map[])

  /** Everything is new to a session without a snapshot. */
  lemma AllIsNew(s: State, session: string)
    requires s.rows == START.rows && session !in s.hashes
    ensures Memory.Live(s.rows, "a") == map["k" := "v"] && Changed(s, session, "a") == map["k" := "v"]
    ensures Memory.Key("a", "k") in s.rows
  {
    var live := Memory.Live(s.rows, "a");
    Memory.LiveLookup(s.rows, "a", "k");
    forall n | n in live ensures n == "k" {
      Memory.LiveLookup(s.rows, "a", n);
    }
    hide Memory.Live;
    assert live == map["k" := "v"];
  }

  lemma ValueFile()
    ensures MemoryFile(map["k" := "v"]).content == "[k]: v" && MemoryFile(map["k" := "v"]).key == "memory"
  {
    OneValue("k", "v");
  }

  lemma NothingSentYet(ev: Event, lim: Limits)
    ensures !Skips(START, ev, lim)
  {
  }

  /** A turn of agent "a" whose prompt takes one token. */
  predicate IsTurn(ev: Event, session: string) {
    ev.Turn? && ev.session == session && ev.agent == "a" && TokensOf(ev) == 1 && ev.listOk
  }

  /** A first turn that is heard tells the value, and the builder remembers the file. */
  lemma FirstSessionIsTold(ev: Event, lim: Limits) returns (s: State)
    requires IsTurn(ev, "one") && Heard(START, ev, lim)
    ensures s == AfterTurn(START, ev, lim) && s.rows == START.rows
    ensures s.hashes.Keys == {"one"} && s.views.Keys == {"one"} && s.views["one"] == map["k" := "v"]
    ensures s.sent == Context.Remember(START.sent, MemoryFile(map["k" := "v"]))
  {
    var live := map["k" := "v"];
    s := AfterTurn(START, ev, lim);
    NothingSentYet(ev, lim);
    AllIsNew(START, "one");
    TurnTells(START, ev, lim);
    assert "k" in live;
    assert !Lost(START, ev, lim);
    assert View(START, "one") == map[] && START.hashes == map[] && START.views == map[];
    hide *;
    NothingBefore(live);
  }

  lemma NothingBefore(v: Values)
    ensures map[] + v == v
  {
  }

  lemma SameFileIsSkipped(lim: Limits)
    requires lim.budget <= 5
    ensures var file := MemoryFile(map["k" := "v"]);
            Context.Skipped(Context.Remember(START.sent, file), file, 1, lim.budget)
  {
    ValueFile();
  }

  /** What a second session is to be told reads the same, and is skipped. */
  lemma SecondTurnIsSkipped(s1: State, two: Event, lim: Limits)
    requires IsTurn(two, "two") && lim.budget <= 5 && s1.rows == START.rows && s1.hashes.Keys == {"one"}
    requires s1.sent == Context.Remember(START.sent, MemoryFile(map["k" := "v"]))
    ensures Changed(s1, "two", "a") == map["k" := "v"] && Memory.Live(s1.rows, "a") == map["k" := "v"]
    ensures Lost(s1, two, lim)
  {
    SameFileIsSkipped(lim);
    AllIsNew(s1, "two");
    assert "k" in map["k" := "v"];
    hide Changed, Memory.Live, MemoryFile, Context.Remember, Context.Skipped, Heard;
  }

  const SHORT: seq<Message> := [Message("1", "a", User, TypeText, Content(Context.Text(8), None, None), 0)]

  /** A turn that has something to send and whose first model call is answered is heard. */
  lemma AnsweredIsHeard(s: State, ev: Event, lim: Limits, files: seq<Context.WorkspaceFile>, remaining: int)
    requires ev.Turn? && ev.cfg.maxToolIter > 0 && ev.env(0).call.reply.Some? && files == Prompted(s, ev, lim)
    requires remaining == lim.budget - (TokensOf(ev) + Context.WorkspaceTokens(files)) - lim.outputReserve
    requires Context.Chosen(ev.history, Some(remaining)) != []
    ensures Heard(s, ev, lim)
  {
    var env := EnvOf(ev, files, lim);
    hide Prompted, Context.Chosen, Context.WorkspaceTokens;
    assert env(0).remaining == Some(remaining) && env(0).call == ev.env(0).call;
    hide EnvOf, Engine.Final;
    Engine.FirstReplyIsHeard(ev.cfg, ev.history, env);
  }

  lemma ShortIsSent(budget: int)
    requires budget >= 2
    ensures Context.Chosen(SHORT, Some(budget)) != []
  {
    Context.ShortHistory(budget);
    hide Context.Selected;
  }

  /** A turn with a short history whose only model call is answered. */
  lemma ShortTurn(session: string) returns (ev: Event)
    ensures IsTurn(ev, session) && ev.history == SHORT && ev.cfg.maxToolIter > 0 && ev.env(0).call.reply.Some?
  {
    var reframe: Retry.Reframe := _ => None;
    var run: ToolBatch.Runs := (_, _) => ToolBatch.NotStarted;
    var call := ChatRetry.ChatRun(Some([]), 1, []);
    var e := Engine.IterEnv(None, call, true, true, false, None, true, run, reframe, false, None, true);
    ev := Turn(session, "a", "p", true, Engine.Config(1, Recovery.DefaultPolicy(0), []), SHORT, _ => e);
  }

  lemma ShortIsHeard(s: State, ev: Event, lim: Limits)
    requires ev.Turn? && TokensOf(ev) == 1 && ev.history == SHORT && ev.cfg.maxToolIter > 0
    requires ev.env(0).call.reply.Some? && lim == Limits(5, 0) && Context.WorkspaceTokens(Prompted(s, ev, lim)) <= 2
    ensures Heard(s, ev, lim)
  {
    hide *;
    var files := Prompted(s, ev, lim);
    ShortIsSent(4 - Context.WorkspaceTokens(files));
    AnsweredIsHeard(s, ev, lim, files, 4 - Context.WorkspaceTokens(files));
  }

  lemma HeardTurn(session: string) returns (ev: Event)
    ensures IsTurn(ev, session) && Heard(START, ev, Limits(5, 0))
  {
    ev := ShortTurn(session);
    assert ev.Turn? && TokensOf(ev) == 1;
    hide *;
    AtMostTwoTokens(ev, session);
    ShortIsHeard(START, ev, Limits(5, 0));
  }

  lemma AtMostTwoTokens(ev: Event, session: string)
    requires IsTurn(ev, session)
    ensures ev.Turn? && Context.WorkspaceTokens(Prompted(START, ev, Limits(5, 0))) <= 2
  {
    AllIsNew(START, ev.session);
    FilePrompted(START, ev, Limits(5, 0));
    ValueFile();
    var file := MemoryFile(map["k" := "v"]);
    hide Prompted, MemoryFile, Changed, Memory.Live, Skips;
    FileTokens(file);
  }

  lemma FileTokens(file: Context.WorkspaceFile)
    requires file.content == "[k]: v"
    ensures Context.WorkspaceTokens([file]) == 2 && Context.WorkspaceTokens([]) == 0
  {
    assert [file][1..] == [];
  }

  /**
   * A run that loses a value: two sessions of one agent whose prompts leave little room. The first one is
   * heard; what the second one is to be told reads the same, and is skipped.
   */
  lemma SecondSessionIsNotTold() returns (one: Event, two: Event, s: State)
    ensures IsTurn(one, "one") && IsTurn(two, "two") && s == Run(START, [one, two], {}, Limits(5, 0))
    ensures View(s, "one") == map["k" := "v"] && View(s, "two") == map[]
    ensures Memory.Live(s.rows, "a") == map["k" := "v"]
  {
    one := HeardTurn("one");
    two := HeardTurn("two");
    var lim := Limits(5, 0);
    var s1 := FirstSessionIsTold(one, lim);
    SecondTurnIsSkipped(s1, two, lim);
    TurnTells(s1, two, lim);
    s := AfterTurn(s1, two, lim);
    TwoTurns(one, two, s1, s, lim);
    assert s.views == s1.views;
    hide AfterTurn, MemoryFile, Context.Remember, Changed, Memory.Live, Memory.HashesOf, Run, Heard, Lost, Skips;
  }

  lemma TwoTurns(one: Event, two: Event, s1: State, s: State, lim: Limits)
    requires one.Turn? && two.Turn? && s1 == AfterTurn(START, one, lim) && s == AfterTurn(s1, two, lim)
    ensures s == Run(START, [one, two], {}, lim)
  {
    hide AfterTurn;
    var evs := [one, two];
    var front := evs[..1];
    assert front == [one] && front[..0] == [];
    assert Run(START, [], {}, lim) == START;
    assert Run(START, front, {}, lim) == s1;
  }

  const TIGHT := Limits(13, 10)

  /** The prompt, the value and the output reserve take the whole budget. */
  lemma NothingIsLeft(ev: Event)
    requires IsTurn(ev, "one")
    ensures Prompted(START, ev, TIGHT) == [MemoryFile(map["k" := "v"])]
    ensures EnvOf(ev, Prompted(START, ev, TIGHT), TIGHT)(0).remaining == Some(0)
  {
    AllIsNew(START, "one");
    NothingSentYet(ev, TIGHT);
    FilePrompted(START, ev, TIGHT);
    ValueFile();
    var file := MemoryFile(map["k" := "v"]);
    assert "k" in map["k" := "v"];
    hide Prompted, MemoryFile, Changed, Memory.Live, Skips;
    FileTokens(file);
  }

  /**
   * A run that loses a value without any skipping: the value is in the prompt, but nothing of the history fits
   * beside it, so no request goes out, whatever the environment does; and it does not count as changed again.
   */
  lemma PromptLeavesNoRoom(ev: Event) returns (s: State)
    requires IsTurn(ev, "one")
    ensures s == AfterTurn(START, ev, TIGHT) && !Skips(START, ev, TIGHT)
    ensures Engine.Final(ev.cfg, ev.history, EnvOf(ev, Prompted(START, ev, TIGHT), TIGHT)).requests == []
    ensures View(s, "one") == map[] && Changed(s, "one", "a") == map[]
  {
    s := AfterTurn(START, ev, TIGHT);
    NothingSentYet(ev, TIGHT);
    NothingIsLeft(ev);
    var env := EnvOf(ev, Prompted(START, ev, TIGHT), TIGHT);
    NoRoomNoRequest(ev.cfg, ev.history, env);
    AllIsNew(START, "one");
    TurnView(START, ev, TIGHT);
    LostIsNotRepeated(START, ev, TIGHT);
    assert "k" in Changed(START, "one", "a");
    assert Lost(START, ev, TIGHT);
    assert View(START, "one") == map[];
    hide *;
  }

  /** A turn whose first request has no room for history sends nothing. */
  lemma NoRoomNoRequest(cfg: Engine.Config, history: seq<Message>, env: nat -> Engine.IterEnv)
    requires env(0).remaining == Some(0)
    ensures Engine.Final(cfg, history, env).requests == [] && Engine.Final(cfg, history, env).replies == 0
  {
    if cfg.maxToolIter > 0 {
      assert Context.Chosen(history, env(0).remaining) == [];
      assert Engine.StateAt(cfg, history, env, 0) == Engine.Start(history);
      var s1 := Engine.StateAt(cfg, history, env, 1);
      assert s1 == Engine.Step(cfg, Engine.Start(history), env(0));
      assert s1.end == Engine.NoMessages && s1.requests == [] && s1.replies == 0;
      Engine.EndedStays(cfg, history, env, 1, cfg.maxToolIter);
      hide Engine.StateAt;
    }
  }
}
