/** The memory store, and the incremental context a session builds from it. */
module Memory {
  import opened Llm

  datatype Key = Key(agent: string, name: string)

  type Rows = map<Key, string>

  /** A content hash, taken to be injective: it stands for the value it was made from. */
  datatype Hash = Hash(value: string)

  type Hashes = map<string, Hash>

  /** One agent's keys and values. */
  function Live(rows: Rows, agent: string): map<string, string> {
    map k | k in rows && k.agent == agent :: k.name := rows[k]
  }

  lemma LiveLookup(rows: Rows, agent: string, name: string)
    ensures name in Live(rows, agent) <==> Key(agent, name) in rows
    ensures Key(agent, name) in rows ==> Live(rows, agent)[name] == rows[Key(agent, name)]
  {
    if Key(agent, name) in rows {
      assert Key(agent, name).name == name;
    }
  }

  function HashesOf(live: map<string, string>): Hashes {
    map n | n in live :: Hash(live[n])
  }

  predicate Unchanged(last: Hashes, name: string, value: string) {
    name in last && last[name] == Hash(value)
  }

  /** What a session is told: the keys whose value differs from the last snapshot. */
  function Delta(live: map<string, string>, last: Hashes): map<string, string> {
    map n | n in live && !Unchanged(last, n, live[n]) :: live[n]
  }

  // ---------------------------------------------------------------- the order of keys

  predicate Before(a: string, b: string) {
    b != "" && (a == "" || a[0] < b[0] || (a[0] == b[0] && Before(a[1..], b[1..])))
  }

  /** The first k characters are the same, and then the one key ends or has the smaller character. */
  predicate DiffersAt(a: string, b: string, k: nat) {
    k <= |a| && k < |b| && a[..k] == b[..k] && (k == |a| || a[k] < b[k])
  }

  /** The order of keys is lexicographic. */
  lemma {:induction false} BeforeIsLexicographic(a: string, b: string)
    ensures Before(a, b) <==> exists k: nat :: DiffersAt(a, b, k)
  {
    if b != "" && a != "" && a[0] == b[0] {
      BeforeIsLexicographic(a[1..], b[1..]);
      if k: nat :| DiffersAt(a[1..], b[1..], k) {
        assert a[..k + 1] == [a[0]] + a[1..][..k] && b[..k + 1] == [b[0]] + b[1..][..k];
        assert DiffersAt(a, b, k + 1);
      }
      if k: nat :| DiffersAt(a, b, k) {
        assert k > 0;
        assert a[1..][..k - 1] == a[..k][1..] && b[1..][..k - 1] == b[..k][1..];
        assert DiffersAt(a[1..], b[1..], k - 1);
      }
    } else if k: nat :| DiffersAt(a, b, k) {
      assert k == 0;
    } else {
      assert Before(a, b) ==> DiffersAt(a, b, 0);
    }
  }

  lemma {:induction false} BeforeTotal(a: string, b: string)
    ensures a == b || Before(a, b) || Before(b, a)
    ensures !(Before(a, b) && Before(b, a)) && !Before(a, a)
  {
    if a != "" && b != "" {
      assert a == [a[0]] + a[1..] && b == [b[0]] + b[1..];
      BeforeTotal(a[1..], b[1..]);
    }
    if a != "" {
      BeforeTotal(a[1..], a[1..]);
    }
  }

  lemma {:induction false} BeforeTransitive(a: string, b: string, c: string)
    requires Before(a, b) && Before(b, c)
    ensures Before(a, c)
  {
    if a != "" && a[0] == b[0] == c[0] {
      BeforeTransitive(a[1..], b[1..], c[1..]);
    }
  }

  ghost predicate IsFirst(keys: set<string>, n: string) {
    n in keys && forall m :: m in keys && m != n ==> Before(n, m)
  }

  lemma {:induction false} FirstExists(keys: set<string>)
    ensures keys == {} || exists n :: IsFirst(keys, n)
  {
    if k :| k in keys {
      var rest := keys - {k};
      FirstExists(rest);
      if rest == {} {
        assert forall m :: m in keys ==> m in rest || m == k;
        assert IsFirst(keys, k);
      } else {
        var n :| IsFirst(rest, n);
        BeforeTotal(k, n);
        if Before(k, n) {
          forall m | m in keys && m != k ensures Before(k, m) {
            if m != n {
              BeforeTransitive(k, n, m);
            }
          }
          assert IsFirst(keys, k);
        } else {
          assert IsFirst(keys, n);
        }
      }
    } else {
      assert keys == {};
    }
  }

  lemma FirstIsUnique(keys: set<string>, m: string, n: string)
    requires IsFirst(keys, m) && IsFirst(keys, n)
    ensures m == n
  {
    BeforeTotal(m, n);
  }

  ghost function First(keys: set<string>): (n: string)
    requires keys != {}
    ensures IsFirst(keys, n)
  {
    FirstExists(keys);
    var n :| IsFirst(keys, n);
    n
  }

  /** A map's keys and values in the order of the keys. */
  ghost function Listed(m: map<string, string>): seq<(string, string)>
    decreases m.Keys
  {
    if m.Keys == {} then []
    else
      var n := First(m.Keys);
      [(n, m[n])] + Listed(m - {n})
  }

  ghost predicate InOrder(parts: seq<(string, string)>) {
    forall i, j :: 0 <= i < j < |parts| ==> Before(parts[i].0, parts[j].0)
  }

  /** What a reader gets to know from the emitted parts. */
  function Replayed(parts: seq<(string, string)>): map<string, string> {
    if parts == [] then map[] else Replayed(parts[1..])[parts[0].0 := parts[0].1]
  }

  /** The listing is in order, without repetition, and tells exactly the map. */
  lemma {:induction false} ListedIsMap(m: map<string, string>)
    ensures InOrder(Listed(m)) && Replayed(Listed(m)) == m
    ensures forall i :: 0 <= i < |Listed(m)| ==> Listed(m)[i].0 in m
    decreases m.Keys
  {
    if m.Keys != {} {
      var n := First(m.Keys);
      ListedIsMap(m - {n});
      var rest := Listed(m - {n});
      assert Listed(m)[1..] == rest;
      assert (m - {n})[n := m[n]] == m;
      hide Listed;
      forall i | 0 <= i < |rest| ensures Before(n, rest[i].0) {
        assert rest[i].0 in m - {n};
      }
    } else {
      assert m == map[];
    }
  }

  lemma ListedFirst(m: map<string, string>, n: string)
    requires IsFirst(m.Keys, n)
    ensures Listed(m) == [(n, m[n])] + Listed(m - {n})
  {
    FirstIsUnique(m.Keys, First(m.Keys), n);
  }

  /** The next key in order. */
  method NextKey(rest: set<string>) returns (n: string)
    requires rest != {}
    ensures IsFirst(rest, n)
  {
    FirstExists(rest);
    n :| n in rest && forall m :: m in rest && m != n ==> Before(n, m);
  }

  // ---------------------------------------------------------------- the store

  class Store {
    var rows: Rows
    const immutable: set<string>

    constructor (immutable: set<string>)
      ensures rows == map[] && this.immutable == immutable
    {
      this.rows := map[];
      this.immutable := immutable;
    }

    /**
     * Upserts a value. An immutable key that is present is refused, but only if looking it up succeeds;
     * the lookup and the upsert may each fail.
     */
    method Set(agent: string, name: string, value: string, getOk: bool, createOk: bool) returns (ok: bool)
      modifies this
      ensures ok <==> createOk && !(name in immutable && Key(agent, name) in old(rows) && getOk)
      ensures rows == AfterSet(old(rows), immutable, agent, name, value, getOk, createOk)
      ensures ok ==> Key(agent, name) in rows && rows[Key(agent, name)] == value
      ensures !ok ==> rows == old(rows)
      ensures forall k :: k != Key(agent, name) ==> (k in rows <==> k in old(rows))
      ensures forall k :: k != Key(agent, name) && k in rows ==> rows[k] == old(rows)[k]
    {
      if name in immutable {
        var found := getOk && Key(agent, name) in rows;
        if found {
          return false;
        }
      }
      if createOk {
        rows := rows[Key(agent, name) := value];
      }
      ok := createOk;
    }

    method Delete(agent: string, name: string, deleteOk: bool) returns (ok: bool)
      modifies this
      ensures ok <==> name !in immutable && deleteOk && Key(agent, name) in old(rows)
      ensures rows == AfterDelete(old(rows), immutable, agent, name, deleteOk)
      ensures ok ==> Key(agent, name) !in rows
      ensures !ok ==> rows == old(rows)
      ensures forall k :: k != Key(agent, name) ==> (k in rows <==> k in old(rows))
      ensures forall k :: k in rows ==> rows[k] == old(rows)[k]
    {
      if name in immutable {
        return false;
      }
      if !deleteOk {
        return false;
      }
      ok := Key(agent, name) in rows;
      rows := rows - {Key(agent, name)};
    }

    /** Emits each changed key exactly once, in the order of the keys, and the snapshot of all keys. */
    method BuildContext(agent: string, last: Hashes, listOk: bool)
      returns (parts: Option<seq<(string, string)>>, current: Hashes)
      ensures parts.Some? <==> listOk
      ensures parts.Some? ==> parts.value == Listed(Delta(Live(rows, agent), last))
      ensures parts.Some? ==> InOrder(parts.value) && Replayed(parts.value) == Delta(Live(rows, agent), last)
      ensures parts.Some? ==> current == HashesOf(Live(rows, agent))
    {
      current := map[];
      if !listOk {
        return None, current;
      }
      var out;
      out, current := ListChanges(Live(rows, agent), last);
      ListedIsMap(Delta(Live(rows, agent), last));
      parts := Some(out);
    }
  }

  /** The loop of BuildContext over one agent's entries, which the database lists in the order of their keys. */
  method ListChanges(live: map<string, string>, last: Hashes) returns (parts: seq<(string, string)>, current: Hashes)
    ensures parts == Listed(Delta(live, last)) && current == HashesOf(live)
  {
    DeltaOnAll(live, last);
    hide *;
    parts, current := [], map[];
    var rest := live.Keys;
    while rest != {}
      invariant rest <= live.Keys
      invariant current == HashesOn(live, live.Keys - rest)
      invariant parts + Listed(DeltaOn(live, last, rest)) == Listed(Delta(live, last))
      decreases rest
    {
      var n := NextKey(rest);
      assert n in rest by { FirstIsIn(rest, n); }
      DeltaOnStep(live, last, rest, n);
      ghost var more := Listed(DeltaOn(live, last, rest - {n}));
      rest := rest - {n};
      current := current[n := Hash(live[n])];
      if Unchanged(last, n, live[n]) {
        assert [] + more == more;
        continue;
      }
      assert parts + ([(n, live[n])] + more) == parts + [(n, live[n])] + more;
      parts := parts + [(n, live[n])];
    }
    assert live.Keys - {} == live.Keys;
  }

  lemma FirstIsIn(keys: set<string>, n: string)
    requires IsFirst(keys, n)
    ensures n in keys
  {
  }

  /** Delta and snapshot, restricted to some of the keys. */
  function DeltaOn(live: map<string, string>, last: Hashes, keys: set<string>): map<string, string> {
    map n | n in live && n in keys && !Unchanged(last, n, live[n]) :: live[n]
  }

  function HashesOn(live: map<string, string>, keys: set<string>): Hashes {
    map n | n in live && n in keys :: Hash(live[n])
  }

  lemma DeltaOnAll(live: map<string, string>, last: Hashes)
    ensures DeltaOn(live, last, live.Keys) == Delta(live, last) && HashesOn(live, live.Keys) == HashesOf(live)
    ensures Listed(DeltaOn(live, last, {})) == [] && HashesOn(live, live.Keys - live.Keys) == map[]
  {
    assert DeltaOn(live, last, {}) == map[];
  }

  lemma DeltaOnStep(live: map<string, string>, last: Hashes, rest: set<string>, n: string)
    requires IsFirst(rest, n) && rest <= live.Keys
    ensures HashesOn(live, live.Keys - (rest - {n})) == HashesOn(live, live.Keys - rest)[n := Hash(live[n])]
    ensures Listed(DeltaOn(live, last, rest))
            == (if Unchanged(last, n, live[n]) then [] else [(n, live[n])]) + Listed(DeltaOn(live, last, rest - {n}))
  {
    hide Listed;
    var m, m' := DeltaOn(live, last, rest), DeltaOn(live, last, rest - {n});
    if Unchanged(last, n, live[n]) {
      assert m == m';
    } else {
      assert IsFirst(m.Keys, n);
      assert m - {n} == m';
      ListedFirst(m, n);
    }
  }

  function AfterSet(
    rows: Rows, immutable: set<string>, agent: string, name: string, value: string, getOk: bool, createOk: bool): Rows
  {
    if (name in immutable && getOk && Key(agent, name) in rows) || !createOk then rows
    else rows[Key(agent, name) := value]
  }

  function AfterDelete(rows: Rows, immutable: set<string>, agent: string, name: string, deleteOk: bool): Rows {
    if name in immutable || !deleteOk then rows else rows - {Key(agent, name)}
  }

  // ---------------------------------------------------------------- runs

  datatype Op =
    | SetOp(agent: string, name: string, value: string, getOk: bool, createOk: bool)
    | DeleteOp(agent: string, name: string, deleteOk: bool)
    | BuildOp(listOk: bool)

  /** The store, one session's last snapshot, and what its reader knows from all deltas so far. */
  datatype State = State(rows: Rows, last: Hashes, view: map<string, string>)

  function RowsAfter(rows: Rows, op: Op, immutable: set<string>): Rows {
    match op
    case SetOp(a, name, value, getOk, createOk) => AfterSet(rows, immutable, a, name, value, getOk, createOk)
    case DeleteOp(a, name, deleteOk) => AfterDelete(rows, immutable, a, name, deleteOk)
    case BuildOp(_) => rows
  }

  function Apply(s: State, op: Op, immutable: set<string>, agent: string): State {
    if op.BuildOp? && op.listOk then
      var live := Live(s.rows, agent);
      s.(last := HashesOf(live), view := s.view + Delta(live, s.last))
    else s.(rows := RowsAfter(s.rows, op, immutable))
  }

  function Run(s: State, ops: seq<Op>, immutable: set<string>, agent: string): State {
    if ops == [] then s else Apply(Run(s, ops[..|ops| - 1], immutable, agent), ops[|ops| - 1], immutable, agent)
  }

  /** The reader knows every value of the last snapshot. */
  ghost predicate Knows(s: State) {
    forall n :: n in s.last ==> n in s.view && s.last[n] == Hash(s.view[n])
  }

  lemma BuildInforms(s: State, immutable: set<string>, agent: string)
    requires Knows(s)
    ensures var s' := Apply(s, BuildOp(true), immutable, agent);
            && Knows(s')
            && (forall n :: n in Live(s.rows, agent) ==> n in s'.view && s'.view[n] == Live(s.rows, agent)[n])
            && (forall n :: n in Delta(Live(s.rows, agent), s.last) <==>
                  n in Live(s.rows, agent) && !(n in s.last && s.last[n] == Hash(Live(s.rows, agent)[n])))
  {
    var live := Live(s.rows, agent);
    hide Live;
    var s' := Apply(s, BuildOp(true), immutable, agent);
    forall n | n in live ensures n in s'.view && s'.view[n] == live[n] {
      if Unchanged(s.last, n, live[n]) {
        assert s.last[n] == Hash(s.view[n]);
      }
    }
  }

  lemma {:induction false} RunKnows(s: State, ops: seq<Op>, immutable: set<string>, agent: string)
    requires Knows(s)
    ensures Knows(Run(s, ops, immutable, agent))
  {
    if ops != [] {
      var before := Run(s, ops[..|ops| - 1], immutable, agent);
      RunKnows(s, ops[..|ops| - 1], immutable, agent);
      BuildInforms(before, immutable, agent);
      hide Live;
    }
  }

  /**
   * Over every run that ends with a context build, the reader who has replayed all deltas agrees with
   * the store on every live key.
   */
  lemma ReplayAgrees(ops: seq<Op>, rows: Rows, immutable: set<string>, agent: string)
    requires ops != [] && ops[|ops| - 1] == BuildOp(true)
    ensures var s := Run(State(rows, map[], map[]), ops, immutable, agent);
            forall n :: Key(agent, n) in s.rows ==> n in s.view && s.view[n] == s.rows[Key(agent, n)]
  {
    var front := ops[..|ops| - 1];
    var start := State(rows, map[], map[]);
    RunKnows(start, front, immutable, agent);
    var before := Run(start, front, immutable, agent);
    BuildInforms(before, immutable, agent);
    forall n ensures n in Live(before.rows, agent) <==> Key(agent, n) in before.rows
      ensures Key(agent, n) in before.rows ==> Live(before.rows, agent)[n] == before.rows[Key(agent, n)]
    {
      LiveLookup(before.rows, agent, n);
    }
    hide Live;
  }

  // ---------------------------------------------------------------- immutable keys

  /** A value is written to a key although looking it up failed. */
  predicate WritesBlindly(op: Op, k: Key) {
    op.SetOp? && Key(op.agent, op.name) == k && !op.getOk && op.createOk
  }

  /** An immutable key that is present changes at a whole operation exactly when another value is written blindly. */
  lemma ImmutableChangesExactlyWhen(s: State, op: Op, immutable: set<string>, agent: string, k: Key)
    requires k in s.rows && k.name in immutable
    ensures k in Apply(s, op, immutable, agent).rows
    ensures Apply(s, op, immutable, agent).rows[k] != s.rows[k] <==> WritesBlindly(op, k) && op.value != s.rows[k]
  {
    hide Live;
  }

  /** The value of the last blind write to the key, or the one it had. */
  function LastBlind(ops: seq<Op>, k: Key, value: string): string {
    if ops == [] then value
    else if WritesBlindly(ops[|ops| - 1], k) then ops[|ops| - 1].value
    else LastBlind(ops[..|ops| - 1], k, value)
  }

  /**
   * Through every sequential run an immutable key that is present stays present, and its value is that of the last
   * blind write to it, or its first one if there was none.
   */
  lemma {:induction false} ImmutableValue(s: State, ops: seq<Op>, immutable: set<string>, agent: string, k: Key)
    requires k in s.rows && k.name in immutable
    ensures k in Run(s, ops, immutable, agent).rows
    ensures Run(s, ops, immutable, agent).rows[k] == LastBlind(ops, k, s.rows[k])
  {
    hide Live;
    if ops != [] {
      ImmutableValue(s, ops[..|ops| - 1], immutable, agent, k);
    }
  }

  /**
   * An immutable key keeps its first value through every sequential run in which each lookup before a write to
   * it succeeds. For sets that run concurrently see module MemorySteps.
   */
  lemma {:induction false} ImmutableStays(s: State, ops: seq<Op>, immutable: set<string>, agent: string, k: Key)
    requires k in s.rows && k.name in immutable && forall i :: 0 <= i < |ops| ==> !WritesBlindly(ops[i], k)
    ensures k in Run(s, ops, immutable, agent).rows && Run(s, ops, immutable, agent).rows[k] == s.rows[k]
  {
    hide Live;
    if ops != [] {
      ImmutableStays(s, ops[..|ops| - 1], immutable, agent, k);
      ImmutableChangesExactlyWhen(Run(s, ops[..|ops| - 1], immutable, agent), ops[|ops| - 1], immutable, agent, k);
    }
  }

  /** A run that overwrites an immutable key: it is set, and set again while the lookup fails. */
  method OverwriteImmutable() returns (first: bool, second: bool, value: string)
    ensures first && second && value == "new"
  {
    var store := new Store({"name"});
    first := store.Set("agent", "name", "old", true, true);
    second := store.Set("agent", "name", "new", false, true);
    value := store.rows[Key("agent", "name")];
  }
}
