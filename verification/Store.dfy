/** The message table: rows in insertion order, queries ordered by creation time. */
module Store {
  import opened Llm

  predicate DistinctIds(rows: seq<Message>) {
    forall i, j :: 0 <= i < j < |rows| ==> rows[i].id != rows[j].id
  }

  predicate Ascending(s: seq<Message>) {
    forall i, j :: 0 <= i < j < |s| ==> s[i].createdAt <= s[j].createdAt
  }

  /** Insertion behind every message that is not newer. */
  function InsertByTime(s: seq<Message>, m: Message): (r: seq<Message>)
    ensures |r| == |s| + 1
    ensures forall x :: x in r <==> x in s || x == m
  {
    if s == [] || s[|s| - 1].createdAt <= m.createdAt then s + [m]
    else
      assert s == s[..|s| - 1] + [s[|s| - 1]];
      InsertByTime(s[..|s| - 1], m) + [s[|s| - 1]]
  }

  /** A session's messages, oldest first. */
  function Ordered(rows: seq<Message>, session: string): seq<Message> {
    if rows == [] then []
    else
      var front, last := rows[..|rows| - 1], rows[|rows| - 1];
      if last.session == session then InsertByTime(Ordered(front, session), last) else Ordered(front, session)
  }

  function Without(rows: seq<Message>, ids: set<string>): (r: seq<Message>)
    ensures forall x :: x in r <==> x in rows && x.id !in ids
  {
    if rows == [] then []
    else
      var front, last := rows[..|rows| - 1], rows[|rows| - 1];
      assert rows == front + [last];
      if last.id in ids then Without(front, ids) else Without(front, ids) + [last]
  }

  lemma {:induction false} OrderedHas(rows: seq<Message>, session: string, x: Message)
    ensures x in Ordered(rows, session) <==> x in rows && x.session == session
  {
    if rows != [] {
      var front, last := rows[..|rows| - 1], rows[|rows| - 1];
      assert rows == front + [last];
      OrderedHas(front, session, x);
    }
  }

  function LastOf(s: seq<Message>, limit: nat): seq<Message> {
    if limit < |s| then s[|s| - limit..] else s
  }

  // ---------------------------------------------------------------- order

  lemma {:induction false} InsertAscends(s: seq<Message>, m: Message)
    requires Ascending(s)
    ensures Ascending(InsertByTime(s, m))
  {
    if s != [] && s[|s| - 1].createdAt > m.createdAt {
      var front, last := s[..|s| - 1], s[|s| - 1];
      InsertAscends(front, m);
      var r := InsertByTime(front, m);
      forall i | 0 <= i < |r| ensures r[i].createdAt <= last.createdAt {
        assert r[i] in r;
      }
    }
  }

  lemma {:induction false} OrderedAscends(rows: seq<Message>, session: string)
    ensures Ascending(Ordered(rows, session))
  {
    if rows != [] {
      OrderedAscends(rows[..|rows| - 1], session);
      InsertAscends(Ordered(rows[..|rows| - 1], session), rows[|rows| - 1]);
    }
  }

  lemma {:induction false} InsertDistinct(s: seq<Message>, m: Message)
    requires DistinctIds(s) && forall x :: x in s ==> x.id != m.id
    ensures DistinctIds(InsertByTime(s, m))
  {
    if s != [] && s[|s| - 1].createdAt > m.createdAt {
      var front, last := s[..|s| - 1], s[|s| - 1];
      InsertDistinct(front, m);
      var r := InsertByTime(front, m);
      forall i | 0 <= i < |r| ensures r[i].id != last.id {
        assert r[i] in r;
      }
    }
  }

  lemma {:induction false} OrderedDistinct(rows: seq<Message>, session: string)
    requires DistinctIds(rows)
    ensures DistinctIds(Ordered(rows, session))
  {
    if rows != [] {
      var front, last := rows[..|rows| - 1], rows[|rows| - 1];
      OrderedDistinct(front, session);
      forall x | x in Ordered(front, session) ensures x.id != last.id {
        OrderedHas(front, session, x);
      }
      InsertDistinct(Ordered(front, session), last);
    }
  }

  /** A message that is not older than any other of the session comes last. */
  lemma AppendNewest(rows: seq<Message>, m: Message)
    requires forall x :: x in Ordered(rows, m.session) ==> x.createdAt <= m.createdAt
    ensures Ordered(rows + [m], m.session) == Ordered(rows, m.session) + [m]
  {
    assert (rows + [m])[..|rows|] == rows;
    var s := Ordered(rows, m.session);
    if s != [] {
      assert s[|s| - 1] in s;
    }
  }

  lemma {:induction false} InsertOldest(s: seq<Message>, m: Message)
    requires forall x :: x in s ==> m.createdAt < x.createdAt
    ensures InsertByTime(s, m) == [m] + s
  {
    if s != [] {
      assert s[|s| - 1] in s;
      InsertOldest(s[..|s| - 1], m);
      assert s == s[..|s| - 1] + [s[|s| - 1]];
    }
  }

  /** A message that is older than every other of the session comes first. */
  lemma AppendOldest(rows: seq<Message>, m: Message)
    requires forall x :: x in Ordered(rows, m.session) ==> m.createdAt < x.createdAt
    ensures Ordered(rows + [m], m.session) == [m] + Ordered(rows, m.session)
  {
    assert (rows + [m])[..|rows|] == rows;
    InsertOldest(Ordered(rows, m.session), m);
  }

  lemma AppendElsewhere(rows: seq<Message>, m: Message, session: string)
    requires m.session != session
    ensures Ordered(rows + [m], session) == Ordered(rows, session)
  {
    assert (rows + [m])[..|rows|] == rows;
  }

  lemma WithoutSnoc(s: seq<Message>, m: Message, ids: set<string>)
    ensures Without(s + [m], ids) == if m.id in ids then Without(s, ids) else Without(s, ids) + [m]
  {
    assert (s + [m])[..|s|] == s;
  }

  lemma InsertBefore(s: seq<Message>, last: Message, m: Message)
    requires last.createdAt > m.createdAt
    ensures InsertByTime(s + [last], m) == InsertByTime(s, m) + [last]
  {
    assert (s + [last])[..|s|] == s;
  }

  lemma {:induction false} WithoutInsert(s: seq<Message>, m: Message, ids: set<string>)
    requires Ascending(s)
    ensures Without(InsertByTime(s, m), ids)
            == if m.id in ids then Without(s, ids) else InsertByTime(Without(s, ids), m)
  {
    if s == [] || s[|s| - 1].createdAt <= m.createdAt {
      WithoutSnoc(s, m, ids);
      var kept := Without(s, ids);
      if kept != [] {
        assert kept[|kept| - 1] in s;
      }
    } else {
      var front, last := s[..|s| - 1], s[|s| - 1];
      assert Ascending(front) && s == front + [last];
      hide *;
      WithoutInsert(front, m, ids);
      InsertBefore(front, last, m);
      InsertBefore(Without(front, ids), last, m);
      WithoutSnoc(InsertByTime(front, m), last, ids);
      WithoutSnoc(front, last, ids);
    }
  }

  /** Deleting rows deletes them from the ordered view and leaves the rest in order. */
  lemma {:induction false} OrderedWithout(rows: seq<Message>, ids: set<string>, session: string)
    ensures Ordered(Without(rows, ids), session) == Without(Ordered(rows, session), ids)
  {
    if rows != [] {
      var front, last := rows[..|rows| - 1], rows[|rows| - 1];
      OrderedWithout(front, ids, session);
      if last.session == session {
        OrderedAscends(front, session);
        WithoutInsert(Ordered(front, session), last, ids);
      }
      if last.id !in ids {
        var kept := Without(front, ids);
        assert (kept + [last])[..|kept|] == kept;
      }
    }
  }

  lemma InsertLast(s: seq<Message>, last: Message, m: Message)
    ensures last.createdAt <= m.createdAt ==> InsertByTime(s + [last], m) == s + [last] + [m]
    ensures last.createdAt > m.createdAt ==> InsertByTime(s + [last], m) == InsertByTime(s, m) + [last]
  {
    assert (s + [last])[..|s|] == s;
  }

  /** Two messages of different times can be inserted in either order. */
  lemma {:induction false} InsertCommutes(s: seq<Message>, a: Message, b: Message)
    requires a.createdAt < b.createdAt
    ensures InsertByTime(InsertByTime(s, a), b) == InsertByTime(InsertByTime(s, b), a)
  {
    if s == [] {
      assert [] + [a] == [a] && [] + [b] == [b];
      InsertLast([], a, b);
      InsertLast([], b, a);
      assert InsertByTime([], a) == [a] && InsertByTime([], b) == [b];
    } else {
      var front, last := s[..|s| - 1], s[|s| - 1];
      assert s == front + [last];
      InsertCommutes(front, a, b);
      hide InsertByTime;
      InsertLast(front, last, a);
      InsertLast(front, last, b);
      InsertLast(s, a, b);
      InsertLast(s, b, a);
      InsertLast(InsertByTime(front, a), last, b);
      InsertLast(InsertByTime(front, b), last, a);
    }
  }

  lemma OrderedAppend(rows: seq<Message>, m: Message, session: string)
    ensures Ordered(rows + [m], session)
            == if m.session == session then InsertByTime(Ordered(rows, session), m) else Ordered(rows, session)
  {
    assert (rows + [m])[..|rows|] == rows;
  }

  /** A row may be inserted before or after others whose times differ from its own; the ordered view is the same. */
  lemma {:induction false} RowsCommute(rows: seq<Message>, others: seq<Message>, m: Message, session: string)
    requires forall i :: 0 <= i < |others| && others[i].session == m.session ==> others[i].createdAt != m.createdAt
    ensures Ordered(rows + others + [m], session) == Ordered(rows + [m] + others, session)
  {
    if others == [] {
      assert rows + others == rows && rows + [m] + others == rows + [m];
    } else {
      var front, x := others[..|others| - 1], others[|others| - 1];
      RowsCommute(rows, front, m, session);
      assert rows + others + [m] == (rows + front + [x]) + [m];
      assert rows + [m] + others == (rows + [m] + front) + [x];
      hide Ordered, InsertByTime;
      OrderedAppend(rows + front + [x], m, session);
      OrderedAppend(rows + front, x, session);
      OrderedAppend(rows + front, m, session);
      OrderedAppend(rows + [m] + front, x, session);
      if x.session == session == m.session {
        if x.createdAt < m.createdAt {
          InsertCommutes(Ordered(rows + front, session), x, m);
        } else {
          InsertCommutes(Ordered(rows + front, session), m, x);
        }
      }
    }
  }

  lemma {:induction false} WithoutAppend(rows: seq<Message>, more: seq<Message>, ids: set<string>)
    requires forall i :: 0 <= i < |more| ==> more[i].id !in ids
    ensures Without(rows + more, ids) == Without(rows, ids) + more
  {
    if more == [] {
      assert rows + more == rows;
    } else {
      var front, x := more[..|more| - 1], more[|more| - 1];
      assert rows + more == (rows + front) + [x];
      hide Without;
      WithoutAppend(rows, front, ids);
      WithoutSnoc(rows + front, x, ids);
    }
  }

  function IdsOf(s: seq<Message>): (r: set<string>)
    ensures forall i :: 0 <= i < |s| ==> s[i].id in r
    ensures forall id :: id in r ==> exists i :: 0 <= i < |s| && s[i].id == id
  {
    if s == [] then {} else IdsOf(s[..|s| - 1]) + {s[|s| - 1].id}
  }

  lemma WithoutSplit(s: seq<Message>, k: nat, ids: set<string>)
    requires k <= |s|
    requires forall i :: 0 <= i < k ==> s[i].id in ids
    requires forall i :: k <= i < |s| ==> s[i].id !in ids
    ensures Without(s, ids) == s[k..]
  {
    hide Without;
    WithoutMiddle(s, 0, k, ids);
    assert s[..0] + s[k..] == s[k..];
  }

  lemma NothingWithout(ids: set<string>)
    ensures Without([], ids) == []
  {
  }

  lemma {:induction false} WithoutMiddle(s: seq<Message>, e: nat, k: nat, ids: set<string>)
    requires e <= k <= |s|
    requires forall i :: 0 <= i < |s| ==> (s[i].id in ids <==> e <= i < k)
    ensures Without(s, ids) == s[..e] + s[k..]
  {
    hide Without;
    if s == [] {
      NothingWithout(ids);
    } else {
      var front, last := s[..|s| - 1], s[|s| - 1];
      var e', k' := if e == |s| then e - 1 else e, if k == |s| then k - 1 else k;
      assert s == front + [last];
      WithoutSnoc(front, last, ids);
      forall i | 0 <= i < |front| ensures front[i].id in ids <==> e' <= i < k' {
        assert front[i] == s[i];
      }
      WithoutMiddle(front, e', k', ids);
      assert last.id in ids <==> e <= |s| - 1 < k;
      MiddleSnoc(front, last, e, k);
    }
  }

  lemma MiddleSnoc(front: seq<Message>, last: Message, e: nat, k: nat)
    requires e <= k <= |front| + 1
    ensures var s, n := front + [last], |front|;
            var e', k' := if e == n + 1 then n else e, if k == n + 1 then n else k;
            s[..e] + s[k..] == if e <= n < k then front[..e'] + front[k'..] else front[..e'] + front[k'..] + [last]
  {
    var s, n := front + [last], |front|;
    if k <= n {
      assert s[..e] == front[..e] && s[k..] == front[k..] + [last];
    } else if e <= n {
      assert s[..e] == front[..e] && s[k..] == [] && front[n..] == [];
    } else {
      assert s[..e] == front + [last] && s[k..] == [] && front[..n] == front && front[n..] == [];
    }
  }

  /** Deleting some consecutive messages leaves those before and those behind. */
  lemma WithoutInfix(s: seq<Message>, e: nat, k: nat)
    requires DistinctIds(s) && e <= k <= |s|
    ensures Without(s, IdsOf(s[e..k])) == s[..e] + s[k..]
  {
    hide Without;
    var part := s[e..k];
    var ids := IdsOf(part);
    hide IdsOf;
    forall i | 0 <= i < |s| ensures s[i].id in ids <==> e <= i < k {
      if e <= i < k {
        assert s[i] == part[i - e];
      } else {
        forall j | 0 <= j < |part| ensures part[j].id != s[i].id {
          assert part[j] == s[e + j];
        }
      }
    }
    WithoutMiddle(s, e, k, ids);
  }

  lemma DistinctRows(rows: seq<Message>, a: Message, b: Message)
    requires DistinctIds(rows) && a in rows && b in rows && a != b
    ensures a.id != b.id
  {
    var i :| 0 <= i < |rows| && rows[i] == a;
    var j :| 0 <= j < |rows| && rows[j] == b;
    assert i < j || j < i;
  }

  /** Deleting messages of one session leaves every other session as it was. */
  lemma WithoutElsewhere(rows: seq<Message>, gone: seq<Message>, session: string, other: string)
    requires DistinctIds(rows) && session != other
    requires forall i :: 0 <= i < |gone| ==> gone[i] in Ordered(rows, session)
    ensures Ordered(Without(rows, IdsOf(gone)), other) == Ordered(rows, other)
  {
    OrderedWithout(rows, IdsOf(gone), other);
    var s := Ordered(rows, other);
    hide Without, Ordered;
    forall i | 0 <= i < |s| ensures s[i].id !in IdsOf(gone) {
      OrderedHas(rows, other, s[i]);
      forall j | 0 <= j < |gone| ensures gone[j].id != s[i].id {
        OrderedHas(rows, session, gone[j]);
        DistinctRows(rows, gone[j], s[i]);
      }
    }
    WithoutSplit(s, 0, IdsOf(gone));
  }

  // ---------------------------------------------------------------- the store

  class Store {
    var rows: seq<Message>

    constructor ()
      ensures rows == []
    {
      rows := [];
    }

    /** Inserts a row; the database refuses a repeated id, and may fail for reasons of its own. */
    method AppendMessage(m: Message, databaseOk: bool) returns (ok: bool)
      requires DistinctIds(rows)
      modifies this
      ensures DistinctIds(rows)
      ensures ok <==> databaseOk && forall x :: x in old(rows) ==> x.id != m.id
      ensures rows == if ok then old(rows) + [Stored(m)] else old(rows)
    {
      ok := databaseOk && forall x :: x in rows ==> x.id != m.id;
      if ok {
        rows := rows + [Stored(m)];
      }
    }

    /** How many messages the session has, or nothing when the query fails. */
    method MessageCount(session: string, databaseOk: bool) returns (n: Option<nat>)
      ensures n == if databaseOk then Some(|Ordered(rows, session)|) else None
    {
      if !databaseOk {
        return None;
      }
      var count: nat := 0;
      for i := 0 to |rows|
        invariant count == |Ordered(rows[..i], session)|
      {
        OrderedSnoc(rows, i, session);
        if rows[i].session == session {
          count := count + 1;
        }
      }
      assert rows[..|rows|] == rows;
      n := Some(count);
    }

    /** The newest `limit` messages, oldest first: the query returns them newest first. */
    method RecentMessages(session: string, limit: nat, databaseOk: bool) returns (msgs: Option<seq<Message>>)
      ensures msgs == if databaseOk then Some(LastOf(Ordered(rows, session), limit)) else None
    {
      if !databaseOk {
        return None;
      }
      var all := Ordered(rows, session);
      var n := if limit < |all| then limit else |all|;
      var a := new Message[n](i requires 0 <= i < n => all[|all| - 1 - i]);
      ReverseInPlace(a);
      assert a[..] == LastOf(all, limit);
      msgs := Some(a[..]);
    }

    /** Deletes the given messages in one transaction, which changes nothing when it fails. */
    method DeleteMessages(ids: set<string>, databaseOk: bool) returns (ok: bool)
      requires DistinctIds(rows)
      modifies this
      ensures DistinctIds(rows) && ok == (databaseOk || ids == {})
      ensures rows == if ok then Without(old(rows), ids) else old(rows)
    {
      WithoutDistinct(rows, ids);
      ok := databaseOk || ids == {};
      if ids == {} {
        WithoutSplit(rows, 0, ids);
        return;
      }
      if databaseOk {
        rows := Without(rows, ids);
      }
    }
  }

  /** One row more adds one message to its own session and none to the others. */
  lemma OrderedSnoc(rows: seq<Message>, i: nat, session: string)
    requires i < |rows|
    ensures |Ordered(rows[..i + 1], session)|
            == |Ordered(rows[..i], session)| + if rows[i].session == session then 1 else 0
  {
    assert rows[..i + 1][..i] == rows[..i];
  }

  function Stored(m: Message): Message {
    if m.contentType == TypeOther("") then m.(contentType := TypeText) else m
  }

  lemma {:induction false} WithoutDistinct(s: seq<Message>, ids: set<string>)
    requires DistinctIds(s)
    ensures DistinctIds(Without(s, ids))
  {
    if s != [] {
      var front, last := s[..|s| - 1], s[|s| - 1];
      WithoutDistinct(front, ids);
      var kept := Without(front, ids);
      forall i | 0 <= i < |kept| ensures kept[i].id != last.id {
        assert kept[i] in kept && kept[i] in front;
      }
    }
  }

  method ReverseInPlace(a: array<Message>)
    modifies a
    ensures forall k :: 0 <= k < a.Length ==> a[k] == old(a[a.Length - 1 - k])
  {
    var i, j := 0, a.Length - 1;
    while i < j
      invariant 0 <= i <= j + 1 && i + j == a.Length - 1
      invariant forall k :: 0 <= k < i ==> a[k] == old(a[a.Length - 1 - k]) && a[a.Length - 1 - k] == old(a[k])
      invariant forall k :: i <= k <= j ==> a[k] == old(a[k])
    {
      a[i], a[j] := a[j], a[i];
      i, j := i + 1, j - 1;
    }
  }
}
