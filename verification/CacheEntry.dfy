/** What the file cache keeps of a file, and which entry goes first. */
module CacheEntry {
  datatype Entry<D> = Entry(data: D, modTime: nat, lastAccess: int)

  type Entries<D> = map<string, Entry<D>>

  /** The entry was accessed no later than any other. */
  ghost predicate Oldest<D>(entries: Entries<D>, victim: string) {
    victim in entries && forall p :: p in entries ==> entries[victim].lastAccess <= entries[p].lastAccess
  }

  /** The entries that have not expired. */
  function Live<D>(entries: Entries<D>, now: int, ttl: int): Entries<D> {
    map p | p in entries && now - entries[p].lastAccess <= ttl :: entries[p]
  }

  lemma RemoveSize<D>(m: Entries<D>, p: string)
    ensures |m - {p}| == |m| - (if p in m then 1 else 0)
  {
    assert (m - {p}).Keys == m.Keys - {p};
    assert |(m - {p}).Keys| == |m - {p}|;
  }

  lemma UpdateSize<D>(m: Entries<D>, p: string, e: Entry<D>)
    ensures |m[p := e]| == |m| + (if p in m then 0 else 1)
  {
    assert m[p := e].Keys == m.Keys + {p};
    assert |m[p := e].Keys| == |m[p := e]|;
  }

  lemma SubmapSize<D>(m: Entries<D>, m': Entries<D>)
    requires m'.Keys <= m.Keys
    ensures |m'| <= |m|
  {
    assert m.Keys == m'.Keys + (m.Keys - m'.Keys);
    assert |m'.Keys| == |m'| && |m.Keys| == |m|;
  }

  lemma EmptyOrNot<D>(m: Entries<D>)
    ensures m.Keys == {} <==> |m| == 0
    ensures m == map[] <==> |m| == 0
  {
    assert |m.Keys| == |m|;
  }

  lemma {:induction false} OldestAmong<D>(entries: Entries<D>, keys: set<string>)
    requires keys <= entries.Keys
    ensures keys == {} || exists v :: v in keys && forall p :: p in keys ==>
            entries[v].lastAccess <= entries[p].lastAccess
  {
    if k :| k in keys {
      var rest := keys - {k};
      OldestAmong(entries, rest);
      if rest != {} {
        var v :| v in rest && forall p :: p in rest ==> entries[v].lastAccess <= entries[p].lastAccess;
        var w := if entries[v].lastAccess <= entries[k].lastAccess then v else k;
        assert forall p :: p in keys ==> p in rest || p == k;
        assert w in keys && forall p :: p in keys ==> entries[w].lastAccess <= entries[p].lastAccess;
      } else {
        assert forall p :: p in keys ==> p in rest || p == k;
      }
    } else {
      assert keys == {};
    }
  }

  /** A cache that is not empty has an entry to evict. */
  lemma OldestExists<D>(entries: Entries<D>)
    ensures entries == map[] || exists v :: Oldest(entries, v)
  {
    OldestAmong(entries, entries.Keys);
    if entries != map[] {
      var v :| v in entries.Keys && forall p :: p in entries.Keys ==> entries[v].lastAccess <= entries[p].lastAccess;
      assert Oldest(entries, v);
    }
  }
}
