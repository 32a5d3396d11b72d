/** The file cache used sequentially, and the file tools on top of it: cached reads are plain reads. */
module FileCache {
  import opened Llm
  import opened Utf8
  import opened CacheEntry

  datatype File = File(content: Bytes, modTime: nat)

  /** The file system; no file has the empty path. */
  class Disk {
    var files: map<string, File>
    var clock: nat

    ghost predicate Valid()
      reads this
    {
      "" !in files && forall p :: p in files ==> files[p].modTime <= clock
    }

    constructor ()
      ensures Valid() && files == map[]
    {
      files := map[];
      clock := 0;
    }

    /** Reading the file without a cache. */
    function Read(path: string): Option<Bytes>
      reads this
    {
      if path in files then Some(files[path].content) else None
    }

    method Write(path: string, content: Bytes)
      requires Valid() && path != ""
      modifies this
      ensures Valid() && clock == old(clock) + 1
      ensures files == old(files)[path := File(content, clock)]
    {
      clock := clock + 1;
      files := files[path := File(content, clock)];
    }
  }

  type Cached = Entries<Bytes>

  /** Every entry holds what is on disk. */
  ghost predicate Coherent(entries: Cached, files: map<string, File>) {
    forall p :: p in entries ==> p in files && entries[p].data == files[p].content
  }

  /** An entry with the file's modification time holds its content. */
  ghost predicate Stamped(entries: Cached, files: map<string, File>) {
    forall p :: p in entries && p in files && entries[p].modTime == files[p].modTime ==>
      entries[p].data == files[p].content
  }

  /** The eviction before an insertion: the least recently used entry goes when the cache is full. */
  ghost predicate Evicted(before: Cached, maxEntries: int, kept: Cached) {
    if |before| >= maxEntries && before != map[]
    then exists victim :: Oldest(before, victim) && kept == before - {victim}
    else kept == before
  }

  /** What a refresh makes of one entry, given the file at its path. */
  function RefreshOne(e: Entry<Bytes>, path: string, files: map<string, File>, maxFileSize: int): Option<Entry<Bytes>> {
    if path !in files then None
    else if files[path].modTime == e.modTime then Some(e)
    else if |files[path].content| > maxFileSize then None
    else Some(Entry(files[path].content, files[path].modTime, e.lastAccess))
  }

  function Refreshed(m: Cached, files: map<string, File>, maxFileSize: int): Cached {
    map p | p in m && RefreshOne(m[p], p, files, maxFileSize).Some? :: RefreshOne(m[p], p, files, maxFileSize).value
  }

  /** A refresh leaves every surviving entry equal to disk and renews no access time. */
  lemma RefreshedIsCurrent(m: Cached, files: map<string, File>, maxFileSize: int)
    requires Stamped(m, files)
    ensures var r := Refreshed(m, files, maxFileSize);
            && Coherent(r, files) && Stamped(r, files)
            && (forall p :: p in r ==>
                  p in m && r[p] == Entry(files[p].content, files[p].modTime, m[p].lastAccess))
            && (forall p :: p in m ==>
                  (p in r <==> p in files && (files[p].modTime == m[p].modTime || |files[p].content| <= maxFileSize)))
  {
    var r := Refreshed(m, files, maxFileSize);
    forall p | p in r ensures p in files && r[p] == Entry(files[p].content, files[p].modTime, m[p].lastAccess) {
      assert r[p] == RefreshOne(m[p], p, files, maxFileSize).value;
    }
  }

  /** What a refresh leaves: entries accessed within the time to live, of files that are there and can be cached. */
  ghost predicate Survives(m: Cached, p: string, now: int, ttl: int, files: map<string, File>, maxFileSize: int) {
    && p in m && now - m[p].lastAccess <= ttl && p in files
    && (files[p].modTime == m[p].modTime || |files[p].content| <= maxFileSize)
  }

  lemma RefreshKeepsExactly(m: Cached, now: int, ttl: int, files: map<string, File>, maxFileSize: int, p: string)
    ensures p in Refreshed(Live(m, now, ttl), files, maxFileSize) <==> Survives(m, p, now, ttl, files, maxFileSize)
  {
  }

  lemma KeptSize(before: Cached, maxEntries: int, kept: Cached)
    requires |before| <= (if maxEntries < 1 then 1 else maxEntries) && Evicted(before, maxEntries, kept)
    ensures kept.Keys <= before.Keys && |kept| + 1 <= if maxEntries < 1 then 1 else maxEntries
    ensures forall p :: p in kept ==> kept[p] == before[p]
  {
    EmptyOrNot(before);
    if |before| >= maxEntries && before != map[] {
      var victim :| Oldest(before, victim) && kept == before - {victim};
      RemoveSize(before, victim);
    }
  }

  class Cache {
    var entries: Cached
    const maxEntries: int
    const maxFileSize: int
    const ttl: int

    constructor (maxEntries: int, maxFileSize: int, ttl: int)
      ensures Valid() && entries == map[]
      ensures this.maxEntries == maxEntries && this.maxFileSize == maxFileSize && this.ttl == ttl
    {
      this.entries := map[];
      this.maxEntries := maxEntries;
      this.maxFileSize := maxFileSize;
      this.ttl := ttl;
    }

    /** Within capacity, and usable with the sentinel of the eviction scan. */
    ghost predicate Valid()
      reads this
    {
      "" !in entries && |entries| <= if maxEntries < 1 then 1 else maxEntries
    }

    /** Removes an entry that was least recently accessed, if there is any. */
    method EvictOne()
      requires Valid()
      modifies this`entries
      ensures |old(entries)| >= maxEntries ==> Evicted(old(entries), maxEntries, entries)
    {
      var oldest, oldestAccess := "", 0;
      var rest := entries.Keys;
      while rest != {}
        invariant rest <= entries.Keys && entries == old(entries)
        invariant oldest == "" ==> rest == entries.Keys
        invariant oldest != "" ==> oldest in entries && entries[oldest].lastAccess == oldestAccess
        invariant oldest != "" ==> forall p :: p in entries && p !in rest ==> oldestAccess <= entries[p].lastAccess
        decreases rest
      {
        var p :| p in rest;
        if oldest == "" || entries[p].lastAccess < oldestAccess {
          oldest, oldestAccess := p, entries[p].lastAccess;
        }
        rest := rest - {p};
      }
      if oldest != "" {
        assert Oldest(entries, oldest);
        entries := entries - {oldest};
      }
    }

    method Invalidate(path: string)
      modifies this`entries
      ensures entries == old(entries) - {path}
      ensures old(Valid()) ==> Valid()
    {
      SubmapSize(entries, entries - {path});
      entries := entries - {path};
    }

    /** Reads the file and caches it, evicting when the cache is full. */
    method Load(disk: Disk, path: string, now: int) returns (r: Option<Bytes>)
      requires Valid() && disk.Valid() && path !in entries
      modifies this`entries
      ensures Valid() && r == disk.Read(path)
      ensures if path in disk.files && |disk.files[path].content| <= maxFileSize then
                && Evicted(old(entries), maxEntries, entries - {path})
                && path in entries
                && entries[path] == Entry(disk.files[path].content, disk.files[path].modTime, now)
              else entries == old(entries)
      ensures forall p :: p in entries && p != path ==> p in old(entries) && entries[p] == old(entries)[p]
    {
      if path !in disk.files {
        return None;
      }
      var info := disk.files[path];
      if |info.content| > maxFileSize {
        return Some(info.content);
      }
      Insert(path, Entry(info.content, info.modTime, now));
      r := Some(info.content);
    }

    /** The critical section of Load: make room, then insert. */
    method Insert(path: string, e: Entry<Bytes>)
      requires Valid() && path !in entries && path != ""
      modifies this`entries
      ensures Valid() && path in entries && entries[path] == e
      ensures Evicted(old(entries), maxEntries, entries - {path})
      ensures forall p :: p in entries && p != path ==> p in old(entries) && entries[p] == old(entries)[p]
    {
      if |entries| >= maxEntries {
        EvictOne();
      }
      assert Evicted(old(entries), maxEntries, entries);
      ghost var kept := entries;
      KeptSize(old(entries), maxEntries, kept);
      hide Evicted;
      entries := entries[path := e];
      UpdateSize(kept, path, e);
      assert entries - {path} == kept;
    }

    /** A cached read; a hit renews the entry's access time and nothing else. */
    method Get(disk: Disk, path: string, now: int) returns (r: Option<Bytes>)
      requires Valid() && disk.Valid()
      modifies this`entries
      ensures Valid()
      ensures old(path in entries) ==>
                && r == Some(old(entries)[path].data)
                && entries == old(entries)[path := old(entries)[path].(lastAccess := now)]
      ensures old(path !in entries) ==> r == disk.Read(path)
      ensures old(path !in entries) && path in disk.files && |disk.files[path].content| <= maxFileSize ==>
                path in entries && entries[path] == Entry(disk.files[path].content, disk.files[path].modTime, now)
      ensures old(Coherent(entries, disk.files)) ==> r == disk.Read(path) && Coherent(entries, disk.files)
      ensures old(Stamped(entries, disk.files)) ==> Stamped(entries, disk.files)
    {
      if path in entries {
        var e := entries[path];
        UpdateSize(entries, path, e.(lastAccess := now));
        entries := entries[path := e.(lastAccess := now)];
        return Some(e.data);
      }
      r := Load(disk, path, now);
    }

    /** Expired entries go, and what is left is refreshed. */
    method RefreshAll(disk: Disk, now: int)
      requires Valid()
      modifies this`entries
      ensures Valid() && entries == Refreshed(Live(old(entries), now, ttl), disk.files, maxFileSize)
      ensures forall p :: p in entries <==> Survives(old(entries), p, now, ttl, disk.files, maxFileSize)
    {
      forall p
        ensures p in Refreshed(Live(entries, now, ttl), disk.files, maxFileSize) <==>
                Survives(entries, p, now, ttl, disk.files, maxFileSize)
      {
        RefreshKeepsExactly(entries, now, ttl, disk.files, maxFileSize, p);
      }
      hide Survives;
      var live := Live(entries, now, ttl);
      SubmapSize(entries, live);
      entries := live;
      var rest := live.Keys;
      while rest != {}
        invariant rest <= live.Keys && entries.Keys <= live.Keys && Valid()
        invariant forall p :: p in live ==>
                    MatchesOption(entries, p,
                                  if p in rest then Some(live[p]) else RefreshOne(live[p], p, disk.files, maxFileSize))
        decreases rest
      {
        var path :| path in rest;
        assert MatchesOption(entries, path, Some(live[path]));
        rest := rest - {path};
        RefreshEntry(disk, path, live[path].modTime);
      }
      assert entries == Refreshed(live, disk.files, maxFileSize);
    }

    /** One round of the refresh loop. */
    method RefreshEntry(disk: Disk, path: string, stamp: nat)
      requires Valid() && path in entries && entries[path].modTime == stamp
      modifies this`entries
      ensures Valid() && forall p :: p != path ==> (p in entries <==> p in old(entries))
      ensures forall p :: p in entries && p != path ==> entries[p] == old(entries)[p]
      ensures MatchesOption(entries, path, RefreshOne(old(entries)[path], path, disk.files, maxFileSize))
    {
      if path !in disk.files {
        Invalidate(path);
        return;
      }
      var info := disk.files[path];
      if info.modTime == stamp {
        return;
      }
      if |info.content| > maxFileSize {
        Invalidate(path);
        return;
      }
      var e := Entry(info.content, info.modTime, entries[path].lastAccess);
      UpdateSize(entries, path, e);
      entries := entries[path := e];
    }
  }

  predicate MatchesOption(m: Cached, p: string, e: Option<Entry<Bytes>>) {
    if e.Some? then p in m && m[p] == e.value else p !in m
  }

  // ---------------------------------------------------------------- the file tools

  type Contents = map<string, Bytes>

  function ContentsOf(files: map<string, File>): Contents {
    map p | p in files :: files[p].content
  }

  lemma ContentsUpdate(files: map<string, File>, path: string, f: File)
    ensures ContentsOf(files[path := f]) == ContentsOf(files)[path := f.content]
    ensures path in ContentsOf(files) <==> path in files
    ensures path in files ==> ContentsOf(files)[path] == files[path].content
  {
  }

  lemma WriteAndCache(entries: Cached, files: map<string, File>, path: string, f: File)
    requires Coherent(entries, files)
    ensures Coherent(entries, files[path := f]) <==> path !in entries || entries[path].data == f.content
    ensures Coherent(entries - {path}, files[path := f]) && Stamped(entries - {path}, files[path := f])
  {
  }

  function WriteTo(c: Contents, path: string, content: Bytes, append: bool): Contents {
    c[path := (if append && path in c then c[path] else []) + content]
  }

  /** How a write ends: done, refused before the file is touched, or broken off with something written. */
  datatype WriteOutcome = Written | Refused | BrokenOff(content: Bytes)

  /**
   * The write tool: the file is written and then dropped from the cache. A write that is broken off
   * does not drop it, and then the cache stays coherent exactly if it held nothing else for the path.
   */
  method FileWrite(disk: Disk, cache: Cache, path: string, content: Bytes, append: bool, outcome: WriteOutcome)
    requires disk.Valid() && cache.Valid() && path != ""
    requires Coherent(cache.entries, disk.files) && Stamped(cache.entries, disk.files)
    modifies disk, cache`entries
    ensures disk.Valid() && cache.Valid()
    ensures outcome == Refused ==> disk.files == old(disk.files) && cache.entries == old(cache.entries)
    ensures outcome == Written ==>
              && cache.entries == old(cache.entries) - {path}
              && ContentsOf(disk.files) == WriteTo(old(ContentsOf(disk.files)), path, content, append)
              && (forall p :: p in disk.files <==> p == path || p in old(disk.files))
              && (forall p :: p in disk.files && p != path ==> disk.files[p] == old(disk.files)[p])
              && (append && path in old(disk.files) ==>
                    disk.files[path].content == old(disk.files)[path].content + content)
              && (!append || path !in old(disk.files) ==> disk.files[path].content == content)
    ensures outcome.BrokenOff? ==>
              && cache.entries == old(cache.entries)
              && ContentsOf(disk.files) == old(ContentsOf(disk.files))[path := outcome.content]
    ensures !outcome.BrokenOff? ==> Coherent(cache.entries, disk.files) && Stamped(cache.entries, disk.files)
    ensures outcome.BrokenOff? ==>
              (Coherent(cache.entries, disk.files) <==>
               path !in cache.entries || cache.entries[path].data == outcome.content)
  {
    hide ContentsOf, Coherent, Stamped;
    ghost var files := disk.files;
    match outcome {
      case Refused =>
      case BrokenOff(partial) =>
        disk.Write(path, partial);
        ContentsUpdate(files, path, disk.files[path]);
        WriteAndCache(cache.entries, files, path, disk.files[path]);
      case Written =>
        var before := if append && path in disk.files then disk.files[path].content else [];
        assert [] + content == content;
        disk.Write(path, before + content);
        ContentsUpdate(files, path, disk.files[path]);
        WriteAndCache(cache.entries, files, path, disk.files[path]);
        cache.Invalidate(path);
    }
  }

  /** A run that reads stale content: a file is written and read, and a second write to it breaks off. */
  method StaleAfterBrokenOffWrite() returns (cached: Option<Bytes>, onDisk: Option<Bytes>)
    ensures cached == Some([1]) && onDisk == Some([2])
  {
    var disk := new Disk();
    var cache := new Cache(8, 1000, 60);
    hide *;
    NothingCached(disk.files);
    FileWrite(disk, cache, "f", [1], false, Written);
    WrittenContent(map[], disk.files, "f", [1], false);
    var first := cache.Get(disk, "f", 0);
    FileWrite(disk, cache, "f", [2], false, BrokenOff([2]));
    ContentsLookup(disk.files, "f");
    cached := cache.Get(disk, "f", 1);
    onDisk := if "f" in disk.files then Some(disk.files["f"].content) else None;
  }

  lemma NothingCached(files: map<string, File>)
    ensures Coherent(map[], files) && Stamped(map[], files) && ContentsOf(map[]) == map[]
  {
  }

  lemma ContentsLookup(files: map<string, File>, path: string)
    ensures path in ContentsOf(files) <==> path in files
    ensures path in files ==> ContentsOf(files)[path] == files[path].content
  {
  }

  lemma WrittenContent(before: map<string, File>, files: map<string, File>, path: string, content: Bytes, append: bool)
    requires ContentsOf(files) == WriteTo(ContentsOf(before), path, content, append) && before == map[]
    ensures path in files && files[path].content == content
  {
    ContentsLookup(files, path);
    assert [] + content == content;
  }

  const DEFAULT_MAX_OUTPUT: nat := 1048576

  /** What a truncated text ends with: a line break and "... (file truncated)". */
  const TRUNCATION_NOTICE: Bytes :=
    [10, 46, 46, 46, 32, 40, 102, 105, 108, 101, 32, 116, 114, 117, 110, 99, 97, 116, 101, 100, 41]

  /** Where a text that exceeds the limit is truncated: the last character start up to the limit. */
  ghost predicate IsTruncation(content: Bytes, limit: nat, k: nat)
    requires limit < |content|
  {
    k <= limit && (k > 0 ==> RuneStart(content[k])) && forall i :: k < i <= limit ==> !RuneStart(content[i])
  }

  /** The read tool: the file as it is on disk, cut at a character boundary with a notice when it is too long. */
  method FileRead(disk: Disk, cache: Cache, path: string, maxOutput: int, now: int) returns (r: Option<Bytes>)
    requires disk.Valid() && cache.Valid() && Coherent(cache.entries, disk.files)
    modifies cache`entries
    ensures cache.Valid() && Coherent(cache.entries, disk.files)
    ensures r.None? <==> disk.Read(path).None?
    ensures r.Some? ==>
              var content := disk.Read(path).value;
              var limit := if maxOutput <= 0 then 1_048_576 else maxOutput;
              && (|content| <= limit ==> r.value == content)
              && (|content| > limit ==> exists k :: 0 <= k <= |content| && IsTruncation(content, limit, k)
                                                    && r.value == content[..k] + TRUNCATION_NOTICE)
              && (Valid(content) ==> Valid(r.value))
  {
    r := cache.Get(disk, path, now);
    if r.None? {
      return;
    }
    NoticeIsValid();
    hide Valid, IsTruncation, Coherent, Stamped, TRUNCATION_NOTICE;
    var content := r.value;
    var maxOut := if maxOutput <= 0 then DEFAULT_MAX_OUTPUT else maxOutput;
    if |content| > maxOut {
      var k := Truncate(content, maxOut);
      if Valid(content) {
        ValidJoins(content[..k], TRUNCATION_NOTICE);
      }
      r := Some(content[..k] + TRUNCATION_NOTICE);
    }
  }

  function AsBytes(s: string): Bytes
    requires forall i :: 0 <= i < |s| ==> s[i] < 128 as char
  {
    seq(|s|, i requires 0 <= i < |s| => s[i] as int as Byte)
  }

  /** The notice in words. */
  lemma NoticeReads()
    ensures var words := "\n... (file truncated)";
            && (forall i :: 0 <= i < |words| ==> words[i] < 128 as char)
            && AsBytes(words) == TRUNCATION_NOTICE
  {
    var words := "\n... (file truncated)";
    assert |words| == 21;
    assert forall i :: 0 <= i < |words| ==> words[i] as int as Byte == TRUNCATION_NOTICE[i];
  }

  lemma NoticeIsValid()
    ensures Valid(TRUNCATION_NOTICE)
  {
    hide Valid;
    AsciiIsValid(TRUNCATION_NOTICE);
  }

  method Truncate(content: Bytes, limit: nat) returns (maxOut: nat)
    requires limit < |content|
    ensures maxOut <= limit && IsTruncation(content, limit, maxOut)
    ensures maxOut == 0 || RuneStart(content[maxOut])
    ensures forall i :: maxOut < i <= limit ==> !RuneStart(content[i])
    ensures Valid(content) ==> Valid(content[..maxOut])
  {
    maxOut := limit;
    while maxOut > 0 && maxOut < |content| && !RuneStart(content[maxOut])
      invariant maxOut <= limit
      invariant forall i :: maxOut < i <= limit ==> !RuneStart(content[i])
    {
      maxOut := maxOut - 1;
    }
    if Valid(content) {
      SplitsAtStart(content, maxOut);
    }
  }

  // ---------------------------------------------------------------- whole runs

  datatype Op =
    | ReadOp(path: string, now: int)
    | WriteOp(path: string, content: Bytes, append: bool)
    | RefreshOp(now: int)

  /** The reference: a run without any cache, reads going straight to the files. */
  function DirectReads(ops: seq<Op>, c: Contents): seq<Option<Bytes>> {
    if ops == [] then []
    else match ops[0]
      case ReadOp(path, _) => [DirectRead(c, path)] + DirectReads(ops[1..], c)
      case WriteOp(path, content, append) => DirectReads(ops[1..], WriteTo(c, path, content, append))
      case RefreshOp(_) => DirectReads(ops[1..], c)
  }

  lemma LiveKeeps(entries: Cached, files: map<string, File>, now: int, ttl: int)
    ensures Stamped(entries, files) ==> Stamped(Live(entries, now, ttl), files)
  {
  }

  function DirectRead(c: Contents, path: string): Option<Bytes> {
    if path in c then Some(c[path]) else None
  }

  lemma ReadIsDirect(disk: Disk, path: string)
    ensures disk.Read(path) == DirectRead(ContentsOf(disk.files), path)
  {
  }

  lemma NoReads(c: Contents)
    ensures DirectReads([], c) == []
  {
  }

  lemma ReadsStep(ops: seq<Op>, n: nat, c: Contents)
    requires n < |ops|
    ensures ops[n].ReadOp? ==>
              DirectReads(ops[n..], c) == [DirectRead(c, ops[n].path)] + DirectReads(ops[n + 1..], c)
    ensures ops[n].WriteOp? ==>
              DirectReads(ops[n..], c)
              == DirectReads(ops[n + 1..], WriteTo(c, ops[n].path, ops[n].content, ops[n].append))
    ensures ops[n].RefreshOp? ==> DirectReads(ops[n..], c) == DirectReads(ops[n + 1..], c)
  {
    assert ops[n..][1..] == ops[n + 1..];
  }

  /** Every sequential run over the cache returns exactly what the run without a cache returns. */
  method Replay(ops: seq<Op>, disk: Disk, cache: Cache) returns (results: seq<Option<Bytes>>)
    requires disk.Valid() && cache.Valid()
    requires Coherent(cache.entries, disk.files) && Stamped(cache.entries, disk.files)
    requires forall i :: 0 <= i < |ops| && ops[i].WriteOp? ==> ops[i].path != ""
    modifies disk, cache`entries
    ensures results == DirectReads(ops, old(ContentsOf(disk.files)))
    ensures disk.Valid() && cache.Valid()
  {
    hide *;
    results := [];
    for n := 0 to |ops|
      invariant disk.Valid() && cache.Valid()
      invariant Coherent(cache.entries, disk.files) && Stamped(cache.entries, disk.files)
      invariant results + DirectReads(ops[n..], ContentsOf(disk.files)) == DirectReads(ops, old(ContentsOf(disk.files)))
    {
      ReadsStep(ops, n, ContentsOf(disk.files));
      match ops[n] {
        case ReadOp(path, now) =>
          var r := cache.Get(disk, path, now);
          ReadIsDirect(disk, path);
          results := results + [r];
        case WriteOp(path, content, append) =>
          FileWrite(disk, cache, path, content, append, Written);
        case RefreshOp(now) =>
          LiveKeeps(cache.entries, disk.files, now, cache.ttl);
          RefreshedIsCurrent(Live(cache.entries, now, cache.ttl), disk.files, cache.maxFileSize);
          cache.RefreshAll(disk, now);
      }
    }
    NoReads(ContentsOf(disk.files));
    assert ops[|ops|..] == [];
  }
}
