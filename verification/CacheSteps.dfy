/**
 * The file cache under concurrency. Every critical section and every disk access is one atomic step;
 * gets, loads, invalidations, refreshes and outside file changes interleave arbitrarily. A file's
 * modification time is a version drawn from a clock that only grows, and stands for its content.
 */
module CacheSteps {
  import opened Llm
  import opened CacheEntry

  type Path = string

  /** An entry's data is the version of the content that was read. */
  type Cached = map<Path, Entry<nat>>

  datatype Stamp = Stamp(path: Path, modTime: nat)

  /** What a thread is about to do. */
  datatype Pc =
    | Idle
    | LoadStat(path: Path)
    | LoadRead(path: Path, modTime: nat, tooLarge: bool)
    | LoadStore(path: Path, modTime: nat, data: nat)
    | RefreshList
    | Refresh(todo: seq<Stamp>)
    | RefreshRead(path: Path, modTime: nat, todo: seq<Stamp>)
    | RefreshStore(path: Path, modTime: nat, data: nat, todo: seq<Stamp>)
    | RefreshDrop(path: Path, todo: seq<Stamp>)

  datatype State = State(
    disk: map<Path, nat>, clock: nat, entries: Cached, threads: map<nat, Pc>, maxEntries: int, ttl: int)

  datatype Step =
    | WriteFile(path: Path)
    | RemoveFile(path: Path)
    | GetHit(path: Path, now: int)
    | GetMiss(t: nat, path: Path)
    | Invalidate(path: Path)
    | StatFile(t: nat, tooLarge: bool)
    | ReadFile(t: nat)
    | StoreEntry(t: nat, now: int, victim: Option<Path>)
    | StartRefresh(t: nat, now: int)
    | TakeSnapshot(t: nat, todo: seq<Stamp>)
    | RefreshStatFile(t: nat, tooLarge: bool)
    | RefreshReadFile(t: nat)
    | RefreshUpdate(t: nat)
    | RefreshRemove(t: nat)

  function At(s: State, t: nat, pc: Pc): State {
    s.(threads := s.threads[t := pc])
  }

  // ---------------------------------------------------------------- steps

  /** The eviction before an insertion: the least recently used entry goes when the cache is full. */
  ghost predicate Evicts(s: State, victim: Option<Path>) {
    if |s.entries| >= s.maxEntries && s.entries != map[] then victim.Some? && Oldest(s.entries, victim.value)
    else victim.None?
  }

  function AfterStat(s: State, path: Path, tooLarge: bool): Pc {
    if path in s.disk then LoadRead(path, s.disk[path], tooLarge) else Idle
  }

  function AfterRead(s: State, pc: Pc): Pc
    requires pc.LoadRead?
  {
    if pc.path in s.disk && !pc.tooLarge then LoadStore(pc.path, pc.modTime, s.disk[pc.path]) else Idle
  }

  function AfterRefreshStat(s: State, todo: seq<Stamp>, tooLarge: bool): Pc
    requires todo != []
  {
    var p, rest := todo[0].path, todo[1..];
    if p !in s.disk then RefreshDrop(p, rest)
    else if s.disk[p] == todo[0].modTime then Refresh(rest)
    else if tooLarge then RefreshDrop(p, rest)
    else RefreshRead(p, s.disk[p], rest)
  }

  /** The snapshot lists every entry with its modification time, in any order. */
  ghost predicate Snapshots(entries: Cached, todo: seq<Stamp>) {
    && (forall p :: p in entries ==> Stamp(p, entries[p].modTime) in todo)
    && (forall i :: 0 <= i < |todo| ==> todo[i].path in entries && todo[i].modTime == entries[todo[i].path].modTime)
  }

  ghost predicate Next(s: State, step: Step, s': State) {
    match step
    case WriteFile(p) => s' == s.(disk := s.disk[p := s.clock + 1], clock := s.clock + 1)
    case RemoveFile(p) => s' == s.(disk := s.disk - {p})
    case GetHit(p, now) =>
      p in s.entries && s' == s.(entries := s.entries[p := s.entries[p].(lastAccess := now)])
    case GetMiss(t, p) =>
      t in s.threads && s.threads[t] == Idle && p !in s.entries && s' == At(s, t, LoadStat(p))
    case Invalidate(p) => s' == s.(entries := s.entries - {p})
    case StatFile(t, tooLarge) =>
      t in s.threads && s.threads[t].LoadStat? && s' == At(s, t, AfterStat(s, s.threads[t].path, tooLarge))
    case ReadFile(t) =>
      t in s.threads && s.threads[t].LoadRead? && s' == At(s, t, AfterRead(s, s.threads[t]))
    case StoreEntry(t, now, victim) =>
      && t in s.threads && s.threads[t].LoadStore? && Evicts(s, victim)
      && var pc := s.threads[t];
         var kept := if victim.Some? then s.entries - {victim.value} else s.entries;
         s' == At(s, t, Idle).(entries := kept[pc.path := Entry(pc.data, pc.modTime, now)])
    case StartRefresh(t, now) =>
      t in s.threads && s.threads[t] == Idle && s' == At(s, t, RefreshList).(entries := Live(s.entries, now, s.ttl))
    case TakeSnapshot(t, todo) =>
      t in s.threads && s.threads[t] == RefreshList && Snapshots(s.entries, todo) && s' == At(s, t, Refresh(todo))
    case RefreshStatFile(t, tooLarge) =>
      && t in s.threads && s.threads[t].Refresh?
      && var todo := s.threads[t].todo;
         s' == At(s, t, if todo == [] then Idle else AfterRefreshStat(s, todo, tooLarge))
    case RefreshReadFile(t) =>
      && t in s.threads && s.threads[t].RefreshRead?
      && var pc := s.threads[t];
         s' == At(s, t, if pc.path in s.disk then RefreshStore(pc.path, pc.modTime, s.disk[pc.path], pc.todo)
                        else RefreshDrop(pc.path, pc.todo))
    case RefreshUpdate(t) =>
      && t in s.threads && s.threads[t].RefreshStore?
      && var pc := s.threads[t];
         s' == At(s, t, Refresh(pc.todo)).(entries :=
           if pc.path in s.entries then s.entries[pc.path := Entry(pc.data, pc.modTime, s.entries[pc.path].lastAccess)]
           else s.entries)
    case RefreshRemove(t) =>
      && t in s.threads && s.threads[t].RefreshDrop?
      && s' == At(s, t, Refresh(s.threads[t].todo)).(entries := s.entries - {s.threads[t].path})
  }

  ghost predicate Init(s: State) {
    && (forall p :: p in s.disk ==> s.disk[p] <= s.clock)
    && s.entries == map[] && forall t :: t in s.threads ==> s.threads[t] == Idle
  }

  ghost predicate IsRun(trace: seq<State>, steps: seq<Step>) {
    |trace| == |steps| + 1 && forall i :: 0 <= i < |steps| ==> Next(trace[i], steps[i], trace[i + 1])
  }

  // ---------------------------------------------------------------- the invariant

  /** A stat at version m followed by a read at version d of the same file. */
  predicate Ordered(s: State, p: Path, m: nat, d: nat) {
    m <= d <= s.clock && (p in s.disk ==> d <= s.disk[p])
  }

  predicate PcOk(s: State, pc: Pc) {
    match pc
    case LoadRead(p, m, _) => Ordered(s, p, m, m)
    case LoadStore(p, m, d) => Ordered(s, p, m, d)
    case RefreshRead(p, m, _) => Ordered(s, p, m, m)
    case RefreshStore(p, m, d, _) => Ordered(s, p, m, d)
    case _ => true
  }

  function Capacity(s: State): int {
    if s.maxEntries < 1 then 1 else s.maxEntries
  }

  ghost predicate Inv(s: State) {
    && (forall p :: p in s.disk ==> s.disk[p] <= s.clock)
    && (forall p :: p in s.entries ==> Ordered(s, p, s.entries[p].modTime, s.entries[p].data))
    && (forall t :: t in s.threads ==> PcOk(s, s.threads[t]))
    && |s.entries| <= Capacity(s)
  }

  lemma SizeStore(s: State, t: nat, now: int, victim: Option<Path>, s': State)
    requires |s.entries| <= Capacity(s) && Next(s, StoreEntry(t, now, victim), s')
    ensures |s'.entries| <= Capacity(s')
  {
    var pc := s.threads[t];
    var kept := if victim.Some? then s.entries - {victim.value} else s.entries;
    UpdateSize(kept, pc.path, s'.entries[pc.path]);
    if victim.Some? {
      RemoveSize(s.entries, victim.value);
    } else {
      EmptyOrNot(s.entries);
    }
  }

  lemma SizeStep(s: State, step: Step, s': State)
    requires |s.entries| <= Capacity(s) && Next(s, step, s')
    ensures |s'.entries| <= Capacity(s')
  {
    hide Oldest, Snapshots, AfterStat, AfterRead, AfterRefreshStat;
    if step.StoreEntry? {
      SizeStore(s, step.t, step.now, step.victim, s');
    } else {
      SubmapSize(s.entries, s'.entries);
    }
  }

  lemma EntryStep(s: State, step: Step, s': State, p: Path)
    requires Inv(s) && Next(s, step, s') && p in s'.entries
    ensures Ordered(s', p, s'.entries[p].modTime, s'.entries[p].data)
  {
    hide Oldest, Snapshots, AfterStat, AfterRead, AfterRefreshStat;
    if p in s.entries {
      assert Ordered(s, p, s.entries[p].modTime, s.entries[p].data);
    }
    if step.StoreEntry? || step.RefreshUpdate? {
      assert PcOk(s, s.threads[step.t]);
    }
  }

  /** Versions on disk only move forward. */
  ghost predicate DiskGrows(s: State, s': State) {
    s.clock <= s'.clock && forall p :: p in s'.disk ==> s'.disk[p] > s.clock || (p in s.disk && s'.disk[p] == s.disk[p])
  }

  lemma DiskStep(s: State, step: Step, s': State)
    requires Next(s, step, s')
    ensures DiskGrows(s, s')
  {
    hide Evicts, Snapshots, Live, AfterStat, AfterRead, AfterRefreshStat;
  }

  lemma PcOkKept(s: State, s': State, pc: Pc)
    requires PcOk(s, pc) && DiskGrows(s, s')
    ensures PcOk(s', pc)
  {
  }

  /** A thread that moved on has just read a version that is on disk now. */
  lemma ThreadMoved(s: State, step: Step, s': State, t: nat)
    requires Next(s, step, s') && t in s.threads && t in s'.threads && s'.threads[t] != s.threads[t]
    requires PcOk(s, s.threads[t]) && forall p :: p in s.disk ==> s.disk[p] <= s.clock
    ensures PcOk(s', s'.threads[t])
  {
    hide Evicts, Snapshots, Live;
  }

  lemma ThreadStep(s: State, step: Step, s': State, t: nat)
    requires Inv(s) && Next(s, step, s') && t in s'.threads
    ensures PcOk(s', s'.threads[t])
  {
    assert forall p :: p in s.disk ==> s.disk[p] <= s.clock;
    DiskStep(s, step, s');
    ThreadsStay(s, step, s');
    assert PcOk(s, s.threads[t]);
    hide *;
    if s'.threads[t] == s.threads[t] {
      PcOkKept(s, s', s.threads[t]);
    } else {
      ThreadMoved(s, step, s', t);
    }
  }

  /** Every step keeps, for every entry and every load in flight: modTime <= data <= current version. */
  lemma VersionsStep(s: State, step: Step, s': State)
    requires Inv(s) && Next(s, step, s')
    ensures forall p :: p in s'.disk ==> s'.disk[p] <= s'.clock
    ensures forall p :: p in s'.entries ==> Ordered(s', p, s'.entries[p].modTime, s'.entries[p].data)
    ensures forall t :: t in s'.threads ==> PcOk(s', s'.threads[t])
  {
    hide Ordered, PcOk, Evicts, Snapshots, Live, AfterStat, AfterRead, AfterRefreshStat;
    forall p | p in s'.entries ensures Ordered(s', p, s'.entries[p].modTime, s'.entries[p].data) {
      EntryStep(s, step, s', p);
    }
    forall t | t in s'.threads ensures PcOk(s', s'.threads[t]) {
      ThreadStep(s, step, s', t);
    }
  }

  lemma InvStep(s: State, step: Step, s': State)
    requires Inv(s) && Next(s, step, s')
    ensures Inv(s')
  {
    hide Next;
    SizeStep(s, step, s');
    VersionsStep(s, step, s');
  }

  /** The invariant holds throughout every interleaving. */
  lemma {:induction false} InvAlways(trace: seq<State>, steps: seq<Step>, n: nat)
    requires IsRun(trace, steps) && n < |trace| && (Init(trace[0]) || Inv(trace[0]))
    ensures Inv(trace[n])
  {
    hide Next;
    if n > 0 {
      InvAlways(trace, steps, n - 1);
      InvStep(trace[n - 1], steps[n - 1], trace[n]);
    }
  }

  /**
   * In every reachable state the cache is within its capacity, every entry has
   * modTime <= data <= current version, and an entry whose modTime is the file's holds its content.
   */
  lemma CacheSafety(trace: seq<State>, steps: seq<Step>, n: nat, p: Path)
    requires IsRun(trace, steps) && n < |trace| && Init(trace[0])
    ensures var s := trace[n];
            && |s.entries| <= Capacity(s)
            && (p in s.entries ==> s.entries[p].modTime <= s.entries[p].data <= s.clock)
            && (p in s.entries && p in s.disk ==> s.entries[p].data <= s.disk[p])
            && (p in s.entries && p in s.disk && s.entries[p].modTime == s.disk[p] ==> s.entries[p].data == s.disk[p])
  {
    hide Next;
    InvAlways(trace, steps, n);
  }

  // ---------------------------------------------------------------- which entries come and go

  /** An entry goes because it is invalidated, has expired, is dropped by a refresh or makes room for another file. */
  predicate Removes(s: State, step: Step, p: Path)
    requires p in s.entries
  {
    match step
    case Invalidate(q) => q == p
    case StartRefresh(_, now) => now - s.entries[p].lastAccess > s.ttl
    case RefreshRemove(t) => t in s.threads && s.threads[t].RefreshDrop? && s.threads[t].path == p
    case StoreEntry(t, _, victim) =>
      t in s.threads && s.threads[t].LoadStore? && victim == Some(p) && s.threads[t].path != p
    case _ => false
  }

  /** A load stores what it read of the file. */
  predicate Stores(s: State, step: Step, p: Path) {
    step.StoreEntry? && step.t in s.threads && s.threads[step.t].LoadStore? && s.threads[step.t].path == p
  }

  /** An entry goes at a step exactly in these cases; one that makes room is the least recently used of a full cache. */
  lemma GoesExactlyWhen(s: State, step: Step, s': State, p: Path)
    requires Next(s, step, s') && p in s.entries
    ensures p !in s'.entries <==> Removes(s, step, p)
    ensures p !in s'.entries && step.StoreEntry? ==>
              |s.entries| >= s.maxEntries && forall q :: q in s.entries ==>
                s.entries[p].lastAccess <= s.entries[q].lastAccess
  {
    hide Snapshots, AfterStat, AfterRead, AfterRefreshStat;
  }

  /** An entry comes at a step exactly when a load stores it, with what it read and the time of storing. */
  lemma ComesExactlyWhen(s: State, step: Step, s': State, p: Path)
    requires Next(s, step, s') && p !in s.entries
    ensures p in s'.entries <==> Stores(s, step, p)
    ensures p in s'.entries ==>
              s'.entries[p] == Entry(s.threads[step.t].data, s.threads[step.t].modTime, step.now)
  {
    hide Snapshots, Evicts, AfterStat, AfterRead, AfterRefreshStat;
  }

  /** Only being read or loaded renews an entry; a refresh does not. Its content is what was last stored. */
  lemma RenewedExactlyWhen(s: State, step: Step, s': State, p: Path)
    requires Next(s, step, s') && p in s.entries && p in s'.entries
    ensures s'.entries[p].lastAccess
            == if (step.GetHit? && step.path == p) || Stores(s, step, p) then step.now else s.entries[p].lastAccess
    ensures var stored := Stores(s, step, p) || (step.RefreshUpdate? && s.threads[step.t].path == p);
            && s'.entries[p].data == (if stored then s.threads[step.t].data else s.entries[p].data)
            && s'.entries[p].modTime == (if stored then s.threads[step.t].modTime else s.entries[p].modTime)
  {
    hide Snapshots, Evicts, AfterStat, AfterRead, AfterRefreshStat;
  }

  /** The file is to be stored by some thread. */
  predicate AboutToStore(pc: Pc, p: Path) {
    (pc.LoadStore? || pc.RefreshStore?) && pc.path == p
  }

  /** A thread gets to storing a file exactly by reading it, after it was found to be there and not too large. */
  lemma ReadsExactlyWhen(s: State, step: Step, s': State, t: nat, p: Path)
    requires Next(s, step, s') && t in s.threads && t in s'.threads && !AboutToStore(s.threads[t], p)
    ensures AboutToStore(s'.threads[t], p) <==>
            || (step == ReadFile(t) && p in s.disk && s.threads[t].path == p && !s.threads[t].tooLarge)
            || (step == RefreshReadFile(t) && p in s.disk && s.threads[t].path == p)
    ensures AboutToStore(s'.threads[t], p) ==> s'.threads[t].data == s.disk[p]
  {
    hide Snapshots, Evicts, Live;
  }

  /** A file that is too large is not read by a load or a refresh that finds it so. */
  lemma TooLargeIsNotRead(s: State, step: Step, s': State, t: nat)
    requires Next(s, step, s') && t in s.threads && t in s'.threads
    ensures step == RefreshStatFile(t, true) ==> !s'.threads[t].RefreshRead?
    ensures step.StatFile? && step.t == t && s'.threads[t].LoadRead? ==> s'.threads[t].tooLarge == step.tooLarge
  {
    hide Snapshots, Evicts, Live;
  }

  // ---------------------------------------------------------------- a refresh without file changes

  /** The entry holds what is on disk. */
  predicate Current(s: State, p: Path)
    requires p in s.entries
  {
    p in s.disk && s.entries[p].data == s.disk[p]
  }

  /** The refresh at this point will still come to the entry. */
  predicate Pending(pc: Pc, p: Path, e: Entry<nat>) {
    match pc
    case RefreshList => true
    case Refresh(todo) => Stamp(p, e.modTime) in todo
    case RefreshRead(path, _, todo) => p == path || Stamp(p, e.modTime) in todo
    case RefreshStore(path, _, _, todo) => p == path || Stamp(p, e.modTime) in todo
    case RefreshDrop(path, todo) => p == path || Stamp(p, e.modTime) in todo
    case _ => false
  }

  /** What a thread has read so far is still what is on disk. */
  predicate UpToDate(s: State, pc: Pc) {
    match pc
    case LoadRead(p, m, _) => p in s.disk && m == s.disk[p]
    case LoadStore(p, m, d) => p in s.disk && m == d == s.disk[p]
    case RefreshRead(p, m, _) => p in s.disk && m == s.disk[p]
    case RefreshStore(p, m, d, _) => p in s.disk && m == d == s.disk[p]
    case _ => true
  }

  predicate Refreshing(pc: Pc) {
    pc.RefreshList? || pc.Refresh? || pc.RefreshRead? || pc.RefreshStore? || pc.RefreshDrop?
  }

  ghost predicate RefreshInv(s: State, t: nat) {
    && Inv(s) && t in s.threads
    && (forall u :: u in s.threads ==> UpToDate(s, s.threads[u]) && (u != t ==> !Refreshing(s.threads[u])))
    && (forall p :: p in s.entries ==> Current(s, p) || Pending(s.threads[t], p, s.entries[p]))
  }

  /** No file changes, and only thread t refreshes. */
  predicate Undisturbed(step: Step, t: nat) {
    !step.WriteFile? && !step.RemoveFile? && (step.StartRefresh? ==> step.t == t)
  }

  lemma ThreadsStay(s: State, step: Step, s': State)
    requires Next(s, step, s')
    ensures s'.threads.Keys == s.threads.Keys
  {
    hide Evicts, Snapshots, Live, AfterStat, AfterRead, AfterRefreshStat;
  }

  lemma UpToDateStep(s: State, step: Step, s': State, t: nat, u: nat)
    requires RefreshInv(s, t) && Next(s, step, s') && Undisturbed(step, t)
    requires u in s'.threads
    ensures t in s'.threads && UpToDate(s', s'.threads[u]) && (u != t ==> !Refreshing(s'.threads[u]))
  {
    hide Inv, Evicts, Snapshots, Live, Current, Pending;
    if u in s.threads {
      assert UpToDate(s, s.threads[u]) && (u != t ==> !Refreshing(s.threads[u]));
    }
  }

  /** The refreshing thread works an entry off its list only by making it current or removing it. */
  lemma PendingRefresh(s: State, step: Step, s': State, t: nat, p: Path)
    requires Next(s, step, s') && t in s.threads && UpToDate(s, s.threads[t]) && p in s'.entries && p in s.entries
    requires step == RefreshReadFile(t) || step == RefreshUpdate(t) || step == RefreshRemove(t)
             || (step.RefreshStatFile? && step.t == t)
    requires Current(s, p) || Pending(s.threads[t], p, s.entries[p])
    requires Ordered(s, p, s.entries[p].modTime, s.entries[p].data)
    ensures Current(s', p) || Pending(s'.threads[t], p, s'.entries[p])
  {
    hide Evicts, Snapshots, Live, AfterStat, AfterRead;
    if step.RefreshStatFile? && s.threads[t].todo != [] {
      assert s.threads[t].todo == [s.threads[t].todo[0]] + s.threads[t].todo[1..];
    }
  }

  /** Any other step leaves an entry and its place on the list alone, or stores current content. */
  lemma PendingOther(s: State, step: Step, s': State, t: nat, p: Path)
    requires Next(s, step, s') && Undisturbed(step, t) && t in s.threads && p in s'.entries
    requires !step.RefreshReadFile? && !step.RefreshUpdate? && !step.RefreshRemove? && !step.RefreshStatFile?
    requires step.StoreEntry? ==> UpToDate(s, s.threads[step.t])
    requires p in s.entries ==> Current(s, p) || Pending(s.threads[t], p, s.entries[p])
    requires step.TakeSnapshot? ==> step.t == t
    ensures Current(s', p) || Pending(s'.threads[t], p, s'.entries[p])
  {
    hide Evicts, AfterStat, AfterRead, AfterRefreshStat;
  }

  lemma PendingStep(s: State, step: Step, s': State, t: nat, p: Path)
    requires RefreshInv(s, t) && Next(s, step, s') && Undisturbed(step, t)
    requires p in s'.entries
    ensures Current(s', p) || Pending(s'.threads[t], p, s'.entries[p])
  {
    if p in s.entries {
      assert Current(s, p) || Pending(s.threads[t], p, s.entries[p]);
      assert Ordered(s, p, s.entries[p].modTime, s.entries[p].data);
    }
    assert UpToDate(s, s.threads[t]);
    hide Ordered, Current, Pending, Evicts, Snapshots, Live, AfterStat, AfterRead, AfterRefreshStat;
    if step.RefreshReadFile? || step.RefreshUpdate? || step.RefreshRemove? || step.RefreshStatFile? {
      PendingRefresh(s, step, s', t, p);
    } else {
      PendingOther(s, step, s', t, p);
    }
  }

  lemma RefreshStep(s: State, step: Step, s': State, t: nat)
    requires RefreshInv(s, t) && Next(s, step, s') && Undisturbed(step, t)
    ensures RefreshInv(s', t)
  {
    hide Next;
    InvStep(s, step, s');
    ThreadsStay(s, step, s');
    forall u | u in s'.threads ensures UpToDate(s', s'.threads[u]) && (u != t ==> !Refreshing(s'.threads[u])) {
      UpToDateStep(s, step, s', t, u);
    }
    forall p | p in s'.entries ensures Current(s', p) || Pending(s'.threads[t], p, s'.entries[p]) {
      PendingStep(s, step, s', t, p);
    }
  }

  lemma RefreshStarts(s: State, t: nat, now: int, s': State)
    requires Inv(s) && Next(s, StartRefresh(t, now), s') && forall u :: u in s.threads ==> s.threads[u] == Idle
    ensures RefreshInv(s', t)
  {
    InvStep(s, StartRefresh(t, now), s');
  }

  lemma {:induction false} RefreshKeeps(trace: seq<State>, steps: seq<Step>, t: nat, n: nat)
    requires IsRun(trace, steps) && 0 < n < |trace| && Inv(trace[0])
    requires steps[0].StartRefresh? && steps[0].t == t
    requires forall u :: u in trace[0].threads ==> trace[0].threads[u] == Idle
    requires forall i :: 0 <= i < n ==> Undisturbed(steps[i], t)
    ensures RefreshInv(trace[n], t)
  {
    hide Next;
    if n == 1 {
      RefreshStarts(trace[0], t, steps[0].now, trace[1]);
    } else {
      RefreshKeeps(trace, steps, t, n - 1);
      RefreshStep(trace[n - 1], steps[n - 1], trace[n], t);
    }
  }

  /**
   * A refresh that starts with nothing in flight and sees no file change leaves every entry equal to
   * disk, whatever gets, loads, evictions and invalidations run beside it.
   */
  lemma RefreshLeavesCurrent(trace: seq<State>, steps: seq<Step>, t: nat, n: nat)
    requires IsRun(trace, steps) && 0 < n < |trace| && Inv(trace[0])
    requires steps[0].StartRefresh? && steps[0].t == t
    requires forall u :: u in trace[0].threads ==> trace[0].threads[u] == Idle
    requires forall i :: 0 <= i < n ==> Undisturbed(steps[i], t)
    requires t in trace[n].threads && !Refreshing(trace[n].threads[t])
    ensures forall p :: p in trace[n].entries ==> Current(trace[n], p)
  {
    hide Next;
    RefreshKeeps(trace, steps, t, n);
  }

  // ---------------------------------------------------------------- invalidation and loads in flight

  /** The thread is about to store content of p that is not what is on disk. */
  predicate StaleStore(s: State, p: Path, pc: Pc) {
    || (pc.LoadStore? && pc.path == p && !(p in s.disk && s.disk[p] == pc.data))
    || (pc.RefreshStore? && pc.path == p && p in s.disk && s.disk[p] != pc.data)
  }

  ghost predicate StaleInFlight(s: State, p: Path) {
    exists t :: t in s.threads && StaleStore(s, p, s.threads[t])
  }

  ghost predicate Stale(s: State, p: Path) {
    p in s.entries && !Current(s, p)
  }

  /** The file at p is not changed. */
  predicate Leaves(step: Step, p: Path) {
    !(step.WriteFile? && step.path == p) && !(step.RemoveFile? && step.path == p)
  }

  /** One step that leaves the file alone cannot make an entry stale if nothing stale is in flight. */
  lemma CleanStep(s: State, step: Step, s': State, p: Path)
    requires Next(s, step, s') && Leaves(step, p) && !Stale(s, p) && !StaleInFlight(s, p)
    ensures !Stale(s', p) && !StaleInFlight(s', p)
  {
    hide Evicts, Snapshots;
    ThreadsStay(s, step, s');
    forall t | t in s'.threads ensures !StaleStore(s', p, s'.threads[t]) {
      assert !StaleStore(s, p, s.threads[t]);
    }
    if step.StoreEntry? || step.RefreshUpdate? {
      assert !StaleStore(s, p, s.threads[step.t]);
    }
  }

  lemma {:induction false} CleanStays(trace: seq<State>, steps: seq<Step>, p: Path, n: nat)
    requires IsRun(trace, steps) && n < |trace| && !Stale(trace[0], p) && !StaleInFlight(trace[0], p)
    requires forall i :: 0 <= i < n ==> Leaves(steps[i], p)
    ensures !Stale(trace[n], p) && !StaleInFlight(trace[n], p)
  {
    hide Next, Stale, StaleInFlight;
    if n > 0 {
      CleanStays(trace, steps, p, n - 1);
      CleanStep(trace[n - 1], steps[n - 1], trace[n], p);
    }
  }

  /** Some continuation that leaves the file alone ends with a stale entry for it. */
  ghost predicate CanGoStale(s: State, p: Path) {
    exists trace, steps :: Surfaces(s, p, trace, steps)
  }

  ghost predicate Surfaces(s: State, p: Path, trace: seq<State>, steps: seq<Step>) {
    && IsRun(trace, steps) && trace[0] == s && (forall i :: 0 <= i < |steps| ==> Leaves(steps[i], p))
    && Stale(trace[|steps|], p)
  }

  lemma VictimExists(s: State) returns (victim: Option<Path>)
    ensures Evicts(s, victim)
  {
    OldestExists(s.entries);
    if |s.entries| >= s.maxEntries && s.entries != map[] {
      var v :| Oldest(s.entries, v);
      victim := Some(v);
    } else {
      victim := None;
    }
  }

  /** A load stores what it has read, whatever happened since. */
  lemma StoreStep(s: State, t: nat) returns (s': State, step: Step)
    requires t in s.threads && s.threads[t].LoadStore?
    ensures Next(s, step, s') && step.StoreEntry? && step.t == t
    ensures s.threads[t].path in s'.entries && s'.entries[s.threads[t].path].data == s.threads[t].data
    ensures s'.disk == s.disk && s'.threads == s.threads[t := Idle]
  {
    var victim := VictimExists(s);
    var pc := s.threads[t];
    var kept := if victim.Some? then s.entries - {victim.value} else s.entries;
    step := StoreEntry(t, 0, victim);
    s' := At(s, t, Idle).(entries := kept[pc.path := Entry(pc.data, pc.modTime, 0)]);
  }

  lemma LoadSurfaces(s: State, p: Path, t: nat)
    requires t in s.threads && s.threads[t].LoadStore? && StaleStore(s, p, s.threads[t])
    ensures CanGoStale(s, p)
  {
    var s', step := StoreStep(s, t);
    hide Next;
    assert Surfaces(s, p, [s, s'], [step]);
  }

  /** A new load by an idle thread, up to the point where it stores what is on disk. */
  lemma LoadUpToStore(s: State, p: Path, u: nat) returns (trace: seq<State>, steps: seq<Step>)
    requires u in s.threads && s.threads[u] == Idle && p !in s.entries && p in s.disk
    ensures IsRun(trace, steps) && steps == [GetMiss(u, p), StatFile(u, false), ReadFile(u)] && trace[0] == s
    ensures trace[3] == At(s, u, LoadStore(p, s.disk[p], s.disk[p]))
  {
    var s1 := At(s, u, LoadStat(p));
    var s2 := At(s1, u, LoadRead(p, s.disk[p], false));
    var s3 := At(s2, u, LoadStore(p, s.disk[p], s.disk[p]));
    trace, steps := [s, s1, s2, s3], [GetMiss(u, p), StatFile(u, false), ReadFile(u)];
    assert Next(s, steps[0], s1) && Next(s1, steps[1], s2) && Next(s2, steps[2], s3);
    assert s3.threads == s.threads[u := LoadStore(p, s.disk[p], s.disk[p])];
    hide Next;
  }

  lemma RefreshSurfaces(s: State, p: Path, t: nat, u: nat)
    requires t in s.threads && s.threads[t].RefreshStore? && StaleStore(s, p, s.threads[t])
    requires u in s.threads && s.threads[u] == Idle && p !in s.entries
    ensures CanGoStale(s, p)
  {
    var trace, steps := LoadUpToStore(s, p, u);
    var s3 := trace[3];
    var s4, step4 := StoreStep(s3, u);
    var pc := s4.threads[t];
    var s5 := At(s4, t, Refresh(pc.todo))
              .(entries := s4.entries[p := Entry(pc.data, pc.modTime, s4.entries[p].lastAccess)]);
    assert Next(s4, RefreshUpdate(t), s5);
    var trace', steps' := trace + [s4, s5], steps + [step4, RefreshUpdate(t)];
    assert Stale(s5, p);
    hide Next, At;
    forall i | 0 <= i < |steps'| ensures Next(trace'[i], steps'[i], trace'[i + 1]) {
      if i < 3 {
        assert Next(trace[i], steps[i], trace[i + 1]);
      }
    }
    assert Surfaces(s, p, trace', steps');
  }

  /**
   * Right after a path was invalidated, and until the file changes again: a stale entry for it can come up
   * exactly when some thread is about to store content that is no longer on disk.
   */
  lemma StaleExactlyWhen(s: State, p: Path, u: nat)
    requires p !in s.entries && u in s.threads && s.threads[u] == Idle
    ensures CanGoStale(s, p) <==> StaleInFlight(s, p)
  {
    hide Next, StaleStore;
    if CanGoStale(s, p) && !StaleInFlight(s, p) {
      var trace, steps :| Surfaces(s, p, trace, steps);
      CleanStays(trace, steps, p, |steps|);
      assert false;
    }
    if StaleInFlight(s, p) {
      var t :| t in s.threads && StaleStore(s, p, s.threads[t]);
      if s.threads[t].LoadStore? {
        LoadSurfaces(s, p, t);
      } else {
        StaleIsStore(s, p, s.threads[t]);
        RefreshSurfaces(s, p, t, u);
      }
    }
  }

  lemma StaleIsStore(s: State, p: Path, pc: Pc)
    requires StaleStore(s, p, pc)
    ensures pc.LoadStore? || pc.RefreshStore?
  {
  }

  /**
   * An invalidation with nothing stale in flight holds: until the file changes, no state of any
   * interleaving has a stale entry for it.
   */
  lemma InvalidationHolds(trace: seq<State>, steps: seq<Step>, p: Path, n: nat)
    requires IsRun(trace, steps) && 0 < n < |trace| && steps[0] == Invalidate(p) && !StaleInFlight(trace[0], p)
    requires forall i :: 0 <= i < n ==> Leaves(steps[i], p)
    ensures p in trace[n].entries ==> Current(trace[n], p)
  {
    var s1 := trace[1];
    assert Next(trace[0], steps[0], s1);
    assert s1.threads == trace[0].threads && s1.disk == trace[0].disk && p !in s1.entries;
    hide Next;
    forall t | t in s1.threads ensures !StaleStore(s1, p, s1.threads[t]) {
      assert !StaleStore(trace[0], p, trace[0].threads[t]);
    }
    assert !StaleInFlight(s1, p);
    forall i | 0 <= i < |steps| - 1 ensures Next(trace[1..][i], steps[1..][i], trace[1..][i + 1]) {
      assert Next(trace[i + 1], steps[i + 1], trace[i + 2]);
    }
    CleanStays(trace[1..], steps[1..], p, n - 1);
  }

  /**
   * Why the refresh needs an empty pipeline: a load that read before a write stores after the
   * invalidation that follows the write, and the cache keeps the old content until a refresh.
   */
  lemma InvalidateCanLoseRace() returns (trace: seq<State>, steps: seq<Step>)
    ensures IsRun(trace, steps) && Init(trace[0])
    ensures steps == [GetMiss(0, "f"), StatFile(0, false), ReadFile(0), WriteFile("f"), Invalidate("f"),
                      StoreEntry(0, 0, None)]
    ensures "f" in trace[6].entries && !Current(trace[6], "f")
  {
    var s0 := State(map["f" := 1], 1, map[], map[0 := Idle], 8, 60);
    var loading, before := LoadUpToStore(s0, "f", 0);
    var s3 := loading[3];
    var s4 := s3.(disk := s3.disk["f" := 2], clock := 2);
    var s5 := s4.(entries := s4.entries - {"f"});
    assert s5.entries == map[];
    var s6 := At(s5, 0, Idle).(entries := s5.entries["f" := Entry(1, 1, 0)]);
    trace := loading + [s4, s5, s6];
    steps := before + [WriteFile("f"), Invalidate("f"), StoreEntry(0, 0, None)];
    assert Next(s3, WriteFile("f"), s4) && Next(s4, Invalidate("f"), s5) && Next(s5, StoreEntry(0, 0, None), s6);
    hide Next, At;
    forall i | 0 <= i < |steps| ensures Next(trace[i], steps[i], trace[i + 1]) {
      if i < 3 {
        assert Next(loading[i], before[i], loading[i + 1]);
      }
    }
  }
}
