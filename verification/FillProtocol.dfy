/** Everything that runs concurrently around the read caches of a mount: readers, the filler
    tasks they start, device events, closes, and teardown. Each mutex-protected step of
    src/fs.rs, src/fill.rs and src/sparse_cache.rs is one atomic `Step`; a run is any sequence of
    enabled steps. */
module FillProtocol {
  import opened Basics
  import opened SparseCaches
  import opened Sequences

  type CacheId = nat
  type TaskId = nat
  type ReaderId = nat
  type FileHandle = nat
  type Inode = nat

  /** A shared cache, the object it stands for and the inode it was made for. `owner` is a
      history variable: the task whose `start_fill` was granted and has not published yet. */
  datatype Cache = Cache(shared: Shared, content: seq<byte>, inode: Inode, owner: Option<TaskId>)

  /** Where a fill is. `Claimed` and `Opening` run on the reader's thread, the rest on the
      spawned task, except that a fill whose transfer could not be opened is `Published` on the
      reader's thread. */
  datatype Phase = Claimed | Opening | Checking | Pulling | Cancelling | Published | Cleaning {
    /** Holds the cache's fill slot. */
    predicate Owns() {
      Claimed? || Opening? || Checking? || Pulling? || Cancelling?
    }

    /** Between `register` and `finished`. */
    predicate Registered() {
      Opening? || Checking? || Pulling? || Cancelling? || Published?
    }

    /** Has, or is about to have, a transfer open on the device. */
    predicate InFlight() {
      Opening? || Checking? || Pulling? || Cancelling?
    }
  }

  datatype Task = Task(
    cache: CacheId, inode: Inode, reader: ReaderId, phase: Phase, spawned: bool,
    filler: Filler, pos: nat)

  datatype ReaderPhase = Fetching | Ensuring | Starting(task: TaskId) | Waiting | Recovering

  datatype Reader = Reader(
    fh: FileHandle, inode: Inode, cache: CacheId, offset: u64, size: u64, retries: nat,
    phase: ReaderPhase)

  /** A data reply that went out. */
  datatype Served = Served(cache: CacheId, offset: u64, size: u64, bytes: seq<byte>)

  datatype State = State(
    caches: map<CacheId, Cache>,
    readCache: map<Inode, CacheId>,
    open: map<FileHandle, Inode>,
    readers: map<ReaderId, Reader>,
    tasks: map<TaskId, Task>,
    live: seq<CacheId>,
    stopping: bool,
    stopReturned: bool,
    served: seq<Served>)

  const INITIAL := State(map[], map[], map[], map[], map[], [], false, false, [])

  /** The kernel's calls, the device's events and teardown. */
  datatype KernelStep =
    | Open(fh: FileHandle, inode: Inode)
    | Release(fh: FileHandle)
    | InfoChanged(inodes: set<Inode>)
    | BeginStop
    | StopSucceeds

  /** The steps of one `read`. */
  datatype ReadStep =
    | Begin(fh: FileHandle, offset: u64, size: u64, ranged: bool,
            c: CacheId, content: seq<byte>, total: u64)
    | Fetch(at: u64, length: nat, local: LocalWrite)
    | EndRanged
    | StartFilling(t: TaskId)
    | Poll
    | Recover(sessionBack: bool)

  /** The ways a registered fill gives its slot back. */
  datatype Ending = NotOpened(linkLost: bool) | CancelDone | StreamBroken(linkLost: bool) | EndOfStream

  /** The steps of one fill. */
  datatype FillStep =
    | Register
    | OpenSucceeds
    | SeeStop
    | CheckPasses
    | TakeChunk(length: nat, local: LocalWrite)
    | End(how: Ending)
    | ReportFinished
    | CleanUp

  datatype Step =
    | Kernel(kernel: KernelStep)
    | Read(r: ReaderId, read: ReadStep)
    | Fill(t: TaskId, fill: FillStep)

  // ---------------------------------------------------------------------------------------
  // The transition function

  predicate TaskAt(s: State, t: TaskId, phase: Phase) {
    t in s.tasks && s.tasks[t].phase == phase && s.tasks[t].cache in s.caches
  }

  predicate ReaderAt(s: State, r: ReaderId, phase: ReaderPhase) {
    r in s.readers && s.readers[r].phase == phase && s.readers[r].cache in s.caches
  }

  /** Whether any handle is open on the inode. */
  predicate IsOpen(open: map<FileHandle, Inode>, inode: Inode) {
    exists fh :: fh in open && open[fh] == inode
  }

  function SharedOf(s: State, c: CacheId): Shared
    requires c in s.caches
  {
    s.caches[c].shared
  }

  function WithShared(s: State, c: CacheId, shared: Shared): State
    requires c in s.caches
  {
    s.(caches := s.caches[c := s.caches[c].(shared := shared)])
  }

  function WithOwner(s: State, c: CacheId, shared: Shared, owner: Option<TaskId>): State
    requires c in s.caches
  {
    s.(caches := s.caches[c := s.caches[c].(shared := shared, owner := owner)])
  }

  function WithPhase(s: State, t: TaskId, phase: Phase): State
    requires t in s.tasks
  {
    s.(tasks := s.tasks[t := s.tasks[t].(phase := phase)])
  }

  function WithReaderPhase(s: State, r: ReaderId, phase: ReaderPhase): State {
    if r in s.readers then s.(readers := s.readers[r := s.readers[r].(phase := phase)]) else s
  }

  /** The fill gives its slot back and can no longer be told to do anything. */
  function Publish(s: State, t: TaskId, shared: Shared): State
    requires t in s.tasks && s.tasks[t].cache in s.caches
  {
    WithPhase(WithOwner(s, s.tasks[t].cache, shared, None), t, Published)
  }

  /** A fill on the reader's thread is over: its reader goes on to wait. */
  function Discard(s: State, t: TaskId): State
    requires t in s.tasks
  {
    WithReaderPhase(s.(tasks := s.tasks - {t}), s.tasks[t].reader, Waiting)
  }

  function AskedToStop(caches: map<CacheId, Cache>, live: seq<CacheId>): (r: map<CacheId, Cache>)
    ensures r.Keys == caches.Keys
  {
    map c | c in caches ::
      if c in live then caches[c].(shared := caches[c].shared.(stop := true)) else caches[c]
  }

  ghost predicate KernelEnabled(s: State, step: KernelStep) {
    match step
    case Open(fh, _) => fh !in s.open
    // The kernel releases a handle once no read on it is running.
    case Release(fh) => fh in s.open && forall r :: r in s.readers ==> s.readers[r].fh != fh
    case InfoChanged(_) => true
    case BeginStop => !s.stopping
    case StopSucceeds => s.stopping && s.live == []
  }

  ghost function KernelApply(s: State, step: KernelStep): (s': State)
    requires KernelEnabled(s, step)
    ensures s.stopReturned ==> s'.stopReturned
  {
    match step
    case Open(fh, inode) => s.(open := s.open[fh := inode])
    case Release(fh) => Released(s, fh)
    case InfoChanged(inodes) => s.(readCache := s.readCache - inodes)
    case BeginStop => s.(stopping := true, caches := AskedToStop(s.caches, s.live))
    case StopSucceeds => s.(stopReturned := true)
  }

  ghost predicate ReadEnabled(s: State, r: ReaderId, step: ReadStep) {
    match step
    case Begin(fh, _, size, _, c, _, _) =>
      r !in s.readers && fh in s.open && c !in s.caches && size > 0
    case Fetch(at, length, _) =>
      ReaderAt(s, r, Fetching) && CanStore(s.caches[s.readers[r].cache], at, length)
    case EndRanged => ReaderAt(s, r, Fetching) && SharedOf(s, s.readers[r].cache).cache.Valid()
    case StartFilling(t) => ReaderAt(s, r, Ensuring) && t !in s.tasks
    case Poll => ReaderAt(s, r, Waiting) && SharedOf(s, s.readers[r].cache).cache.Valid()
    case Recover(_) => ReaderAt(s, r, Recovering)
  }

  ghost function ReadApply(s: State, r: ReaderId, step: ReadStep): (s': State)
    requires ReadEnabled(s, r, step)
    ensures s.stopReturned ==> s'.stopReturned
  {
    match step
    case Begin(fh, offset, size, ranged, c, content, total) =>
      ReadBegun(s, r, fh, offset, size, ranged, c, content, total)
    case Fetch(at, length, local) =>
      var c := s.readers[r].cache;
      WithShared(s, c, AfterFetch(s.caches[c], at, length, local))
    case EndRanged => RangedEnded(s, r)
    case StartFilling(t) => FillStarted(s, r, t)
    case Poll => Polled(s, r)
    case Recover(sessionBack) => Recovered(s, r, sessionBack)
  }

  predicate FillEnabled(s: State, t: TaskId, step: FillStep) {
    match step
    case Register => TaskAt(s, t, Claimed)
    case OpenSucceeds => TaskAt(s, t, Opening)
    case SeeStop => TaskAt(s, t, Checking) && SharedOf(s, s.tasks[t].cache).stop
    case CheckPasses => TaskAt(s, t, Checking) && !SharedOf(s, s.tasks[t].cache).stop
    case TakeChunk(length, _) =>
      TaskAt(s, t, Pulling) && CanStore(s.caches[s.tasks[t].cache], s.tasks[t].pos, length)
    case End(how) => TaskAt(s, t, EndsFrom(how))
    case ReportFinished => TaskAt(s, t, Published)
    case CleanUp => TaskAt(s, t, Cleaning)
  }

  function FillApply(s: State, t: TaskId, step: FillStep): (s': State)
    requires FillEnabled(s, t, step)
    ensures s.stopReturned ==> s'.stopReturned
  {
    match step
    case Register => RegisteredFill(s, t)
    case OpenSucceeds => Spawned(s, t)
    case SeeStop => WithPhase(s, t, Cancelling)
    case CheckPasses => WithPhase(s, t, Pulling)
    case TakeChunk(length, local) => ChunkTaken(s, t, length, local)
    case End(how) => Publish(s, t, Verdict(how, s.tasks[t].filler, SharedOf(s, s.tasks[t].cache)))
    case ReportFinished => FinishReported(s, t)
    case CleanUp => CleanedUp(s, t)
  }

  ghost predicate Enabled(s: State, step: Step) {
    match step
    case Kernel(kernel) => KernelEnabled(s, kernel)
    case Read(r, read) => ReadEnabled(s, r, read)
    case Fill(t, fill) => FillEnabled(s, t, fill)
  }

  ghost function Apply(s: State, step: Step): (s': State)
    requires Enabled(s, step)
    ensures s.stopReturned ==> s'.stopReturned
  {
    match step
    case Kernel(kernel) => KernelApply(s, kernel)
    case Read(r, read) => ReadApply(s, r, read)
    case Fill(t, fill) => FillApply(s, t, fill)
  }

  function EndsFrom(how: Ending): Phase {
    match how
    case NotOpened(_) => Opening
    case CancelDone => Cancelling
    case StreamBroken(_) => Pulling
    case EndOfStream => Pulling
  }

  /** What a fill publishes when it ends. */
  function Verdict(how: Ending, filler: Filler, shared: Shared): Shared {
    match how
    case NotOpened(linkLost) => Fail(shared, Failure(OpenFailed, linkLost))
    case CancelDone => Fail(shared, Failure(Stopping, false))
    case StreamBroken(linkLost) => Fail(shared, Failure(StreamBroke, linkLost))
    case EndOfStream => Conclude(filler, shared)
  }

  /** The device has `length` bytes of the object to give from `at`, and the cache can take them. */
  predicate CanStore(cache: Cache, at: nat, length: nat) {
    at + length <= |cache.content| && |cache.shared.cache.bytes| == cache.shared.cache.total
    && forall x :: x in cache.shared.cache.populated ==> x < cache.shared.cache.total
  }

  /** The ranged path stores what the device answered. */
  function AfterFetch(cache: Cache, at: u64, length: nat, local: LocalWrite): Shared
    requires CanStore(cache, at, length)
  {
    cache.shared.(
      cache := CacheWrite(cache.shared.cache, at, cache.content[at..at + length], local).0)
  }

  /** The filler stores the next `length` bytes of its stream. */
  function AfterChunk(task: Task, cache: Cache, length: nat, local: LocalWrite): (r: (Filler, Shared))
    requires CanStore(cache, task.pos, length)
  {
    Absorb(task.filler, cache.shared, cache.content[task.pos..task.pos + length], local)
  }

  /** A step that is neither a fill's nor the tracker's. */
  ghost predicate LeavesFills(s: State, s': State) {
    && s'.tasks == s.tasks && s'.live == s.live
    && s'.stopping == s.stopping && s'.stopReturned == s.stopReturned
  }

  /** `release`, with `drop_read_cache_if_unused`. */
  ghost function Released(s: State, fh: FileHandle): State
    requires fh in s.open
  {
    var inode := s.open[fh];
    var open := s.open - {fh};
    var filling := inode in s.readCache && s.readCache[inode] in s.caches
                   && SharedOf(s, s.readCache[inode]).fill.Running?;
    s.(open := open,
       readCache := if IsOpen(open, inode) || filling then s.readCache else s.readCache - {inode})
  }

  /** The transfer is open: its task takes over and the reader goes on to wait. */
  function Spawned(s: State, t: TaskId): State
    requires t in s.tasks
  {
    WithReaderPhase(
      s.(tasks := s.tasks[t := s.tasks[t].(phase := Checking, spawned := true)]),
      s.tasks[t].reader, Waiting)
  }

  /** The filler drops the cache that only it kept. */
  function CleanedUp(s: State, t: TaskId): State
    requires t in s.tasks
  {
    var inode := s.tasks[t].inode;
    s.(tasks := s.tasks - {t},
       readCache := if IsOpen(s.open, inode) then s.readCache else s.readCache - {inode})
  }

  function NewCache(content: seq<byte>, total: u64, inode: Inode): Cache {
    Cache(Shared(CacheView(seq(total, _ => 0), {}, total), Idle, false), content, inode, None)
  }

  /** A read joins the inode's cache or makes one. */
  ghost function ReadBegun(
    s: State, r: ReaderId, fh: FileHandle, offset: u64, size: u64, ranged: bool,
    c: CacheId, content: seq<byte>, total: u64): (s': State)
    requires fh in s.open
    ensures LeavesFills(s, s')
  {
    var inode := s.open[fh];
    var phase := if ranged then Fetching else Ensuring;
    if inode in s.readCache then
      s.(readers := s.readers[r := Reader(fh, inode, s.readCache[inode], offset, size, 1, phase)])
    else
      s.(readers := s.readers[r := Reader(fh, inode, c, offset, size, 1, phase)],
         caches := s.caches[c := NewCache(content, total, inode)],
         readCache := s.readCache[inode := c])
  }

  ghost function Replied(s: State, r: ReaderId, bytes: seq<byte>): (s': State)
    requires r in s.readers
    ensures LeavesFills(s, s')
  {
    var reader := s.readers[r];
    s.(readers := s.readers - {r},
       served := s.served + [Served(reader.cache, reader.offset, reader.size, bytes)])
  }

  /** The ranged read's final check. */
  ghost function RangedEnded(s: State, r: ReaderId): (s': State)
    requires ReaderAt(s, r, Fetching) && SharedOf(s, s.readers[r].cache).cache.Valid()
    ensures LeavesFills(s, s')
  {
    var reader := s.readers[r];
    var cache := SharedOf(s, reader.cache).cache;
    if Covered(cache, reader.offset, reader.size)
    then Replied(s, r, CacheRead(cache, reader.offset, reader.size))
    else s.(readers := s.readers - {r})
  }

  ghost function FillStarted(s: State, r: ReaderId, t: TaskId): (s': State)
    requires ReaderAt(s, r, Ensuring)
    ensures LeavesFills(s, s'.(tasks := s.tasks))
    ensures s'.tasks == s.tasks || (s'.tasks.Keys == s.tasks.Keys + {t} && s'.tasks[t].phase.Claimed?
                                    && forall t' :: t' in s.tasks && t' != t ==> s'.tasks[t'] == s.tasks[t'])
  {
    var reader := s.readers[r];
    var (shared, started) := StartFill(SharedOf(s, reader.cache));
    if started then
      var task := Task(reader.cache, reader.inode, r, Claimed, false, Filler(0, None), 0);
      WithReaderPhase(
        WithOwner(s, reader.cache, shared, Some(t)).(tasks := s.tasks[t := task]), r, Starting(t))
    else
      WithReaderPhase(s, r, Waiting)
  }

  /** One wake-up of `wait_and_read`, and what `read` does with its answer. */
  ghost function Polled(s: State, r: ReaderId): (s': State)
    requires ReaderAt(s, r, Waiting) && SharedOf(s, s.readers[r].cache).cache.Valid()
    ensures LeavesFills(s, s')
  {
    var reader := s.readers[r];
    match PollRead(SharedOf(s, reader.cache), reader.offset, reader.size)
    case Blocked => s
    case Data(bytes) => Replied(s, r, bytes)
    case Gone(failure) =>
      if failure.linkLost && reader.retries > 0 then WithReaderPhase(s, r, Recovering)
      else s.(readers := s.readers - {r})
  }

  ghost function Recovered(s: State, r: ReaderId, sessionBack: bool): (s': State)
    requires ReaderAt(s, r, Recovering)
    ensures LeavesFills(s, s')
  {
    var reader := s.readers[r];
    var (shared, reset) := ResetAfterLinkLoss(SharedOf(s, reader.cache));
    if sessionBack && reset then
      WithShared(s, reader.cache, shared).(
        readers := s.readers[r := reader.(phase := Ensuring,
                                          retries := if reader.retries > 0 then reader.retries - 1 else 0)])
    else
      s.(readers := s.readers - {r})
  }

  function RegisteredFill(s: State, t: TaskId): State
    requires TaskAt(s, t, Claimed)
  {
    var task := s.tasks[t];
    if s.stopping then
      Discard(Publish(s, t, Fail(SharedOf(s, task.cache), Failure(Stopping, false))), t)
    else
      WithPhase(s, t, Opening).(live := s.live + [task.cache])
  }

  function ChunkTaken(s: State, t: TaskId, length: nat, local: LocalWrite): State
    requires TaskAt(s, t, Pulling)
    requires CanStore(s.caches[s.tasks[t].cache], s.tasks[t].pos, length)
  {
    var task := s.tasks[t];
    var (filler, shared) := AfterChunk(task, s.caches[task.cache], length, local);
    WithShared(s, task.cache, shared).(
      tasks := s.tasks[t := task.(filler := filler, pos := task.pos + length, phase := Checking)])
  }

  function FinishReported(s: State, t: TaskId): State
    requires TaskAt(s, t, Published)
  {
    var task := s.tasks[t];
    var s' := s.(live := Without(s.live, task.cache));
    if task.spawned then WithPhase(s', t, Cleaning)
    else Discard(s', t)
  }

  // ---------------------------------------------------------------------------------------
  // The invariants, each over the parts of the state it is about

  ghost predicate KeysLinked(readCache: map<Inode, CacheId>, caches: map<CacheId, Cache>) {
    forall i :: i in readCache ==> readCache[i] in caches && caches[readCache[i]].inode == i
  }

  /** A running read has its cache and its handle. */
  ghost predicate ReadersLinked(
    readers: map<ReaderId, Reader>, caches: map<CacheId, Cache>, open: map<FileHandle, Inode>)
  {
    forall r :: r in readers ==>
      && readers[r].cache in caches
      && caches[readers[r].cache].inode == readers[r].inode
      && readers[r].fh in open && open[readers[r].fh] == readers[r].inode
  }

  ghost predicate TasksLinked(tasks: map<TaskId, Task>, caches: map<CacheId, Cache>) {
    forall t :: t in tasks ==>
      tasks[t].cache in caches && caches[tasks[t].cache].inode == tasks[t].inode
  }

  /** A fill that has not been spawned still has its reader, and so an open handle. */
  ghost predicate TasksPlaced(tasks: map<TaskId, Task>, readers: map<ReaderId, Reader>) {
    forall t :: t in tasks ==> Placed(t, tasks[t], readers)
  }

  ghost predicate Placed(t: TaskId, task: Task, readers: map<ReaderId, Reader>) {
    && (task.phase.Claimed? || task.phase.Opening? ==> !task.spawned)
    && (task.phase.Checking? || task.phase.Pulling? ==> task.spawned)
    && (task.phase.Cancelling? || task.phase.Cleaning? ==> task.spawned)
    && (!task.spawned ==>
          && task.reader in readers
          && readers[task.reader].inode == task.inode
          && readers[task.reader].phase == Starting(t))
  }

  /** Populated bytes are device bytes. */
  ghost predicate Truthful(caches: map<CacheId, Cache>) {
    forall c :: c in caches ==> Agrees(caches[c].shared.cache, caches[c].content)
  }

  /** A slot is taken exactly while one task owns it. */
  ghost predicate SlotsOwned(tasks: map<TaskId, Task>, caches: map<CacheId, Cache>) {
    && (forall t :: t in tasks && tasks[t].phase.Owns() ==>
          tasks[t].cache in caches && caches[tasks[t].cache].owner == Some(t))
    && (forall c :: c in caches ==> SlotOwned(c, caches[c], tasks))
  }

  ghost predicate SlotOwned(c: CacheId, cache: Cache, tasks: map<TaskId, Task>) {
    match cache.owner
    case None => !cache.shared.fill.Running?
    case Some(t) =>
      cache.shared.fill.Running? && t in tasks && tasks[t].phase.Owns() && tasks[t].cache == c
  }

  /** Every fill that has not failed has put down all it has taken. */
  ghost predicate FillersOk(tasks: map<TaskId, Task>, caches: map<CacheId, Cache>) {
    forall t :: t in tasks && tasks[t].phase.Owns() && tasks[t].cache in caches ==>
      TaskFillerOk(tasks[t], caches[tasks[t].cache])
  }

  ghost predicate TaskFillerOk(task: Task, cache: Cache) {
    task.pos <= |cache.content| && FillerOk(task.filler, cache.shared, task.pos)
  }

  ghost predicate CompleteIsFull(caches: map<CacheId, Cache>) {
    forall c :: c in caches ==> FullIfComplete(caches[c].shared)
  }

  ghost predicate FullIfComplete(shared: Shared) {
    shared.fill.Complete? ==> Interval(0, shared.cache.total) <= shared.cache.populated
  }

  /** Every reply was exactly the device's slice. */
  ghost predicate ServedRight(served: seq<Served>, caches: map<CacheId, Cache>) {
    forall i :: 0 <= i < |served| ==> IsDeviceSlice(served[i], caches)
  }

  ghost predicate IsDeviceSlice(v: Served, caches: map<CacheId, Cache>) {
    && v.cache in caches
    && var content, total := caches[v.cache].content, caches[v.cache].shared.cache.total;
    && (v.offset < total ==> Min(v.offset + v.size, total) <= |content|)
    && v.bytes == ObjectSlice(content, total, v.offset, v.size)
  }

  /** No read cache outlives both the handles on its file and the filler that will drop it. */
  ghost predicate NoLeak(
    readCache: map<Inode, CacheId>, open: map<FileHandle, Inode>, tasks: map<TaskId, Task>)
  {
    forall i :: i in readCache ==> IsOpen(open, i) || HasCleaner(tasks, i)
  }

  ghost predicate HasCleaner(tasks: map<TaskId, Task>, i: Inode) {
    exists t :: t in tasks && tasks[t].spawned && tasks[t].inode == i
  }

  ghost predicate Inv(s: State) {
    && KeysLinked(s.readCache, s.caches)
    && ReadersLinked(s.readers, s.caches, s.open)
    && TasksLinked(s.tasks, s.caches)
    && TasksPlaced(s.tasks, s.readers)
    && Truthful(s.caches)
    && SlotsOwned(s.tasks, s.caches)
    && FillersOk(s.tasks, s.caches)
    && CompleteIsFull(s.caches)
    && ServedRight(s.served, s.caches)
    && NoLeak(s.readCache, s.open, s.tasks)
    && (forall r :: r in s.readers ==> s.readers[r].size > 0)
  }

  /** What no step ever changes about a cache, and that it only gains bytes. */
  ghost predicate Grows(caches: map<CacheId, Cache>, caches': map<CacheId, Cache>) {
    forall c :: c in caches ==> c in caches' && CacheGrows(caches[c], caches'[c])
  }

  ghost predicate CacheGrows(cache: Cache, cache': Cache) {
    && cache'.content == cache.content && cache'.inode == cache.inode
    && cache'.shared.cache.total == cache.shared.cache.total
    && cache.shared.cache.populated <= cache'.shared.cache.populated
    && (cache.shared.stop ==> cache'.shared.stop)
  }

  lemma GrowthKeepsLinks(s: State, caches: map<CacheId, Cache>)
    requires Grows(s.caches, caches)
    requires KeysLinked(s.readCache, s.caches) && ReadersLinked(s.readers, s.caches, s.open)
    requires TasksLinked(s.tasks, s.caches) && ServedRight(s.served, s.caches)
    ensures KeysLinked(s.readCache, caches) && ReadersLinked(s.readers, caches, s.open)
    ensures TasksLinked(s.tasks, caches) && ServedRight(s.served, caches)
  {
    forall i | 0 <= i < |s.served|
      ensures IsDeviceSlice(s.served[i], caches)
    {
      assert IsDeviceSlice(s.served[i], s.caches);
    }
  }

  /** One cache changes, truthfully. */
  lemma OneCacheGrows(caches: map<CacheId, Cache>, c: CacheId, cache: Cache)
    requires c in caches && CacheGrows(caches[c], cache)
    requires Truthful(caches) && CompleteIsFull(caches)
    requires Agrees(cache.shared.cache, cache.content) && FullIfComplete(cache.shared)
    ensures Grows(caches, caches[c := cache])
    ensures Truthful(caches[c := cache]) && CompleteIsFull(caches[c := cache])
  {
  }

  lemma PublishKeeps(s: State, t: TaskId, shared: Shared)
    requires Inv(s) && t in s.tasks && s.tasks[t].phase.Owns() && s.tasks[t].cache in s.caches
    requires shared.cache == SharedOf(s, s.tasks[t].cache).cache
    requires shared.stop == SharedOf(s, s.tasks[t].cache).stop
    requires !shared.fill.Running? && FullIfComplete(shared)
    ensures Inv(Publish(s, t, shared)) && Grows(s.caches, Publish(s, t, shared).caches)
  {
    var c := s.tasks[t].cache;
    var cache := s.caches[c].(shared := shared, owner := None);
    OneCacheGrows(s.caches, c, cache);
    GrowthKeepsLinks(s, s.caches[c := cache]);
    var s' := Publish(s, t, shared);
    SlotsAfterPublish(s.tasks, s.caches, t, shared);
    TaskMoves(s, t, s.tasks[t].(phase := Published));
  }

  lemma SlotsAfterPublish(tasks: map<TaskId, Task>, caches: map<CacheId, Cache>, t: TaskId, shared: Shared)
    requires SlotsOwned(tasks, caches) && FillersOk(tasks, caches)
    requires t in tasks && tasks[t].phase.Owns() && !shared.fill.Running?
    ensures var c := tasks[t].cache;
      var tasks', caches' := tasks[t := tasks[t].(phase := Published)],
                             caches[c := caches[c].(shared := shared, owner := None)];
      SlotsOwned(tasks', caches') && FillersOk(tasks', caches')
  {
  }

  /** A task changes without losing its place. */
  lemma TaskMoves(s: State, t: TaskId, task: Task)
    requires TasksLinked(s.tasks, s.caches) && TasksPlaced(s.tasks, s.readers)
    requires NoLeak(s.readCache, s.open, s.tasks)
    requires t in s.tasks && task.cache == s.tasks[t].cache && task.inode == s.tasks[t].inode
    requires Placed(t, task, s.readers) && (s.tasks[t].spawned ==> task.spawned)
    ensures TasksLinked(s.tasks[t := task], s.caches) && TasksPlaced(s.tasks[t := task], s.readers)
    ensures NoLeak(s.readCache, s.open, s.tasks[t := task])
  {
    forall i | i in s.readCache && HasCleaner(s.tasks, i)
      ensures HasCleaner(s.tasks[t := task], i)
    {
      var t' :| t' in s.tasks && s.tasks[t'].spawned && s.tasks[t'].inode == i;
      assert t' in s.tasks[t := task];
    }
  }

  /** Caches change while no slot changes hands. */
  lemma QuietGrowth(tasks: map<TaskId, Task>, caches: map<CacheId, Cache>, caches': map<CacheId, Cache>)
    requires Grows(caches, caches') && SlotsOwned(tasks, caches) && FillersOk(tasks, caches)
    requires forall c :: c in caches' && c in caches ==>
        caches'[c].owner == caches[c].owner
        && (caches'[c].shared.fill.Running? <==> caches[c].shared.fill.Running?)
    requires forall c :: c in caches' && c !in caches ==>
        caches'[c].owner == None && !caches'[c].shared.fill.Running?
    ensures SlotsOwned(tasks, caches') && FillersOk(tasks, caches')
  {
    forall c | c in caches'
      ensures SlotOwned(c, caches'[c], tasks)
    {
      if c in caches {
        assert SlotOwned(c, caches[c], tasks);
      }
    }
    forall t | t in tasks && tasks[t].phase.Owns() && tasks[t].cache in caches'
      ensures TaskFillerOk(tasks[t], caches'[tasks[t].cache])
    {
      assert TaskFillerOk(tasks[t], caches[tasks[t].cache]);
    }
  }

  lemma SharedChangeKeeps(s: State, c: CacheId, shared: Shared)
    requires Inv(s) && c in s.caches && CacheGrows(s.caches[c], s.caches[c].(shared := shared))
    requires Agrees(shared.cache, s.caches[c].content) && FullIfComplete(shared)
    requires shared.fill.Running? <==> SharedOf(s, c).fill.Running?
    ensures Inv(WithShared(s, c, shared)) && Grows(s.caches, WithShared(s, c, shared).caches)
  {
    var cache := s.caches[c].(shared := shared);
    OneCacheGrows(s.caches, c, cache);
    GrowthKeepsLinks(s, s.caches[c := cache]);
    QuietGrowth(s.tasks, s.caches, s.caches[c := cache]);
  }

  /** A reader that no unspawned fill is waiting on moves on or leaves. */
  lemma ReaderLeaves(s: State, r: ReaderId)
    requires Inv(s) && r in s.readers && !s.readers[r].phase.Starting?
    ensures Inv(s.(readers := s.readers - {r}))
  {
    forall t | t in s.tasks
      ensures Placed(t, s.tasks[t], s.readers - {r})
    {
      assert Placed(t, s.tasks[t], s.readers);
    }
  }

  lemma ReaderMoves(s: State, r: ReaderId, reader: Reader)
    requires Inv(s) && r in s.readers && !s.readers[r].phase.Starting?
    requires reader.fh == s.readers[r].fh && reader.inode == s.readers[r].inode
    requires reader.cache == s.readers[r].cache && reader.size > 0
    ensures Inv(s.(readers := s.readers[r := reader]))
  {
    forall t | t in s.tasks
      ensures Placed(t, s.tasks[t], s.readers[r := reader])
    {
      assert Placed(t, s.tasks[t], s.readers);
    }
  }

  lemma ReplyKeeps(s: State, r: ReaderId)
    requires Inv(s) && r in s.readers && !s.readers[r].phase.Starting?
    requires Covered(SharedOf(s, s.readers[r].cache).cache, s.readers[r].offset, s.readers[r].size)
    ensures Inv(Replied(s, r, CacheRead(SharedOf(s, s.readers[r].cache).cache, s.readers[r].offset, s.readers[r].size)))
  {
    ReaderLeaves(s, r);
    var reader := s.readers[r];
    var cache := s.caches[reader.cache];
    CoveredReadIsDeviceSlice(cache.shared.cache, reader.offset, reader.size, cache.content);
  }

  lemma OpenKeeps(s: State, fh: FileHandle, inode: Inode)
    requires Inv(s) && fh !in s.open
    ensures Inv(s.(open := s.open[fh := inode]))
  {
    forall i | i in s.readCache && IsOpen(s.open, i)
      ensures IsOpen(s.open[fh := inode], i)
    {
      var fh' :| fh' in s.open && s.open[fh'] == i;
      assert fh' in s.open[fh := inode];
    }
  }

  /** A close drops one cache at most: its own file's, once the file has no handle left and nothing
      is filling it. */
  lemma ReleaseDropsUnused(s: State, fh: FileHandle)
    requires Inv(s) && fh in s.open
    ensures var kept := Released(s, fh).readCache;
      && kept.Keys <= s.readCache.Keys && (forall i :: i in kept ==> kept[i] == s.readCache[i])
      && (forall i :: i in s.readCache ==>
            (i !in kept <==> i == s.open[fh] && !IsOpen(s.open - {fh}, i)
                             && !SharedOf(s, s.readCache[i]).fill.Running?))
  {
  }

  lemma ReleaseKeeps(s: State, fh: FileHandle)
    requires Inv(s) && fh in s.open && forall r :: r in s.readers ==> s.readers[r].fh != fh
    ensures Inv(Released(s, fh))
  {
    var inode, open := s.open[fh], s.open - {fh};
    forall i | i in Released(s, fh).readCache
      ensures IsOpen(open, i) || HasCleaner(s.tasks, i)
    {
      if i != inode && IsOpen(s.open, i) {
        var fh' :| fh' in s.open && s.open[fh'] == i;
        assert fh' in open && open[fh'] == i;
      } else if i == inode && !IsOpen(open, i) {
        FillOutlivesClose(s, fh);
      }
    }
  }

  /** The cache that the last close leaves behind has a spawned filler. */
  lemma FillOutlivesClose(s: State, fh: FileHandle)
    requires Inv(s) && fh in s.open && forall r :: r in s.readers ==> s.readers[r].fh != fh
    requires s.open[fh] in s.readCache && SharedOf(s, s.readCache[s.open[fh]]).fill.Running?
    ensures IsOpen(s.open - {fh}, s.open[fh]) || HasCleaner(s.tasks, s.open[fh])
  {
    var c := s.readCache[s.open[fh]];
    assert SlotOwned(c, s.caches[c], s.tasks);
    var t := s.caches[c].owner.value;
    assert Placed(t, s.tasks[t], s.readers);
    if !s.tasks[t].spawned {
      var reader := s.readers[s.tasks[t].reader];
      assert IsOpen(s.open - {fh}, s.open[fh]) by {
        assert reader.fh in s.open - {fh};
      }
    }
  }

  lemma BeginReadKeeps(
    s: State, r: ReaderId, fh: FileHandle, offset: u64, size: u64, ranged: bool,
    c: CacheId, content: seq<byte>, total: u64)
    requires Inv(s) && r !in s.readers && fh in s.open && c !in s.caches && size > 0
    ensures Inv(ReadBegun(s, r, fh, offset, size, ranged, c, content, total))
    ensures Grows(s.caches, ReadBegun(s, r, fh, offset, size, ranged, c, content, total).caches)
  {
    var inode := s.open[fh];
    var phase := if ranged then Fetching else Ensuring;
    if inode in s.readCache {
      ReaderAppears(s, r, Reader(fh, inode, s.readCache[inode], offset, size, 1, phase));
    } else {
      var cache := NewCache(content, total, inode);
      CacheAppears(s, fh, c, cache);
      var s' := s.(caches := s.caches[c := cache], readCache := s.readCache[inode := c]);
      ReaderAppears(s', r, Reader(fh, inode, c, offset, size, 1, phase));
    }
  }

  lemma ReaderAppears(s: State, r: ReaderId, reader: Reader)
    requires Inv(s) && r !in s.readers && reader.size > 0
    requires reader.cache in s.caches && s.caches[reader.cache].inode == reader.inode
    requires reader.fh in s.open && s.open[reader.fh] == reader.inode
    ensures Inv(s.(readers := s.readers[r := reader]))
  {
    forall t | t in s.tasks
      ensures Placed(t, s.tasks[t], s.readers[r := reader])
    {
      assert Placed(t, s.tasks[t], s.readers);
    }
  }

  lemma CacheAppears(s: State, fh: FileHandle, c: CacheId, cache: Cache)
    requires Inv(s) && fh in s.open && c !in s.caches && s.open[fh] !in s.readCache
    requires cache.inode == s.open[fh] && cache.owner == None && cache.shared.fill.Idle?
    requires Agrees(cache.shared.cache, cache.content)
    ensures Inv(s.(caches := s.caches[c := cache], readCache := s.readCache[s.open[fh] := c]))
    ensures Grows(s.caches, s.caches[c := cache])
  {
    GrowthKeepsLinks(s, s.caches[c := cache]);
    QuietGrowth(s.tasks, s.caches, s.caches[c := cache]);
    assert IsOpen(s.open, s.open[fh]);
  }

  lemma StartFillingKeeps(s: State, r: ReaderId, t: TaskId)
    requires Inv(s) && ReaderAt(s, r, Ensuring) && t !in s.tasks
    ensures Inv(FillStarted(s, r, t)) && Grows(s.caches, FillStarted(s, r, t).caches)
  {
    var reader := s.readers[r];
    if SharedOf(s, reader.cache).fill.Idle? {
      ReaderMoves(s, r, reader.(phase := Starting(t)));
      var s' := s.(readers := s.readers[r := reader.(phase := Starting(t))]);
      var cache := s.caches[reader.cache].(
        shared := SharedOf(s, reader.cache).(fill := Running), owner := Some(t));
      ClaimKeeps(s', r, t, cache, Task(reader.cache, reader.inode, r, Claimed, false, Filler(0, None), 0));
    } else {
      ReaderMoves(s, r, reader.(phase := Waiting));
    }
  }

  /** The reader's claim on the slot, once it has committed to starting `t`. */
  lemma ClaimKeeps(s: State, r: ReaderId, t: TaskId, cache: Cache, task: Task)
    requires Inv(s) && ReaderAt(s, r, Starting(t)) && t !in s.tasks
    requires var c := s.readers[r].cache;
      && SharedOf(s, c).fill.Idle?
      && cache == s.caches[c].(shared := SharedOf(s, c).(fill := Running), owner := Some(t))
      && task == Task(c, s.readers[r].inode, r, Claimed, false, Filler(0, None), 0)
    ensures var caches := s.caches[task.cache := cache];
      Inv(s.(caches := caches, tasks := s.tasks[t := task])) && Grows(s.caches, caches)
  {
    OneCacheGrows(s.caches, task.cache, cache);
    GrowthKeepsLinks(s, s.caches[task.cache := cache]);
    SlotsAfterClaim(s.tasks, s.caches, t, task, cache);
    TaskAppears(s, t, task);
  }

  lemma SlotsAfterClaim(
    tasks: map<TaskId, Task>, caches: map<CacheId, Cache>, t: TaskId, task: Task, cache: Cache)
    requires SlotsOwned(tasks, caches) && FillersOk(tasks, caches) && t !in tasks
    requires task.cache in caches && !caches[task.cache].shared.fill.Running?
    requires task.phase.Owns() && task.filler == Filler(0, None) && task.pos == 0
    requires cache.shared.fill.Running? && cache.owner == Some(t)
    ensures SlotsOwned(tasks[t := task], caches[task.cache := cache])
    ensures FillersOk(tasks[t := task], caches[task.cache := cache])
  {
    assert SlotOwned(task.cache, caches[task.cache], tasks);
  }

  lemma TaskAppears(s: State, t: TaskId, task: Task)
    requires NoLeak(s.readCache, s.open, s.tasks) && t !in s.tasks
    ensures NoLeak(s.readCache, s.open, s.tasks[t := task])
  {
    forall i | i in s.readCache && HasCleaner(s.tasks, i)
      ensures HasCleaner(s.tasks[t := task], i)
    {
      var t' :| t' in s.tasks && s.tasks[t'].spawned && s.tasks[t'].inode == i;
      assert t' in s.tasks[t := task];
    }
  }

  lemma PollKeeps(s: State, r: ReaderId)
    requires Inv(s) && ReaderAt(s, r, Waiting)
    ensures Inv(Polled(s, r)) && Polled(s, r).caches == s.caches
  {
    var reader := s.readers[r];
    match PollRead(SharedOf(s, reader.cache), reader.offset, reader.size) {
      case Blocked =>
      case Data(bytes) => ReplyKeeps(s, r);
      case Gone(failure) =>
        if failure.linkLost && reader.retries > 0 {
          ReaderMoves(s, r, reader.(phase := Recovering));
        } else {
          ReaderLeaves(s, r);
        }
    }
  }

  predicate LostLink(fill: FillState) {
    fill.Failed? && fill.failure.linkLost
  }

  /** A recovery frees the slot exactly if the session is back and the fill failed by a lost link; no
      other fill, and no running one, is touched. */
  lemma RecoverFreesLostSlot(s: State, r: ReaderId, sessionBack: bool, c: CacheId)
    requires Inv(s) && ReaderAt(s, r, Recovering) && c in s.caches
    ensures var s' := Recovered(s, r, sessionBack);
      && c in s'.caches
      && if sessionBack && c == s.readers[r].cache && LostLink(SharedOf(s, c).fill)
         then SharedOf(s', c).fill.Idle? && s'.caches[c].owner.None?
         else s'.caches[c] == s.caches[c]
  {
    assert SlotOwned(c, s.caches[c], s.tasks);
  }

  lemma RecoverKeeps(s: State, r: ReaderId, sessionBack: bool)
    requires Inv(s) && ReaderAt(s, r, Recovering)
    ensures Inv(Recovered(s, r, sessionBack)) && Grows(s.caches, Recovered(s, r, sessionBack).caches)
  {
    var reader := s.readers[r];
    var (shared, reset) := ResetAfterLinkLoss(SharedOf(s, reader.cache));
    if sessionBack && reset {
      SharedChangeKeeps(s, reader.cache, shared);
      var retries := if reader.retries > 0 then reader.retries - 1 else 0;
      ReaderMoves(WithShared(s, reader.cache, shared), r, reader.(phase := Ensuring, retries := retries));
    } else {
      ReaderLeaves(s, r);
    }
  }

  /** A fill on the reader's thread is over: it goes, and its reader goes on waiting. */
  lemma UnspawnedEnds(s: State, t: TaskId)
    requires Inv(s) && t in s.tasks && !s.tasks[t].spawned && !s.tasks[t].phase.Owns()
    ensures Inv(Discard(s, t))
  {
    var r := s.tasks[t].reader;
    var tasks := s.tasks - {t};
    assert Placed(t, s.tasks[t], s.readers);
    forall t' | t' in tasks
      ensures Placed(t', tasks[t'], s.readers[r := s.readers[r].(phase := Waiting)])
    {
      assert Placed(t', s.tasks[t'], s.readers);
    }
    forall i | i in s.readCache && HasCleaner(s.tasks, i)
      ensures HasCleaner(tasks, i)
    {
      var t' :| t' in s.tasks && s.tasks[t'].spawned && s.tasks[t'].inode == i;
      assert t' in tasks;
    }
    SlotsWithout(s.tasks, s.caches, t);
  }

  lemma SlotsWithout(tasks: map<TaskId, Task>, caches: map<CacheId, Cache>, t: TaskId)
    requires SlotsOwned(tasks, caches) && FillersOk(tasks, caches)
    requires t in tasks && !tasks[t].phase.Owns()
    ensures SlotsOwned(tasks - {t}, caches) && FillersOk(tasks - {t}, caches)
  {
    forall c | c in caches
      ensures SlotOwned(c, caches[c], tasks - {t})
    {
      assert SlotOwned(c, caches[c], tasks);
    }
  }

  /** An owning task moves to another owning phase. */
  lemma OwnerMoves(s: State, t: TaskId, phase: Phase)
    requires Inv(s) && t in s.tasks && s.tasks[t].phase.Owns() && phase.Owns()
    requires Placed(t, s.tasks[t].(phase := phase), s.readers)
    ensures Inv(WithPhase(s, t, phase))
  {
    assert TaskFillerOk(s.tasks[t], s.caches[s.tasks[t].cache]);
    OwnerAdvances(s, t, s.tasks[t].(phase := phase));
  }

  lemma SlotsAfterMove(tasks: map<TaskId, Task>, caches: map<CacheId, Cache>, t: TaskId, task: Task)
    requires SlotsOwned(tasks, caches) && FillersOk(tasks, caches)
    requires t in tasks && task.cache == tasks[t].cache && task.cache in caches
    requires task.phase.Owns() == tasks[t].phase.Owns()
    requires task.phase.Owns() ==> TaskFillerOk(task, caches[task.cache])
    ensures SlotsOwned(tasks[t := task], caches) && FillersOk(tasks[t := task], caches)
  {
    forall c | c in caches
      ensures SlotOwned(c, caches[c], tasks[t := task])
    {
      assert SlotOwned(c, caches[c], tasks);
    }
  }

  lemma RegisterKeeps(s: State, t: TaskId)
    requires Inv(s) && TaskAt(s, t, Claimed)
    ensures Inv(RegisteredFill(s, t)) && Grows(s.caches, RegisteredFill(s, t).caches)
  {
    assert Placed(t, s.tasks[t], s.readers);
    if s.stopping {
      RefusalKeeps(s, t);
    } else {
      OwnerMoves(s, t, Opening);
    }
  }

  /** Teardown has begun: the claim is given back before any transfer is opened. */
  lemma RefusalKeeps(s: State, t: TaskId)
    requires Inv(s) && TaskAt(s, t, Claimed) && s.stopping
    ensures Inv(RegisteredFill(s, t)) && Grows(s.caches, RegisteredFill(s, t).caches)
  {
    assert Placed(t, s.tasks[t], s.readers);
    var shared := Fail(SharedOf(s, s.tasks[t].cache), Failure(Stopping, false));
    PublishKeeps(s, t, shared);
    UnspawnedEnds(Publish(s, t, shared), t);
  }

  lemma OpenSucceedsKeeps(s: State, t: TaskId)
    requires Inv(s) && TaskAt(s, t, Opening)
    ensures Inv(Spawned(s, t))
  {
    var r := s.tasks[t].reader;
    assert Placed(t, s.tasks[t], s.readers);
    var task := s.tasks[t].(phase := Checking, spawned := true);
    TaskMoves(s, t, task);
    SlotsAfterMove(s.tasks, s.caches, t, task);
    PlacesAfterSpawn(s.tasks, s.readers, t, task);
  }

  /** Once its fill is spawned, the reader that started it is free. */
  lemma PlacesAfterSpawn(tasks: map<TaskId, Task>, readers: map<ReaderId, Reader>, t: TaskId, task: Task)
    requires TasksPlaced(tasks, readers) && t in tasks && task.spawned && Placed(t, task, readers)
    requires !tasks[t].spawned
    ensures TasksPlaced(
      tasks[t := task], readers[tasks[t].reader := readers[tasks[t].reader].(phase := Waiting)])
  {
    var r := tasks[t].reader;
    assert Placed(t, tasks[t], readers);
    var tasks' := tasks[t := task];
    forall t' | t' in tasks'
      ensures Placed(t', tasks'[t'], readers[r := readers[r].(phase := Waiting)])
    {
      assert t' in tasks && Placed(t', tasks[t'], readers);
    }
  }

  lemma FetchStores(cache: Cache, at: u64, length: nat, local: LocalWrite)
    requires Agrees(cache.shared.cache, cache.content) && FullIfComplete(cache.shared)
    requires CanStore(cache, at, length)
    ensures var shared := AfterFetch(cache, at, length, local);
      && CacheGrows(cache, cache.(shared := shared))
      && Agrees(shared.cache, cache.content) && FullIfComplete(shared)
  {
    WriteKeepsAgreement(cache.shared.cache, at, cache.content[at..at + length], local, cache.content);
  }

  lemma FetchKeeps(s: State, r: ReaderId, at: u64, length: nat, local: LocalWrite)
    requires Inv(s) && ReaderAt(s, r, Fetching)
    requires CanStore(s.caches[s.readers[r].cache], at, length)
    ensures var c := s.readers[r].cache;
      var s' := WithShared(s, c, AfterFetch(s.caches[c], at, length, local));
      Inv(s') && Grows(s.caches, s'.caches)
  {
    var c := s.readers[r].cache;
    FetchStores(s.caches[c], at, length, local);
    SharedChangeKeeps(s, c, AfterFetch(s.caches[c], at, length, local));
  }

  lemma ChunkStores(task: Task, cache: Cache, length: nat, local: LocalWrite)
    requires Agrees(cache.shared.cache, cache.content) && FullIfComplete(cache.shared)
    requires cache.shared.fill.Running? && TaskFillerOk(task, cache)
    requires CanStore(cache, task.pos, length)
    ensures var (filler, shared) := AfterChunk(task, cache, length, local);
      && CacheGrows(cache, cache.(shared := shared)) && shared.fill.Running?
      && Agrees(shared.cache, cache.content) && FullIfComplete(shared)
      && TaskFillerOk(task.(filler := filler, pos := task.pos + length), cache.(shared := shared))
  {
    AbsorbKeepsFiller(task.filler, cache.shared, task.pos, length, local, cache.content);
  }

  lemma ChunkKeeps(s: State, t: TaskId, length: nat, local: LocalWrite)
    requires Inv(s) && TaskAt(s, t, Pulling)
    requires CanStore(s.caches[s.tasks[t].cache], s.tasks[t].pos, length)
    ensures Inv(ChunkTaken(s, t, length, local))
    ensures Grows(s.caches, ChunkTaken(s, t, length, local).caches)
  {
    var task := s.tasks[t];
    var cache := s.caches[task.cache];
    assert TaskFillerOk(task, cache) && SlotOwned(task.cache, cache, s.tasks);
    ChunkStores(task, cache, length, local);
    var (filler, shared) := AfterChunk(task, cache, length, local);
    SharedChangeKeeps(s, task.cache, shared);
    assert Placed(t, task, s.readers);
    var task' := task.(filler := filler, pos := task.pos + length, phase := Checking);
    var s' := WithShared(s, task.cache, shared);
    OwnerAdvances(s', t, task');
    ChunkIs(s, t, length, local, s', task');
  }

  lemma ChunkIs(s: State, t: TaskId, length: nat, local: LocalWrite, s': State, task': Task)
    requires TaskAt(s, t, Pulling) && CanStore(s.caches[s.tasks[t].cache], s.tasks[t].pos, length)
    requires var task := s.tasks[t];
      var (filler, shared) := AfterChunk(task, s.caches[task.cache], length, local);
      && s' == WithShared(s, task.cache, shared)
      && task' == task.(filler := filler, pos := task.pos + length, phase := Checking)
    ensures ChunkTaken(s, t, length, local) == s'.(tasks := s'.tasks[t := task'])
  {
  }

  /** An owning task takes another owning phase and moves its own variables. */
  lemma OwnerAdvances(s: State, t: TaskId, task: Task)
    requires Inv(s) && t in s.tasks && s.tasks[t].phase.Owns() && task.phase.Owns()
    requires task.cache == s.tasks[t].cache && task.inode == s.tasks[t].inode
    requires Placed(t, task, s.readers) && (s.tasks[t].spawned ==> task.spawned)
    requires task.cache in s.caches && TaskFillerOk(task, s.caches[task.cache])
    ensures Inv(s.(tasks := s.tasks[t := task]))
  {
    TaskMoves(s, t, task);
    SlotsAfterMove(s.tasks, s.caches, t, task);
  }

  lemma ReportKeeps(s: State, t: TaskId)
    requires Inv(s) && TaskAt(s, t, Published)
    ensures Inv(FinishReported(s, t))
  {
    var s' := s.(live := Without(s.live, s.tasks[t].cache));
    if s.tasks[t].spawned {
      var task := s.tasks[t].(phase := Cleaning);
      TaskMoves(s', t, task);
      SlotsAfterMove(s.tasks, s.caches, t, task);
    } else {
      UnspawnedEnds(s', t);
    }
  }

  lemma CleanUpKeeps(s: State, t: TaskId)
    requires Inv(s) && TaskAt(s, t, Cleaning)
    ensures Inv(CleanedUp(s, t))
  {
    SlotsWithout(s.tasks, s.caches, t);
    forall t' | t' in s.tasks - {t}
      ensures Placed(t', (s.tasks - {t})[t'], s.readers)
    {
      assert Placed(t', s.tasks[t'], s.readers);
    }
    CleanUpLeaksNothing(s.readCache, s.open, s.tasks, t);
  }

  /** The only cache that loses its cleaner is the one the cleaner drops. */
  lemma CleanUpLeaksNothing(
    readCache: map<Inode, CacheId>, open: map<FileHandle, Inode>, tasks: map<TaskId, Task>, t: TaskId)
    requires NoLeak(readCache, open, tasks) && t in tasks
    ensures NoLeak(
      if IsOpen(open, tasks[t].inode) then readCache else readCache - {tasks[t].inode}, open, tasks - {t})
  {
    var i := tasks[t].inode;
    forall i' | i' in readCache && !IsOpen(open, i') && i' != i
      ensures HasCleaner(tasks - {t}, i')
    {
      var t' :| t' in tasks && tasks[t'].spawned && tasks[t'].inode == i';
      assert t' in tasks - {t};
    }
  }

  lemma BeginStopKeeps(s: State)
    requires Inv(s)
    ensures Inv(s.(stopping := true, caches := AskedToStop(s.caches, s.live)))
    ensures Grows(s.caches, AskedToStop(s.caches, s.live))
  {
    var caches := AskedToStop(s.caches, s.live);
    GrowthKeepsLinks(s, caches);
    QuietGrowth(s.tasks, s.caches, caches);
  }

  lemma KernelStepKeeps(s: State, step: KernelStep)
    requires Inv(s) && KernelEnabled(s, step)
    ensures Inv(KernelApply(s, step)) && Grows(s.caches, KernelApply(s, step).caches)
  {
    match step {
      case Open(fh, inode) => OpenKeeps(s, fh, inode);
      case Release(fh) => ReleaseKeeps(s, fh);
      case BeginStop => BeginStopKeeps(s);
      case _ =>
    }
  }

  lemma RangedEndKeeps(s: State, r: ReaderId)
    requires Inv(s) && ReadEnabled(s, r, EndRanged)
    ensures Inv(RangedEnded(s, r)) && RangedEnded(s, r).caches == s.caches
  {
    ReaderLeaves(s, r);
    if Covered(SharedOf(s, s.readers[r].cache).cache, s.readers[r].offset, s.readers[r].size) {
      ReplyKeeps(s, r);
    }
  }

  lemma ReadStepKeeps(s: State, r: ReaderId, step: ReadStep)
    requires Inv(s) && ReadEnabled(s, r, step)
    ensures Inv(ReadApply(s, r, step)) && Grows(s.caches, ReadApply(s, r, step).caches)
  {
    match step {
      case Begin(fh, offset, size, ranged, c, content, total) =>
        BeginReadKeeps(s, r, fh, offset, size, ranged, c, content, total);
      case StartFilling(t) => StartFillingKeeps(s, r, t);
      case Fetch(at, length, local) => FetchKeeps(s, r, at, length, local);
      case EndRanged => RangedEndKeeps(s, r);
      case _ => SequentialStepKeeps(s, r, step);
    }
  }

  lemma SequentialStepKeeps(s: State, r: ReaderId, step: ReadStep)
    requires Inv(s) && ReadEnabled(s, r, step) && (step.Poll? || step.Recover?)
    ensures Inv(ReadApply(s, r, step)) && Grows(s.caches, ReadApply(s, r, step).caches)
  {
    match step {
      case Poll => PollKeeps(s, r);
      case Recover(sessionBack) => RecoverKeeps(s, r, sessionBack);
    }
  }

  lemma EndKeeps(s: State, t: TaskId, how: Ending)
    requires Inv(s) && TaskAt(s, t, EndsFrom(how))
    ensures var s' := Publish(s, t, Verdict(how, s.tasks[t].filler, SharedOf(s, s.tasks[t].cache)));
      Inv(s') && Grows(s.caches, s'.caches)
  {
    var task := s.tasks[t];
    assert TaskFillerOk(task, s.caches[task.cache]);
    ConcludeCompleteIsFull(task.filler, SharedOf(s, task.cache), task.pos);
    PublishKeeps(s, t, Verdict(how, task.filler, SharedOf(s, task.cache)));
  }

  lemma FillStepKeeps(s: State, t: TaskId, step: FillStep)
    requires Inv(s) && FillEnabled(s, t, step)
    ensures Inv(FillApply(s, t, step)) && Grows(s.caches, FillApply(s, t, step).caches)
  {
    match step {
      case Register => RegisterKeeps(s, t);
      case TakeChunk(length, local) => ChunkKeeps(s, t, length, local);
      case End(how) => EndKeeps(s, t, how);
      case ReportFinished => ReportKeeps(s, t);
      case _ => QuietFillStepKeeps(s, t, step);
    }
  }

  lemma QuietFillStepKeeps(s: State, t: TaskId, step: FillStep)
    requires Inv(s) && FillEnabled(s, t, step)
    requires step.OpenSucceeds? || step.SeeStop? || step.CheckPasses? || step.CleanUp?
    ensures Inv(FillApply(s, t, step)) && FillApply(s, t, step).caches == s.caches
  {
    assert Placed(t, s.tasks[t], s.readers);
    match step {
      case OpenSucceeds => OpenSucceedsKeeps(s, t);
      case SeeStop => OwnerMoves(s, t, Cancelling);
      case CheckPasses => OwnerMoves(s, t, Pulling);
      case CleanUp => CleanUpKeeps(s, t);
    }
  }

  /** Every step keeps the invariant, and no cache ever loses a byte, changes what it stands for
      or forgets a stop request. */
  lemma StepKeeps(s: State, step: Step)
    requires Inv(s) && Enabled(s, step)
    ensures Inv(Apply(s, step)) && Grows(s.caches, Apply(s, step).caches)
  {
    match step {
      case Kernel(kernel) => KernelStepKeeps(s, kernel);
      case Read(r, read) => ReadStepKeeps(s, r, read);
      case Fill(t, fill) => FillStepKeeps(s, t, fill);
    }
  }
}
