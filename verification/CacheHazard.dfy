/** A filler's cleanup goes by the inode, not by the cache: when it takes a cache away that another
    fill is still running on, and a complete run in which it does. */
module CacheHazards {
  import opened Basics
  import opened SparseCaches
  import opened FillProtocol
  import opened FillTheorems

  /** The cache is the one that reads of the file join. */
  predicate Mapped(s: State, i: Inode, c: CacheId) {
    i in s.readCache && s.readCache[i] == c
  }

  predicate Filled(s: State, c: CacheId) {
    c in s.caches && SharedOf(s, c).fill.Running?
  }

  /** The steps that take a running fill's cache from under it: the device reports the file changed, or
      a fill cleans up and finds no handle open on the file. */
  ghost predicate Abandons(s: State, step: Step, i: Inode) {
    match step
    case Kernel(InfoChanged(inodes)) => i in inodes
    case Fill(t, CleanUp) => t in s.tasks && s.tasks[t].inode == i && !IsOpen(s.open, i)
    case _ => false
  }

  /** What is mapped stays, and what comes is new. */
  ghost predicate MapGrows(s: State, s': State) {
    && s.caches.Keys <= s'.caches.Keys
    && (forall i :: i in s.readCache ==> i in s'.readCache && s'.readCache[i] == s.readCache[i])
    && (forall i :: i in s'.readCache && i !in s.readCache ==> s'.readCache[i] !in s.caches)
  }

  lemma ReadGrowsMap(s: State, r: ReaderId, step: ReadStep)
    requires ReadEnabled(s, r, step)
    ensures MapGrows(s, ReadApply(s, r, step))
  {
    match step
    case StartFilling(t) => StartGrowsMap(s, r, t);
    case Poll => PollGrowsMap(s, r);
    case Recover(sessionBack) => RecoverGrowsMap(s, r, sessionBack);
    case _ =>
  }

  lemma StartGrowsMap(s: State, r: ReaderId, t: TaskId)
    requires ReaderAt(s, r, Ensuring)
    ensures MapGrows(s, FillStarted(s, r, t))
  {
  }

  lemma PollGrowsMap(s: State, r: ReaderId)
    requires ReaderAt(s, r, Waiting) && SharedOf(s, s.readers[r].cache).cache.Valid()
    ensures MapGrows(s, Polled(s, r))
  {
  }

  lemma RecoverGrowsMap(s: State, r: ReaderId, sessionBack: bool)
    requires ReaderAt(s, r, Recovering)
    ensures MapGrows(s, Recovered(s, r, sessionBack))
  {
  }

  lemma FillGrowsMap(s: State, t: TaskId, step: FillStep)
    requires FillEnabled(s, t, step) && !step.CleanUp?
    ensures MapGrows(s, FillApply(s, t, step))
  {
  }

  /** Of the kernel's steps, only a report of the file takes a cache that is being filled out. */
  lemma KernelMaps(s: State, step: KernelStep, i: Inode, c: CacheId)
    requires KernelEnabled(s, step) && c in s.caches
    ensures var s' := KernelApply(s, step);
      c in s'.caches && (Mapped(s', i, c) ==> Mapped(s, i, c))
    ensures Mapped(s, i, c) && Filled(s, c) ==>
        (!Mapped(KernelApply(s, step), i, c) <==> step.InfoChanged? && i in step.inodes)
  {
  }

  lemma CleanUpMaps(s: State, t: TaskId, i: Inode, c: CacheId)
    requires t in s.tasks
    ensures Mapped(CleanedUp(s, t), i, c) <==>
        Mapped(s, i, c) && (IsOpen(s.open, s.tasks[t].inode) || s.tasks[t].inode != i)
  {
  }

  /** Of all steps of all parties exactly those take a cache that is being filled out of the map. */
  lemma RunningCacheLeavesIff(s: State, step: Step, i: Inode, c: CacheId)
    requires Enabled(s, step) && Mapped(s, i, c) && Filled(s, c)
    ensures !Mapped(Apply(s, step), i, c) <==> Abandons(s, step, i)
  {
    match step
    case Kernel(kernel) => KernelMaps(s, kernel, i, c);
    case Read(r, read) => ReadGrowsMap(s, r, read);
    case Fill(t, fill) =>
      if fill.CleanUp? {
        CleanUpMaps(s, t, i, c);
      } else {
        FillGrowsMap(s, t, fill);
      }
  }

  /** A cache that is not in the map never gets there again. */
  lemma UnmappedForGood(s: State, step: Step, i: Inode, c: CacheId)
    requires Enabled(s, step) && c in s.caches && !Mapped(s, i, c)
    ensures !Mapped(Apply(s, step), i, c)
  {
    match step
    case Kernel(kernel) => KernelMaps(s, kernel, i, c);
    case Read(r, read) => ReadGrowsMap(s, r, read);
    case Fill(t, fill) =>
      if fill.CleanUp? {
        CleanUpMaps(s, t, i, c);
      } else {
        FillGrowsMap(s, t, fill);
      }
  }

  /** The fill that cleans up is never the one that the cache is being filled by. */
  lemma CleanerIsAnother(s: State, t: TaskId, c: CacheId)
    requires Inv(s) && TaskAt(s, t, Cleaning) && Filled(s, c)
    ensures exists t' :: t' != t && OwnerOf(s, t', c) && OwnerOf(CleanedUp(s, t), t', c)
  {
    assert SlotOwned(c, s.caches[c], s.tasks);
    var owner := s.caches[c].owner.value;
    assert OwnerOf(s, owner, c) && OwnerOf(CleanedUp(s, t), owner, c);
  }

  /** Between these states of a run nothing has taken the file's cache away. */
  ghost predicate LeftAlone(states: seq<State>, steps: seq<Step>, j: nat, k: nat, i: Inode)
    requires k <= |states| && k <= |steps|
  {
    forall n :: j <= n < k ==> !Abandons(states[n], steps[n], i)
  }

  lemma LeftAloneLonger(states: seq<State>, steps: seq<Step>, j: nat, k: nat, i: Inode)
    requires j <= k < |states| && k < |steps|
    ensures LeftAlone(states, steps, j, k + 1, i) <==>
        LeftAlone(states, steps, j, k, i) && !Abandons(states[k], steps[k], i)
  {
  }

  /** The cache is mapped after the step exactly if it was before and the step does not take it away. */
  ghost predicate StaysIffLeft(states: seq<State>, steps: seq<Step>, n: nat, i: Inode, c: CacheId) {
    && n < |steps| < |states|
    && (Mapped(states[n + 1], i, c) <==> Mapped(states[n], i, c) && !Abandons(states[n], steps[n], i))
  }

  lemma StepStaysIffLeft(states: seq<State>, steps: seq<Step>, n: nat, i: Inode, c: CacheId)
    requires Run(states, steps) && n < |steps| && Filled(states[n], c)
    ensures StaysIffLeft(states, steps, n, i, c)
  {
    assert Moves(states[n], steps[n], states[n + 1]);
    if Mapped(states[n], i, c) {
      RunningCacheLeavesIff(states[n], steps[n], i, c);
    } else {
      UnmappedForGood(states[n], steps[n], i, c);
    }
  }

  lemma {:induction false} StepByStep(
    states: seq<State>, steps: seq<Step>, j: nat, k: nat, i: Inode, c: CacheId)
    requires j <= k < |states| && k <= |steps| && Mapped(states[j], i, c)
    requires forall n :: j <= n < k ==> StaysIffLeft(states, steps, n, i, c)
    ensures Mapped(states[k], i, c) <==> LeftAlone(states, steps, j, k, i)
  {
    if j < k {
      StepByStep(states, steps, j, k - 1, i, c);
      assert StaysIffLeft(states, steps, k - 1, i, c);
      LeftAloneLonger(states, steps, j, k - 1, i);
    }
  }

  /** In every run: over any stretch through which a file's cache is being filled, later reads of the file
      still join that cache exactly if none of those steps came in between. */
  lemma RunningCacheStaysIff(states: seq<State>, steps: seq<Step>, j: nat, k: nat, i: Inode, c: CacheId)
    requires Run(states, steps) && j <= k < |states| && Mapped(states[j], i, c)
    requires forall n :: j <= n < k ==> Filled(states[n], c)
    ensures Mapped(states[k], i, c) <==> LeftAlone(states, steps, j, k, i)
  {
    forall n | j <= n < k
      ensures StaysIffLeft(states, steps, n, i, c)
    {
      StepStaysIffLeft(states, steps, n, i, c);
    }
    StepByStep(states, steps, j, k, i, c);
  }

  /** The newer cache of a file that one handle is open on, while an older fill of the file is still
      to clean up. */
  ghost predicate AboutToLose(s: State, t: TaskId, t': TaskId, fh: FileHandle) {
    && TaskAt(s, t, Cleaning) && t' in s.tasks && s.tasks[t'].phase.Owns()
    && s.open == map[fh := s.tasks[t].inode] && s.readers == map[]
    && s.tasks[t].inode in s.readCache && s.readCache[s.tasks[t].inode] == s.tasks[t'].cache
  }

  /** Closing the handle leaves the cache to its own filler; the older one takes it away all the same,
      and a reopened file knows nothing of the transfer that runs. */
  lemma OlderCleanupAbandonsFill(s: State, t: TaskId, t': TaskId, fh: FileHandle)
    returns (states: seq<State>, steps: seq<Step>)
    requires Inv(s) && AboutToLose(s, t, t', fh)
    ensures Continues(s, states, steps)
    ensures var last := states[|steps|];
      TransferRuns(last, t') && last.tasks[t'].inode !in last.readCache
  {
    var i, c := s.tasks[t].inode, s.tasks[t'].cache;
    assert SlotOwned(c, s.caches[c], s.tasks) && Placed(t', s.tasks[t'], s.readers);
    var closed := Released(s, fh);
    var cleaned := CleanedUp(closed, t);
    assert closed.open == map[] && closed.readCache == s.readCache;
    states, steps := [s, closed, cleaned], [Kernel(Release(fh)), Fill(t, CleanUp)];
    assert TaskAt(closed, t, Cleaning);
    TwoMoves(s, steps[0], closed, steps[1], cleaned);
  }

  // ---------------------------------------------------------------------------------------
  // The state is reachable

  /** The caches of one object of which the device has one byte to give and advertises two. */
  function Slot(fill: FillState, populated: set<nat>, owner: Option<TaskId>): Cache {
    Cache(Shared(CacheView([0, 0], populated, 2), fill, false), [0], 7, owner)
  }

  const BROKEN: FillState := Failed(Failure(StreamBroke, false))

  function AFill(c: CacheId, phase: Phase, spawned: bool): Task {
    Task(c, 7, 2, phase, spawned, Filler(0, None), 0)
  }

  /** One handle is open on the file, and one read of it is under way on cache `c`. */
  function Reading(caches: map<CacheId, Cache>, c: CacheId, phase: ReaderPhase,
                   tasks: map<TaskId, Task>, live: seq<CacheId>): State
  {
    State(caches, map[7 := c], map[1 := 7], map[2 := Reader(1, 7, c, 0, 1, 1, phase)], tasks, live,
          false, false, [])
  }

  /** One handle is open on the file and nothing is under way but fills. */
  function Quiet(caches: map<CacheId, Cache>, readCache: map<Inode, CacheId>,
                 tasks: map<TaskId, Task>, live: seq<CacheId>): State
  {
    State(caches, readCache, map[1 := 7], map[], tasks, live, false, false, [])
  }

  lemma ReadBegins(caches: map<CacheId, Cache>, c: CacheId, tasks: map<TaskId, Task>)
    requires c !in caches
    ensures Moves(Quiet(caches, map[], tasks, []), Read(2, Begin(1, 0, 1, false, c, [0], 2)),
                  Reading(caches[c := Slot(Idle, {}, None)], c, Ensuring, tasks, []))
  {
    assert NewCache([0], 2, 7).shared.cache.bytes == [0, 0];
    assert ReadBegun(Quiet(caches, map[], tasks, []), 2, 1, 0, 1, false, c, [0], 2)
        == Reading(caches[c := Slot(Idle, {}, None)], c, Ensuring, tasks, []);
  }

  lemma SlotChanges(caches: map<CacheId, Cache>, c: CacheId, before: Cache, after: Cache)
    ensures caches[c := before][c := after] == caches[c := after]
  {
  }

  lemma TaskChanges(tasks: map<TaskId, Task>, t: TaskId, before: Task, after: Task)
    ensures tasks[t := before][t := after] == tasks[t := after]
  {
  }

  lemma ReaderChanges(caches: map<CacheId, Cache>, c: CacheId, phase: ReaderPhase, phase': ReaderPhase,
                      tasks: map<TaskId, Task>, live: seq<CacheId>)
    ensures WithReaderPhase(Reading(caches, c, phase, tasks, live), 2, phase')
        == Reading(caches, c, phase', tasks, live)
  {
    var s := Reading(caches, c, phase, tasks, live);
    assert s.readers[2 := s.readers[2].(phase := phase')] == Reading(caches, c, phase', tasks, live).readers;
  }

  lemma FillIsGranted(caches: map<CacheId, Cache>, c: CacheId, tasks: map<TaskId, Task>, t: TaskId)
    requires t !in tasks
    ensures Moves(Reading(caches[c := Slot(Idle, {}, None)], c, Ensuring, tasks, []),
                  Read(2, StartFilling(t)),
                  Reading(caches[c := Slot(Running, {}, Some(t))], c, Starting(t),
                          tasks[t := AFill(c, Claimed, false)], []))
  {
    SlotChanges(caches, c, Slot(Idle, {}, None), Slot(Running, {}, Some(t)));
    ReaderChanges(caches[c := Slot(Running, {}, Some(t))], c, Ensuring, Starting(t),
                  tasks[t := AFill(c, Claimed, false)], []);
  }

  lemma FillRegisters(caches: map<CacheId, Cache>, c: CacheId, tasks: map<TaskId, Task>, t: TaskId)
    requires c in caches
    ensures Moves(Reading(caches, c, Starting(t), tasks[t := AFill(c, Claimed, false)], []),
                  Fill(t, Register),
                  Reading(caches, c, Starting(t), tasks[t := AFill(c, Opening, false)], [c]))
  {
    TaskChanges(tasks, t, AFill(c, Claimed, false), AFill(c, Opening, false));
  }

  lemma FillOpens(caches: map<CacheId, Cache>, c: CacheId, tasks: map<TaskId, Task>, t: TaskId)
    requires c in caches
    ensures Moves(Reading(caches, c, Starting(t), tasks[t := AFill(c, Opening, false)], [c]),
                  Fill(t, OpenSucceeds),
                  Reading(caches, c, Waiting, tasks[t := AFill(c, Checking, true)], [c]))
  {
    TaskChanges(tasks, t, AFill(c, Opening, false), AFill(c, Checking, true));
    ReaderChanges(caches, c, Starting(t), Waiting, tasks[t := AFill(c, Checking, true)], [c]);
  }

  lemma FillPulls(caches: map<CacheId, Cache>, c: CacheId, tasks: map<TaskId, Task>, t: TaskId)
    requires c in caches && !caches[c].shared.stop
    ensures Moves(Reading(caches, c, Waiting, tasks[t := AFill(c, Checking, true)], [c]),
                  Fill(t, CheckPasses),
                  Reading(caches, c, Waiting, tasks[t := AFill(c, Pulling, true)], [c]))
  {
    TaskChanges(tasks, t, AFill(c, Checking, true), AFill(c, Pulling, true));
  }

  lemma OlderFillBreaks()
    ensures Moves(Reading(map[0 := Slot(Running, {}, Some(3))], 0, Waiting, map[3 := AFill(0, Pulling, true)], [0]),
                  Fill(3, End(StreamBroken(false))),
                  Reading(map[0 := Slot(BROKEN, {}, None)], 0, Waiting, map[3 := AFill(0, Published, true)], [0]))
  {
    TaskChanges(map[], 3, AFill(0, Pulling, true), AFill(0, Published, true));
    SlotChanges(map[], 0, Slot(Running, {}, Some(3)), Slot(BROKEN, {}, None));
  }

  lemma ReaderGivesUp()
    ensures Moves(Reading(map[0 := Slot(BROKEN, {}, None)], 0, Waiting, map[3 := AFill(0, Published, true)], [0]),
                  Read(2, Poll),
                  Quiet(map[0 := Slot(BROKEN, {}, None)], map[7 := 0], map[3 := AFill(0, Published, true)], [0]))
  {
    var s := Reading(map[0 := Slot(BROKEN, {}, None)], 0, Waiting, map[3 := AFill(0, Published, true)], [0]);
    assert 0 !in s.caches[0].shared.cache.populated;
    assert !Covered(s.caches[0].shared.cache, 0, 1);
    assert s.readers - {2} == map[];
  }

  lemma OlderFillReports()
    ensures Moves(Quiet(map[0 := Slot(BROKEN, {}, None)], map[7 := 0], map[3 := AFill(0, Published, true)], [0]),
                  Fill(3, ReportFinished),
                  Quiet(map[0 := Slot(BROKEN, {}, None)], map[7 := 0], map[3 := AFill(0, Cleaning, true)], []))
  {
    TaskChanges(map[], 3, AFill(0, Published, true), AFill(0, Cleaning, true));
  }

  lemma ObjectChanges()
    ensures Moves(Quiet(map[0 := Slot(BROKEN, {}, None)], map[7 := 0], map[3 := AFill(0, Cleaning, true)], []),
                  Kernel(InfoChanged({7})),
                  Quiet(map[0 := Slot(BROKEN, {}, None)], map[], map[3 := AFill(0, Cleaning, true)], []))
  {
    assert map[7 := 0] - {7} == map[];
  }

  /** What the older fill leaves behind when the newer one starts. */
  const CACHES: map<CacheId, Cache> := map[0 := Slot(BROKEN, {}, None)]
  const TASKS: map<TaskId, Task> := map[3 := AFill(0, Cleaning, true)]

  /** The newer fill, one chunk further. */
  function Advanced(): Task {
    Task(1, 7, 2, Checking, true, Filler(1, None), 1)
  }

  lemma ChunkArrives()
    ensures Moves(Reading(CACHES[1 := Slot(Running, {}, Some(4))], 1, Waiting, TASKS[4 := AFill(1, Pulling, true)], [1]),
                  Fill(4, TakeChunk(1, Lands)),
                  Reading(CACHES[1 := Slot(Running, {0}, Some(4))], 1, Waiting, TASKS[4 := Advanced()], [1]))
  {
    var cache := Slot(Running, {}, Some(4));
    assert [0][0..1] == [0] && [0][..1] == [0] && Overlay([0, 0], 0, [0]) == [0, 0];
    assert {} + Interval(0, 1) == {0};
    assert AfterChunk(AFill(1, Pulling, true), cache, 1, Lands) == (Filler(1, None), cache.shared.(
      cache := CacheView([0, 0], {0}, 2)));
    SlotChanges(CACHES, 1, cache, Slot(Running, {0}, Some(4)));
    TaskChanges(TASKS, 4, AFill(1, Pulling, true), Advanced());
  }

  /** The newer cache has what the reader wants, and its fill runs on. */
  ghost function Served(): State {
    Quiet(CACHES[1 := Slot(Running, {0}, Some(4))], map[7 := 1], TASKS[4 := Advanced()], [1]).(
      served := [FillProtocol.Served(1, 0, 1, [0])])
  }

  lemma ReaderIsServed()
    ensures Moves(Reading(CACHES[1 := Slot(Running, {0}, Some(4))], 1, Waiting, TASKS[4 := Advanced()], [1]),
                  Read(2, Poll), Served())
  {
    var s := Reading(CACHES[1 := Slot(Running, {0}, Some(4))], 1, Waiting, TASKS[4 := Advanced()], [1]);
    assert Covered(s.caches[1].shared.cache, 0, 1);
    assert [0, 0][0..1] == [0];
    assert s.readers - {2} == map[];
  }

  lemma FileOpens()
    ensures Moves(INITIAL, Kernel(Open(1, 7)), Quiet(map[], map[], map[], []))
  {
    assert KernelApply(INITIAL, Open(1, 7)) == Quiet(map[], map[], map[], []);
  }

  /** A read whose fill breaks; a device event that drops the cache before that fill has cleaned up; and
      a second read, which is served from a new cache while its fill goes on. */
  ghost function StateAt(i: nat): State
    requires i <= 17
  {
    var taken := map[0 := Slot(Running, {}, Some(3))];
    var broken := CACHES;
    var newer := CACHES[1 := Slot(Running, {}, Some(4))];
    match i
    case 0 => INITIAL
    case 1 => Quiet(map[], map[], map[], [])
    case 2 => Reading(map[0 := Slot(Idle, {}, None)], 0, Ensuring, map[], [])
    case 3 => Reading(taken, 0, Starting(3), map[3 := AFill(0, Claimed, false)], [])
    case 4 => Reading(taken, 0, Starting(3), map[3 := AFill(0, Opening, false)], [0])
    case 5 => Reading(taken, 0, Waiting, map[3 := AFill(0, Checking, true)], [0])
    case 6 => Reading(taken, 0, Waiting, map[3 := AFill(0, Pulling, true)], [0])
    case 7 => Reading(broken, 0, Waiting, map[3 := AFill(0, Published, true)], [0])
    case 8 => Quiet(broken, map[7 := 0], map[3 := AFill(0, Published, true)], [0])
    case 9 => Quiet(broken, map[7 := 0], TASKS, [])
    case 10 => Quiet(broken, map[], TASKS, [])
    case 11 => Reading(CACHES[1 := Slot(Idle, {}, None)], 1, Ensuring, TASKS, [])
    case 12 => Reading(newer, 1, Starting(4), TASKS[4 := AFill(1, Claimed, false)], [])
    case 13 => Reading(newer, 1, Starting(4), TASKS[4 := AFill(1, Opening, false)], [1])
    case 14 => Reading(newer, 1, Waiting, TASKS[4 := AFill(1, Checking, true)], [1])
    case 15 => Reading(newer, 1, Waiting, TASKS[4 := AFill(1, Pulling, true)], [1])
    case 16 => Reading(CACHES[1 := Slot(Running, {0}, Some(4))], 1, Waiting, TASKS[4 := Advanced()], [1])
    case 17 => Served()
  }

  function StepAt(i: nat): Step
    requires i < 17
  {
    match i
    case 0 => Kernel(Open(1, 7))
    case 1 => Read(2, Begin(1, 0, 1, false, 0, [0], 2))
    case 2 => Read(2, StartFilling(3))
    case 3 => Fill(3, Register)
    case 4 => Fill(3, OpenSucceeds)
    case 5 => Fill(3, CheckPasses)
    case 6 => Fill(3, End(StreamBroken(false)))
    case 7 => Read(2, Poll)
    case 8 => Fill(3, ReportFinished)
    case 9 => Kernel(InfoChanged({7}))
    case 10 => Read(2, Begin(1, 0, 1, false, 1, [0], 2))
    case 11 => Read(2, StartFilling(4))
    case 12 => Fill(4, Register)
    case 13 => Fill(4, OpenSucceeds)
    case 14 => Fill(4, CheckPasses)
    case 15 => Fill(4, TakeChunk(1, Lands))
    case 16 => Read(2, Poll)
  }

  lemma OlderSteps(i: nat)
    requires i < 10
    ensures Moves(StateAt(i), StepAt(i), StateAt(i + 1))
  {
    var taken := map[0 := Slot(Running, {}, Some(3))];
    match i {
      case 0 => FileOpens();
      case 1 => ReadBegins(map[], 0, map[]);
      case 2 => FillIsGranted(map[], 0, map[], 3);
      case 3 => FillRegisters(taken, 0, map[], 3);
      case 4 => FillOpens(taken, 0, map[], 3);
      case 5 => FillPulls(taken, 0, map[], 3);
      case 6 => OlderFillBreaks();
      case 7 => ReaderGivesUp();
      case 8 => OlderFillReports();
      case 9 => ObjectChanges();
    }
  }

  lemma NewerSteps(i: nat)
    requires 10 <= i < 17
    ensures Moves(StateAt(i), StepAt(i), StateAt(i + 1))
  {
    var newer := CACHES[1 := Slot(Running, {}, Some(4))];
    match i {
      case 10 => ReadBegins(CACHES, 1, TASKS);
      case 11 => FillIsGranted(CACHES, 1, TASKS, 4);
      case 12 => FillRegisters(newer, 1, TASKS, 4);
      case 13 => FillOpens(newer, 1, TASKS, 4);
      case 14 => FillPulls(newer, 1, TASKS, 4);
      case 15 => ChunkArrives();
      case 16 => ReaderIsServed();
    }
  }

  ghost function TwoReads(): (r: (seq<State>, seq<Step>))
    ensures |r.0| == 18 && |r.1| == 17
  {
    (seq(18, i requires 0 <= i < 18 => StateAt(i)), seq(17, i requires 0 <= i < 17 => StepAt(i)))
  }

  lemma TwoReadsAreARun()
    ensures Run(TwoReads().0, TwoReads().1)
  {
    forall i | 0 <= i < 17
      ensures Moves(TwoReads().0[i], TwoReads().1[i], TwoReads().0[i + 1])
    {
      if i < 10 {
        OlderSteps(i);
      } else {
        NewerSteps(i);
      }
    }
  }

  lemma ServedIsAboutToLose()
    ensures TwoReads().0[17] == Served() && Inv(Served()) && AboutToLose(Served(), 3, 4, 1)
  {
    TwoReadsAreARun();
    InvThroughout(INITIAL, TwoReads().0, TwoReads().1, 17);
    assert TASKS[4 := Advanced()][3] == AFill(0, Cleaning, true);
  }

  /** From an empty mount: a transfer can run on with nothing in the map to join it by, so that the next
      open of the file downloads it again. */
  lemma RunningFillCanBeAbandoned() returns (states: seq<State>, steps: seq<Step>, t: TaskId)
    ensures Run(states, steps)
    ensures var last := states[|steps|];
      TransferRuns(last, t) && last.tasks[t].inode !in last.readCache
  {
    t := 4;
    TwoReadsAreARun();
    ServedIsAboutToLose();
    var more, next := OlderCleanupAbandonsFill(TwoReads().0[17], 3, t, 1);
    RunThenContinue(TwoReads().0, TwoReads().1, more, next);
    states, steps := TwoReads().0 + more[1..], TwoReads().1 + next;
  }
}
