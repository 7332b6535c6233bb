/** What every run of the read-cache protocol keeps: replies are device bytes, caches are not
    leaked, and teardown leaves no transfer behind, exactly when no fill is registered on top of
    one that has not reported in. */
module FillTheorems {
  import opened Basics
  import opened SparseCaches
  import opened Sequences
  import opened FillProtocol

  ghost predicate Continues(s: State, states: seq<State>, steps: seq<Step>) {
    && |states| == |steps| + 1
    && states[0] == s
    && forall i :: 0 <= i < |steps| ==> Moves(states[i], steps[i], states[i + 1])
  }

  ghost predicate Moves(s: State, step: Step, s': State) {
    Enabled(s, step) && s' == Apply(s, step)
  }

  /** A run of the mount from its start. */
  ghost predicate Run(states: seq<State>, steps: seq<Step>) {
    Continues(INITIAL, states, steps)
  }

  lemma RunThenContinue(
    states: seq<State>, steps: seq<Step>, more: seq<State>, next: seq<Step>)
    requires Run(states, steps) && Continues(states[|steps|], more, next)
    ensures Run(states + more[1..], steps + next)
    ensures (states + more[1..])[|steps + next|] == more[|next|]
  {
    var states', steps' := states + more[1..], steps + next;
    forall i | 0 <= i < |steps'|
      ensures Moves(states'[i], steps'[i], states'[i + 1])
    {
      if i >= |steps| {
        assert Moves(more[i - |steps|], next[i - |steps|], more[i - |steps| + 1]);
      }
    }
  }

  lemma {:induction false} InvThroughout(s: State, states: seq<State>, steps: seq<Step>, i: nat)
    requires Inv(s) && Continues(s, states, steps) && i < |states|
    ensures Inv(states[i])
  {
    if i > 0 {
      InvThroughout(s, states, steps, i - 1);
      assert Moves(states[i - 1], steps[i - 1], states[i]);
      StepKeeps(states[i - 1], steps[i - 1]);
    }
  }

  // ---------------------------------------------------------------------------------------
  // The caches

  predicate OwnerOf(s: State, t: TaskId, c: CacheId) {
    t in s.tasks && s.tasks[t].cache == c && s.tasks[t].phase.Owns()
  }

  /** In every reachable state: populated bytes are the device's; a complete cache lacks nothing,
      so a reader is never told that the stream ended without its range; the slot has at most
      one owner; and a reader is put to sleep only while some fill is there to wake it. */
  lemma CachesTellTheTruth(states: seq<State>, steps: seq<Step>, i: nat, c: CacheId, offset: u64, size: u64)
    requires Run(states, steps) && i < |states| && c in states[i].caches && size > 0
    ensures var s, cache := states[i], states[i].caches[c];
      && Agrees(cache.shared.cache, cache.content)
      && (cache.shared.fill.Complete? ==> PollRead(cache.shared, offset, size).Data?)
    ensures var s, cache := states[i], states[i].caches[c];
      forall t, t' :: OwnerOf(s, t, c) && OwnerOf(s, t', c) ==> t == t'
    ensures var s, shared := states[i], states[i].caches[c].shared;
      PollRead(shared, offset, size).Blocked? ==> exists t :: OwnerOf(s, t, c)
  {
    InvThroughout(INITIAL, states, steps, i);
    var owner := states[i].caches[c].owner;
    assert SlotOwned(c, states[i].caches[c], states[i].tasks);
    assert owner.Some? ==> OwnerOf(states[i], owner.value, c);
    assert FullIfComplete(states[i].caches[c].shared);
  }

  /** A poll that yields data yields exactly the device's slice: never a hole, never a byte past
      the object. */
  lemma ReadersGetDeviceBytes(states: seq<State>, steps: seq<Step>, i: nat, c: CacheId, offset: u64, size: u64)
    requires Run(states, steps) && i < |states| && c in states[i].caches && size > 0
    ensures Agrees(states[i].caches[c].shared.cache, states[i].caches[c].content)
    ensures var cache := states[i].caches[c];
      PollRead(cache.shared, offset, size).Data? ==>
        && (offset < cache.shared.cache.total ==>
              Min(offset + size, cache.shared.cache.total) <= |cache.content|)
        && PollRead(cache.shared, offset, size).bytes
             == ObjectSlice(cache.content, cache.shared.cache.total, offset, size)
  {
    CachesTellTheTruth(states, steps, i, c, offset, size);
    var cache := states[i].caches[c];
    if PollRead(cache.shared, offset, size).Data? {
      CoveredReadIsDeviceSlice(cache.shared.cache, offset, size, cache.content);
    }
  }

  /** Every reply of every run was the device's slice. */
  lemma EveryReplyIsDeviceBytes(states: seq<State>, steps: seq<Step>, i: nat, k: nat)
    requires Run(states, steps) && i < |states| && k < |states[i].served|
    ensures IsDeviceSlice(states[i].served[k], states[i].caches)
  {
    InvThroughout(INITIAL, states, steps, i);
  }

  /** A cache never loses a byte and never comes to stand for another object. */
  lemma {:induction false} CachesOnlyGrow(states: seq<State>, steps: seq<Step>, i: nat, j: nat, c: CacheId)
    requires Run(states, steps) && i <= j < |states| && c in states[i].caches
    ensures c in states[j].caches && CacheGrows(states[i].caches[c], states[j].caches[c])
    decreases j - i
  {
    if i < j {
      CachesOnlyGrow(states, steps, i, j - 1, c);
      InvThroughout(INITIAL, states, steps, j - 1);
      assert Moves(states[j - 1], steps[j - 1], states[j]);
      StepKeeps(states[j - 1], steps[j - 1]);
    }
  }

  // ---------------------------------------------------------------------------------------
  // Read caches do not leak

  /** Whatever a mount still caches, either a handle is open on the file or a filler is still to
      clean up; so a mount with no open handle and no task holds no cache. */
  lemma NoReadCacheLeaks(states: seq<State>, steps: seq<Step>, i: nat)
    requires Run(states, steps) && i < |states|
    ensures forall inode :: inode in states[i].readCache ==>
        IsOpen(states[i].open, inode) || HasCleaner(states[i].tasks, inode)
    ensures states[i].open == map[] && states[i].tasks == map[] ==> states[i].readCache == map[]
  {
    InvThroughout(INITIAL, states, steps, i);
    if states[i].open == map[] && states[i].tasks == map[] {
      assert states[i].readCache.Keys == {};
    }
  }

  // ---------------------------------------------------------------------------------------
  // Teardown

  predicate Registered(tasks: map<TaskId, Task>, t: TaskId) {
    t in tasks && tasks[t].phase.Registered()
  }

  /** Every fill between `register` and `finished` is one the tracker knows, and the only one for
      its cache; every entry of the tracker is such a fill. */
  ghost predicate LiveMatches(tasks: map<TaskId, Task>, live: seq<CacheId>) {
    && (forall t :: Registered(tasks, t) ==> tasks[t].cache in live)
    && (forall t, t' :: Registered(tasks, t) && Registered(tasks, t') && tasks[t].cache == tasks[t'].cache
          ==> t == t')
    && (forall c :: c in live ==> HasRegistrant(tasks, c))
  }

  ghost predicate HasRegistrant(tasks: map<TaskId, Task>, c: CacheId) {
    exists t :: Registered(tasks, t) && tasks[t].cache == c
  }

  ghost predicate AllAsked(live: seq<CacheId>, caches: map<CacheId, Cache>) {
    forall c :: c in live ==> c in caches && caches[c].shared.stop
  }

  /** A tracker that has said yes has nothing left. */
  ghost predicate Tracked(s: State) {
    && LiveMatches(s.tasks, s.live)
    && (s.stopping ==> AllAsked(s.live, s.caches))
    && (s.stopReturned ==> s.stopping && s.live == [])
  }

  /** A fill is registered only when no earlier fill of its cache is still to report in. The
      condition is one that `register` itself could check. */
  ghost predicate Disciplined(s: State, step: Step) {
    step.Fill? && step.fill.Register? && step.t in s.tasks && !s.stopping ==>
      s.tasks[step.t].cache !in s.live
  }

  ghost predicate AllDisciplined(states: seq<State>, steps: seq<Step>)
    requires |states| == |steps| + 1
  {
    forall i :: 0 <= i < |steps| ==> Disciplined(states[i], steps[i])
  }

  /** The same fills are between `register` and `finished`. */
  ghost predicate SameRegistered(tasks: map<TaskId, Task>, tasks': map<TaskId, Task>) {
    forall t :: (Registered(tasks, t) <==> Registered(tasks', t))
      && (Registered(tasks, t) ==> tasks'[t].cache == tasks[t].cache)
  }

  lemma QuietForTracker(tasks: map<TaskId, Task>, tasks': map<TaskId, Task>, live: seq<CacheId>)
    requires LiveMatches(tasks, live) && SameRegistered(tasks, tasks')
    ensures LiveMatches(tasks', live)
  {
    forall c | c in live
      ensures HasRegistrant(tasks', c)
    {
      assert HasRegistrant(tasks, c);
      var t :| Registered(tasks, t) && tasks[t].cache == c;
      assert Registered(tasks', t);
    }
  }

  lemma RegisterTracked(tasks: map<TaskId, Task>, live: seq<CacheId>, t: TaskId)
    requires LiveMatches(tasks, live)
    requires t in tasks && tasks[t].phase.Claimed? && tasks[t].cache !in live
    ensures LiveMatches(tasks[t := tasks[t].(phase := Opening)], live + [tasks[t].cache])
  {
    var tasks' := tasks[t := tasks[t].(phase := Opening)];
    forall c | c in live + [tasks[t].cache]
      ensures HasRegistrant(tasks', c)
    {
      if c in live {
        assert HasRegistrant(tasks, c);
        var t' :| Registered(tasks, t') && tasks[t'].cache == c;
        assert Registered(tasks', t');
      } else {
        assert Registered(tasks', t);
      }
    }
  }

  lemma ReportTracked(tasks: map<TaskId, Task>, tasks': map<TaskId, Task>, live: seq<CacheId>, t: TaskId)
    requires LiveMatches(tasks, live) && Registered(tasks, t)
    requires !Registered(tasks', t)
    requires forall t' :: t' != t ==>
        (Registered(tasks, t') <==> Registered(tasks', t'))
        && (Registered(tasks, t') ==> tasks'[t'].cache == tasks[t'].cache)
    ensures LiveMatches(tasks', Without(live, tasks[t].cache))
  {
    var live' := Without(live, tasks[t].cache);
    forall c | c in live'
      ensures HasRegistrant(tasks', c)
    {
      assert HasRegistrant(tasks, c);
      var t' :| Registered(tasks, t') && tasks[t'].cache == c;
      assert Registered(tasks', t');
    }
    forall t' | Registered(tasks', t')
      ensures tasks'[t'].cache in live'
    {
      assert Registered(tasks, t');
    }
  }

  lemma KernelStepKeepsTracked(s: State, step: KernelStep)
    requires Inv(s) && Tracked(s) && KernelEnabled(s, step)
    ensures Tracked(KernelApply(s, step))
  {
    if step.BeginStop? {
      forall c | c in s.live
        ensures c in s.caches
      {
        assert HasRegistrant(s.tasks, c);
      }
    }
  }

  /** Nothing the tracker looks at changes. */
  ghost predicate TrackerUntouched(s: State, s': State) {
    && s'.live == s.live && s'.stopping == s.stopping && s'.stopReturned == s.stopReturned
    && SameRegistered(s.tasks, s'.tasks)
  }

  lemma ReadLeavesTracker(s: State, r: ReaderId, step: ReadStep)
    requires ReadEnabled(s, r, step)
    ensures TrackerUntouched(s, ReadApply(s, r, step))
  {
    if !step.StartFilling? {
      assert LeavesFills(s, ReadApply(s, r, step));
    }
  }

  lemma FillLeavesTracker(s: State, t: TaskId, step: FillStep)
    requires FillEnabled(s, t, step) && !step.ReportFinished? && (step.Register? ==> s.stopping)
    ensures TrackerUntouched(s, FillApply(s, t, step))
  {
    var tasks' := FillApply(s, t, step).tasks;
    assert forall t' :: t' != t ==>
        (t' in s.tasks <==> t' in tasks') && (t' in s.tasks ==> tasks'[t'] == s.tasks[t']);
  }

  lemma UntouchedTracked(s: State, s': State)
    requires Tracked(s) && Grows(s.caches, s'.caches) && TrackerUntouched(s, s')
    ensures Tracked(s')
  {
    QuietForTracker(s.tasks, s'.tasks, s.live);
  }

  lemma FinishTracked(s: State, t: TaskId)
    requires Tracked(s) && TaskAt(s, t, Published)
    ensures Tracked(FinishReported(s, t))
  {
    ReportTracked(s.tasks, FinishReported(s, t).tasks, s.live, t);
  }

  lemma FillStepKeepsTracked(s: State, t: TaskId, step: FillStep)
    requires Tracked(s) && FillEnabled(s, t, step) && Grows(s.caches, FillApply(s, t, step).caches)
    requires Disciplined(s, Fill(t, step))
    ensures Tracked(FillApply(s, t, step))
  {
    if step.ReportFinished? {
      FinishTracked(s, t);
    } else if step.Register? && !s.stopping {
      RegisterTracked(s.tasks, s.live, t);
    } else {
      FillLeavesTracker(s, t, step);
      UntouchedTracked(s, FillApply(s, t, step));
    }
  }

  lemma StepKeepsTracked(s: State, step: Step)
    requires Inv(s) && Tracked(s) && Enabled(s, step) && Disciplined(s, step)
    ensures Tracked(Apply(s, step))
  {
    match step {
      case Kernel(kernel) =>
        KernelStepKeepsTracked(s, kernel);
      case Read(r, read) =>
        ReadStepKeeps(s, r, read);
        ReadLeavesTracker(s, r, read);
        UntouchedTracked(s, ReadApply(s, r, read));
      case Fill(t, fill) =>
        FillStepKeeps(s, t, fill);
        FillStepKeepsTracked(s, t, fill);
    }
  }

  lemma {:induction false} TrackedThroughout(s: State, states: seq<State>, steps: seq<Step>, i: nat)
    requires Inv(s) && Tracked(s) && Continues(s, states, steps) && AllDisciplined(states, steps)
    requires i < |states|
    ensures Inv(states[i]) && Tracked(states[i])
  {
    if i > 0 {
      TrackedThroughout(s, states, steps, i - 1);
      assert Moves(states[i - 1], steps[i - 1], states[i]);
      StepKeeps(states[i - 1], steps[i - 1]);
      StepKeepsTracked(states[i - 1], steps[i - 1]);
    }
  }

  /** Some fill has, or is about to have, a transfer open. */
  predicate TransferRuns(s: State, t: TaskId) {
    t in s.tasks && s.tasks[t].phase.InFlight()
  }

  lemma {:induction false} StopReturnedStays(states: seq<State>, steps: seq<Step>, i: nat, j: nat)
    requires Run(states, steps) && i <= j < |states| && states[i].stopReturned
    ensures states[j].stopReturned
    decreases j - i
  {
    if i < j {
      StopReturnedStays(states, steps, i, j - 1);
      assert Moves(states[j - 1], steps[j - 1], states[j]);
    }
  }

  /** Once `stop_and_wait` has answered true, no transfer is open and none ever will be again. */
  lemma TeardownLeavesNothing(states: seq<State>, steps: seq<Step>, i: nat, j: nat)
    requires Run(states, steps) && AllDisciplined(states, steps)
    requires i <= j < |states| && states[i].stopReturned
    ensures forall t :: !TransferRuns(states[j], t)
  {
    StopReturnedStays(states, steps, i, j);
    TrackedThroughout(INITIAL, states, steps, j);
    forall t
      ensures !TransferRuns(states[j], t)
    {
      assert !Registered(states[j].tasks, t);
    }
  }

  ghost predicate LiveKnown(s: State) {
    forall c :: c in s.live ==> c in s.caches
  }

  /** Only caches that exist come to be listed. */
  ghost predicate ListsOnlyKnown(s: State, s': State) {
    forall c :: c in s'.live ==> c in s.live || c in s.caches
  }

  lemma FillListsOnlyKnown(s: State, t: TaskId, step: FillStep)
    requires FillEnabled(s, t, step)
    ensures ListsOnlyKnown(s, FillApply(s, t, step))
  {
    if !step.ReportFinished? && (step.Register? ==> s.stopping) {
      FillLeavesTracker(s, t, step);
    }
  }

  lemma StepListsOnlyKnown(s: State, step: Step)
    requires Enabled(s, step)
    ensures ListsOnlyKnown(s, Apply(s, step))
  {
    match step {
      case Kernel(_) =>
      case Read(r, read) => ReadLeavesTracker(s, r, read);
      case Fill(t, fill) => FillListsOnlyKnown(s, t, fill);
    }
  }

  lemma {:induction false} LiveKnownThroughout(states: seq<State>, steps: seq<Step>, i: nat)
    requires Run(states, steps) && i < |states|
    ensures LiveKnown(states[i])
  {
    if i > 0 {
      LiveKnownThroughout(states, steps, i - 1);
      InvThroughout(INITIAL, states, steps, i - 1);
      assert Moves(states[i - 1], steps[i - 1], states[i]);
      StepKeeps(states[i - 1], steps[i - 1]);
      StepListsOnlyKnown(states[i - 1], steps[i - 1]);
    }
  }

  /** Every fill that was listed when teardown began has been asked to stop, and still is, in every
      run. */
  lemma TeardownAsksEveryFill(states: seq<State>, steps: seq<Step>, k: nat, i: nat, c: CacheId)
    requires Run(states, steps)
    requires k < i < |states| && steps[k] == Kernel(BeginStop) && c in states[k].live
    ensures c in states[i].caches && states[i].caches[c].shared.stop
  {
    assert Moves(states[k], steps[k], states[k + 1]);
    LiveKnownThroughout(states, steps, k);
    CachesOnlyGrow(states, steps, k + 1, i, c);
  }

  /** Where every registration is disciplined, that is every fill between `register` and `finished`. */
  lemma TeardownAsksEveryTransfer(states: seq<State>, steps: seq<Step>, k: nat, i: nat, t: TaskId)
    requires Run(states, steps) && AllDisciplined(states, steps)
    requires k < i < |states| && steps[k] == Kernel(BeginStop) && Registered(states[k].tasks, t)
    ensures var c := states[k].tasks[t].cache;
      c in states[i].caches && states[i].caches[c].shared.stop
  {
    TrackedThroughout(INITIAL, states, steps, k);
    TeardownAsksEveryFill(states, steps, k, i, states[k].tasks[t].cache);
  }

  // ---------------------------------------------------------------------------------------
  // The condition is exact

  /** Every open transfer is one that teardown would wait for. */
  ghost predicate AllWaitedFor(s: State) {
    forall t :: TransferRuns(s, t) ==> s.tasks[t].cache in s.live
  }

  /** However the mount goes on after `Register(t)`, as long as later registrations are
      disciplined, teardown would wait for every transfer. */
  ghost predicate RegisterIsSafe(s: State, t: TaskId) {
    forall states, steps | Continues(s, states, steps) && steps != [] && steps[0] == Fill(t, Register)
      && AllDisciplined(states[1..], steps[1..]) ::
      AllWaitedFor(states[|steps|])
  }

  /** The old fill of the same cache, which has published its failure but not reported in. */
  lemma UnreportedFill(s: State, t: TaskId) returns (t': TaskId)
    requires Inv(s) && Tracked(s) && TaskAt(s, t, Claimed) && s.tasks[t].cache in s.live
    ensures t' != t && TaskAt(s, t', Published) && s.tasks[t'].cache == s.tasks[t].cache
  {
    assert HasRegistrant(s.tasks, s.tasks[t].cache);
    t' :| Registered(s.tasks, t') && s.tasks[t'].cache == s.tasks[t].cache;
    assert s.caches[s.tasks[t].cache].owner == Some(t);
  }

  /** Registering a cache that is still listed puts the new fill out of teardown's sight as soon
      as the old one reports in. */
  lemma ReRegisteredFillEscapes(s: State, t: TaskId) returns (states: seq<State>, steps: seq<Step>)
    requires Inv(s) && Tracked(s) && !s.stopping
    requires TaskAt(s, t, Claimed) && s.tasks[t].cache in s.live
    ensures Continues(s, states, steps) && |steps| == 2 && steps[0] == Fill(t, Register)
    ensures AllDisciplined(states[1..], steps[1..])
    ensures TransferRuns(states[2], t) && states[2].tasks[t].cache !in states[2].live
    ensures !states[2].stopping
    ensures (forall c :: c in s.live ==> c == s.tasks[t].cache) ==> states[2].live == []
  {
    var t' := UnreportedFill(s, t);
    var s1 := RegisteredFill(s, t);
    EscapeAfterReport(s, t, t');
    var s2 := FinishReported(s1, t');
    states, steps := [s, s1, s2], [Fill(t, Register), Fill(t', ReportFinished)];
    TwoMoves(s, steps[0], s1, steps[1], s2);
    assert steps[1..] == [Fill(t', ReportFinished)];
  }

  lemma TwoMoves(s: State, step: Step, s1: State, step': Step, s2: State)
    requires Enabled(s, step) && s1 == Apply(s, step)
    requires Enabled(s1, step') && s2 == Apply(s1, step')
    ensures Continues(s, [s, s1, s2], [step, step'])
  {
    assert Moves(s, step, s1) && Moves(s1, step', s2);
  }

  lemma EscapeAfterReport(s: State, t: TaskId, t': TaskId)
    requires !s.stopping && t' != t && TaskAt(s, t, Claimed) && TaskAt(s, t', Published)
    requires s.tasks[t'].cache == s.tasks[t].cache
    ensures var s1 := RegisteredFill(s, t);
      && TaskAt(s1, t', Published)
      && var s2 := FinishReported(s1, t');
      && TransferRuns(s2, t) && s2.tasks[t].cache !in s2.live && !s2.stopping
      && ((forall c :: c in s.live ==> c == s.tasks[t].cache) ==> s2.live == [])
  {
  }

  /** A registration is safe exactly when the tracker does not list its cache yet. */
  lemma RegisterSafeIffNotListed(s: State, t: TaskId)
    requires Inv(s) && Tracked(s) && !s.stopping && TaskAt(s, t, Claimed)
    ensures RegisterIsSafe(s, t) <==> s.tasks[t].cache !in s.live
  {
    if s.tasks[t].cache in s.live {
      var states, steps := ReRegisteredFillEscapes(s, t);
      assert !AllWaitedFor(states[|steps|]);
    } else {
      forall states: seq<State>, steps: seq<Step> |
        Continues(s, states, steps) && steps != [] && steps[0] == Fill(t, Register)
        && AllDisciplined(states[1..], steps[1..])
        ensures AllWaitedFor(states[|steps|])
      {
        forall i | 0 <= i < |steps|
          ensures Disciplined(states[i], steps[i])
        {
          if i > 0 {
            assert steps[i] == steps[1..][i - 1] && states[i] == states[1..][i - 1];
          }
        }
        TrackedThroughout(s, states, steps, |steps|);
        forall t' | TransferRuns(states[|steps|], t')
          ensures states[|steps|].tasks[t'].cache in states[|steps|].live
        {
          assert Registered(states[|steps|].tasks, t');
        }
      }
    }
  }

  /** The hazard in full: when the re-registered cache is the only one listed, teardown answers
      true with the new transfer open. */
  lemma TeardownMissesRestartedFill(s: State, t: TaskId) returns (states: seq<State>, steps: seq<Step>)
    requires Inv(s) && Tracked(s) && !s.stopping
    requires TaskAt(s, t, Claimed) && s.tasks[t].cache in s.live
    requires forall c :: c in s.live ==> c == s.tasks[t].cache
    ensures Continues(s, states, steps)
    ensures states[|steps|].stopReturned && TransferRuns(states[|steps|], t)
  {
    var before, first := ReRegisteredFillEscapes(s, t);
    var s3 := KernelApply(before[2], BeginStop);
    var s4 := KernelApply(s3, StopSucceeds);
    assert Moves(before[0], first[0], before[1]) && Moves(before[1], first[1], before[2]);
    assert Moves(before[2], Kernel(BeginStop), s3);
    assert Moves(s3, Kernel(StopSucceeds), s4);
    states := before + [s3, s4];
    steps := first + [Kernel(BeginStop), Kernel(StopSucceeds)];
  }
}
