/** What the fill slot of a cache goes through: every way that every step can change it, and what that
    comes to over whole runs. */
module FillSlots {
  import opened Basics
  import opened SparseCaches
  import opened FillProtocol
  import opened FillTheorems

  ghost predicate TakesSlot(s: State, step: Step, c: CacheId)
    requires Enabled(s, step)
  {
    step.Read? && step.read.StartFilling? && s.readers[step.r].cache == c
  }

  /** A reader of the cache recovers with the session back. */
  ghost predicate Recovers(s: State, step: Step, c: CacheId)
    requires Enabled(s, step)
  {
    step.Read? && step.read.Recover? && step.read.sessionBack && s.readers[step.r].cache == c
  }

  ghost predicate Ends(s: State, step: Step, c: CacheId)
    requires Enabled(s, step)
  {
    step.Fill? && step.fill.End? && s.tasks[step.t].cache == c
  }

  ghost predicate Refused(s: State, step: Step, c: CacheId)
    requires Enabled(s, step)
  {
    step.Fill? && step.fill.Register? && s.tasks[step.t].cache == c && s.stopping
  }

  /** What a fill that ends is taken for: the whole object only if every chunk was stored and as many bytes
      came as were advertised; a lost link only if the link was lost. */
  function EndsAs(how: Ending, filler: Filler, total: u64): FillState {
    match how
    case NotOpened(linkLost) => Failed(Failure(OpenFailed, linkLost))
    case CancelDone => Failed(Failure(Stopping, false))
    case StreamBroken(linkLost) => Failed(Failure(StreamBroke, linkLost))
    case EndOfStream =>
      if filler.failure.Some? then Failed(filler.failure.value)
      else if filler.offset == total then Complete
      else Failed(Failure(EndedShort, false))
  }

  /** All that a step can do to a cache's slot. */
  ghost predicate SlotMoves(s: State, step: Step, c: CacheId, before: FillState, after: FillState)
    requires Enabled(s, step) && c in s.caches
  {
    if TakesSlot(s, step, c) && before.Idle? then after.Running?
    else if Recovers(s, step, c) && before.Failed? && before.failure.linkLost then after.Idle?
    else if Refused(s, step, c) then after == Failed(Failure(Stopping, false))
    else if Ends(s, step, c) then
      after == EndsAs(step.fill.how, s.tasks[step.t].filler, s.caches[c].shared.cache.total)
    else after == before
  }

  lemma ReadMovesSlot(s: State, r: ReaderId, step: ReadStep, c: CacheId)
    requires ReadEnabled(s, r, step) && c in s.caches
    ensures var s' := ReadApply(s, r, step);
      c in s'.caches && SlotMoves(s, Read(r, step), c, SharedOf(s, c).fill, SharedOf(s', c).fill)
  {
    match step
    case StartFilling(t) => ClaimedCaches(s, r, t);
    case Poll => assert Polled(s, r).caches == s.caches;
    case Recover(sessionBack) => RecoveryMovesSlot(s, r, sessionBack, c);
    case _ =>
  }

  /** A claim is granted to an idle slot and to no other. */
  lemma ClaimedCaches(s: State, r: ReaderId, t: TaskId)
    requires ReaderAt(s, r, Ensuring)
    ensures var c := s.readers[r].cache;
      FillStarted(s, r, t).caches ==
        if SharedOf(s, c).fill.Idle?
        then s.caches[c := s.caches[c].(shared := SharedOf(s, c).(fill := Running), owner := Some(t))]
        else s.caches
  {
    var c := s.readers[r].cache;
    var claimed := WithOwner(s, c, SharedOf(s, c).(fill := Running), Some(t));
    assert claimed.caches
        == s.caches[c := s.caches[c].(shared := SharedOf(s, c).(fill := Running), owner := Some(t))];
  }

  lemma RecoveryMovesSlot(s: State, r: ReaderId, sessionBack: bool, c: CacheId)
    requires ReaderAt(s, r, Recovering) && c in s.caches
    ensures var s' := Recovered(s, r, sessionBack);
      c in s'.caches && SharedOf(s', c).fill ==
        if sessionBack && s.readers[r].cache == c && LostLink(SharedOf(s, c).fill) then Idle
        else SharedOf(s, c).fill
  {
  }

  lemma FillMovesSlot(s: State, t: TaskId, step: FillStep, c: CacheId)
    requires FillEnabled(s, t, step) && c in s.caches
    ensures var s' := FillApply(s, t, step);
      c in s'.caches && SlotMoves(s, Fill(t, step), c, SharedOf(s, c).fill, SharedOf(s', c).fill)
  {
    match step
    case Register => RegistrationMovesSlot(s, t, c);
    case End(how) => EndMovesSlot(s, t, how, c);
    case _ =>
  }

  lemma RegistrationMovesSlot(s: State, t: TaskId, c: CacheId)
    requires TaskAt(s, t, Claimed) && c in s.caches
    ensures var s' := RegisteredFill(s, t);
      c in s'.caches && SharedOf(s', c).fill ==
        if s.stopping && s.tasks[t].cache == c then Failed(Failure(Stopping, false)) else SharedOf(s, c).fill
  {
  }

  lemma EndMovesSlot(s: State, t: TaskId, how: Ending, c: CacheId)
    requires FillEnabled(s, t, End(how)) && c in s.caches
    ensures var s' := FillApply(s, t, End(how));
      c in s'.caches && SharedOf(s', c).fill ==
        if s.tasks[t].cache == c then EndsAs(how, s.tasks[t].filler, SharedOf(s, c).cache.total)
        else SharedOf(s, c).fill
  {
  }

  /** Every step of every party does this and nothing else to a slot. */
  lemma StepMovesSlot(s: State, step: Step, c: CacheId)
    requires Enabled(s, step) && c in s.caches
    ensures var s' := Apply(s, step);
      c in s'.caches && SlotMoves(s, step, c, SharedOf(s, c).fill, SharedOf(s', c).fill)
  {
    match step
    case Kernel(_) =>
    case Read(r, read) => ReadMovesSlot(s, r, read, c);
    case Fill(t, fill) => FillMovesSlot(s, t, fill, c);
  }

  // ---------------------------------------------------------------------------------------
  // Whole runs

  /** The slot of a cache that is there. */
  ghost predicate HasFill(s: State, c: CacheId, fill: FillState) {
    c in s.caches && SharedOf(s, c).fill == fill
  }

  ghost predicate NoRecovery(states: seq<State>, steps: seq<Step>, i: nat, j: nat, c: CacheId)
    requires j <= |steps| && j <= |states|
  {
    forall n :: i <= n < j ==> !IsRecovery(states[n], steps[n], c)
  }

  ghost predicate IsRecovery(s: State, step: Step, c: CacheId) {
    Enabled(s, step) && Recovers(s, step, c)
  }

  lemma SlotMovesInRun(states: seq<State>, steps: seq<Step>, n: nat, c: CacheId)
    requires Run(states, steps) && n < |steps| && c in states[n].caches
    ensures Enabled(states[n], steps[n]) && c in states[n + 1].caches
    ensures SlotMoves(
        states[n], steps[n], c, SharedOf(states[n], c).fill, SharedOf(states[n + 1], c).fill)
  {
    assert Moves(states[n], steps[n], states[n + 1]);
    StepMovesSlot(states[n], steps[n], c);
  }

  lemma NotOwnedUnlessRunning(s: State, t: TaskId, c: CacheId)
    requires Inv(s) && OwnerOf(s, t, c)
    ensures c in s.caches && SharedOf(s, c).fill.Running?
  {
    assert SlotOwned(c, s.caches[c], s.tasks);
  }

  /** Nobody's step touches a slot that is not running, but a claim and a recovery. */
  lemma SettledSlotStays(s: State, step: Step, c: CacheId)
    requires Inv(s) && Enabled(s, step) && c in s.caches && !SharedOf(s, c).fill.Running?
    ensures !Ends(s, step, c) && !Refused(s, step, c)
  {
    if Ends(s, step, c) || Refused(s, step, c) {
      assert OwnerOf(s, step.t, c);
      NotOwnedUnlessRunning(s, step.t, c);
    }
  }

  /** What a failed or complete fill becomes by one step of a run: it stays, or a recovery frees a slot whose
      link was lost. */
  lemma SettledStep(states: seq<State>, steps: seq<Step>, n: nat, c: CacheId, fill: FillState)
    requires Run(states, steps) && n < |steps| && HasFill(states[n], c, fill) && (fill.Failed? || fill.Complete?)
    ensures IsRecovery(states[n], steps[n], c) && LostLink(fill) ==> HasFill(states[n + 1], c, Idle)
    ensures !IsRecovery(states[n], steps[n], c) || !LostLink(fill) ==> HasFill(states[n + 1], c, fill)
  {
    SlotMovesInRun(states, steps, n, c);
    InvThroughout(INITIAL, states, steps, n);
    SettledSlotStays(states[n], steps[n], c);
  }

  lemma SettledStays(states: seq<State>, steps: seq<Step>, n: nat, c: CacheId, fill: FillState)
    requires Run(states, steps) && n < |steps| && HasFill(states[n], c, fill) && (fill.Failed? || fill.Complete?)
    requires NoRecovery(states, steps, n, n + 1, c) || !LostLink(fill)
    ensures HasFill(states[n + 1], c, fill)
  {
    SettledStep(states, steps, n, c, fill);
  }

  lemma NoRecoveryParts(states: seq<State>, steps: seq<Step>, i: nat, j: nat, c: CacheId)
    requires i < j <= |steps| && j <= |states| && NoRecovery(states, steps, i, j, c)
    ensures NoRecovery(states, steps, i, j - 1, c) && NoRecovery(states, steps, j - 1, j, c)
  {
  }

  /** In every run: a failure stays for as long as no reader of the cache recovers with the session back. */
  lemma {:induction false} FailureStaysUnrecovered(
    states: seq<State>, steps: seq<Step>, i: nat, j: nat, c: CacheId, failure: Failure)
    requires Run(states, steps) && i <= j < |states| && HasFill(states[i], c, Failed(failure))
    requires NoRecovery(states, steps, i, j, c) || !failure.linkLost
    ensures HasFill(states[j], c, Failed(failure))
    decreases j - i
  {
    if i < j {
      if NoRecovery(states, steps, i, j, c) {
        NoRecoveryParts(states, steps, i, j, c);
      }
      FailureStaysUnrecovered(states, steps, i, j - 1, c, failure);
      SettledStays(states, steps, j - 1, c, Failed(failure));
    }
  }

  lemma CompleteStays(states: seq<State>, steps: seq<Step>, n: nat, c: CacheId)
    requires Run(states, steps) && n < |steps| && HasFill(states[n], c, Complete)
    ensures HasFill(states[n + 1], c, Complete)
  {
    SettledStays(states, steps, n, c, Complete);
  }

  /** And so does completion, whatever comes. */
  lemma {:induction false} CompletionStays(states: seq<State>, steps: seq<Step>, i: nat, j: nat, c: CacheId)
    requires Run(states, steps) && i <= j < |states| && HasFill(states[i], c, Complete)
    ensures HasFill(states[j], c, Complete)
    decreases j - i
  {
    if i < j {
      CompletionStays(states, steps, i, j - 1, c);
      CompleteStays(states, steps, j - 1, c);
    }
  }

  /** In every run a failed slot is given up by exactly one kind of step. */
  lemma FailureEndsIff(states: seq<State>, steps: seq<Step>, n: nat, c: CacheId, failure: Failure)
    requires Run(states, steps) && n < |steps| && HasFill(states[n], c, Failed(failure))
    ensures !HasFill(states[n + 1], c, Failed(failure)) <==>
        failure.linkLost && IsRecovery(states[n], steps[n], c)
    ensures HasFill(states[n + 1], c, Failed(failure)) || HasFill(states[n + 1], c, Idle)
  {
    SettledStep(states, steps, n, c, Failed(failure));
  }

  /** The transfer that a slot is given to. */
  ghost predicate OneDownload(s: State, c: CacheId, t: TaskId) {
    c in s.caches && !SharedOf(s, c).fill.Idle? && forall t' :: OwnerOf(s, t', c) ==> t' == t
  }

  lemma OnlyOwner(s: State, c: CacheId, t: TaskId)
    requires Inv(s) && OwnerOf(s, t, c)
    ensures OneDownload(s, c, t)
  {
    assert SlotOwned(c, s.caches[c], s.tasks);
    NotOwnedUnlessRunning(s, t, c);
  }

  /** In every run an object is transferred into a cache once, unless a lost link was recovered from: as long
      as no reader recovers, no other fill ever gets the slot. */
  lemma {:induction false} DownloadedOnce(
    states: seq<State>, steps: seq<Step>, i: nat, j: nat, c: CacheId, t: TaskId)
    requires Run(states, steps) && i <= j < |states| && OwnerOf(states[i], t, c)
    requires NoRecovery(states, steps, i, j, c)
    ensures OneDownload(states[j], c, t)
    decreases j - i
  {
    if i == j {
      InvThroughout(INITIAL, states, steps, i);
      OnlyOwner(states[i], c, t);
    } else {
      DownloadedOnce(states, steps, i, j - 1, c, t);
      NoOtherOwner(states, steps, j - 1, c, t);
    }
  }

  lemma NoOtherOwner(states: seq<State>, steps: seq<Step>, n: nat, c: CacheId, t: TaskId)
    requires Run(states, steps) && n < |steps| && OneDownload(states[n], c, t)
    requires !IsRecovery(states[n], steps[n], c)
    ensures OneDownload(states[n + 1], c, t)
  {
    var s, s' := states[n], states[n + 1];
    SlotMovesInRun(states, steps, n, c);
    InvThroughout(INITIAL, states, steps, n);
    InvThroughout(INITIAL, states, steps, n + 1);
    assert Moves(s, steps[n], s');
    StepKeepsOwner(s, steps[n], c);
    forall t' | OwnerOf(s', t', c)
      ensures t' == t
    {
      OwnerIsNoted(s, t', c);
      OwnerIsNoted(s', t', c);
    }
  }

  /** The slot's owner is the one it was, if it has any. */
  predicate OwnerKept(s: State, s': State, c: CacheId) {
    && c in s.caches && c in s'.caches
    && (s'.caches[c].owner.None? || s'.caches[c].owner == s.caches[c].owner)
  }

  lemma ReadKeepsOwner(s: State, r: ReaderId, step: ReadStep, c: CacheId)
    requires ReadEnabled(s, r, step) && c in s.caches && !SharedOf(s, c).fill.Idle?
    ensures OwnerKept(s, ReadApply(s, r, step), c)
  {
    match step
    case StartFilling(t) => ClaimedCaches(s, r, t);
    case Poll => assert Polled(s, r).caches == s.caches;
    case _ =>
  }

  lemma FillKeepsOwner(s: State, t: TaskId, step: FillStep, c: CacheId)
    requires FillEnabled(s, t, step) && c in s.caches
    ensures OwnerKept(s, FillApply(s, t, step), c)
  {
  }

  lemma KernelKeepsOwner(s: State, step: KernelStep, c: CacheId)
    requires KernelEnabled(s, step) && c in s.caches
    ensures OwnerKept(s, KernelApply(s, step), c)
  {
  }

  lemma StepKeepsOwner(s: State, step: Step, c: CacheId)
    requires Enabled(s, step) && c in s.caches && !SharedOf(s, c).fill.Idle?
    ensures OwnerKept(s, Apply(s, step), c)
  {
    match step
    case Kernel(kernel) => KernelKeepsOwner(s, kernel, c);
    case Read(r, read) => ReadKeepsOwner(s, r, read, c);
    case Fill(t', fill) => FillKeepsOwner(s, t', fill, c);
  }

  lemma OwnerIsNoted(s: State, t: TaskId, c: CacheId)
    requires Inv(s) && c in s.caches
    ensures OwnerOf(s, t, c) <==> s.caches[c].owner == Some(t)
  {
    assert SlotOwned(c, s.caches[c], s.tasks);
  }

  // ---------------------------------------------------------------------------------------
  // The readers

  /** What a waiting reader is told whenever it wakes up: its bytes as soon as they are all there, however the
      fill ended; nothing while the fill is running; a lost link as long as it has a retry left; else an
      error. */
  lemma PollAnswers(s: State, r: ReaderId)
    requires ReaderAt(s, r, Waiting) && SharedOf(s, s.readers[r].cache).cache.Valid()
    ensures var s', reader := Polled(s, r), s.readers[r];
      var shared := SharedOf(s, reader.cache);
      && s'.caches == s.caches
      && if Covered(shared.cache, reader.offset, reader.size) then
           && r !in s'.readers && |s'.served| == |s.served| + 1
           && s'.served[|s.served|].cache == reader.cache
           && s'.served[|s.served|].bytes == CacheRead(shared.cache, reader.offset, reader.size)
         else if shared.fill.Running? then s' == s
         else
           && s'.served == s.served
           && (if LostLink(shared.fill) && reader.retries > 0
               then r in s'.readers && s'.readers[r].phase.Recovering?
               else r !in s'.readers)
  {
  }

  /** A chunk that a ranged read fetches is in the cache afterwards, if the local write goes through. */
  lemma FetchPopulates(s: State, r: ReaderId, at: u64, length: nat)
    requires Inv(s) && ReadEnabled(s, r, Fetch(at, length, Lands))
    requires at + length <= SharedOf(s, s.readers[r].cache).cache.total
    ensures var s', c := ReadApply(s, r, Fetch(at, length, Lands)), s.readers[r].cache;
      SharedOf(s', c).cache.populated == SharedOf(s, c).cache.populated + Interval(at, at + length)
  {
  }

  // ---------------------------------------------------------------------------------------
  // Stop requests

  /** No fill of the cache is waiting for a chunk. */
  ghost predicate NonePulling(tasks: map<TaskId, Task>, c: CacheId) {
    forall t | t in tasks && tasks[t].cache == c :: !tasks[t].phase.Pulling?
  }

  ghost predicate AskedToHalt(s: State, c: CacheId) {
    c in s.caches && SharedOf(s, c).stop
  }

  lemma ReadStartsNoPull(s: State, r: ReaderId, step: ReadStep, c: CacheId)
    requires ReadEnabled(s, r, step) && NonePulling(s.tasks, c)
    ensures NonePulling(ReadApply(s, r, step).tasks, c)
  {
    match step
    case StartFilling(t) =>
      var s' := FillStarted(s, r, t);
      assert s'.tasks == s.tasks
        || (forall t' :: t' in s'.tasks && t' != t ==> t' in s.tasks && s'.tasks[t'] == s.tasks[t']);
    case Poll => assert LeavesFills(s, Polled(s, r));
    case Recover(back) => assert LeavesFills(s, Recovered(s, r, back));
    case _ =>
  }

  lemma FillStartsNoPull(s: State, t: TaskId, step: FillStep, c: CacheId)
    requires FillEnabled(s, t, step) && AskedToHalt(s, c) && NonePulling(s.tasks, c)
    ensures NonePulling(FillApply(s, t, step).tasks, c)
  {
    match step
    case TakeChunk(_, _) =>
    case CheckPasses =>
    case End(_) =>
    case _ =>
  }

  /** Once a fill has been asked to stop it takes no chunk but the one that it is waiting for: in every run,
      with none awaited none ever is again. */
  lemma {:induction false} StopIsHonoured(states: seq<State>, steps: seq<Step>, i: nat, j: nat, c: CacheId)
    requires Run(states, steps) && i <= j < |states| && AskedToHalt(states[i], c) && NonePulling(states[i].tasks, c)
    ensures AskedToHalt(states[j], c) && NonePulling(states[j].tasks, c)
    decreases j - i
  {
    if i < j {
      StopIsHonoured(states, steps, i, j - 1, c);
      CachesOnlyGrow(states, steps, j - 1, j, c);
      assert Moves(states[j - 1], steps[j - 1], states[j]);
      match steps[j - 1]
      case Kernel(_) =>
      case Read(r, read) => ReadStartsNoPull(states[j - 1], r, read, c);
      case Fill(t, fill) => FillStartsNoPull(states[j - 1], t, fill, c);
    }
  }

  /** And a chunk that comes is the last. */
  lemma ChunkIsTheLast(s: State, t: TaskId, length: nat, local: LocalWrite)
    requires Inv(s) && FillEnabled(s, t, TakeChunk(length, local))
    ensures NonePulling(FillApply(s, t, TakeChunk(length, local)).tasks, s.tasks[t].cache)
  {
    var c := s.tasks[t].cache;
    forall t' | t' in s.tasks && t' != t && s.tasks[t'].cache == c
      ensures !s.tasks[t'].phase.Pulling?
    {
      OwnerIsNoted(s, t, c);
      OwnerIsNoted(s, t', c);
    }
  }
}
