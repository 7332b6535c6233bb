/** The hazard that FillTheorems bounds is a real one: a complete run, from an empty mount, in
    which teardown answers true over an open transfer. */
module FillHazards {
  import opened Basics
  import opened SparseCaches
  import opened FillProtocol
  import opened FillTheorems

  /** One file, its cache, one reader, and whatever fills there are. */
  function Stage(phase: ReaderPhase, retries: nat, fill: FillState, owner: Option<TaskId>,
                 tasks: map<TaskId, Task>, live: seq<CacheId>): State
  {
    State(
      map[0 := Cache(Shared(CacheView([0], {}, 1), fill, false), [], 7, owner)], map[7 := 0],
      map[1 := 7], map[2 := Reader(1, 7, 0, 0, 1, retries, phase)], tasks, live, false, false, [])
  }

  const LOST: FillState := Failed(Failure(StreamBroke, true))

  function AFill(phase: Phase, spawned: bool): Task {
    Task(0, 7, 2, phase, spawned, Filler(0, None), 0)
  }

  /** A read whose fill loses the link, and which starts a second fill of the same cache while
      the first has yet to report in. */
  function StateAt(i: nat): State
    requires i <= 10
  {
    var first := map[3 := AFill(Published, true)];
    match i
    case 0 => INITIAL
    case 1 => INITIAL.(open := map[1 := 7])
    case 2 => Stage(Ensuring, 1, Idle, None, map[], [])
    case 3 => Stage(Starting(3), 1, Running, Some(3), map[3 := AFill(Claimed, false)], [])
    case 4 => Stage(Starting(3), 1, Running, Some(3), map[3 := AFill(Opening, false)], [0])
    case 5 => Stage(Waiting, 1, Running, Some(3), map[3 := AFill(Checking, true)], [0])
    case 6 => Stage(Waiting, 1, Running, Some(3), map[3 := AFill(Pulling, true)], [0])
    case 7 => Stage(Waiting, 1, LOST, None, first, [0])
    case 8 => Stage(Recovering, 1, LOST, None, first, [0])
    case 9 => Stage(Ensuring, 0, Idle, None, first, [0])
    case 10 => Stage(Starting(4), 0, Running, Some(4), first[4 := AFill(Claimed, false)], [0])
  }

  function StepAt(i: nat): Step
    requires i < 10
  {
    match i
    case 0 => Kernel(Open(1, 7))
    case 1 => Read(2, Begin(1, 0, 1, false, 0, [], 1))
    case 2 => Read(2, StartFilling(3))
    case 3 => Fill(3, Register)
    case 4 => Fill(3, OpenSucceeds)
    case 5 => Fill(3, CheckPasses)
    case 6 => Fill(3, End(StreamBroken(true)))
    case 7 => Read(2, Poll)
    case 8 => Read(2, Recover(true))
    case 9 => Read(2, StartFilling(4))
  }

  function Restart(): (r: (seq<State>, seq<Step>))
    ensures |r.0| == 11 && |r.1| == 10
  {
    (seq(11, i requires 0 <= i < 11 => StateAt(i)), seq(10, i requires 0 <= i < 10 => StepAt(i)))
  }

  lemma ReadBegins()
    ensures Moves(INITIAL, Kernel(Open(1, 7)), INITIAL.(open := map[1 := 7]))
    ensures Moves(INITIAL.(open := map[1 := 7]), Read(2, Begin(1, 0, 1, false, 0, [], 1)),
                  Stage(Ensuring, 1, Idle, None, map[], []))
  {
    assert KernelApply(INITIAL, Open(1, 7)) == INITIAL.(open := map[1 := 7]);
    var begun := ReadApply(INITIAL.(open := map[1 := 7]), 2, Begin(1, 0, 1, false, 0, [], 1));
    assert NewCache([], 1, 7).shared.cache.bytes == [0];
    assert begun == Stage(Ensuring, 1, Idle, None, map[], []);
  }

  lemma CacheChanges(phase: ReaderPhase, retries: nat, fill: FillState, owner: Option<TaskId>,
                     tasks: map<TaskId, Task>, live: seq<CacheId>, fill': FillState, owner': Option<TaskId>)
    ensures var s := Stage(phase, retries, fill, owner, tasks, live);
      WithOwner(s, 0, s.caches[0].shared.(fill := fill'), owner')
        == Stage(phase, retries, fill', owner', tasks, live)
  {
    var s := Stage(phase, retries, fill, owner, tasks, live);
    assert s.caches[0 := s.caches[0].(shared := s.caches[0].shared.(fill := fill'), owner := owner')]
        == Stage(phase, retries, fill', owner', tasks, live).caches;
  }

  lemma ReaderChanges(phase: ReaderPhase, retries: nat, fill: FillState, owner: Option<TaskId>,
                      tasks: map<TaskId, Task>, live: seq<CacheId>, phase': ReaderPhase)
    ensures WithReaderPhase(Stage(phase, retries, fill, owner, tasks, live), 2, phase')
        == Stage(phase', retries, fill, owner, tasks, live)
  {
    var s := Stage(phase, retries, fill, owner, tasks, live);
    assert s.readers[2 := s.readers[2].(phase := phase')]
        == Stage(phase', retries, fill, owner, tasks, live).readers;
  }

  /** A fill is granted whenever the slot is free; other fills do not matter. */
  lemma FillIsGranted(t: TaskId, retries: nat, tasks: map<TaskId, Task>, live: seq<CacheId>)
    requires t !in tasks
    ensures Moves(Stage(Ensuring, retries, Idle, None, tasks, live), Read(2, StartFilling(t)),
                  Stage(Starting(t), retries, Running, Some(t), tasks[t := AFill(Claimed, false)], live))
  {
    CacheChanges(Ensuring, retries, Idle, None, tasks, live, Running, Some(t));
    ReaderChanges(Ensuring, retries, Running, Some(t), tasks[t := AFill(Claimed, false)], live, Starting(t));
  }

  lemma FirstFillRegisters()
    ensures Moves(Stage(Starting(3), 1, Running, Some(3), map[3 := AFill(Claimed, false)], []),
                  Fill(3, Register),
                  Stage(Starting(3), 1, Running, Some(3), map[3 := AFill(Opening, false)], [0]))
  {
    assert map[3 := AFill(Claimed, false)][3 := AFill(Opening, false)] == map[3 := AFill(Opening, false)];
  }

  lemma FirstFillOpens()
    ensures Moves(Stage(Starting(3), 1, Running, Some(3), map[3 := AFill(Opening, false)], [0]),
                  Fill(3, OpenSucceeds),
                  Stage(Waiting, 1, Running, Some(3), map[3 := AFill(Checking, true)], [0]))
  {
    assert map[3 := AFill(Opening, false)][3 := AFill(Checking, true)] == map[3 := AFill(Checking, true)];
    ReaderChanges(Starting(3), 1, Running, Some(3), map[3 := AFill(Checking, true)], [0], Waiting);
  }

  lemma FirstFillPulls()
    ensures Moves(Stage(Waiting, 1, Running, Some(3), map[3 := AFill(Checking, true)], [0]),
                  Fill(3, CheckPasses),
                  Stage(Waiting, 1, Running, Some(3), map[3 := AFill(Pulling, true)], [0]))
  {
    assert map[3 := AFill(Checking, true)][3 := AFill(Pulling, true)] == map[3 := AFill(Pulling, true)];
  }

  lemma FirstFillLosesLink()
    ensures Moves(Stage(Waiting, 1, Running, Some(3), map[3 := AFill(Pulling, true)], [0]),
                  Fill(3, End(StreamBroken(true))),
                  Stage(Waiting, 1, LOST, None, map[3 := AFill(Published, true)], [0]))
  {
    assert map[3 := AFill(Pulling, true)][3 := AFill(Published, true)] == map[3 := AFill(Published, true)];
    CacheChanges(Waiting, 1, Running, Some(3), map[3 := AFill(Pulling, true)], [0], LOST, None);
  }

  lemma ReaderHears(tasks: map<TaskId, Task>)
    ensures Moves(Stage(Waiting, 1, LOST, None, tasks, [0]), Read(2, Poll),
                  Stage(Recovering, 1, LOST, None, tasks, [0]))
  {
    var cache := CacheView([0], {}, 1);
    assert 0 !in cache.populated;
    assert !Covered(cache, 0, 1);
    ReaderChanges(Waiting, 1, LOST, None, tasks, [0], Recovering);
  }

  lemma ReaderResets(tasks: map<TaskId, Task>)
    ensures Moves(Stage(Recovering, 1, LOST, None, tasks, [0]), Read(2, Recover(true)),
                  Stage(Ensuring, 0, Idle, None, tasks, [0]))
  {
    var s := Stage(Recovering, 1, LOST, None, tasks, [0]);
    CacheChanges(Recovering, 1, LOST, None, tasks, [0], Idle, None);
    assert s.readers[2 := s.readers[2].(phase := Ensuring, retries := 0)]
        == Stage(Ensuring, 0, Idle, None, tasks, [0]).readers;
  }

  lemma RestartStep(i: nat)
    requires i < 10
    ensures Moves(StateAt(i), StepAt(i), StateAt(i + 1))
  {
    match i {
      case 0 => ReadBegins();
      case 1 => ReadBegins();
      case 2 => FillIsGranted(3, 1, map[], []);
      case 3 => FirstFillRegisters();
      case 4 => FirstFillOpens();
      case 5 => FirstFillPulls();
      case 6 => FirstFillLosesLink();
      case 7 => ReaderHears(map[3 := AFill(Published, true)]);
      case 8 => ReaderResets(map[3 := AFill(Published, true)]);
      case 9 => FillIsGranted(4, 0, map[3 := AFill(Published, true)], [0]);
    }
  }

  lemma RestartIsARun()
    ensures Run(Restart().0, Restart().1)
  {
    forall i | 0 <= i < 10
      ensures Moves(Restart().0[i], Restart().1[i], Restart().0[i + 1])
    {
      RestartStep(i);
    }
  }

  lemma RestartKeepsInv()
    ensures Inv(StateAt(10))
  {
    RestartIsARun();
    InvThroughout(INITIAL, Restart().0, Restart().1, 10);
  }

  /** Up to then every registration was disciplined. */
  lemma RestartIsTracked()
    ensures Tracked(StateAt(10))
  {
    FirstIsListed();
  }

  lemma FirstIsListed()
    ensures LiveMatches(map[3 := AFill(Published, true)][4 := AFill(Claimed, false)], [0])
  {
    assert Registered(map[3 := AFill(Published, true)][4 := AFill(Claimed, false)], 3);
  }

  /** From an empty mount, one read over one lost link is enough: there is a run at whose end
      `stop_and_wait` has answered true while a transfer is open. */
  lemma TeardownCanMissATransfer() returns (states: seq<State>, steps: seq<Step>, t: TaskId)
    ensures Run(states, steps)
    ensures states[|steps|].stopReturned && TransferRuns(states[|steps|], t)
  {
    t := 4;
    RestartIsARun();
    RestartKeepsInv();
    RestartIsTracked();
    var more, next := TeardownMissesRestartedFill(StateAt(10), t);
    RunThenContinue(Restart().0, Restart().1, more, next);
    states, steps := Restart().0 + more[1..], Restart().1 + next;
  }
}
