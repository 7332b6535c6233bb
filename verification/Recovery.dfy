/** What a recovered operation goes through, as a trace of events (src/fs.rs, `with_recovery`). */
module Recovery {
  import opened Basics
  import opened MtpErrors

  const MAX_ATTEMPTS: nat := 3
  const MAX_STALE_RETRIES: nat := 1

  /** `at` is the moment at which the device was looked at. */
  datatype Event =
    | Attempted(generation: nat, answer: MtpResult<()>, at: nat)
    | FoundUnplugged(at: nat)
    | Invalidated
    | Reconnected(slept: nat, at: nat)
    | GaveUp(slept: nat, at: nat)
  {
    predicate IsReconnect() {
      Reconnected? || GaveUp?
    }

    /** The session is known to be dead. */
    predicate LosesLink() {
      FoundUnplugged? || (Attempted? && answer == Err(LinkLost))
    }
  }

  function Attempts(es: seq<Event>): nat {
    if es == [] then 0
    else Attempts(es[..|es| - 1]) + if es[|es| - 1].Attempted? then 1 else 0
  }

  function Reconnects(es: seq<Event>): nat {
    if es == [] then 0
    else Reconnects(es[..|es| - 1]) + if es[|es| - 1].IsReconnect() then 1 else 0
  }

  function Slept(es: seq<Event>): nat {
    if es == [] then 0
    else
      var last := es[|es| - 1];
      Slept(es[..|es| - 1]) + if last.IsReconnect() then last.slept else 0
  }

  lemma Snoc(es: seq<Event>, e: Event)
    ensures Attempts(es + [e]) == Attempts(es) + if e.Attempted? then 1 else 0
    ensures Reconnects(es + [e]) == Reconnects(es) + if e.IsReconnect() then 1 else 0
    ensures Slept(es + [e]) == Slept(es) + if e.IsReconnect() then e.slept else 0
  {
    assert (es + [e])[..|es|] == es;
  }

  /** What may come directly after what. */
  ghost predicate Follows(before: Event, after: Event) {
    && (after.IsReconnect() <==> before.LosesLink())
    && (after.Invalidated? <==> before.Attempted? && before.answer == Err(StaleHandle))
    && !before.GaveUp?
    && (before.Attempted? ==> before.answer == Err(StaleHandle) || before.answer == Err(LinkLost))
  }

  /** Each attempt runs at a larger generation than every attempt before it. */
  ghost predicate Rising(es: seq<Event>) {
    forall i, j {:trigger Rises(es, i, j)} :: 0 <= i < j < |es| ==> Rises(es, i, j)
  }

  predicate Rises(es: seq<Event>, i: nat, j: nat)
    requires i < |es| && j < |es|
  {
    es[i].Attempted? && es[j].Attempted? ==> es[i].generation < es[j].generation
  }

  ghost predicate Ordered(es: seq<Event>) {
    && (es != [] ==> es[0].Attempted? || es[0].FoundUnplugged?)
    && (forall k {:trigger FollowsOn(es, k)} :: 0 <= k < |es| - 1 ==> FollowsOn(es, k))
    && Rising(es)
    && RetriedOnce(es)
  }

  ghost predicate FollowsOn(es: seq<Event>, k: nat)
    requires k < |es| - 1
  {
    Follows(es[k], es[k + 1])
  }

  /** Stale handles are re-resolved at most once a session. */
  ghost predicate RetriedOnce(es: seq<Event>) {
    forall k {:trigger NotAgain(es, k)} :: 0 <= k < |es| - 2 ==> NotAgain(es, k)
  }

  predicate NotAgain(es: seq<Event>, k: nat)
    requires k < |es| - 2
  {
    es[k].Invalidated? ==> !es[k + 2].Invalidated?
  }

  ghost predicate Below(es: seq<Event>, generation: nat) {
    forall k :: 0 <= k < |es| && es[k].Attempted? ==> es[k].generation < generation
  }

  lemma OrderedSnoc(es: seq<Event>, e: Event)
    requires Ordered(es)
    requires es == [] ==> e.Attempted? || e.FoundUnplugged?
    requires es != [] ==> Follows(es[|es| - 1], e)
    requires e.Attempted? ==> Below(es, e.generation)
    requires e.Invalidated? && |es| >= 2 ==> !es[|es| - 2].Invalidated?
    ensures Ordered(es + [e])
  {
    var all := es + [e];
    forall k | 0 <= k < |all| - 1
      ensures FollowsOn(all, k)
    {
      if k < |es| - 1 {
        assert FollowsOn(es, k);
      }
    }
    forall i, j | 0 <= i < j < |all|
      ensures Rises(all, i, j)
    {
      if j < |es| {
        assert Rises(es, i, j);
      }
    }
    forall k | 0 <= k < |all| - 2
      ensures NotAgain(all, k)
    {
      if k < |es| - 2 {
        assert NotAgain(es, k);
      }
    }
  }

  /** A trace in order, below a generation, with what it has used of each budget. */
  ghost predicate Tally(es: seq<Event>, generation: nat, attempts: nat, reconnects: nat, slept: nat) {
    && Ordered(es) && Below(es, generation)
    && Attempts(es) <= attempts && Reconnects(es) == reconnects && Slept(es) <= slept
  }

  /** Where a session's tries start: nothing yet, a reconnect, or a re-resolution. */
  predicate CanTry(es: seq<Event>) {
    es == [] || es[|es| - 1].Reconnected? || es[|es| - 1].Invalidated?
  }

  lemma AddAttempt(
    es: seq<Event>, generation: nat, answer: MtpResult<()>, at: nat, attempts: nat, reconnects: nat, slept: nat)
    requires Tally(es, generation, attempts, reconnects, slept) && CanTry(es)
    ensures Tally(es + [Attempted(generation, answer, at)], generation + 1, attempts + 1, reconnects, slept)
  {
    Snoc(es, Attempted(generation, answer, at));
    OrderedSnoc(es, Attempted(generation, answer, at));
  }

  lemma AddInvalidated(es: seq<Event>, generation: nat, attempts: nat, reconnects: nat, slept: nat)
    requires Tally(es, generation, attempts, reconnects, slept)
    requires es != [] && es[|es| - 1].Attempted? && es[|es| - 1].answer == Err(StaleHandle)
    requires |es| >= 2 ==> !es[|es| - 2].Invalidated?
    ensures Tally(es + [Invalidated], generation, attempts, reconnects, slept)
  {
    Snoc(es, Invalidated);
    OrderedSnoc(es, Invalidated);
  }

  lemma AddUnplugged(es: seq<Event>, generation: nat, at: nat, attempts: nat, reconnects: nat, slept: nat)
    requires Tally(es, generation, attempts, reconnects, slept) && CanTry(es)
    ensures Tally(es + [FoundUnplugged(at)], generation + 1, attempts + 1, reconnects, slept)
  {
    Snoc(es, FoundUnplugged(at));
    OrderedSnoc(es, FoundUnplugged(at));
  }

  lemma AddReconnect(
    es: seq<Event>, e: Event, generation: nat, attempts: nat, reconnects: nat, slept: nat, window: nat)
    requires Tally(es, generation, attempts, reconnects, slept)
    requires es != [] && es[|es| - 1].LosesLink() && e.IsReconnect() && e.slept <= window
    ensures Tally(es + [e], generation, attempts, reconnects + 1, slept + window)
  {
    Snoc(es, e);
    OrderedSnoc(es, e);
  }

  /** The law of one recovered operation that answers `r`: at most six attempts and three
      reconnects on separate budgets; a reconnect exactly after a lost link and never after a stale
      handle; a stale handle retried once a session, on re-resolved handles; anything else an
      attempt answers is the operation's answer at once; success only from the last attempt; rising
      generations; and at most three windows of sleep. */
  ghost predicate RecoveryLaw(es: seq<Event>, r: MtpResult<()>, window: nat) {
    && es != []
    && Ordered(es)
    && Attempts(es) <= 6 && Reconnects(es) <= 3 && Slept(es) <= 3 * window
    && (Answers(es, r) || RunsOut(es, r))
  }

  /** The last attempt gave the answer: not a lost link, and a stale handle only the second time. */
  ghost predicate Answers(es: seq<Event>, r: MtpResult<()>) {
    && es != [] && es[|es| - 1].Attempted? && es[|es| - 1].answer == r
    && r != Err(LinkLost)
    && (r == Err(StaleHandle) ==> |es| >= 2 && es[|es| - 2].Invalidated?)
  }

  /** The device did not come back in time, or came back once too often. */
  ghost predicate RunsOut(es: seq<Event>, r: MtpResult<()>) {
    && es != [] && r == Err(LinkLost)
    && (es[|es| - 1].GaveUp? || (es[|es| - 1].Reconnected? && Reconnects(es) == 3))
  }

  /** Where `round` reconnects have left the outer loop. */
  ghost predicate BetweenRounds(es: seq<Event>, generation: nat, round: nat, window: nat) {
    && Tally(es, generation, round * 2, round, round * window)
    && (if round == 0 then es == [] else es != [] && es[|es| - 1].Reconnected?)
  }

  lemma RoundAnswered(es: seq<Event>, generation: nat, round: nat, window: nat, r: MtpResult<()>)
    requires round < MAX_ATTEMPTS && Tally(es, generation, round * 2 + 2, round, round * window)
    requires Answers(es, r)
    ensures RecoveryLaw(es, r, window)
  {
    assert round * window <= MAX_ATTEMPTS * window;
  }

  /** A session that lost its link: another round, or the end if the device stays away or the
      rounds are used up. */
  lemma RoundLost(
    es: seq<Event>, back: bool, slept: nat, at: nat, generation: nat, round: nat, window: nat)
    requires round < MAX_ATTEMPTS && Tally(es, generation, round * 2 + 2, round, round * window)
    requires es != [] && es[|es| - 1].LosesLink() && slept <= window
    ensures var es' := es + [if back then Reconnected(slept, at) else GaveUp(slept, at)];
      && (back ==> BetweenRounds(es', generation, round + 1, window))
      && (!back || round + 1 == MAX_ATTEMPTS ==> RecoveryLaw(es', Err(LinkLost), window))
  {
    var e := if back then Reconnected(slept, at) else GaveUp(slept, at);
    AddReconnect(es, e, generation, round * 2 + 2, round, round * window, window);
    assert round * window + window == (round + 1) * window <= MAX_ATTEMPTS * window;
  }

  /** The law makes success the last attempt's, and only its. */
  lemma SuccessIsTheLastAttempt(es: seq<Event>, r: MtpResult<()>, window: nat, k: nat)
    requires RecoveryLaw(es, r, window) && k < |es|
    ensures es[k].Attempted? && es[k].answer.Ok? ==> k == |es| - 1 && r.Ok?
    ensures r.Ok? ==> es[|es| - 1].Attempted? && es[|es| - 1].answer == r
    ensures es[k].Attempted? && es[k].answer == Err(StaleHandle) && k + 1 < |es| ==> es[k + 1].Invalidated?
    ensures es[k].Attempted? && es[k].answer.Err? && es[k].answer.error.Plain() ==>
        k == |es| - 1 && r == es[k].answer
  {
    if k + 1 < |es| {
      assert FollowsOn(es, k);
    }
  }
}
