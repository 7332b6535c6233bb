/** The mount's live whole-object downloads, and the teardown that cancels them (src/fill.rs). */
module FillTrackers {
  import opened Sequences
  import opened SparseCaches

  class FillTracker {
    var live: seq<SharedSparseCache>
    var stopping: bool

    ghost predicate Valid()
      reads this, live, set c | c in live :: c.cache, set c | c in live :: c.cache.ranges
    {
      && (forall c :: c in live ==> c.Valid())
      && (stopping ==> forall c :: c in live ==> c.stop)
    }

    constructor ()
      ensures Valid() && live == [] && !stopping
    {
      live, stopping := [], false;
    }

    /** Records a fill that is about to start; refused once teardown has begun. */
    method Register(cache: SharedSparseCache) returns (accepted: bool)
      requires Valid() && cache.Valid()
      modifies this
      ensures Valid() && stopping == old(stopping) && accepted == !stopping
      ensures live == if accepted then old(live) + [cache] else old(live)
    {
      if stopping {
        return false;
      }
      live := live + [cache];
      accepted := true;
    }

    /** Records that a fill has ended: drops every entry for its cache. */
    method Finished(cache: SharedSparseCache)
      requires Valid()
      modifies this
      ensures Valid() && stopping == old(stopping)
      ensures live == Without(old(live), cache)
    {
      var kept := [];
      var i := 0;
      while i < |live|
        invariant 0 <= i <= |live|
        invariant live == old(live) && stopping == old(stopping)
        invariant kept == Without(live[..i], cache)
      {
        assert live[..i + 1] == live[..i] + [live[i]];
        WithoutSnoc(live[..i], live[i], cache);
        if live[i] != cache {
          kept := kept + [live[i]];
        }
        i := i + 1;
      }
      assert live[..i] == live;
      live := kept;
    }

    /** Asks every live fill to stop and waits for them. `wakes` lists, for each wake-up before
        the deadline, the fills that have reported in since the last one. */
    method StopAndWait(wakes: seq<seq<SharedSparseCache>>) returns (allFinished: bool)
      requires Valid()
      modifies this, live
      ensures Valid() && stopping
      ensures forall c :: c in old(live) ==> c.stop && c.fill == old(c.fill)
      ensures forall c :: c in live ==> c in old(live)
      ensures allFinished <==> live == []
      ensures (exists k :: 0 <= k <= |wakes| && ReportedBy(old(live), wakes[..k])) <==> allFinished
    {
      stopping := true;
      var i := 0;
      while i < |live|
        invariant 0 <= i <= |live|
        invariant live == old(live) && stopping
        invariant forall c :: c in live ==> c.Valid() && c.fill == old(c.fill)
        invariant forall j :: 0 <= j < i ==> live[j].stop
      {
        live[i].RequestStop();
        i := i + 1;
      }
      var turn := 0;
      assert wakes[..0] == [];
      while live != []
        invariant 0 <= turn <= |wakes|
        invariant Valid() && stopping
        invariant forall c :: c in old(live) ==> c.stop && c.fill == old(c.fill)
        invariant forall c :: c in live <==> c in old(live) && !Reported(c, wakes[..turn])
        decreases |wakes| - turn
      {
        if turn == |wakes| {
          assert wakes[..turn] == wakes;
          NotAllReported(old(live), live[0], wakes);
          return false;
        }
        DrainReports(wakes[turn]);
        assert wakes[..turn + 1] == wakes[..turn] + [wakes[turn]];
        ReportedSnoc(wakes[..turn], wakes[turn]);
        turn := turn + 1;
      }
      assert ReportedBy(old(live), wakes[..turn]) by {
        forall c | c in old(live)
          ensures Reported(c, wakes[..turn])
        {
          assert c !in live;
        }
      }
      allFinished := true;
    }

    /** The `finished` calls that happened while teardown slept. */
    method DrainReports(reports: seq<SharedSparseCache>)
      requires Valid()
      modifies this
      ensures Valid() && stopping == old(stopping)
      ensures forall c :: c in live <==> c in old(live) && c !in reports
    {
      var i := 0;
      while i < |reports|
        invariant 0 <= i <= |reports|
        invariant Valid() && stopping == old(stopping)
        invariant forall c :: c in live <==> c in old(live) && c !in reports[..i]
      {
        Finished(reports[i]);
        i := i + 1;
      }
      assert reports[..i] == reports;
    }
  }

  /** Whether the fill of `c` has reported in by one of the wake-ups. */
  ghost predicate Reported(c: SharedSparseCache, wakes: seq<seq<SharedSparseCache>>) {
    exists k :: 0 <= k < |wakes| && c in wakes[k]
  }

  ghost predicate ReportedBy(live: seq<SharedSparseCache>, wakes: seq<seq<SharedSparseCache>>) {
    forall c :: c in live ==> Reported(c, wakes)
  }

  lemma ReportedSnoc(wakes: seq<seq<SharedSparseCache>>, last: seq<SharedSparseCache>)
    ensures forall c :: Reported(c, wakes + [last]) <==> Reported(c, wakes) || c in last
  {
    forall c
      ensures Reported(c, wakes + [last]) <==> Reported(c, wakes) || c in last
    {
      if Reported(c, wakes) {
        var k :| 0 <= k < |wakes| && c in wakes[k];
        assert c in (wakes + [last])[k];
      }
      if c in last {
        assert c in (wakes + [last])[|wakes|];
      }
    }
  }

  lemma NotAllReported(live: seq<SharedSparseCache>, c: SharedSparseCache, wakes: seq<seq<SharedSparseCache>>)
    requires c in live && !Reported(c, wakes)
    ensures forall k :: 0 <= k <= |wakes| ==> !ReportedBy(live, wakes[..k])
  {
    forall k | 0 <= k <= |wakes|
      ensures !ReportedBy(live, wakes[..k])
    {
      forall j | 0 <= j < |wakes[..k]|
        ensures c !in wakes[..k][j]
      {
        assert wakes[..k][j] == wakes[j];
      }
    }
  }
}
