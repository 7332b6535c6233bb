/** The pauses before each attempt to reopen a device that went away (src/reconnect.rs). Durations
    are in milliseconds. */
module Backoffs {
  import opened Basics

  const FIRST_DELAY: nat := 250
  const MAX_DELAY: nat := 2000

  datatype ReconnectPolicy = ReconnectPolicy(timeout: nat) {
    static function FromSecs(secs: nat): ReconnectPolicy {
      ReconnectPolicy(secs * 1000)
    }

    predicate IsDisabled() {
      timeout == 0
    }
  }

  /** What is still to be yielded. */
  function Delays(remaining: nat, next: nat): (delays: seq<nat>)
    requires next > 0
    decreases remaining
  {
    if remaining == 0 then []
    else
      var delay := Min(next, remaining);
      [delay] + Delays(remaining - delay, Min(next * 2, MAX_DELAY))
  }

  /** What is left of the window, and the next pause, after one more. */
  function AfterPause(remaining: nat, next: nat): (nat, nat) {
    (remaining - Min(next, remaining), Min(next * 2, MAX_DELAY))
  }

  /** After `n` pauses. */
  function Drawn(window: nat, n: nat): (nat, nat) {
    if n == 0 then (window, FIRST_DELAY) else AfterPause(Drawn(window, n - 1).0, Drawn(window, n - 1).1)
  }

  class Backoff {
    var remaining: nat
    var next: nat

    ghost predicate Valid()
      reads this
    {
      next > 0
    }

    ghost function Pending(): seq<nat>
      reads this
      requires Valid()
    {
      Delays(remaining, next)
    }

    constructor (policy: ReconnectPolicy)
      ensures Valid() && Pending() == Delays(policy.timeout, FIRST_DELAY)
      ensures remaining == policy.timeout && next == FIRST_DELAY
    {
      remaining, next := policy.timeout, FIRST_DELAY;
    }

    /** The iterator's step. */
    method Next() returns (delay: Option<nat>)
      requires Valid()
      modifies this
      ensures Valid()
      ensures old(Pending()) == [] ==> delay == None && Pending() == []
      ensures old(Pending()) != [] ==>
          delay == Some(old(Pending())[0]) && Pending() == old(Pending())[1..]
      ensures remaining + (if delay.Some? then delay.value else 0) == old(remaining)
      ensures delay.None? ==> remaining == 0 && next == old(next)
      ensures delay.Some? ==> (remaining, next) == AfterPause(old(remaining), old(next))
      ensures delay == if old(remaining) == 0 then None else Some(Min(old(next), old(remaining)))
    {
      if remaining == 0 {
        return None;
      }
      var pause := Min(next, remaining);
      remaining := remaining - pause;
      next := Min(next * 2, MAX_DELAY);
      delay := Some(pause);
    }
  }

  function Sum(xs: seq<nat>): nat {
    if xs == [] then 0 else xs[0] + Sum(xs[1..])
  }

  /** The time that the first `n` pauses take. */
  function Waited(delays: seq<nat>, n: nat): nat
    requires n <= |delays|
  {
    if n == 0 then 0 else Waited(delays, n - 1) + delays[n - 1]
  }

  lemma {:induction false} WaitedGrows(delays: seq<nat>, n: nat, m: nat)
    requires n <= m <= |delays|
    ensures Waited(delays, n) <= Waited(delays, m)
    decreases m
  {
    if n < m {
      WaitedGrows(delays, n, m - 1);
    }
  }

  lemma {:induction false} WaitedTail(delays: seq<nat>, n: nat)
    requires 0 < n <= |delays|
    ensures Waited(delays, n) == delays[0] + Waited(delays[1..], n - 1)
  {
    if n > 1 {
      WaitedTail(delays, n - 1);
    }
  }

  lemma {:induction false} WaitedIsSum(delays: seq<nat>)
    ensures Waited(delays, |delays|) == Sum(delays)
  {
    if delays != [] {
      WaitedTail(delays, |delays|);
      WaitedIsSum(delays[1..]);
    }
  }

  function Pow2(n: nat): (p: nat)
    ensures p > 0
  {
    if n == 0 then 1 else 2 * Pow2(n - 1)
  }

  /** The capped exponential pause before attempt `i`. */
  function Nominal(i: nat): (d: nat)
    ensures 0 < d <= MAX_DELAY
  {
    Min(FIRST_DELAY * Pow2(i), MAX_DELAY)
  }

  lemma NominalDoubles(i: nat)
    ensures Nominal(i + 1) == Min(Nominal(i) * 2, MAX_DELAY)
  {
  }

  /** What the schedule of a window has to be: capped exponential pauses, only the last of them
      clipped, that use the window up. */
  ghost predicate UsesWindow(delays: seq<nat>, window: nat, from: nat) {
    && Sum(delays) == window
    && (forall i :: 0 <= i < |delays| - 1 ==> delays[i] == Nominal(from + i))
    && (delays != [] ==> 0 < delays[|delays| - 1] <= Nominal(from + |delays| - 1))
  }

  lemma {:induction false} DelaysUseWindow(window: nat, from: nat)
    ensures UsesWindow(Delays(window, Nominal(from)), window, from)
    decreases window
  {
    if window > 0 {
      var delay := Min(Nominal(from), window);
      var rest := Delays(window - delay, Nominal(from + 1));
      NominalDoubles(from);
      DelaysUseWindow(window - delay, from + 1);
      var all := Delays(window, Nominal(from));
      assert all == [delay] + rest && all[1..] == rest;
      forall i | 0 <= i < |all| - 1
        ensures all[i] == Nominal(from + i)
      {
        if i > 0 {
          assert all[i] == rest[i - 1];
        } else {
          NonEmptyHasTime(window - delay, Nominal(from + 1));
        }
      }
      if rest != [] {
        assert all[|all| - 1] == rest[|rest| - 1];
      }
    }
  }

  lemma NonEmptyHasTime(remaining: nat, next: nat)
    requires next > 0
    ensures Delays(remaining, next) == [] <==> remaining == 0
  {
  }

  /** Where the schedule stands after some of its pauses. */
  lemma {:induction false} DrawnIsPending(window: nat, n: nat)
    requires n <= |Delays(window, FIRST_DELAY)|
    ensures Drawn(window, n).1 > 0
    ensures Delays(Drawn(window, n).0, Drawn(window, n).1) == Delays(window, FIRST_DELAY)[n..]
    ensures n == |Delays(window, FIRST_DELAY)| <==> Drawn(window, n).0 == 0
    ensures n < |Delays(window, FIRST_DELAY)| ==>
        Delays(window, FIRST_DELAY)[n] == Min(Drawn(window, n).1, Drawn(window, n).0)
  {
    if n > 0 {
      DrawnIsPending(window, n - 1);
    }
    NonEmptyHasTime(Drawn(window, n).0, Drawn(window, n).1);
  }

  /** The first pauses take no more than the window, and all of them take all of it. */
  lemma PartOfWindow(window: nat, n: nat)
    requires n <= |Delays(window, FIRST_DELAY)|
    ensures Waited(Delays(window, FIRST_DELAY), n) <= window
    ensures n == |Delays(window, FIRST_DELAY)| ==> Waited(Delays(window, FIRST_DELAY), n) == window
  {
    var delays := Delays(window, FIRST_DELAY);
    assert Nominal(0) == FIRST_DELAY;
    DelaysUseWindow(window, 0);
    WaitedGrows(delays, n, |delays|);
    WaitedIsSum(delays);
  }

  /** For every window the pauses are positive, at most two seconds, follow the capped exponential
      except for a clipped last one, and add up to exactly the window; and no other schedule does. */
  lemma ScheduleIsExact(policy: ReconnectPolicy, delays: seq<nat>)
    ensures UsesWindow(delays, policy.timeout, 0) <==> delays == Delays(policy.timeout, FIRST_DELAY)
    ensures var all := Delays(policy.timeout, FIRST_DELAY);
      && (forall i :: 0 <= i < |all| ==> 0 < all[i] <= 2000)
      && (forall i :: 0 <= i < |all| - 1 ==> all[i] == Min(250 * Pow2(i), 2000))
  {
    assert Nominal(0) == FIRST_DELAY;
    DelaysUseWindow(policy.timeout, 0);
    if UsesWindow(delays, policy.timeout, 0) {
      WindowUseUnique(delays, Delays(policy.timeout, FIRST_DELAY), policy.timeout, 0);
    }
  }

  lemma {:induction false} WindowUseUnique(a: seq<nat>, b: seq<nat>, window: nat, from: nat)
    requires UsesWindow(a, window, from) && UsesWindow(b, window, from)
    ensures a == b
  {
    if a != [] && b != [] {
      FirstPause(a, window, from);
      FirstPause(b, window, from);
      WindowUseUnique(a[1..], b[1..], window - a[0], from + 1);
      assert a == [a[0]] + a[1..] && b == [b[0]] + b[1..];
    }
  }

  lemma FirstPause(delays: seq<nat>, window: nat, from: nat)
    requires UsesWindow(delays, window, from) && delays != []
    ensures delays[0] == Min(Nominal(from), window)
    ensures UsesWindow(delays[1..], window - delays[0], from + 1)
  {
    var rest := delays[1..];
    assert forall i :: 0 <= i < |rest| ==> rest[i] == delays[i + 1];
    if rest != [] {
      assert delays[0] == Nominal(from + 0);
    } else {
      assert Sum(rest) == 0;
    }
  }

  /** A window of zero, and only that, is never waited out: zero seconds turn reconnecting off. */
  lemma DisabledNeverPauses(policy: ReconnectPolicy, secs: nat)
    ensures policy.IsDisabled() <==> Delays(policy.timeout, FIRST_DELAY) == []
    ensures Delays(ReconnectPolicy.FromSecs(secs).timeout, FIRST_DELAY) == [] <==> secs == 0
    ensures Sum(Delays(ReconnectPolicy.FromSecs(secs).timeout, FIRST_DELAY)) == 1000 * secs
  {
    assert Nominal(0) == FIRST_DELAY;
    DelaysUseWindow(ReconnectPolicy.FromSecs(secs).timeout, 0);
    NonEmptyHasTime(policy.timeout, FIRST_DELAY);
    NonEmptyHasTime(ReconnectPolicy.FromSecs(secs).timeout, FIRST_DELAY);
  }
}
