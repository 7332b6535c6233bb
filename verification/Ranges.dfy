/** Which byte offsets of an object are cached: a set of offsets kept as a sorted vector of
    ranges that neither overlap nor touch (src/ranges.rs). */
module Ranges {

  import opened Basics

  /** The half-open range `start..end`. */
  datatype Range = Range(start: u64, end: u64) {
    predicate Contains(x: nat) {
      start <= x < end
    }
  }

  function SaturatingAdd(a: u64, b: u64): (s: u64)
    ensures forall limit: u64 :: Min(s, limit) == Min(a + b, limit)
  {
    if a + b <= U64_MAX then a + b else U64_MAX
  }

  /** Whether offset `x` is in the set that `rs` stands for. */
  ghost predicate Has(rs: seq<Range>, x: nat) {
    exists i :: 0 <= i < |rs| && rs[i].Contains(x)
  }

  /** Non-empty, sorted, and separated by at least one absent offset. */
  ghost predicate Canonical(rs: seq<Range>) {
    && (forall i :: 0 <= i < |rs| ==> rs[i].start < rs[i].end)
    && (forall i, j :: 0 <= i < j < |rs| ==> rs[i].end < rs[j].start)
  }

  /** `rs` stands for exactly the offsets of `old` together with those of `added`. */
  ghost predicate IsUnion(rs: seq<Range>, before: seq<Range>, added: Range) {
    forall x: nat :: Has(rs, x) <==> Has(before, x) || added.Contains(x)
  }

  /** `missing` is the canonical vector of the offsets of `[offset, offset + size)` below `limit`
      that `rs` lacks. */
  ghost predicate IsMissing(missing: seq<Range>, rs: seq<Range>, offset: u64, size: u64, limit: u64) {
    && Canonical(missing)
    && forall x: nat :: Has(missing, x) <==> offset <= x < offset + size && x < limit && !Has(rs, x)
  }

  class RangeSet {
    var ranges: seq<Range>

    ghost predicate Valid()
      reads this
    {
      Canonical(ranges)
    }

    constructor ()
      ensures Valid() && ranges == []
    {
      ranges := [];
    }

    /** The single `retain` pass: drops every range that overlaps or touches the one being
        added while widening it, then puts the widened range where the order wants it. */
    method Insert(added: Range)
      requires Valid()
      modifies this
      ensures Valid()
      ensures IsUnion(ranges, old(ranges), added)
    {
      if added.start >= added.end {
        return;
      }
      var start: u64, end: u64 := added.start, added.end;
      var kept: seq<Range> := [];
      var i := 0;
      while i < |ranges|
        invariant 0 <= i <= |ranges|
        invariant ranges == old(ranges)
        invariant start <= added.start < added.end <= end
        invariant Canonical(kept)
        invariant Precedes(kept, ranges[i..])
        invariant Apart(kept, start, end)
        invariant forall x: nat ::
            Has(kept, x) || start <= x < end <==> Has(ranges[..i], x) || added.Contains(x)
      {
        var r := ranges[i];
        HasSnoc(ranges[..i], r);
        assert ranges[..i] + [r] == ranges[..i + 1];
        assert r in ranges[i..];
        if r.end < start || r.start > end {
          HasSnoc(kept, r);
          kept := kept + [r];
        } else {
          start, end := Min(start, r.start), Max(end, r.end);
        }
        i := i + 1;
      }
      assert ranges[..i] == ranges;
      var pos := InsertionPoint(kept, start);
      HasSplice(kept, pos, Range(start, end));
      ranges := kept[..pos] + [Range(start, end)] + kept[pos..];
    }

    /** The maximal runs of absent offsets in `[offset, offset + size)` clipped to `limit`. */
    method Missing(offset: u64, size: u64, limit: u64) returns (missing: seq<Range>)
      requires Valid()
      ensures IsMissing(missing, ranges, offset, size, limit)
    {
      var end := Min(SaturatingAdd(offset, size), limit);
      missing := [];
      if offset >= end {
        return;
      }
      var cursor := offset;
      var i := 0;
      while i < |ranges|
        invariant Sweeping(missing, ranges, i, offset, cursor, end) && cursor < end
      {
        var populated := ranges[i];
        if populated.end <= cursor {
          i := i + 1;
          continue;
        }
        if populated.start >= end {
          break;
        }
        SweepOver(missing, ranges, i, offset, cursor, end);
        missing, cursor := WithGap(missing, cursor, populated.start, end), populated.end;
        if cursor >= end {
          break;
        }
        i := i + 1;
      }
      SweepEnds(missing, ranges, i, offset, size, limit, cursor);
      missing := WithGap(missing, cursor, end, end);
    }
  }

  /** The gap before a populated range, or before the end of the request, if there is one. */
  function WithGap(missing: seq<Range>, cursor: u64, start: u64, end: u64): seq<Range> {
    if start > cursor then missing + [Range(cursor, Min(start, end))] else missing
  }

  /** `missing` is right for the offsets before `cursor`. */
  ghost predicate Swept(missing: seq<Range>, rs: seq<Range>, offset: nat, cursor: nat, end: nat) {
    && Canonical(missing)
    && (missing != [] ==> missing[|missing| - 1].end < cursor)
    && forall x: nat :: Has(missing, x) <==> offset <= x < cursor && x < end && !Has(rs, x)
  }

  /** So it is with the first `i` ranges behind the cursor. */
  ghost predicate Sweeping(missing: seq<Range>, rs: seq<Range>, i: nat, offset: nat, cursor: nat, end: nat) {
    && i <= |rs| && offset <= cursor && (i > 0 ==> rs[i - 1].end <= cursor)
    && Swept(missing, rs, offset, cursor, end)
  }

  /** Sweeping over a populated range, noting the gap before it if there is one. */
  lemma SweepOver(missing: seq<Range>, rs: seq<Range>, i: nat, offset: nat, cursor: u64, end: u64)
    requires Canonical(rs) && i < |rs| && Sweeping(missing, rs, i, offset, cursor, end) && cursor < end
    requires rs[i].end > cursor && rs[i].start < end
    ensures Sweeping(WithGap(missing, cursor, rs[i].start, end), rs, i + 1, offset, rs[i].end, end)
  {
    AbsentBetween(rs, i, cursor);
    HasSnoc(missing, Range(cursor, Min(rs[i].start, end)));
  }

  /** The last gap, up to the end of the request, if the sweep did not get that far. */
  lemma SweepEnds(
    missing: seq<Range>, rs: seq<Range>, i: nat, offset: u64, size: u64, limit: u64, cursor: u64)
    requires Canonical(rs)
    requires var end := Min(SaturatingAdd(offset, size), limit);
      && Swept(missing, rs, offset, cursor, end)
      && (cursor < end ==>
            Sweeping(missing, rs, i, offset, cursor, end) && (i < |rs| ==> rs[i].start >= end))
    ensures var end := Min(SaturatingAdd(offset, size), limit);
      IsMissing(WithGap(missing, cursor, end, end), rs, offset, size, limit)
  {
    var end := Min(SaturatingAdd(offset, size), limit);
    assert end == Min(offset + size, limit);
    if cursor < end {
      AbsentFrom(rs, i, cursor, end);
      HasSnoc(missing, Range(cursor, end));
    }
  }

  /** Where a range starting at `start` goes in a sorted vector. */
  method InsertionPoint(rs: seq<Range>, start: nat) returns (pos: nat)
    requires Canonical(rs)
    ensures pos <= |rs|
    ensures forall i :: 0 <= i < pos ==> rs[i].start < start
    ensures forall i :: pos <= i < |rs| ==> rs[i].start >= start
  {
    var lo, hi := 0, |rs|;
    while lo < hi
      invariant 0 <= lo <= hi <= |rs|
      invariant forall i :: 0 <= i < lo ==> rs[i].start < start
      invariant forall i :: hi <= i < |rs| ==> rs[i].start >= start
    {
      var mid := (lo + hi) / 2;
      if rs[mid].start < start {
        lo := mid + 1;
      } else {
        hi := mid;
      }
    }
    pos := lo;
  }

  ghost predicate Precedes(a: seq<Range>, b: seq<Range>) {
    forall i, j :: 0 <= i < |a| && 0 <= j < |b| ==> a[i].end < b[j].start
  }

  ghost predicate Apart(rs: seq<Range>, start: nat, end: nat) {
    forall i :: 0 <= i < |rs| ==> rs[i].end < start || rs[i].start > end
  }

  lemma HasSnoc(rs: seq<Range>, r: Range)
    ensures forall x: nat :: Has(rs + [r], x) <==> Has(rs, x) || r.Contains(x)
  {
    forall x: nat
      ensures Has(rs + [r], x) <==> Has(rs, x) || r.Contains(x)
    {
      if Has(rs, x) {
        var i :| 0 <= i < |rs| && rs[i].Contains(x);
        assert (rs + [r])[i].Contains(x);
      }
      if r.Contains(x) {
        assert (rs + [r])[|rs|].Contains(x);
      }
    }
  }

  lemma HasSplice(rs: seq<Range>, pos: nat, r: Range)
    requires pos <= |rs|
    ensures forall x: nat :: Has(rs[..pos] + [r] + rs[pos..], x) <==> Has(rs, x) || r.Contains(x)
  {
    var all := rs[..pos] + [r] + rs[pos..];
    forall x: nat
      ensures Has(all, x) <==> Has(rs, x) || r.Contains(x)
    {
      if Has(rs, x) {
        var i :| 0 <= i < |rs| && rs[i].Contains(x);
        assert all[if i < pos then i else i + 1].Contains(x);
      }
      if r.Contains(x) {
        assert all[pos].Contains(x);
      }
    }
  }

  /** Between the end of the last range behind the cursor and range `i` nothing is present. */
  lemma AbsentBetween(rs: seq<Range>, i: nat, cursor: nat)
    requires Canonical(rs) && i < |rs|
    requires i > 0 ==> rs[i - 1].end <= cursor
    ensures forall x: nat :: cursor <= x < rs[i].start ==> !Has(rs, x)
    ensures forall x: nat :: cursor <= x && rs[i].start <= x < rs[i].end ==> Has(rs, x)
  {
    forall x: nat | cursor <= x < rs[i].start
      ensures !Has(rs, x)
    {
      forall k | 0 <= k < |rs|
        ensures !rs[k].Contains(x)
      {
        if k < i - 1 {
          assert rs[k].end < rs[i - 1].start;
        }
      }
    }
    forall x: nat | rs[i].start <= x < rs[i].end
      ensures Has(rs, x)
    {
      assert rs[i].Contains(x);
    }
  }

  lemma AbsentFrom(rs: seq<Range>, i: nat, cursor: nat, end: nat)
    requires Canonical(rs) && i <= |rs|
    requires i > 0 ==> rs[i - 1].end <= cursor
    requires i < |rs| ==> rs[i].start >= end
    ensures forall x: nat :: cursor <= x < end ==> !Has(rs, x)
  {
    forall x: nat | cursor <= x < end
      ensures !Has(rs, x)
    {
      forall k | 0 <= k < |rs|
        ensures !rs[k].Contains(x)
      {
        if k < i - 1 {
          assert rs[k].end < rs[i - 1].start;
        } else if k > i {
          assert rs[i].end < rs[k].start;
        }
      }
    }
  }

  /** A canonical vector is determined by the offsets it stands for. */
  lemma {:induction false} CanonicalUnique(a: seq<Range>, b: seq<Range>)
    requires Canonical(a) && Canonical(b)
    requires forall x: nat :: Has(a, x) <==> Has(b, x)
    ensures a == b
  {
    EmptyTogether(a, b);
    EmptyTogether(b, a);
    if a != [] {
      FirstEqual(a, b);
      TailsAgree(a, b);
      CanonicalUnique(a[1..], b[1..]);
      assert a == [a[0]] + a[1..] && b == [b[0]] + b[1..];
    }
  }

  lemma EmptyTogether(a: seq<Range>, b: seq<Range>)
    requires Canonical(a)
    requires forall x: nat :: Has(a, x) <==> Has(b, x)
    ensures b == [] ==> a == []
  {
    if a != [] {
      assert a[0].Contains(a[0].start);
      assert Has(a, a[0].start);
    }
  }

  lemma FirstEqual(a: seq<Range>, b: seq<Range>)
    requires Canonical(a) && Canonical(b) && a != [] && b != []
    requires forall x: nat :: Has(a, x) <==> Has(b, x)
    ensures a[0] == b[0]
  {
    FirstStart(a, b);
    FirstStart(b, a);
    FirstEnd(a, b);
    FirstEnd(b, a);
  }

  lemma TailsAgree(a: seq<Range>, b: seq<Range>)
    requires Canonical(a) && Canonical(b) && a != [] && b != [] && a[0] == b[0]
    requires forall x: nat :: Has(a, x) <==> Has(b, x)
    ensures forall x: nat :: Has(a[1..], x) <==> Has(b[1..], x)
  {
    HasTail(a);
    HasTail(b);
  }

  lemma FirstStart(a: seq<Range>, b: seq<Range>)
    requires Canonical(a) && Canonical(b) && a != [] && b != []
    requires forall x: nat :: Has(a, x) <==> Has(b, x)
    ensures b[0].start <= a[0].start
  {
    assert a[0].Contains(a[0].start);
    assert Has(b, a[0].start);
  }

  lemma FirstEnd(a: seq<Range>, b: seq<Range>)
    requires Canonical(a) && Canonical(b) && a != [] && b != [] && a[0].start == b[0].start
    requires forall x: nat :: Has(a, x) <==> Has(b, x)
    ensures a[0].end <= b[0].end
  {
    OutsideNeighbours(b, 0);
    assert !Has(a, b[0].end);
    assert !a[0].Contains(b[0].end);
  }

  lemma HasTail(rs: seq<Range>)
    requires Canonical(rs) && rs != []
    ensures forall x: nat :: Has(rs[1..], x) <==> Has(rs, x) && x >= rs[0].end
  {
    forall x: nat
      ensures Has(rs[1..], x) <==> Has(rs, x) && x >= rs[0].end
    {
      if Has(rs, x) && x >= rs[0].end {
        var i :| 0 <= i < |rs| && rs[i].Contains(x);
        assert rs[1..][i - 1].Contains(x);
      }
      if Has(rs[1..], x) {
        var i :| 0 <= i < |rs[1..]| && rs[1..][i].Contains(x);
        assert rs[i + 1].Contains(x);
      }
    }
  }

  /** `states` are the vectors a set goes through while `added` is inserted one by one. */
  ghost predicate InsertRun(states: seq<seq<Range>>, added: seq<Range>) {
    && |states| == |added| + 1
    && (forall i :: 0 <= i < |states| ==> Canonical(states[i]))
    && (forall i {:trigger added[i]} :: 0 <= i < |added| ==> IsUnion(states[i + 1], states[i], added[i]))
  }

  lemma {:induction false} RunDenotes(states: seq<seq<Range>>, added: seq<Range>, x: nat)
    requires InsertRun(states, added)
    ensures Has(states[|added|], x) <==> Has(states[0], x) || Has(added, x)
  {
    if added != [] {
      var n := |added| - 1;
      assert added == added[..n] + [added[n]];
      assert InsertRun(states[..n + 1], added[..n]) by {
        assert forall i {:trigger added[..n][i]} :: 0 <= i < n ==> added[..n][i] == added[i];
      }
      RunDenotes(states[..n + 1], added[..n], x);
      HasSnoc(added[..n], added[n]);
      assert IsUnion(states[n + 1], states[n], added[n]);
    }
  }

  /** Whatever the order (or the cutting) in which the same offsets are inserted into a set,
      the vector that comes out is the same one. */
  lemma InsertionOrderIrrelevant(
    states: seq<seq<Range>>, added: seq<Range>, states': seq<seq<Range>>, added': seq<Range>)
    requires InsertRun(states, added) && InsertRun(states', added')
    requires states[0] == states'[0]
    requires forall x: nat :: Has(added, x) <==> Has(added', x)
    ensures states[|added|] == states'[|added'|]
  {
    forall x: nat
      ensures Has(states[|added|], x) <==> Has(states'[|added'|], x)
    {
      RunDenotes(states, added, x);
      RunDenotes(states', added', x);
    }
    CanonicalUnique(states[|added|], states'[|added'|]);
  }

  /** Reordering a list of ranges is one way of inserting the same offsets. */
  lemma PermutedRunsAgree(
    states: seq<seq<Range>>, added: seq<Range>, states': seq<seq<Range>>, added': seq<Range>)
    requires InsertRun(states, added) && InsertRun(states', added')
    requires states[0] == states'[0] && multiset(added) == multiset(added')
    ensures states[|added|] == states'[|added'|]
  {
    forall x: nat
      ensures Has(added, x) <==> Has(added', x)
    {
      HasByMember(added, x);
      HasByMember(added', x);
      assert forall r :: r in added <==> r in multiset(added);
      assert forall r :: r in added' <==> r in multiset(added');
    }
    InsertionOrderIrrelevant(states, added, states', added');
  }

  lemma HasByMember(rs: seq<Range>, x: nat)
    ensures Has(rs, x) <==> exists r :: r in rs && r.Contains(x)
  {
  }

  /** Inserting every missing range of a request leaves the request with nothing missing. */
  lemma FillingGapsLeavesNone(
    states: seq<seq<Range>>, gaps: seq<Range>, offset: u64, size: u64, limit: u64, again: seq<Range>)
    requires InsertRun(states, gaps)
    requires IsMissing(gaps, states[0], offset, size, limit)
    requires IsMissing(again, states[|gaps|], offset, size, limit)
    ensures again == []
  {
    if again != [] {
      var x := again[0].start;
      assert again[0].Contains(x);
      assert Has(again, x);
      RunDenotes(states, gaps, x);
      assert false;
    }
  }

  /** No missing range can be grown: the offset on either side of it is present or outside the
      clipped request. */
  lemma MissingRunsAreMaximal(
    missing: seq<Range>, rs: seq<Range>, offset: u64, size: u64, limit: u64, i: nat)
    requires IsMissing(missing, rs, offset, size, limit) && i < |missing|
    ensures missing[i].start == offset || (missing[i].start > 0 && Has(rs, missing[i].start - 1))
    ensures missing[i].end == Min(offset + size, limit) || Has(rs, missing[i].end)
    ensures forall x: nat :: missing[i].start <= x < missing[i].end ==> !Has(rs, x)
  {
    var r := missing[i];
    OutsideNeighbours(missing, i);
    forall x: nat | r.start <= x < r.end
      ensures !Has(rs, x) && Has(missing, x)
    {
      assert r.Contains(x);
    }
    assert Has(missing, r.start) && Has(missing, r.end - 1);
    if r.start != offset {
      assert !Has(missing, r.start - 1);
    }
    if r.end != Min(offset + size, limit) {
      assert !Has(missing, r.end);
    }
  }

  lemma OutsideNeighbours(rs: seq<Range>, i: nat)
    requires Canonical(rs) && i < |rs|
    ensures rs[i].start > 0 ==> !Has(rs, rs[i].start - 1)
    ensures !Has(rs, rs[i].end)
  {
    forall k | 0 <= k < |rs|
      ensures rs[i].start > 0 ==> !rs[k].Contains(rs[i].start - 1)
      ensures !rs[k].Contains(rs[i].end)
    {
    }
  }
}
