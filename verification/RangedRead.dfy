/** The ranged read path: fetch what the cache lacks, chunk by chunk, from a device that may
    answer short, empty, over-long or not at all (src/fs.rs, `read`). */
module RangedReads {
  import opened Basics
  import opened Ranges
  import opened SparseCaches

  /** No USB transfer asks for more than this. */
  const CHUNK: nat := 1024 * 1024

  /** How the device answers one `read_range`, recovery included: an error, or that many of the
      object's bytes from the requested offset on (cut off where the object really ends). */
  datatype Response = Refused | Returned(length: nat, local: LocalWrite)

  datatype Fetch = Fetch(offset: nat, length: nat)

  datatype Reply = DataReply(bytes: seq<byte>) | Eio

  function Answer(content: seq<byte>, at: nat, length: nat): (bytes: seq<byte>)
    ensures at + |bytes| <= |content| || bytes == []
    ensures bytes == [] <==> length == 0 || at >= |content|
  {
    if at >= |content| then [] else content[at..Min(at + length, |content|)]
  }

  function TotalLength(rs: seq<Range>): (n: int) {
    if rs == [] then 0
    else TotalLength(rs[..|rs| - 1]) + rs[|rs| - 1].end - rs[|rs| - 1].start
  }

  /** The chunk asks for what `gaps` lists, as much of one gap as a transfer may bring. */
  ghost predicate InsideGap(f: Fetch, gaps: seq<Range>) {
    exists i :: 0 <= i < |gaps| && AsksIn(f, gaps[i])
  }

  predicate AsksIn(f: Fetch, gap: Range) {
    gap.start <= f.offset < gap.end && f.length == Min(gap.end - f.offset, 1_048_576)
  }

  /** The chunk begins where a gap does, or where the answer to the chunk before ended. */
  ghost predicate GoesOn(
    fetches: seq<Fetch>, k: nat, gaps: seq<Range>, content: seq<byte>, responses: nat -> Response, first: nat)
    requires k < |fetches|
  {
    || (exists i :: 0 <= i < |gaps| && gaps[i].start == fetches[k].offset)
    || (k > 0 && fetches[k].offset == AfterAnswer(fetches[k - 1], content, responses(first + k - 1)))
  }

  /** Where the answer ends. */
  function AfterAnswer(f: Fetch, content: seq<byte>, response: Response): nat {
    if response.Refused? then f.offset else f.offset + |Answer(content, f.offset, response.length)|
  }

  ghost predicate InTurn(
    fetches: seq<Fetch>, gaps: seq<Range>, content: seq<byte>, responses: nat -> Response, first: nat)
  {
    forall k {:trigger GoesOn(fetches, k, gaps, content, responses, first)} :: 0 <= k < |fetches| ==>
      InsideGap(fetches[k], gaps) && GoesOn(fetches, k, gaps, content, responses, first)
  }

  /** The answer was an error, or could not be stored. */
  predicate Fails(response: Response) {
    response.Refused? || response.local.BreaksAfter?
  }

  /** Nothing is asked after an error. */
  ghost predicate StopsAtRefusal(responses: nat -> Response, first: nat, n: nat, failed: bool) {
    && (forall k: nat :: first <= k < first + n && responses(k).Refused? ==> failed && k == first + n - 1)
    && (failed ==> n > 0 && Fails(responses(first + n - 1)))
  }

  /** The first `n` answers all brought bytes that could be stored. */
  ghost predicate AllBroughtBytes(responses: nat -> Response, n: nat) {
    forall k: nat :: k < n ==>
      responses(k).Returned? && responses(k).length > 0 && responses(k).local.Lands?
  }

  ghost predicate PopulatedBelow(populated: set<nat>, gaps: seq<Range>, n: nat)
    requires n <= |gaps|
  {
    forall i, x: nat :: 0 <= i < n && gaps[i].Contains(x) ==> x in populated
  }

  /** Serves `[offset, offset + size)` of an object whose advertised size is the cache's.

      `gaps` is what was missing when the read began and `fetches` what was asked of the device. */
  method Read(
    shared: SharedSparseCache, content: seq<byte>, offset: u64, size: u64,
    responses: nat -> Response)
    returns (reply: Reply, ghost gaps: seq<Range>, ghost fetches: seq<Fetch>)
    requires shared.Valid() && Agrees(shared.View().cache, content)
    modifies shared, shared.cache, shared.cache.ranges
    ensures shared.Valid() && Agrees(shared.View().cache, content)
    ensures old(shared.View().cache.populated) <= shared.View().cache.populated
    ensures reply.DataReply? ==>
        && (size > 0 && offset < shared.cache.total ==>
              Min(offset + size, shared.cache.total) <= |content|)
        && reply.bytes == if size == 0 then [] else ObjectSlice(content, shared.cache.total, offset, size)
    ensures IsMissing(gaps, old(shared.cache.ranges.ranges), offset, size, shared.cache.total)
    ensures InTurn(fetches, gaps, content, responses, 0) && |fetches| <= TotalLength(gaps)
    ensures AllBroughtBytes(responses, |fetches|) && shared.cache.total <= |content| ==>
        reply.DataReply?
    ensures StopsAtRefusal(responses, 0, |fetches|, reply == Eio && Covered(shared.View().cache, offset, size))
      || !Covered(shared.View().cache, offset, size)
    ensures !Covered(shared.View().cache, offset, size) ==> reply == Eio
    ensures forall k: nat :: k < |fetches| && responses(k).Refused? ==> reply == Eio && k == |fetches| - 1
  {
    var missing := shared.cache.MissingRanges(offset, size);
    gaps, fetches := missing, [];
    if size == 0 || offset >= shared.cache.total {
      NothingAsked(missing, shared.cache.ranges.ranges, offset, size, shared.cache.total);
      return DataReply([]), gaps, fetches;
    }
    GapsInsideObject(missing, shared.cache.ranges.ranges, offset, size, shared.cache.total);
    var failed, asked := FetchGaps(shared, content, missing, responses);
    fetches := asked;
    if failed {
      return Eio, gaps, fetches;
    }
    var still := shared.cache.MissingRanges(offset, size);
    if still != [] {
      if AllBroughtBytes(responses, |fetches|) && shared.cache.total <= |content| {
        GapsFilled(shared, old(shared.View().cache), old(shared.cache.ranges.ranges), gaps, offset, size);
      }
      return Eio, gaps, fetches;
    }
    CoveredReadIsDeviceSlice(shared.View().cache, offset, size, content);
    var bytes := shared.cache.ReadAt(offset, size);
    reply := DataReply(bytes);
  }

  /** The outer loop: every missing range in turn, up to the first failure. */
  method FetchGaps(
    shared: SharedSparseCache, content: seq<byte>, missing: seq<Range>, responses: nat -> Response)
    returns (failed: bool, ghost fetches: seq<Fetch>)
    requires shared.Valid() && Agrees(shared.View().cache, content)
    requires Canonical(missing)
    requires forall i :: 0 <= i < |missing| ==> missing[i].end <= shared.cache.total
    modifies shared, shared.cache, shared.cache.ranges
    ensures shared.Valid() && Agrees(shared.View().cache, content)
    ensures old(shared.View().cache.populated) <= shared.View().cache.populated
    ensures InTurn(fetches, missing, content, responses, 0) && |fetches| <= TotalLength(missing)
    ensures StopsAtRefusal(responses, 0, |fetches|, failed)
    ensures AllBroughtBytes(responses, |fetches|) && shared.cache.total <= |content| ==>
        !failed && PopulatedBelow(shared.View().cache.populated, missing, |missing|)
  {
    failed, fetches := false, [];
    var counter: nat := 0;
    var i := 0;
    while i < |missing|
      invariant 0 <= i <= |missing|
      invariant counter == |fetches|
      invariant shared.Valid() && Agrees(shared.View().cache, content)
      invariant old(shared.View().cache.populated) <= shared.View().cache.populated
      invariant GapsAsked(fetches, missing, i, content, responses, false)
      invariant AllBroughtBytes(responses, |fetches|) && shared.cache.total <= |content| ==>
          PopulatedBelow(shared.View().cache.populated, missing, i)
    {
      var broke, turn, asked := FetchGap(shared, content, missing, i, responses, counter);
      TurnsJoin(fetches, asked, missing, i, content, responses, broke);
      counter := turn;
      fetches := fetches + asked;
      i := i + 1;
      if broke {
        WithinAllGaps(fetches, missing, i, content, responses, true);
        return true, fetches;
      }
    }
    WithinAllGaps(fetches, missing, i, content, responses, false);
  }

  /** The inner loop: one missing range, up to the first failure or empty answer. */
  method FetchGap(
    shared: SharedSparseCache, content: seq<byte>, missing: seq<Range>, i: nat,
    responses: nat -> Response, fetched: nat)
    returns (failed: bool, turn: nat, ghost asked: seq<Fetch>)
    requires shared.Valid() && Agrees(shared.View().cache, content)
    requires i < |missing| && missing[i].start < missing[i].end <= shared.cache.total
    modifies shared, shared.cache, shared.cache.ranges
    ensures shared.Valid() && Agrees(shared.View().cache, content)
    ensures old(shared.View().cache.populated) <= shared.View().cache.populated
    ensures turn == fetched + |asked|
    ensures GapAsked(asked, missing, i, content, responses, fetched, failed)
    ensures AllBroughtBytes(responses, fetched + |asked|) && shared.cache.total <= |content| ==>
        && !failed
        && Interval(missing[i].start, missing[i].end) <= shared.View().cache.populated
  {
    failed, turn, asked := false, fetched, [];
    var range := missing[i];
    var cursor: nat := range.start;
    while cursor < range.end
      invariant shared.Valid() && Agrees(shared.View().cache, content)
      invariant old(shared.View().cache.populated) <= shared.View().cache.populated
      invariant range.start <= cursor
      invariant turn == fetched + |asked|
      invariant Asking(asked, missing, i, content, responses, fetched, cursor)
      invariant AllBroughtBytes(responses, turn) && shared.cache.total <= |content| ==>
          Interval(range.start, Min(cursor, range.end)) <= shared.View().cache.populated
    {
      var length := Min(range.end - cursor, CHUNK);
      ghost var before := asked;
      asked := asked + [Fetch(cursor, length)];
      var broke, brought := AskOnce(shared, content, cursor, responses(turn));
      TurnGoesOn(before, Fetch(cursor, length), missing, i, content, responses, fetched, broke);
      turn := turn + 1;
      if broke {
        return true, turn, asked;
      }
      if brought == 0 {
        break;
      }
      cursor := cursor + brought;
    }
  }

  /** What the outer loop has asked for when it is through with the first `n` gaps. */
  ghost predicate GapsAsked(
    fetches: seq<Fetch>, missing: seq<Range>, n: nat, content: seq<byte>, responses: nat -> Response, failed: bool)
  {
    && n <= |missing|
    && InTurn(fetches, missing, content, responses, 0)
    && |fetches| <= TotalLength(missing[..n])
    && StopsAtRefusal(responses, 0, |fetches|, failed)
  }

  /** What the inner loop has asked for in one gap: from its start, at most a chunk for each byte. */
  ghost predicate GapAsked(
    asked: seq<Fetch>, missing: seq<Range>, i: nat, content: seq<byte>, responses: nat -> Response, first: nat,
    failed: bool)
  {
    && i < |missing|
    && InTurn(asked, missing, content, responses, first)
    && asked != [] && asked[0].offset == missing[i].start
    && |asked| <= missing[i].end - missing[i].start
    && StopsAtRefusal(responses, first, |asked|, failed)
  }

  /** The next chunk is to begin at the cursor: where the gap does, or where the last answer ended. */
  ghost predicate Asking(
    asked: seq<Fetch>, missing: seq<Range>, i: nat, content: seq<byte>, responses: nat -> Response, first: nat,
    cursor: nat)
    requires i < |missing|
  {
    if asked == [] then cursor == missing[i].start else
      && GapAsked(asked, missing, i, content, responses, first, false)
      && cursor == AfterAnswer(asked[|asked| - 1], content, responses(first + |asked| - 1))
      && |asked| <= cursor - missing[i].start
  }

  /** One answer, as far as it fits inside the object, into the cache. */
  method AskOnce(shared: SharedSparseCache, content: seq<byte>, cursor: nat, response: Response)
    returns (failed: bool, brought: nat)
    requires shared.Valid() && Agrees(shared.View().cache, content) && cursor < shared.cache.total
    modifies shared, shared.cache, shared.cache.ranges
    ensures shared.Valid() && Agrees(shared.View().cache, content)
    ensures old(shared.View().cache.populated) <= shared.View().cache.populated
    ensures failed ==> Fails(response)
    ensures response.Refused? ==> failed
    ensures !failed ==> cursor + brought == AfterAnswer(Fetch(cursor, 0), content, response)
    ensures !failed ==>
        Interval(cursor, Min(cursor + brought, shared.cache.total)) <= shared.View().cache.populated
    ensures !failed && brought == 0 ==> response.length == 0 || cursor >= |content|
  {
    if response.Refused? {
      return true, 0;
    }
    var bytes := Answer(content, cursor, response.length);
    brought := |bytes|;
    var writable := Min(brought, shared.cache.total - cursor);
    if bytes != [] {
      AnswerIsSlice(content, cursor, response.length, writable);
      WriteKeepsAgreement(shared.View().cache, cursor, bytes[..writable], response.local, content);
    }
    var error := shared.WriteAt(cursor, bytes[..writable], response.local);
    failed := error.Some?;
  }

  lemma TurnGoesOn(
    asked: seq<Fetch>, f: Fetch, missing: seq<Range>, i: nat, content: seq<byte>, responses: nat -> Response,
    first: nat, failed: bool)
    requires i < |missing| && AsksIn(f, missing[i])
    requires Asking(asked, missing, i, content, responses, first, f.offset)
    requires responses(first + |asked|).Refused? ==> failed
    requires failed ==> Fails(responses(first + |asked|))
    ensures GapAsked(asked + [f], missing, i, content, responses, first, failed)
    ensures AfterAnswer(f, content, responses(first + |asked|)) > f.offset ==>
        Asking(asked + [f], missing, i, content, responses, first,
               AfterAnswer(f, content, responses(first + |asked|)))
  {
    InTurnGoesOn(asked, f, missing, i, content, responses, first);
    if asked != [] {
      StopsLater(responses, first, |asked|, failed);
    }
  }

  lemma InTurnGoesOn(
    asked: seq<Fetch>, f: Fetch, missing: seq<Range>, i: nat, content: seq<byte>, responses: nat -> Response,
    first: nat)
    requires i < |missing| && AsksIn(f, missing[i])
    requires Asking(asked, missing, i, content, responses, first, f.offset)
    ensures InTurn(asked + [f], missing, content, responses, first)
  {
    var all := asked + [f];
    forall k | 0 <= k < |all|
      ensures InsideGap(all[k], missing) && GoesOn(all, k, missing, content, responses, first)
    {
      if k < |asked| {
        assert GoesOn(asked, k, missing, content, responses, first);
      }
    }
  }

  lemma StopsLater(responses: nat -> Response, first: nat, n: nat, failed: bool)
    requires StopsAtRefusal(responses, first, n, false)
    requires responses(first + n).Refused? ==> failed
    requires failed ==> Fails(responses(first + n))
    ensures StopsAtRefusal(responses, first, n + 1, failed)
  {
  }

  lemma TurnsJoin(
    fetches: seq<Fetch>, asked: seq<Fetch>, missing: seq<Range>, i: nat, content: seq<byte>,
    responses: nat -> Response, failed: bool)
    requires GapsAsked(fetches, missing, i, content, responses, false)
    requires GapAsked(asked, missing, i, content, responses, |fetches|, failed)
    ensures GapsAsked(fetches + asked, missing, i + 1, content, responses, failed)
  {
    var all := fetches + asked;
    forall k | 0 <= k < |all|
      ensures InsideGap(all[k], missing) && GoesOn(all, k, missing, content, responses, 0)
    {
      if k < |fetches| {
        assert GoesOn(fetches, k, missing, content, responses, 0);
      } else {
        var j := k - |fetches|;
        assert GoesOn(asked, j, missing, content, responses, |fetches|);
        assert all[k] == asked[j] && (j > 0 ==> all[k - 1] == asked[j - 1]);
      }
    }
    assert missing[..i + 1][..i] == missing[..i];
  }

  lemma WithinAllGaps(
    fetches: seq<Fetch>, missing: seq<Range>, n: nat, content: seq<byte>, responses: nat -> Response, failed: bool)
    requires GapsAsked(fetches, missing, n, content, responses, failed) && Canonical(missing)
    ensures InTurn(fetches, missing, content, responses, 0) && |fetches| <= TotalLength(missing)
    ensures StopsAtRefusal(responses, 0, |fetches|, failed)
  {
    TotalLengthMonotone(missing, n);
  }

  lemma AnswerIsSlice(content: seq<byte>, at: nat, length: nat, n: nat)
    requires Answer(content, at, length) != [] && n <= |Answer(content, at, length)|
    ensures at + n <= |content| && Answer(content, at, length)[..n] == content[at..at + n]
  {
  }

  lemma GapsInsideObject(missing: seq<Range>, rs: seq<Range>, offset: u64, size: u64, limit: u64)
    requires IsMissing(missing, rs, offset, size, limit)
    ensures forall i :: 0 <= i < |missing| ==> missing[i].end <= limit
  {
    forall i | 0 <= i < |missing|
      ensures missing[i].end <= limit
    {
      assert missing[i].Contains(missing[i].end - 1);
      assert Has(missing, missing[i].end - 1);
    }
  }

  lemma NothingAsked(missing: seq<Range>, rs: seq<Range>, offset: u64, size: u64, limit: u64)
    requires IsMissing(missing, rs, offset, size, limit) && (size == 0 || offset >= limit)
    ensures missing == []
  {
    if missing != [] {
      assert missing[0].Contains(missing[0].start);
      assert Has(missing, missing[0].start);
    }
  }

  lemma {:induction false} TotalLengthMonotone(rs: seq<Range>, n: nat)
    requires n <= |rs| && Canonical(rs)
    ensures TotalLength(rs[..n]) <= TotalLength(rs)
    decreases |rs| - n
  {
    if n == |rs| {
      assert rs[..n] == rs;
    } else {
      assert rs[..n + 1][..n] == rs[..n];
      TotalLengthMonotone(rs, n + 1);
    }
  }

  /** Once every gap of a request is populated the request is covered. */
  lemma GapsFilled(
    shared: SharedSparseCache, before: CacheView, ranges: seq<Range>, gaps: seq<Range>,
    offset: u64, size: u64)
    requires shared.Valid() && before.total == shared.cache.total
    requires forall x: nat :: x < before.total && Has(ranges, x) ==> x in before.populated
    requires before.populated <= shared.View().cache.populated
    requires IsMissing(gaps, ranges, offset, size, shared.cache.total)
    requires PopulatedBelow(shared.View().cache.populated, gaps, |gaps|)
    ensures Covered(shared.View().cache, offset, size)
  {
    forall x: nat | offset <= x < Min(offset + size, shared.cache.total)
      ensures x in shared.View().cache.populated
    {
      if Has(gaps, x) {
        var i :| 0 <= i < |gaps| && gaps[i].Contains(x);
      }
    }
  }
}
