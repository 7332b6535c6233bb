/** The sparse byte cache of one object and the state of its optional whole-object filler
    (src/sparse_cache.rs). The first half gives the meaning of every mutex-protected step as a
    function on values; the classes at the end are the code and are proved against it. */
module SparseCaches {
  import opened Basics
  import opened Ranges

  // ---------------------------------------------------------------------------------------
  // The cache as a value

  /** `bytes` is the temp file, `populated` the offsets that hold real data. */
  datatype CacheView = CacheView(bytes: seq<byte>, populated: set<nat>, total: u64) {
    ghost predicate Valid() {
      |bytes| == total && forall x :: x in populated ==> x < total
    }
  }

  /** How a write to the local temp file goes: through, or broken off after a prefix. */
  datatype LocalWrite = Lands | BreaksAfter(written: nat)

  datatype WriteError = RangeOverflow | PastObjectEnd | LocalFailure

  predicate Between(lo: nat, x: nat, hi: nat) {
    lo <= x < hi
  }

  function Interval(lo: nat, hi: nat): (xs: set<nat>)
    ensures forall x: nat :: x in xs <==> lo <= x < hi
  {
    set x: nat | x < hi && Between(lo, x, hi)
  }

  function Overlay(base: seq<byte>, at: nat, data: seq<byte>): (r: seq<byte>)
    requires at + |data| <= |base|
    ensures |r| == |base|
    ensures forall x :: 0 <= x < |base| ==>
        r[x] == if at <= x < at + |data| then data[x - at] else base[x]
  {
    base[..at] + data + base[at + |data|..]
  }

  function CacheWrite(v: CacheView, offset: u64, data: seq<byte>, local: LocalWrite)
    : (r: (CacheView, Option<WriteError>))
    requires v.Valid()
    ensures r.0.Valid() && r.0.total == v.total && v.populated <= r.0.populated
    ensures r.1.None? ==> r.0.populated == v.populated + Interval(offset, offset + |data|)
    ensures r.1.Some? ==> r.0.populated == v.populated
    ensures r.1.None? <==> data == [] || (offset + |data| <= v.total && local.Lands?)
    ensures r.1 == Some(RangeOverflow) <==> data != [] && offset + |data| > U64_MAX
    ensures r.1 == Some(LocalFailure) <==> data != [] && offset + |data| <= v.total && local.BreaksAfter?
  {
    if data == [] then
      (v, None)
    else if offset + |data| > U64_MAX then
      (v, Some(RangeOverflow))
    else if offset + |data| > v.total then
      (v, Some(PastObjectEnd))
    else match local {
      case Lands =>
        (v.(bytes := Overlay(v.bytes, offset, data),
            populated := v.populated + Interval(offset, offset + |data|)), None)
      case BreaksAfter(written) =>
        (v.(bytes := Overlay(v.bytes, offset, data[..Min(written, |data|)])), Some(LocalFailure))
    }
  }

  /** The bytes at `[offset, offset + size)` clipped to the object, from the temp file. */
  function CacheRead(v: CacheView, offset: u64, size: u64): (data: seq<byte>)
    requires v.Valid()
  {
    if offset >= v.total then [] else v.bytes[offset..offset + Min(size, v.total - offset)]
  }

  /** Nothing of the clipped request is missing. */
  ghost predicate Covered(v: CacheView, offset: u64, size: u64) {
    forall x :: offset <= x < Min(offset + size, v.total) ==> x in v.populated
  }

  /** What a reader of `object` is owed for `[offset, offset + size)`, `total` being the
      advertised size. */
  function ObjectSlice(content: seq<byte>, total: u64, offset: u64, size: u64): seq<byte>
    requires offset < total ==> Min(offset + size, total) <= |content|
  {
    if offset >= total then [] else content[offset..Min(offset + size, total)]
  }

  /** Every populated offset holds the device's byte. The object may be shorter or longer than
      the size the device advertised for it. */
  ghost predicate Agrees(v: CacheView, content: seq<byte>) {
    && v.Valid()
    && forall x :: x in v.populated ==> x < |content| && v.bytes[x] == content[x]
  }

  lemma WriteKeepsAgreement(v: CacheView, offset: u64, data: seq<byte>, local: LocalWrite, content: seq<byte>)
    requires Agrees(v, content)
    requires offset + |data| <= |content| && data == content[offset..offset + |data|]
    ensures Agrees(CacheWrite(v, offset, data, local).0, content)
  {
  }

  /** A covered read returns device bytes only: never a hole, never past the object. */
  lemma CoveredReadIsDeviceSlice(v: CacheView, offset: u64, size: u64, content: seq<byte>)
    requires Agrees(v, content) && Covered(v, offset, size)
    requires size > 0
    ensures offset < v.total ==> Min(offset + size, v.total) <= |content|
    ensures CacheRead(v, offset, size) == ObjectSlice(content, v.total, offset, size)
  {
    if offset < v.total {
      var end := Min(offset + size, v.total);
      assert end - 1 in v.populated;
      assert end == offset + Min(size, v.total - offset);
    }
  }

  // ---------------------------------------------------------------------------------------
  // The fill state as a value

  datatype Reason =
    | Stopping | NotStarted | StreamBroke | EndedShort | EndedWithoutRange
    | LocalWriteFailed | Overlong | CountOverflow | OpenFailed

  datatype Failure = Failure(reason: Reason, linkLost: bool)

  datatype FillState = Idle | Running | Complete | Failed(failure: Failure)

  datatype Shared = Shared(cache: CacheView, fill: FillState, stop: bool)

  function StartFill(s: Shared): (r: (Shared, bool)) {
    if s.fill.Idle? then (s.(fill := Running), true) else (s, false)
  }

  function ResetAfterLinkLoss(s: Shared): (r: (Shared, bool)) {
    if s.fill.Failed? && s.fill.failure.linkLost then (s.(fill := Idle), true) else (s, false)
  }

  function WriteSequential(s: Shared, offset: u64, data: seq<byte>, local: LocalWrite)
    : (r: (Shared, bool))
    requires s.cache.Valid()
  {
    if !s.fill.Running? then (s, false)
    else
      var (cache, error) := CacheWrite(s.cache, offset, data, local);
      (s.(cache := cache), error.None?)
  }

  function Finish(s: Shared, received: u64): (r: Shared) {
    s.(fill := if received == s.cache.total then Complete else Failed(Failure(EndedShort, false)))
  }

  function Fail(s: Shared, failure: Failure): (r: Shared) {
    s.(fill := Failed(failure))
  }

  /** One turn of the waiting loop of `wait_and_read`, under the lock. */
  datatype Poll = Blocked | Data(bytes: seq<byte>) | Gone(failure: Failure)

  ghost function PollRead(s: Shared, offset: u64, size: u64): (p: Poll)
    requires s.cache.Valid()
  {
    if Covered(s.cache, offset, size) then Data(CacheRead(s.cache, offset, size))
    else match s.fill {
      case Idle => Gone(Failure(NotStarted, false))
      case Running => Blocked
      case Complete => Gone(Failure(EndedWithoutRange, false))
      case Failed(failure) => Gone(failure)
    }
  }

  // ---------------------------------------------------------------------------------------
  // The filler's own variables

  datatype Filler = Filler(offset: u64, failure: Option<Failure>)

  /** One chunk taken from the stream. */
  function Absorb(f: Filler, s: Shared, chunk: seq<byte>, local: LocalWrite): (r: (Filler, Shared))
    requires s.cache.Valid()
    ensures r.1.cache.Valid() && r.1.cache.total == s.cache.total
    ensures r.1.fill == s.fill && r.1.stop == s.stop
  {
    var remaining := if f.offset <= s.cache.total then s.cache.total - f.offset else 0;
    var writable := Min(|chunk|, remaining);
    var (s', landed) :=
      if f.failure.None? then WriteSequential(s, f.offset, chunk[..writable], local) else (s, true);
    var failure :=
      if f.failure.Some? then f.failure
      else if !landed then Some(Failure(LocalWriteFailed, false))
      else if writable != |chunk| then Some(Failure(Overlong, false))
      else None;
    if f.offset + |chunk| <= U64_MAX then (Filler(f.offset + |chunk|, failure), s')
    else (Filler(U64_MAX, if failure.Some? then failure else Some(Failure(CountOverflow, false))), s')
  }

  /** What the filler publishes at end of transfer. */
  function Conclude(f: Filler, s: Shared): (r: Shared) {
    match f.failure
    case Some(failure) => Fail(s, failure)
    case None => Finish(s, f.offset)
  }

  /** A filler that has not failed has put down everything before its offset. */
  ghost predicate FillerOk(f: Filler, s: Shared, pos: nat) {
    f.failure.None? ==>
      f.offset == pos && f.offset <= s.cache.total && Interval(0, f.offset) <= s.cache.populated
  }

  lemma AbsorbKeepsFiller(f: Filler, s: Shared, pos: nat, n: nat, local: LocalWrite, content: seq<byte>)
    requires Agrees(s.cache, content) && s.fill.Running? && FillerOk(f, s, pos)
    requires pos + n <= |content|
    ensures var (f', s') := Absorb(f, s, content[pos..pos + n], local);
      && Agrees(s'.cache, content) && FillerOk(f', s', pos + n)
      && s.cache.populated <= s'.cache.populated
  {
    var chunk := content[pos..pos + n];
    if f.failure.None? {
      var writable := Min(|chunk|, s.cache.total - f.offset);
      assert chunk[..writable] == content[f.offset..f.offset + writable];
      WriteKeepsAgreement(s.cache, f.offset, chunk[..writable], local, content);
    }
  }

  /** The byte count can only overflow once the fill has already failed, so the overflow is
      never what a reader is told. */
  lemma OverflowIsNeverTheFirstFailure(
    f: Filler, s: Shared, pos: nat, chunk: seq<byte>, local: LocalWrite)
    requires s.cache.Valid() && s.fill.Running? && FillerOk(f, s, pos)
    requires f.failure != Some(Failure(CountOverflow, false))
    ensures Absorb(f, s, chunk, local).0.failure != Some(Failure(CountOverflow, false))
  {
  }

  /** `Complete` is published only with every byte in place. */
  lemma ConcludeCompleteIsFull(f: Filler, s: Shared, pos: nat)
    requires s.cache.Valid() && FillerOk(f, s, pos)
    ensures Conclude(f, s).fill.Complete? ==> Interval(0, s.cache.total) <= s.cache.populated
  {
  }

  // ---------------------------------------------------------------------------------------
  // The code

  class SparseCache {
    const ranges: RangeSet
    const total: u64
    var file: seq<byte>

    ghost predicate Valid()
      reads this, ranges
    {
      && ranges.Valid()
      && |file| == total
      && forall x: nat :: Has(ranges.ranges, x) ==> x < total
    }

    ghost function View(): (v: CacheView)
      reads this, ranges
      requires Valid()
      ensures v.Valid()
    {
      CacheView(file, (set x: nat | x < total && Has(ranges.ranges, x)), total)
    }

    constructor (total: u64)
      ensures Valid() && fresh(ranges)
      ensures View().populated == {} && View().total == total
    {
      ranges := new RangeSet();
      this.total := total;
      file := seq(total, _ => 0);
    }

    method MissingRanges(offset: u64, size: u64) returns (missing: seq<Range>)
      requires Valid()
      ensures IsMissing(missing, ranges.ranges, offset, size, total)
      ensures missing == [] <==> Covered(View(), offset, size)
    {
      missing := ranges.Missing(offset, size, total);
      NoneMissingIsCovered(missing, offset, size);
    }

    lemma NoneMissingIsCovered(missing: seq<Range>, offset: u64, size: u64)
      requires Valid() && IsMissing(missing, ranges.ranges, offset, size, total)
      ensures missing == [] <==> Covered(View(), offset, size)
    {
      if missing == [] {
        forall x | offset <= x < Min(offset + size, total)
          ensures x in View().populated
        {
          assert !Has(missing, x);
        }
      } else {
        var x := missing[0].start;
        assert missing[0].Contains(x) && Has(missing, x);
        assert x !in View().populated;
      }
    }

    method WriteAt(offset: u64, data: seq<byte>, local: LocalWrite)
      returns (error: Option<WriteError>)
      requires Valid()
      modifies this, ranges
      ensures Valid()
      ensures (View(), error) == CacheWrite(old(View()), offset, data, local)
    {
      if data == [] {
        return None;
      }
      if offset + |data| > U64_MAX {
        return Some(RangeOverflow);
      }
      var end: u64 := offset + |data|;
      if end > total {
        return Some(PastObjectEnd);
      }
      if local.BreaksAfter? {
        file := Overlay(file, offset, data[..Min(local.written, |data|)]);
        return Some(LocalFailure);
      }
      file := Overlay(file, offset, data);
      ranges.Insert(Range(offset, end));
      assert View().populated == old(View().populated) + Interval(offset, end);
      error := None;
    }

    method ReadAt(offset: u64, size: u64) returns (data: seq<byte>)
      requires Valid()
      ensures data == CacheRead(View(), offset, size)
      ensures |data| == if offset < total then Min(size, total - offset) else 0
      ensures forall k :: 0 <= k < |data| ==> data[k] == file[offset + k]
    {
      if offset >= total {
        return [];
      }
      var length := Min(size, total - offset);
      data := file[offset..offset + length];
    }
  }

  /** What other threads may do to a shared cache between two steps of its filler: they hold no
      fill slot, so they cannot reach the methods that only the slot's owner calls. */
  datatype Other =
    | AsksToStop
    | ReadsRange(offset: u64, length: nat, local: LocalWrite)
    | TriesToStart
    | TriesToReset

  class SharedSparseCache {
    const cache: SparseCache
    var fill: FillState
    var stop: bool

    ghost predicate Valid()
      reads this, cache, cache.ranges
    {
      cache.Valid()
    }

    ghost function View(): (s: Shared)
      reads this, cache, cache.ranges
      requires Valid()
    {
      Shared(cache.View(), fill, stop)
    }

    constructor (total: u64)
      ensures Valid() && fresh(cache) && fresh(cache.ranges)
      ensures View().fill == Idle && !View().stop
      ensures View().cache.populated == {} && View().cache.total == total
    {
      cache := new SparseCache(total);
      fill, stop := Idle, false;
    }

    method StartFilling() returns (started: bool)
      requires Valid()
      modifies this
      ensures Valid() && (View(), started) == StartFill(old(View()))
      ensures started <==> old(fill).Idle?
      ensures fill == (if started then Running else old(fill)) && stop == old(stop)
      ensures View().cache == old(View()).cache
    {
      if !fill.Idle? {
        return false;
      }
      fill := Running;
      started := true;
    }

    method IsFilling() returns (filling: bool)
      requires Valid()
      ensures filling == View().fill.Running?
    {
      filling := fill.Running?;
    }

    method RequestStop()
      requires Valid()
      modifies this
      ensures Valid() && View() == old(View()).(stop := true)
    {
      stop := true;
    }

    method ResetFailedLink() returns (reset: bool)
      requires Valid()
      modifies this
      ensures Valid() && (View(), reset) == ResetAfterLinkLoss(old(View()))
      ensures reset <==> exists failure :: old(fill) == Failed(failure) && failure.linkLost
      ensures fill == (if reset then Idle else old(fill)) && stop == old(stop)
      ensures View().cache == old(View()).cache
    {
      if fill.Failed? && fill.failure.linkLost {
        fill := Idle;
        reset := true;
      } else {
        reset := false;
      }
    }

    method WriteNext(offset: u64, data: seq<byte>, local: LocalWrite) returns (landed: bool)
      requires Valid()
      modifies this, cache, cache.ranges
      ensures Valid() && (View(), landed) == WriteSequential(old(View()), offset, data, local)
      ensures landed ==> old(fill).Running? && Interval(offset, offset + |data|) <= View().cache.populated
      ensures old(fill).Running? && local.Lands? && offset + |data| <= cache.total ==> landed
      ensures fill == old(fill) && stop == old(stop)
    {
      if !fill.Running? {
        return false;
      }
      var error := cache.WriteAt(offset, data, local);
      landed := error.None?;
    }

    method FinishFill(received: u64)
      requires Valid()
      modifies this
      ensures Valid() && View() == Finish(old(View()), received)
      ensures fill == if received == cache.total then Complete else Failed(Failure(EndedShort, false))
      ensures stop == old(stop) && View().cache == old(View()).cache
    {
      fill := if received == cache.total then Complete else Failed(Failure(EndedShort, false));
    }

    method FailFill(failure: Failure)
      requires Valid()
      modifies this
      ensures Valid() && View() == Fail(old(View()), failure)
      ensures fill == Failed(failure) && stop == old(stop) && View().cache == old(View()).cache
    {
      fill := Failed(failure);
    }

    /** What the waiting loop decides each time it holds the lock: it goes back to sleep only
        while the fill is running and part of the range is still to come. */
    method PollOnce(offset: u64, size: u64) returns (p: Poll)
      requires Valid()
      ensures p == PollRead(View(), offset, size)
      ensures p.Blocked? <==> View().fill.Running? && !Covered(View().cache, offset, size)
      ensures p.Data? <==> Covered(View().cache, offset, size)
      ensures p.Data? ==> p.bytes == CacheRead(View().cache, offset, size)
      ensures p.Gone? ==> if fill.Failed? then p.failure == fill.failure else !p.failure.linkLost
    {
      var missing := cache.MissingRanges(offset, size);
      if missing == [] {
        var data := cache.ReadAt(offset, size);
        return Data(data);
      }
      match fill {
        case Idle => p := Gone(Failure(NotStarted, false));
        case Running => p := Blocked;
        case Complete => p := Gone(Failure(EndedWithoutRange, false));
        case Failed(failure) => p := Gone(failure);
      }
    }

    method WriteAt(offset: u64, data: seq<byte>, local: LocalWrite)
      returns (error: Option<WriteError>)
      requires Valid()
      modifies this, cache, cache.ranges
      ensures Valid() && fill == old(fill) && stop == old(stop)
      ensures (View().cache, error) == CacheWrite(old(View()).cache, offset, data, local)
    {
      error := cache.WriteAt(offset, data, local);
    }

    /** Other threads' turns while this cache's filler holds the slot. */
    method Interfere(others: seq<Other>, content: seq<byte>)
      requires Valid() && fill.Running? && Agrees(View().cache, content)
      modifies this, cache, cache.ranges
      ensures Valid() && fill.Running? && Agrees(View().cache, content)
      ensures old(View().cache.populated) <= View().cache.populated
      ensures stop <==> old(stop) || AsksToStop in others
    {
      var i := 0;
      while i < |others|
        invariant 0 <= i <= |others|
        invariant Valid() && fill.Running? && Agrees(View().cache, content)
        invariant old(View().cache.populated) <= View().cache.populated
        invariant stop <==> old(stop) || AsksToStop in others[..i]
      {
        assert others[..i + 1] == others[..i] + [others[i]];
        match others[i] {
          case AsksToStop =>
            RequestStop();
          case ReadsRange(offset, length, local) =>
            if offset + length <= |content| {
              WriteKeepsAgreement(View().cache, offset, content[offset..offset + length], local, content);
              var _ := WriteAt(offset, content[offset..offset + length], local);
            }
          case TriesToStart =>
            var started := StartFilling();
            assert !started;
          case TriesToReset =>
            var reset := ResetFailedLink();
            assert !reset;
        }
        i := i + 1;
      }
      assert others[..i] == others;
    }
  }

  // ---------------------------------------------------------------------------------------
  // The whole-object stream and the loop that drains it

  /** What the device does when asked for the next chunk; running out means end of transfer. */
  datatype Item = Chunk(length: nat, local: LocalWrite) | Broken(linkLost: bool)

  datatype StreamEvent = Pulled | EndOfTransfer | TransferBroke | Cancelled

  class ObjectStream {
    const content: seq<byte>
    const script: seq<Item>
    var turn: nat
    var pos: nat
    ghost var events: seq<StreamEvent>

    ghost predicate Valid()
      reads this
    {
      turn <= |script| && pos <= |content|
    }

    constructor (content: seq<byte>, script: seq<Item>)
      ensures Valid() && turn == pos == 0 && events == []
      ensures this.content == content && this.script == script
    {
      this.content, this.script := content, script;
      turn, pos, events := 0, 0, [];
    }

    /** The next item, its chunk being the object's bytes from where the last one stopped. */
    method Next() returns (item: Option<Item>, chunk: seq<byte>)
      requires Valid()
      modifies this
      ensures Valid()
      ensures item == if old(turn) < |script| then Some(script[old(turn)]) else None
      ensures turn == if item.Some? then old(turn) + 1 else old(turn)
      ensures events == old(events) +
          [if item.None? then EndOfTransfer else if item.value.Chunk? then Pulled else TransferBroke]
      ensures item.None? || item.value.Broken? ==> chunk == []
      ensures pos == old(pos) + |chunk| && chunk == content[old(pos)..pos]
      ensures item.Some? && item.value.Chunk? ==> pos == Min(old(pos) + item.value.length, |content|)
    {
      chunk := [];
      if turn == |script| {
        item := None;
        events := events + [EndOfTransfer];
        return;
      }
      item := Some(script[turn]);
      turn := turn + 1;
      match item.value {
        case Chunk(length, _) =>
          var end := Min(pos + length, |content|);
          chunk := content[pos..end];
          pos := end;
          events := events + [Pulled];
        case Broken(_) =>
          events := events + [TransferBroke];
      }
    }

    method Cancel()
      requires Valid()
      modifies this
      ensures Valid() && turn == old(turn) && pos == old(pos)
      ensures events == old(events) + [Cancelled]
    {
      events := events + [Cancelled];
    }
  }

  /** Chunks, then exactly one way of ending the transfer. */
  ghost predicate TransferEnded(events: seq<StreamEvent>) {
    && events != []
    && !events[|events| - 1].Pulled?
    && forall i :: 0 <= i < |events| - 1 ==> events[i].Pulled?
  }

  datatype FillOutcome = Finished | Stopped

  // ---------------------------------------------------------------------------------------
  // What a fill comes to

  /** The bytes that the first `n` chunks offer. */
  function Offered(script: seq<Item>, n: nat): nat
    requires n <= |script|
  {
    if n == 0 then 0 else Offered(script, n - 1) + if script[n - 1].Chunk? then script[n - 1].length else 0
  }

  /** The bytes that have come after the first `n` chunks: what they offer, as far as the object goes. */
  function Received(script: seq<Item>, content: seq<byte>, n: nat): (received: nat)
    requires n <= |script|
    ensures received <= |content|
  {
    Min(Offered(script, n), |content|)
  }

  /** The `k`th chunk cannot be stored whole: it exceeds the advertised size, or the local write breaks off
      with something left to store. */
  predicate ChunkFails(script: seq<Item>, content: seq<byte>, total: nat, k: nat)
    requires k < |script|
  {
    script[k].Chunk? && (Received(script, content, k + 1) > total || WriteFails(script, content, total, k))
  }

  predicate WriteFails(script: seq<Item>, content: seq<byte>, total: nat, k: nat)
    requires k < |script|
  {
    && script[k].Chunk? && script[k].local.BreaksAfter?
    && Received(script, content, k) < Min(Received(script, content, k + 1), total)
  }

  /** All of the first `n` chunks were stored. */
  ghost predicate AllStored(script: seq<Item>, content: seq<byte>, total: nat, n: nat)
    requires n <= |script|
  {
    forall k :: 0 <= k < n ==> !ChunkFails(script, content, total, k)
  }

  /** The first of them that was not. */
  ghost predicate FirstToFail(script: seq<Item>, content: seq<byte>, total: nat, k: nat)
    requires k < |script|
  {
    ChunkFails(script, content, total, k) && AllStored(script, content, total, k)
  }

  /** A stop has been asked for by the time that the filler looks before its `n`th pull: it lets the others
      have two turns between two looks. */
  ghost predicate StopSeen(stop: bool, others: nat -> seq<Other>, n: nat) {
    stop || exists m: nat :: m <= 2 * n && AsksToStop in others(m)
  }

  /** The first `n` pulls are made and bring a chunk each. */
  ghost predicate GoesOn(script: seq<Item>, stop: bool, others: nat -> seq<Other>, n: nat) {
    n <= |script| && forall k :: 0 <= k < n ==> script[k].Chunk? && !StopSeen(stop, others, k)
  }

  /** The loop ends before its `n`th pull, or by it: with a stop seen, a broken transfer or its end. */
  ghost predicate EndsBy(script: seq<Item>, stop: bool, others: nat -> seq<Other>, n: nat) {
    && GoesOn(script, stop, others, n)
    && (StopSeen(stop, others, n) || n == |script| || script[n].Broken?)
  }

  /** What a fill that ends so publishes. */
  ghost predicate Publishes(
    script: seq<Item>, content: seq<byte>, total: nat, stop: bool, others: nat -> seq<Other>, n: nat, fill: FillState)
    requires n <= |script|
  {
    if StopSeen(stop, others, n) then fill == Failed(Failure(Stopping, false))
    else if n < |script| then script[n].Broken? && fill == Failed(Failure(StreamBroke, script[n].linkLost))
    else
      && (fill.Complete? <==> AllStored(script, content, total, n) && Received(script, content, n) == total)
      && (AllStored(script, content, total, n) && Received(script, content, n) != total ==>
            fill == Failed(Failure(EndedShort, false)))
      && forall k :: 0 <= k < n && FirstToFail(script, content, total, k) ==>
           fill == Failed(Failure(
             if WriteFails(script, content, total, k) then LocalWriteFailed else Overlong, false))
  }

  /** Up to the first chunk that fails everything is in the cache, and of one that is merely too long the part
      that fits. */
  ghost predicate KeepsWhatCame(
    populated: set<nat>, script: seq<Item>, content: seq<byte>, total: nat, n: nat)
    requires n <= |script|
  {
    forall k {:trigger LandedThrough(script, content, total, k)} ::
      0 <= k <= n && LandedThrough(script, content, total, k) ==>
      Interval(0, Min(Received(script, content, k), total)) <= populated
  }

  ghost predicate LandedThrough(script: seq<Item>, content: seq<byte>, total: nat, k: nat)
    requires k <= |script|
  {
    k > 0 ==> AllStored(script, content, total, k - 1) && !WriteFails(script, content, total, k - 1)
  }

  /** What the filler remembers of the first `n` chunks. */
  ghost predicate Remembers(f: Filler, script: seq<Item>, content: seq<byte>, total: nat, n: nat)
    requires n <= |script|
  {
    && (f.failure.None? <==> AllStored(script, content, total, n))
    && (f.failure.None? ==> f.offset == Received(script, content, n))
    && forall k :: 0 <= k < n && FirstToFail(script, content, total, k) ==>
         f.failure == Some(Failure(
           if WriteFails(script, content, total, k) then LocalWriteFailed else Overlong, false))
  }

  lemma FirstNow(script: seq<Item>, content: seq<byte>, total: nat, n: nat)
    requires n < |script|
    ensures AllStored(script, content, total, n + 1) <==>
        AllStored(script, content, total, n) && !ChunkFails(script, content, total, n)
  {
  }

  /** Absorbing the next chunk, the filler remembers it too. */
  lemma AbsorbRemembers(f: Filler, s: Shared, script: seq<Item>, content: seq<byte>, n: nat)
    requires n < |script| && script[n].Chunk? && s.cache.Valid() && s.fill.Running?
    requires Remembers(f, script, content, s.cache.total, n) && FillerOk(f, s, Received(script, content, n))
    ensures var chunk := content[Received(script, content, n)..Received(script, content, n + 1)];
      Remembers(Absorb(f, s, chunk, script[n].local).0, script, content, s.cache.total, n + 1)
  {
    FirstNow(script, content, s.cache.total, n);
  }

  /** And its bytes are in the cache, if the local write went through. */
  lemma AbsorbStores(f: Filler, s: Shared, script: seq<Item>, content: seq<byte>, n: nat)
    requires n < |script| && script[n].Chunk? && s.cache.Valid() && s.fill.Running?
    requires Remembers(f, script, content, s.cache.total, n) && FillerOk(f, s, Received(script, content, n))
    requires KeepsWhatCame(s.cache.populated, script, content, s.cache.total, n)
    ensures var chunk := content[Received(script, content, n)..Received(script, content, n + 1)];
      KeepsWhatCame(Absorb(f, s, chunk, script[n].local).1.cache.populated, script, content, s.cache.total, n + 1)
  {
    var from, to, total := Received(script, content, n), Received(script, content, n + 1), s.cache.total;
    var after := Absorb(f, s, content[from..to], script[n].local).1.cache.populated;
    assert s.cache.populated <= after;
    if LandedThrough(script, content, total, n + 1) {
      assert f.offset == from;
      assert Interval(from, Min(to, total)) <= after;
      assert Interval(0, Min(to, total)) <= Interval(0, from) + Interval(from, Min(to, total));
    }
  }

  /** Where a fill stands after `n` chunks. */
  ghost predicate Progress(f: Filler, s: Shared, script: seq<Item>, content: seq<byte>, n: nat) {
    && n <= |script| && s.fill.Running? && Agrees(s.cache, content)
    && FillerOk(f, s, Received(script, content, n)) && Remembers(f, script, content, s.cache.total, n)
    && KeepsWhatCame(s.cache.populated, script, content, s.cache.total, n)
  }

  lemma AbsorbProgresses(f: Filler, s: Shared, script: seq<Item>, content: seq<byte>, n: nat)
    requires Progress(f, s, script, content, n) && n < |script| && script[n].Chunk?
    ensures var chunk := content[Received(script, content, n)..Received(script, content, n + 1)];
      var (f', s') := Absorb(f, s, chunk, script[n].local);
      Progress(f', s', script, content, n + 1) && s.cache.populated <= s'.cache.populated
  {
    var from, to := Received(script, content, n), Received(script, content, n + 1);
    AbsorbKeepsFiller(f, s, from, to - from, script[n].local, content);
    AbsorbRemembers(f, s, script, content, n);
    AbsorbStores(f, s, script, content, n);
  }

  /** Others only add to the cache. */
  lemma ProgressKept(f: Filler, s: Shared, s': Shared, script: seq<Item>, content: seq<byte>, n: nat)
    requires Progress(f, s, script, content, n) && s'.fill.Running? && Agrees(s'.cache, content)
    requires s.cache.populated <= s'.cache.populated && s'.cache.total == s.cache.total
    ensures Progress(f, s', script, content, n)
  {
  }

  /** So what it publishes at the end of the transfer is what the chunks come to. */
  lemma ConcludePublishes(f: Filler, s: Shared, script: seq<Item>, content: seq<byte>, stop: bool,
                          others: nat -> seq<Other>)
    requires Progress(f, s, script, content, |script|) && !StopSeen(stop, others, |script|)
    ensures Publishes(script, content, s.cache.total, stop, others, |script|, Conclude(f, s).fill)
    ensures Conclude(f, s).fill.Complete? ==> Interval(0, s.cache.total) <= s.cache.populated
  {
    ConcludeCompleteIsFull(f, s, Received(script, content, |script|));
  }

  /** One pull more, and what has been asked for by two turns later. */
  lemma GoesOnNext(script: seq<Item>, stop: bool, others: nat -> seq<Other>, n: nat)
    requires GoesOn(script, stop, others, n) && !StopSeen(stop, others, n)
    ensures n < |script| && script[n].Chunk? ==> GoesOn(script, stop, others, n + 1)
    ensures StopSeen(stop, others, n + 1) <==>
        StopSeen(stop, others, n) || AsksToStop in others(2 * n + 1) || AsksToStop in others(2 * (n + 1))
  {
    if StopSeen(stop, others, n + 1) && !stop {
      var m: nat :| m <= 2 * n + 2 && AsksToStop in others(m);
      assert m <= 2 * n || m == 2 * n + 1 || m == 2 * n + 2;
    }
  }

  /** The filler's loop, with other threads' turns (`others`) between its atomic steps.

      However the stream behaves and whoever interferes, the transfer is ended exactly once, a
      seen stop request ends it by the one cancel and nothing is pulled after that, the cache
      still agrees with the object, and the slot is given back with `Complete` only if every
      byte is there. It ends before or by its `n`th pull with what is published then: `Complete`
      exactly if no stop was seen, the transfer did not break, all chunks were stored and they came to
      the advertised size; else the first thing that went wrong, a broken transfer with whether the
      link was lost. */
  method FillFromStream(shared: SharedSparseCache, stream: ObjectStream, others: nat -> seq<Other>)
    returns (outcome: FillOutcome, ghost n: nat)
    requires shared.Valid() && stream.Valid() && stream.turn == stream.pos == 0 && stream.events == []
    requires shared.fill.Running? && Agrees(shared.View().cache, stream.content)
    modifies shared, shared.cache, shared.cache.ranges, stream
    ensures shared.Valid() && stream.Valid()
    ensures Agrees(shared.View().cache, stream.content)
    ensures old(shared.View().cache.populated) <= shared.View().cache.populated
    ensures TransferEnded(stream.events)
    ensures outcome.Stopped? <==> stream.events[|stream.events| - 1].Cancelled?
    ensures outcome.Stopped? ==> shared.stop && shared.fill == Failed(Failure(Stopping, false))
    ensures shared.fill.Complete? || shared.fill.Failed?
    ensures shared.fill.Complete? ==>
        Interval(0, shared.cache.total) <= shared.View().cache.populated
    ensures old(shared.stop) ==> stream.events == [Cancelled]
    ensures EndsBy(stream.script, old(shared.stop), others, n)
    ensures outcome.Stopped? <==> StopSeen(old(shared.stop), others, n)
    ensures Publishes(
        stream.script, stream.content, shared.cache.total, old(shared.stop), others, n, shared.fill)
    ensures KeepsWhatCame(
        shared.View().cache.populated, stream.script, stream.content, shared.cache.total, n)
  {
    var filler := Filler(0, None);
    var tick := 0;
    n := 0;
    FillBegins(shared, stream, others);
    while true
      invariant tick == 2 * n && Filling(shared, stream, filler, old(shared.stop), others, n)
      invariant old(shared.View().cache.populated) <= shared.View().cache.populated
      decreases |stream.script| - n
    {
      var end;
      end, filler := FillTurn(shared, stream, filler, tick, others, old(shared.stop), n);
      if end.Some? {
        return end.value, n;
      }
      tick, n := tick + 2, n + 1;
    }
  }

  /** Before the filler's `n`th look: what it and others have done so far. */
  ghost predicate Filling(
    shared: SharedSparseCache, stream: ObjectStream, filler: Filler, stop: bool, others: nat -> seq<Other>, n: nat)
    reads shared, shared.cache, shared.cache.ranges, stream
  {
    && Pulling(shared, stream, filler, n) && GoesOn(stream.script, stop, others, n)
    && |stream.events| == n && (forall i :: 0 <= i < n ==> stream.events[i].Pulled?)
    && (StopSeen(stop, others, n) <==> shared.stop || AsksToStop in others(2 * n))
  }

  ghost predicate Pulling(shared: SharedSparseCache, stream: ObjectStream, filler: Filler, n: nat)
    reads shared, shared.cache, shared.cache.ranges, stream
  {
    && shared.Valid() && stream.Valid() && n == stream.turn
    && Progress(filler, shared.View(), stream.script, stream.content, n)
    && stream.pos == Received(stream.script, stream.content, n)
  }

  /** After it has ended there. */
  ghost predicate FillEnded(
    shared: SharedSparseCache, stream: ObjectStream, outcome: FillOutcome, stop: bool,
    others: nat -> seq<Other>, n: nat)
    reads shared, shared.cache, shared.cache.ranges, stream
  {
    && shared.Valid() && stream.Valid() && Agrees(shared.View().cache, stream.content)
    && EndsBy(stream.script, stop, others, n) && (outcome.Stopped? <==> StopSeen(stop, others, n))
    && |stream.events| == n + 1 && TransferEnded(stream.events)
    && (outcome.Stopped? <==> stream.events[n].Cancelled?) && (outcome.Stopped? ==> shared.stop)
    && (shared.fill.Complete? || shared.fill.Failed?)
    && (shared.fill.Complete? ==> Interval(0, shared.cache.total) <= shared.View().cache.populated)
    && Publishes(stream.script, stream.content, shared.cache.total, stop, others, n, shared.fill)
    && KeepsWhatCame(shared.View().cache.populated, stream.script, stream.content, shared.cache.total, n)
  }

  lemma {:induction false} OfferedGrows(script: seq<Item>, k: nat, n: nat)
    requires k <= n <= |script|
    ensures Offered(script, k) <= Offered(script, n)
    decreases n
  {
    if k < n {
      OfferedGrows(script, k, n - 1);
    }
  }

  /** Undisturbed, a fill completes exactly if the device delivers as many bytes as it advertised. */
  lemma UndisturbedFillCompletesIff(
    script: seq<Item>, content: seq<byte>, total: nat, others: nat -> seq<Other>, n: nat, fill: FillState)
    requires EndsBy(script, false, others, n) && Publishes(script, content, total, false, others, n, fill)
    requires forall m: nat :: AsksToStop !in others(m)
    requires forall k :: 0 <= k < |script| ==> script[k].Chunk? && script[k].local.Lands?
    ensures n == |script| && (fill.Complete? <==> Received(script, content, n) == total)
  {
    assert !StopSeen(false, others, n);
    if Received(script, content, n) == total {
      forall k | 0 <= k < n
        ensures !ChunkFails(script, content, total, k)
      {
        OfferedGrows(script, k + 1, n);
      }
    }
  }

  /** One turn of the loop. */
  method FillTurn(
    shared: SharedSparseCache, stream: ObjectStream, filler: Filler, tick: nat, others: nat -> seq<Other>,
    ghost stop: bool, ghost n: nat)
    returns (end: Option<FillOutcome>, next: Filler)
    requires Filling(shared, stream, filler, stop, others, n) && tick == 2 * n
    modifies shared, shared.cache, shared.cache.ranges, stream
    ensures shared.Valid() && old(shared.View().cache.populated) <= shared.View().cache.populated
    ensures match end
      case None => Filling(shared, stream, next, stop, others, n + 1)
      case Some(outcome) => FillEnded(shared, stream, outcome, stop, others, n)
  {
    next := filler;
    OthersTurn(shared, stream, filler, others(tick), n);
    if shared.stop {
      StopTransfer(shared, stream, filler, tick, others, stop, n);
      end := Some(Stopped);
    } else {
      var item;
      item, next := PullAndStore(shared, stream, filler, others(tick + 1), n);
      end := None;
      if item.None? || item.value.Broken? {
        EndTransfer(shared, stream, item, next, others, stop, n);
        end := Some(Finished);
      } else {
        StillFilling(shared, stream, next, stop, others, n);
      }
    }
  }

  lemma StillFilling(
    shared: SharedSparseCache, stream: ObjectStream, filler: Filler, stop: bool, others: nat -> seq<Other>, n: nat)
    requires Pulling(shared, stream, filler, n + 1)
    requires GoesOn(stream.script, stop, others, n) && !StopSeen(stop, others, n) && stream.script[n].Chunk?
    requires |stream.events| == n + 1 && (forall i :: 0 <= i < n + 1 ==> stream.events[i].Pulled?)
    requires shared.stop || AsksToStop in others(2 * (n + 1)) <==>
        AsksToStop in others(2 * n + 1) || AsksToStop in others(2 * (n + 1))
    ensures Filling(shared, stream, filler, stop, others, n + 1)
  {
    GoesOnNext(stream.script, stop, others, n);
  }

  lemma FillBegins(shared: SharedSparseCache, stream: ObjectStream, others: nat -> seq<Other>)
    requires shared.Valid() && stream.Valid() && stream.turn == stream.pos == 0 && stream.events == []
    requires shared.fill.Running? && Agrees(shared.View().cache, stream.content)
    ensures Filling(shared, stream, Filler(0, None), shared.stop, others, 0)
  {
    assert StopSeen(shared.stop, others, 0) <==> shared.stop || AsksToStop in others(2 * 0);
  }

  /** The others' turn between two steps of the filler. */
  method OthersTurn(
    shared: SharedSparseCache, stream: ObjectStream, ghost filler: Filler, others: seq<Other>, ghost n: nat)
    requires shared.Valid() && Progress(filler, shared.View(), stream.script, stream.content, n)
    modifies shared, shared.cache, shared.cache.ranges
    ensures shared.Valid() && Progress(filler, shared.View(), stream.script, stream.content, n)
    ensures old(shared.View().cache.populated) <= shared.View().cache.populated
    ensures shared.stop <==> old(shared.stop) || AsksToStop in others
  {
    ghost var before := shared.View();
    shared.Interfere(others, stream.content);
    ProgressKept(filler, before, shared.View(), stream.script, stream.content, n);
  }

  /** The next chunk is taken from the stream and stored, if there is one. */
  method PullAndStore(
    shared: SharedSparseCache, stream: ObjectStream, filler: Filler, others: seq<Other>, ghost n: nat)
    returns (item: Option<Item>, next: Filler)
    requires Pulling(shared, stream, filler, n)
    modifies shared, shared.cache, shared.cache.ranges, stream
    ensures shared.Valid() && stream.Valid()
    ensures old(shared.View().cache.populated) <= shared.View().cache.populated
    ensures shared.stop <==> old(shared.stop) || AsksToStop in others
    ensures item == if n < |stream.script| then Some(stream.script[n]) else None
    ensures stream.events == old(stream.events) +
        [if item.None? then EndOfTransfer else if item.value.Chunk? then Pulled else TransferBroke]
    ensures if item.Some? && item.value.Chunk? then Pulling(shared, stream, next, n + 1)
      else Progress(next, shared.View(), stream.script, stream.content, n)
  {
    ghost var pos := stream.pos;
    var chunk;
    item, chunk := stream.Next();
    OthersTurn(shared, stream, filler, others, n);
    next := filler;
    if item.Some? && item.value.Chunk? {
      assert stream.pos == Received(stream.script, stream.content, n + 1);
      AbsorbProgresses(filler, shared.View(), stream.script, stream.content, n);
      next := AbsorbInto(shared, filler, chunk, item.value.local, stream.content, pos);
    }
  }

  /** A stop has been seen. */
  method StopTransfer(
    shared: SharedSparseCache, stream: ObjectStream, ghost filler: Filler, tick: nat, others: nat -> seq<Other>,
    ghost stop: bool, ghost n: nat)
    requires Filling(shared, stream, filler, stop, others, n) && shared.stop && StopSeen(stop, others, n)
    modifies shared, shared.cache, shared.cache.ranges, stream
    ensures shared.Valid() && old(shared.View().cache.populated) <= shared.View().cache.populated
    ensures FillEnded(shared, stream, Stopped, stop, others, n)
  {
    stream.Cancel();
    OthersTurn(shared, stream, filler, others(tick + 1), n);
    shared.FailFill(Failure(Stopping, false));
  }

  /** What is published of a transfer that has come to its end or broken. */
  method EndTransfer(
    shared: SharedSparseCache, stream: ObjectStream, item: Option<Item>, filler: Filler,
    ghost others: nat -> seq<Other>, ghost stop: bool, ghost n: nat)
    requires shared.Valid() && stream.Valid() && Progress(filler, shared.View(), stream.script, stream.content, n)
    requires GoesOn(stream.script, stop, others, n) && !StopSeen(stop, others, n)
    requires if n < |stream.script| then item == Some(stream.script[n]) && item.value.Broken? else item == None
    requires |stream.events| == n + 1 && TransferEnded(stream.events) && !stream.events[n].Cancelled?
    modifies shared
    ensures shared.View().cache == old(shared.View().cache)
    ensures FillEnded(shared, stream, Finished, stop, others, n)
  {
    if item.Some? {
      shared.FailFill(Failure(StreamBroke, item.value.linkLost));
    } else {
      ConcludePublishes(filler, shared.View(), stream.script, stream.content, stop, others);
      if filler.failure.Some? {
        shared.FailFill(filler.failure.value);
      } else {
        shared.FinishFill(filler.offset);
      }
    }
  }

  /** The part of the loop that stores a chunk and moves the filler's variables. */
  method AbsorbInto(
    shared: SharedSparseCache, filler: Filler, chunk: seq<byte>, local: LocalWrite,
    ghost content: seq<byte>, ghost pos: nat)
    returns (next: Filler)
    requires shared.Valid() && shared.fill.Running? && Agrees(shared.View().cache, content)
    requires FillerOk(filler, shared.View(), pos)
    requires pos + |chunk| <= |content| && chunk == content[pos..pos + |chunk|]
    modifies shared, shared.cache, shared.cache.ranges
    ensures shared.Valid()
    ensures (next, shared.View()) == Absorb(filler, old(shared.View()), chunk, local)
    ensures Agrees(shared.View().cache, content) && FillerOk(next, shared.View(), pos + |chunk|)
    ensures old(shared.View().cache.populated) <= shared.View().cache.populated
    ensures shared.stop == old(shared.stop) && shared.fill.Running?
  {
    AbsorbKeepsFiller(filler, shared.View(), pos, |chunk|, local, content);
    var failure := filler.failure;
    if failure.None? {
      var total := shared.cache.total;
      var remaining := if filler.offset <= total then total - filler.offset else 0;
      var writable := Min(|chunk|, remaining);
      var landed := shared.WriteNext(filler.offset, chunk[..writable], local);
      if !landed {
        failure := Some(Failure(LocalWriteFailed, false));
      } else if writable != |chunk| {
        failure := Some(Failure(Overlong, false));
      }
    }
    if filler.offset + |chunk| <= U64_MAX {
      next := Filler(filler.offset + |chunk|, failure);
    } else {
      next := Filler(U64_MAX, if failure.Some? then failure else Some(Failure(CountOverflow, false)));
    }
  }
}
