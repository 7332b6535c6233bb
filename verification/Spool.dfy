/** Where a file being written waits for its upload (src/buffer.rs), and the stream that uploads it
    (src/fs.rs, `file_stream`). */
module Spool {
  import opened Basics

  datatype BufferError = InvalidInput | NoBuffer

  // ---------------------------------------------------------------------------------------
  // Writes as values

  /** One `write` on a handle. */
  datatype Write = Write(offset: int, data: seq<byte>) {
    predicate Refused() {
      offset < 0 || offset + |data| > U64_MAX
    }

    predicate Lands() {
      !Refused() && data != []
    }
  }

  /** The spool after a write: a gap before the offset reads as zeros. */
  function Written(file: seq<byte>, w: Write): seq<byte>
    requires w.Lands()
  {
    var end := w.offset + |w.data|;
    seq(Max(|file|, end), i requires 0 <= i < Max(|file|, end) =>
      if w.offset <= i < end then w.data[i - w.offset] else if i < |file| then file[i] else 0)
  }

  function Applied(file: seq<byte>, w: Write): seq<byte> {
    if w.Lands() then Written(file, w) else file
  }

  function After(writes: seq<Write>): seq<byte> {
    if writes == [] then [] else Applied(After(writes[..|writes| - 1]), writes[|writes| - 1])
  }

  // ---------------------------------------------------------------------------------------
  // An independent account of the same thing

  predicate Covers(w: Write, i: nat) {
    w.Lands() && w.offset <= i < w.offset + |w.data|
  }

  /** Whoever wrote an offset last wins; an offset nobody wrote is zero. */
  function LastWritten(writes: seq<Write>, i: nat): byte {
    if writes == [] then 0
    else
      var w := writes[|writes| - 1];
      if Covers(w, i) then w.data[i - w.offset] else LastWritten(writes[..|writes| - 1], i)
  }

  /** The furthest any write that landed reached. */
  function Reach(writes: seq<Write>): nat {
    if writes == [] then 0
    else
      var w := writes[|writes| - 1];
      var rest := Reach(writes[..|writes| - 1]);
      if w.Lands() then Max(rest, w.offset + |w.data|) else rest
  }

  /** After any writes, refused and empty ones among them, the spool is as long as the furthest one
      reached and holds at each offset the byte written there last. */
  lemma {:induction false} SpoolHoldsLastWrites(writes: seq<Write>)
    ensures |After(writes)| == Reach(writes)
    ensures forall i: nat :: i < |After(writes)| ==> After(writes)[i] == LastWritten(writes, i)
    ensures forall i: nat :: i >= Reach(writes) ==> LastWritten(writes, i) == 0
  {
    if writes != [] {
      SpoolHoldsLastWrites(writes[..|writes| - 1]);
    }
  }

  /** Writes to disjoint places can be swapped without anyone noticing. */
  lemma DisjointWritesCommute(file: seq<byte>, v: Write, w: Write)
    requires v.Lands() && w.Lands()
    requires v.offset + |v.data| <= w.offset || w.offset + |w.data| <= v.offset
    ensures Applied(Applied(file, v), w) == Applied(Applied(file, w), v)
  {
  }

  // ---------------------------------------------------------------------------------------
  // The buffer

  class FileBuffer {
    const inode: nat
    var file: seq<byte>
    var len: nat
    var dirty: bool

    /** The length it reports is the length of what it will upload, and anything written makes it
        dirty, which is what makes the close upload it. */
    ghost predicate Valid()
      reads this
    {
      len == |file| && (file != [] ==> dirty)
    }

    constructor (inode: nat)
      ensures Valid() && file == [] && !dirty && this.inode == inode
    {
      this.inode := inode;
      file, len, dirty := [], 0, false;
    }

    method WriteAt(offset: int, data: seq<byte>) returns (r: Result<nat, BufferError>)
      requires Valid()
      modifies this
      ensures Valid() && file == Applied(old(file), Write(offset, data))
      ensures r == if Write(offset, data).Refused() then Err(InvalidInput) else Ok(|data| % 0x1_0000_0000)
      ensures dirty == (old(dirty) || Write(offset, data).Lands())
    {
      if offset < 0 {
        return Err(InvalidInput);
      }
      var end := offset + |data|;
      if end > U64_MAX {
        return Err(InvalidInput);
      }
      if data == [] {
        return Ok(0);
      }
      SeekAndWrite(offset, data);
      if end > len {
        len := end;
      }
      dirty := true;
      r := Ok(|data| % 0x1_0000_0000);
    }

    /** The temp file's own behaviour: writing past its end leaves a hole of zeros. */
    method SeekAndWrite(offset: nat, data: seq<byte>)
      requires Write(offset, data).Lands()
      modifies this`file
      ensures file == Written(old(file), Write(offset, data))
    {
      var end := offset + |data|;
      if |file| < offset {
        file := file + seq(offset - |file|, _ => 0);
      }
      file := file[..offset] + data + if end < |file| then file[end..] else [];
    }

    method ReadAt(offset: int, size: nat) returns (data: seq<byte>)
      requires Valid()
      ensures data == Slice(file, offset, size)
    {
      if offset < 0 {
        return [];
      }
      if offset >= len {
        return [];
      }
      var available := Min(len - offset, size);
      data := file[offset..offset + available];
    }
  }

  /** What a reader of a file still open for writing gets. */
  function Slice(file: seq<byte>, offset: int, size: nat): (data: seq<byte>)
    ensures |data| <= size
    ensures forall k :: 0 <= k < |data| ==> 0 <= offset && offset + k < |file| && data[k] == file[offset + k]
    ensures 0 <= offset ==> |data| == Min(size, if offset < |file| then |file| - offset else 0)
  {
    if offset < 0 || offset >= |file| then [] else file[offset..offset + Min(|file| - offset, size)]
  }

  /** The buffers of the handles being written. */
  class WriteBuffer {
    var buffers: map<nat, FileBuffer>

    ghost predicate Valid()
      reads this, buffers.Values
    {
      && (forall fh :: fh in buffers ==> buffers[fh].Valid())
      && (forall fh, fh' :: fh in buffers && fh' in buffers && buffers[fh] == buffers[fh'] ==> fh == fh')
    }

    /** What is spooled for each open handle. */
    ghost function Spooled(): map<nat, seq<byte>>
      reads this, buffers.Values
    {
      map fh | fh in buffers :: buffers[fh].file
    }

    constructor ()
      ensures Valid() && Spooled() == map[]
    {
      buffers := map[];
    }

    method Open(fh: nat, inode: nat)
      requires Valid()
      modifies this
      ensures Valid()
      ensures Spooled() == if fh in old(buffers) then old(Spooled()) else old(Spooled())[fh := []]
      ensures fh in buffers && buffers == old(buffers)[fh := buffers[fh]]
      ensures fh !in old(buffers) ==>
          fresh(buffers[fh]) && buffers[fh].inode == inode && !buffers[fh].dirty
    {
      if fh in buffers {
        assert buffers == buffers[fh := buffers[fh]];
        return;
      }
      var buffer := new FileBuffer(inode);
      buffers := buffers[fh := buffer];
    }

    method WriteTo(fh: nat, offset: int, data: seq<byte>) returns (r: Result<nat, BufferError>)
      requires Valid()
      modifies buffers.Values
      ensures Valid() && buffers == old(buffers)
      ensures fh !in buffers ==> r == Err(NoBuffer) && Spooled() == old(Spooled())
      ensures fh in buffers ==>
          && Spooled() == old(Spooled())[fh := Applied(old(buffers[fh].file), Write(offset, data))]
          && (r == Err(InvalidInput) <==> Write(offset, data).Refused())
    {
      if fh !in buffers {
        return Err(NoBuffer);
      }
      r := buffers[fh].WriteAt(offset, data);
    }

    method ReadFrom(fh: nat, offset: int, size: nat) returns (r: Result<seq<byte>, BufferError>)
      requires Valid()
      ensures r == if fh in buffers then Ok(Slice(buffers[fh].file, offset, size)) else Err(NoBuffer)
    {
      if fh !in buffers {
        return Err(NoBuffer);
      }
      var data := buffers[fh].ReadAt(offset, size);
      r := Ok(data);
    }

    /** Removes and returns the buffer, for flushing. */
    method Close(fh: nat) returns (buffer: Option<FileBuffer>)
      requires Valid()
      modifies this
      ensures Valid()
      ensures Spooled() == old(Spooled()) - {fh}
      ensures buffer == if fh in old(buffers) then Some(old(buffers)[fh]) else None
    {
      if fh !in buffers {
        assert Spooled().Keys - {fh} == Spooled().Keys;
        return None;
      }
      buffer := Some(buffers[fh]);
      buffers := buffers - {fh};
    }
  }

  // ---------------------------------------------------------------------------------------
  // The upload stream

  const UPLOAD_CHUNK: nat := 65536

  /** How one read of the spool file goes: the operating system may return less than asked for. */
  datatype ReadOutcome = Got(length: nat) | Failed

  /** No read of the spool file fails. */
  ghost predicate SpoolReadable(outcomes: nat -> ReadOutcome) {
    forall k :: outcomes(k).Got?
  }

  /** How many bytes a read that may return up to `length` of the `left` ones gives: none only at
      the end of the file. */
  function ShortRead(length: nat, left: nat): (n: nat)
    ensures n <= left && n <= UPLOAD_CHUNK && (n == 0 <==> left == 0)
  {
    Min(Max(length, 1), Min(left, UPLOAD_CHUNK))
  }

  function Concat(chunks: seq<seq<byte>>): seq<byte> {
    if chunks == [] then [] else Concat(chunks[..|chunks| - 1]) + chunks[|chunks| - 1]
  }

  /** The stream, read to its end: it stops at the end of the file or after the first error. */
  method FileStream(file: seq<byte>, outcomes: nat -> ReadOutcome)
    returns (chunks: seq<seq<byte>>, failed: bool)
    ensures forall k :: 0 <= k < |chunks| ==> 0 < |chunks[k]| <= 65536
    ensures Concat(chunks) <= file
    ensures !failed ==> Concat(chunks) == file
    ensures failed <==> outcomes(|chunks|).Failed?
    ensures forall k :: 0 <= k < |chunks| ==> outcomes(k).Got?
  {
    chunks, failed := [], false;
    var pos := 0;
    while true
      invariant pos <= |file| && Concat(chunks) == file[..pos]
      invariant forall k :: 0 <= k < |chunks| ==> 0 < |chunks[k]| <= UPLOAD_CHUNK
      invariant forall k :: 0 <= k < |chunks| ==> outcomes(k).Got?
      decreases |file| - pos
    {
      assert chunks[..|chunks|] == chunks;
      match outcomes(|chunks|) {
        case Failed =>
          failed := true;
          return;
        case Got(length) =>
          var n := ShortRead(length, |file| - pos);
          if n == 0 {
            return;
          }
          var chunk := file[pos..pos + n];
          assert (chunks + [chunk])[..|chunks|] == chunks;
          assert file[..pos] + chunk == file[..pos + n];
          chunks := chunks + [chunk];
          pos := pos + n;
      }
    }
  }

  /** From the writes to the wire: whatever is written on a handle before it is closed, the length
      the upload declares is how far the writes reached, and a stream that does not fail sends, at
      each offset, the byte written there last. */
  method WritesThenUpload(writes: seq<Write>, outcomes: nat -> ReadOutcome)
    returns (declared: nat, chunks: seq<seq<byte>>, failed: bool)
    ensures declared == Reach(writes)
    ensures !failed ==> |Concat(chunks)| == declared
    ensures forall i: nat :: i < |Concat(chunks)| ==> i < declared && Concat(chunks)[i] == LastWritten(writes, i)
    ensures failed ==> outcomes(|chunks|).Failed?
  {
    var buffer := new FileBuffer(0);
    var k := 0;
    while k < |writes|
      invariant 0 <= k <= |writes|
      invariant fresh(buffer) && buffer.Valid() && buffer.file == After(writes[..k])
    {
      assert writes[..k + 1][..k] == writes[..k];
      assert Write(writes[k].offset, writes[k].data) == writes[k];
      var _ := buffer.WriteAt(writes[k].offset, writes[k].data);
      k := k + 1;
    }
    assert writes[..k] == writes;
    SpoolHoldsLastWrites(writes);
    declared := buffer.len;
    chunks, failed := FileStream(buffer.file, outcomes);
  }
}
