/** The journal's writer and reader over their block buffers. */
module JournalFile {
  import opened Bytes
  import opened Journal

  // ---------------------------------------------------------------------------
  // Buffers
  // ---------------------------------------------------------------------------

  /** `src` laid over `dst` from `off` on. */
  function Overlay(dst: Bytes, off: nat, src: Bytes): (r: Bytes)
    requires off + |src| <= |dst|
    ensures |r| == |dst|
  {
    dst[..off] + src + dst[off + |src|..]
  }

  lemma OverlayAt(dst: Bytes, off: nat, src: Bytes, k: nat)
    requires off + |src| <= |dst| && k < |dst|
    ensures Overlay(dst, off, src)[k] == if off <= k < off + |src| then src[k - off] else dst[k]
  {
  }

  /** Go's copy into a buffer with room. */
  method CopyInto(dst: array<byte>, off: nat, src: Bytes)
    requires off + |src| <= dst.Length
    modifies dst
    ensures dst[..] == Overlay(old(dst[..]), off, src)
  {
    for i := 0 to |src|
      invariant forall k :: 0 <= k < dst.Length ==> dst[k] == if off <= k < off + i then src[k - off] else old(dst[k])
    {
      dst[off + i] := src[i];
    }
    assert forall k :: 0 <= k < dst.Length ==> dst[..][k] == Overlay(old(dst[..]), off, src)[k];
  }

  /** The chunk's fields, written one after another, are the chunk. */
  lemma ChunkInPlace(before: Bytes, off: nat, sum: Checksum, typ: byte, data: Bytes)
    requires |data| < 0x10000 && off + HEADER + |data| <= |before|
    ensures var a := Overlay(before, off + 4, [|data| % 256, |data| / 256, typ]);
            Overlay(Overlay(a, off + HEADER, data), off, sum(typ, data)) == Overlay(before, off, Chunk(sum, typ, data))
  {
    hide Overlay;
    var a := Overlay(before, off + 4, [|data| % 256, |data| / 256, typ]);
    var b := Overlay(a, off + HEADER, data);
    var l, r := Overlay(b, off, sum(typ, data)), Overlay(before, off, Chunk(sum, typ, data));
    forall k | 0 <= k < |before| ensures l[k] == r[k] {
      OverlayAt(before, off + 4, [|data| % 256, |data| / 256, typ], k);
      OverlayAt(a, off + HEADER, data, k);
      OverlayAt(b, off, sum(typ, data), k);
      OverlayAt(before, off, Chunk(sum, typ, data), k);
    }
  }

  // ---------------------------------------------------------------------------
  // Writer
  // ---------------------------------------------------------------------------

  /** Everything framed so far, wherever it is held. */
  function Held(file: Bytes, buffered: Bytes, block: Bytes, flushed: nat, off: nat): Bytes
    requires flushed <= off <= |block|
  {
    file + buffered + block[flushed..off]
  }

  lemma HeldGrows(file: Bytes, buffered: Bytes, block: Bytes, flushed: nat, off: nat, c: Bytes)
    requires flushed <= off && off + |c| <= |block|
    ensures Held(file, buffered, Overlay(block, off, c), flushed, off + |c|) == Held(file, buffered, block, flushed, off) + c
  {
    assert Overlay(block, off, c)[flushed..off + |c|] == block[flushed..off] + c;
  }

  /** Emitting a chunk, field by field, frames the chunk. */
  lemma Emits(file: Bytes, buffered: Bytes, before: Bytes, flushed: nat, off: nat, sum: Checksum, typ: byte, data: Bytes)
    requires flushed <= off && |data| < 0x10000 && off + HEADER + |data| <= |before|
    requires |Held(file, buffered, before, flushed, off)| % BLOCK == off % BLOCK
    ensures var a := Overlay(before, off + 4, [|data| % 256, |data| / 256, typ]);
            var after := Overlay(Overlay(a, off + HEADER, data), off, sum(typ, data));
            var held := Held(file, buffered, after, flushed, off + HEADER + |data|);
            && held == Held(file, buffered, before, flushed, off) + Chunk(sum, typ, data)
            && |held| % BLOCK == (off + HEADER + |data|) % BLOCK
  {
    hide Overlay, Held, Chunk;
    ChunkInPlace(before, off, sum, typ, data);
    HeldGrows(file, buffered, before, flushed, off, Chunk(sum, typ, data));
    ModAdd(|Held(file, buffered, before, flushed, off)|, off, HEADER + |data|);
  }

  lemma ModAdd(a: nat, b: nat, n: nat)
    requires a % BLOCK == b % BLOCK
    ensures (a + n) % BLOCK == (b + n) % BLOCK
  {
  }

  /** Handing the block on moves bytes, and frames none. */
  lemma HeldMoves(file: Bytes, buffered: Bytes, block: Bytes, flushed: nat, off: nat, at: nat)
    requires flushed <= off <= |block| && at <= |block|
    ensures Held(file, buffered + block[flushed..off], block, at, at) == Held(file, buffered, block, flushed, off)
    ensures Held(file + (buffered + block[flushed..off]), [], block, at, at) == Held(file, buffered, block, flushed, off)
  {
    assert block[at..at] == [];
  }

  /** Padding and the size of the next piece, from the block offset. */
  lemma ChunkPlan(pos: nat, off: nat, rest: Bytes)
    requires off <= BLOCK && pos % BLOCK == off % BLOCK
    ensures BLOCK - off < HEADER ==> PadLen(pos) == BLOCK - off && Piece(pos, rest) == Min(|rest|, BLOCK - HEADER)
    ensures BLOCK - off >= HEADER ==> PadLen(pos) == 0 && Piece(pos, rest) == Min(|rest|, BLOCK - off - HEADER)
  {
  }

  lemma Regroup(a: Bytes, z: Bytes, c: Bytes, t: Bytes)
    ensures a + (z + c + t) == a + z + c + t
  {
  }

  class JournalWriter {
    const sum: Checksum
    const block: array<byte>
    var blockOffset: nat
    var flushedOffset: nat
    // The batching buffer, and what has reached the file.
    var buffered: Bytes
    var file: Bytes
    // The records written so far.
    ghost var records: seq<Bytes>

    ghost predicate Valid()
      reads this, block
    {
      && block.Length == BLOCK && flushedOffset <= blockOffset <= BLOCK
      && |Framed()| % BLOCK == blockOffset % BLOCK
    }

    /** Between records, what is framed is the log of the records written. */
    ghost predicate Whole()
      reads this, block
    {
      Valid() && Framed() == FrameAll(sum, 0, records)
    }

    ghost function Framed(): Bytes
      requires flushedOffset <= blockOffset <= block.Length
      reads this`blockOffset, this`flushedOffset, this`buffered, this`file, block
    {
      Held(file, buffered, block[..], flushedOffset, blockOffset)
    }

    constructor (sum: Checksum)
      ensures Whole() && fresh(block) && records == [] && this.sum == sum
    {
      this.sum := sum;
      block := new byte[BLOCK];
      blockOffset, flushedOffset, buffered, file, records := 0, 0, [], [], [];
    }

    method EmitChunk(typ: byte, data: Bytes)
      requires Valid() && |data| < 0x10000 && blockOffset + HEADER + |data| <= BLOCK
      modifies this`blockOffset, block
      ensures Valid() && Framed() == old(Framed()) + Chunk(sum, typ, data)
      ensures blockOffset == old(blockOffset) + HEADER + |data|
    {
      hide Overlay, Held, Chunk;
      var off := blockOffset;
      ghost var before := block[..];
      CopyInto(block, off + 4, [|data| % 256, |data| / 256, typ]);
      CopyInto(block, off + HEADER, data);
      CopyInto(block, off, sum(typ, data));
      blockOffset := off + HEADER + |data|;
      Emits(file, buffered, before, flushedOffset, off, sum, typ, data);
    }

    /** The last bytes of a block are zeroed and the block handed on. */
    method PadAndFlush()
      requires Valid() && BLOCK - blockOffset < HEADER
      modifies this`blockOffset, this`flushedOffset, this`buffered, block
      ensures Valid() && Framed() == old(Framed()) + Zeros(BLOCK - old(blockOffset)) && blockOffset == 0
    {
      hide Overlay, Held, Zeros;
      ghost var before := block[..];
      var pad := Zeros(BLOCK - blockOffset);
      CopyInto(block, blockOffset, pad);
      HeldGrows(file, buffered, before, flushedOffset, blockOffset, pad);
      HeldMoves(file, buffered, block[..], flushedOffset, BLOCK, 0);
      assert block[flushedOffset..BLOCK] == block[..][flushedOffset..BLOCK];
      buffered := buffered + block[flushedOffset..BLOCK];
      blockOffset, flushedOffset := 0, 0;
    }

    /** One turn of Write's loop: padding if no header fits, then as much as the block takes. */
    method WriteChunk(rest: Bytes, first: bool) returns (n: nat)
      requires Valid()
      modifies this`blockOffset, this`flushedOffset, this`buffered, block
      ensures Valid() && n == Piece(|old(Framed())|, rest)
      ensures Framed() == old(Framed()) + Zeros(PadLen(|old(Framed())|)) + Chunk(sum, TypeOf(first, n == |rest|), rest[..n])
      ensures n < |rest| ==> blockOffset == BLOCK
      ensures n == 0 && rest != [] ==> old(blockOffset) == BLOCK - HEADER
    {
      hide Framed, Chunk, PadLen, Piece, Room, Zeros;
      ChunkPlan(|Framed()|, blockOffset, rest);
      NoZeros();
      ghost var at := Framed();
      if BLOCK - blockOffset < HEADER {
        PadAndFlush();
      } else {
        assert Framed() == at + Zeros(0);
      }
      n := Min(|rest|, BLOCK - blockOffset - HEADER);
      var last := n == |rest|;
      EmitChunk(if first && last then FULL else if first then FIRST else if last then LAST else MIDDLE, rest[..n]);
    }

    /** Write: one record, in as many chunks as it takes. */
    method Write(record: Bytes)
      requires Whole()
      modifies this`blockOffset, this`flushedOffset, this`buffered, this`records, block
      ensures Whole() && records == old(records) + [record]
    {
      hide Framed, Chunk, Frame, FrameAll, PadLen, Piece, Room, Zeros, TypeOf;
      FrameAllGrows(sum, 0, records, record);
      var first, rest := true, record;
      ghost var goal := Framed() + Frame(sum, |Framed()|, record, true);
      while first || rest != []
        invariant Valid() && records == old(records)
        invariant goal == Framed() + if first || rest != [] then Frame(sum, |Framed()|, rest, first) else []
        invariant !first && rest != [] ==> blockOffset == BLOCK
        decreases |rest|, first
      {
        ghost var at := Framed();
        FrameParts(sum, |at|, rest, first);
        var n := WriteChunk(rest, first);
        Regroup(at, Zeros(PadLen(|at|)), Chunk(sum, TypeOf(first, n == |rest|), rest[..n]),
                if n == |rest| then [] else Frame(sum, |Framed()|, rest[n..], false));
        rest := rest[n..];
        first := false;
      }
      records := records + [record];
    }

    /** After Flush the file is the log of every record written, whatever was flushed in between, and reads back as them. */
    method Flush()
      requires Whole()
      modifies this`blockOffset, this`flushedOffset, this`buffered, this`file
      ensures Whole() && file == FrameAll(sum, 0, records)
      ensures forall strict: bool :: ReadAll(sum, file, 0, strict) == (records, false)
    {
      hide Held, FrameAll, ReadAll;
      RoundTrip(sum, records, false);
      RoundTrip(sum, records, true);
      HeldMoves(file, buffered, block[..], flushedOffset, blockOffset, blockOffset);
      HeldMoves(file, buffered, block[..], flushedOffset, blockOffset, 0);
      assert block[flushedOffset..blockOffset] == block[..][flushedOffset..blockOffset];
      AllInFile(file + (buffered + block[flushedOffset..blockOffset]), block[..], blockOffset);
      AllInFile(file + (buffered + block[flushedOffset..blockOffset]), block[..], 0);
      if flushedOffset != blockOffset {
        buffered := buffered + block[flushedOffset..blockOffset];
        flushedOffset := blockOffset;
        if blockOffset == BLOCK {
          blockOffset, flushedOffset := 0, 0;
        }
      } else {
        assert buffered + block[flushedOffset..blockOffset] == buffered;
      }
      file, buffered := file + buffered, [];
    }
  }

  lemma NoZeros()
    ensures Zeros(0) == []
  {
  }

  lemma AllInFile(file: Bytes, block: Bytes, at: nat)
    requires at <= |block|
    ensures Held(file, [], block, at, at) == file
  {
  }

  // ---------------------------------------------------------------------------
  // Reader
  // ---------------------------------------------------------------------------

  /** The buffered bytes are the stream's latest block, `taken` bytes in. */
  ghost predicate Buffers(stream: Bytes, block: Bytes, taken: nat, off: nat, eof: bool) {
    && off <= |block| <= BLOCK && |block| <= taken <= |stream| && (taken - |block|) % BLOCK == 0
    && block == stream[taken - |block|..taken]
    && (if eof then taken == |stream| else |block| == BLOCK || taken == 0) && (block == [] ==> taken == 0)
  }

  /** The buffered block is the stream's block at the position of its byte `off`. */
  lemma InBlock(stream: Bytes, block: Bytes, taken: nat, off: nat, eof: bool)
    requires Buffers(stream, block, taken, off, eof)
    ensures |block| <= taken
    ensures var pos := taken - |block| + off;
            && pos <= |stream|
            && (off < BLOCK ==> pos % BLOCK == off)
            && (block != [] && off < BLOCK ==> BlockLen(stream, pos) == |block|)
            && (off == BLOCK ==> pos % BLOCK == 0)
  {
  }

  /** With a whole header buffered, the next chunk starts right here. */
  lemma InsideBlock(stream: Bytes, block: Bytes, taken: nat, off: nat, eof: bool, sum: Checksum, strict: bool)
    requires Buffers(stream, block, taken, off, eof) && off + HEADER <= |block|
    ensures |block| <= taken
    ensures var pos := taken - |block| + off;
            && pos <= |stream| && BlockLen(stream, pos) - pos % BLOCK >= HEADER
            && ReadAt(sum, stream, pos, strict) == Shift(Parse(sum, block[off..], |block| < BLOCK, strict), pos)
            && ReadChunk(sum, stream, pos, strict) == ReadAt(sum, stream, pos, strict)
  {
    hide Parse;
    InBlock(stream, block, taken, off, eof);
    var base := taken - |block|;
    assert block[off..] == stream[base + off..base + off + (|block| - off)];
  }

  /** With no room for a header left in the block, the next chunk starts the next block, if there is one. */
  lemma AtBlockEnd(stream: Bytes, block: Bytes, taken: nat, off: nat, eof: bool, sum: Checksum, strict: bool)
    requires Buffers(stream, block, taken, off, eof) && |block| - off < HEADER
    ensures |block| <= taken && taken - |block| + off <= |stream| && taken <= |stream|
    ensures !eof && taken < |stream| ==> taken % BLOCK == 0
    ensures ReadChunk(sum, stream, taken - |block| + off, strict) ==
              if strict && |block| < BLOCK && |block| > off then Corrupt
              else if eof || taken == |stream| then Eof
              else ReadAt(sum, stream, taken, strict)
  {
    hide ReadAt;
    InBlock(stream, block, taken, off, eof);
    if taken == |stream| && taken % BLOCK == 0 {
      NothingThere(stream, sum, strict);
    }
    if off == 0 && block != [] {
      ShortBlock(stream, taken - |block|, sum, strict);
    }
  }

  lemma NothingThere(stream: Bytes, sum: Checksum, strict: bool)
    requires |stream| % BLOCK == 0
    ensures ReadAt(sum, stream, |stream|, strict) == Eof
  {
  }

  lemma ShortBlock(stream: Bytes, pos: nat, sum: Checksum, strict: bool)
    requires pos % BLOCK == 0 && pos < |stream| && BlockLen(stream, pos) < HEADER
    ensures ReadAt(sum, stream, pos, strict) == if strict then Corrupt else Eof
  {
  }

  lemma Advances(stream: Bytes, block: Bytes, taken: nat, off: nat, eof: bool, off': nat)
    requires Buffers(stream, block, taken, off, eof) && off' <= |block|
    ensures Buffers(stream, block, taken, off', eof)
  {
  }

  lemma WindowSlices(block: Bytes, off: nat, n: nat)
    requires off + HEADER + n <= |block|
    ensures block[off..][HEADER..HEADER + n] == block[off + HEADER..off + HEADER + n] && block[off..][..4] == block[off..off + 4]
  {
  }

  datatype Status = Ready | Stop(r: Read)

  /** The reader; its buffer is replaced whole by every fill. */
  class JournalReader {
    const sum: Checksum
    // The bytes behind the io.Reader, and how many have been taken from it.
    const stream: Bytes
    const strictTail: bool
    var block: Bytes
    var taken: nat
    var blockOffset: nat
    var eof: bool

    ghost predicate Valid()
      reads this
    {
      Buffers(stream, block, taken, blockOffset, eof)
    }

    /** The stream position of the next unread byte. */
    ghost function Pos(): (p: nat)
      requires Valid()
      reads this
    {
      taken - |block| + blockOffset
    }

    constructor (sum: Checksum, stream: Bytes, strictTail: bool)
      ensures Valid() && Pos() == 0
      ensures this.sum == sum && this.stream == stream && this.strictTail == strictTail
    {
      this.sum, this.stream, this.strictTail := sum, stream, strictTail;
      block, taken, blockOffset, eof := [], 0, 0, false;
    }

    /** fill: the next block, or as much of it as there is. */
    method Fill() returns (ok: bool)
      requires Valid()
      modifies this
      ensures Valid() && old(taken) <= |stream| && ok == (!old(eof) && old(taken) < |stream|)
      ensures ok ==> Pos() == old(taken) && blockOffset == 0 && |block| == Min(BLOCK, |stream| - old(taken))
      ensures !ok ==> taken == old(taken) && block == old(block) && blockOffset == old(blockOffset)
    {
      if eof {
        return false;
      }
      var n := Min(BLOCK, |stream| - taken);
      if n == 0 {
        eof := true;
        return false;
      }
      block := stream[taken..taken + n];
      eof := n < BLOCK;
      blockOffset, taken := 0, taken + n;
      return true;
    }

    /** The first half of readChunk: makes sure a whole header is buffered. */
    method EnsureHeader() returns (st: Status)
      requires Valid()
      modifies this
      ensures Valid() && old(Pos()) <= |stream|
      ensures st.Ready? ==> blockOffset + HEADER <= |block|
      ensures st.Ready? ==> ReadChunk(sum, stream, old(Pos()), strictTail)
                            == Shift(Parse(sum, block[blockOffset..], |block| < BLOCK, strictTail), Pos())
      ensures st.Stop? ==> !st.r.Got? && ReadChunk(sum, stream, old(Pos()), strictTail) == st.r
    {
      hide Buffers, ReadAt, ReadChunk, BlockLen, Parse;
      if |block| - blockOffset >= HEADER {
        InsideBlock(stream, block, taken, blockOffset, eof, sum, strictTail);
        return Ready;
      }
      AtBlockEnd(stream, block, taken, blockOffset, eof, sum, strictTail);
      if strictTail && |block| < BLOCK && |block| > blockOffset {
        return Stop(Corrupt);
      }
      var ok := Fill();
      if !ok {
        return Stop(Eof);
      }
      InBlock(stream, block, taken, blockOffset, eof);
      if |block| - blockOffset < HEADER {
        ShortBlock(stream, taken - |block|, sum, strictTail);
        return Stop(if strictTail then Corrupt else Eof);
      }
      InsideBlock(stream, block, taken, blockOffset, eof, sum, strictTail);
      return Ready;
    }

    /** readChunk. */
    method NextChunk() returns (r: Read)
      requires Valid()
      modifies this
      ensures Valid() && old(Pos()) <= |stream| && r == ReadChunk(sum, stream, old(Pos()), strictTail)
      ensures r.Got? ==> Pos() == r.next
    {
      hide Buffers, ReadChunk, Parse;
      var st := EnsureHeader();
      if st.Stop? {
        return st.r;
      }
      r := ParseChunk();
    }

    /** A header and its data, from the block. */
    method ParseChunk() returns (r: Read)
      requires Valid() && blockOffset + HEADER <= |block|
      modifies this`blockOffset
      ensures Valid() && r == Shift(Parse(sum, block[old(blockOffset)..], |block| < BLOCK, strictTail), old(Pos()))
      ensures r.Got? ==> Pos() == r.next
    {
      hide Buffers;
      var off := blockOffset;
      var length: nat := block[off + 4] as int + 256 * (block[off + 5] as int);
      var typ := block[off + 6];
      if typ == 0 && length == 0 {
        return Corrupt;
      }
      if off + HEADER + length > |block| {
        return if |block| < BLOCK && !strictTail then Eof else Corrupt;
      }
      var data := block[off + HEADER..off + HEADER + length];
      WindowSlices(block, off, length);
      if sum(typ, data) != block[off..off + 4] {
        return Corrupt;
      }
      InBlock(stream, block, taken, off, eof);
      Advances(stream, block, taken, off, eof, off + HEADER + length);
      blockOffset := off + HEADER + length;
      return Got(typ, data, taken - |block| + blockOffset);
    }

    /** Next: one record, the end, or corruption. */
    method Next() returns (r: Record)
      requires Valid()
      modifies this
      ensures Valid() && old(Pos()) <= |stream| && r == ReadRecord(sum, stream, old(Pos()), strictTail, None)
      ensures r.Rec? ==> Pos() == r.next
    {
      hide Valid, ReadChunk;
      var part: Option<Bytes> := None;
      PosInStream();
      ghost var goal := ReadRecord(sum, stream, Pos(), strictTail, None);
      while true
        invariant Valid() && Pos() <= |stream| && goal == ReadRecord(sum, stream, Pos(), strictTail, part)
        decreases |stream| - Pos()
      {
        var c := NextChunk();
        if c.Eof? {
          return if part.Some? && strictTail then Broken else End;
        }
        if c.Corrupt? {
          return Broken;
        }
        if c.typ == FULL {
          return if part.Some? then Broken else Rec(c.data, c.next);
        } else if c.typ == FIRST {
          if part.Some? {
            return Broken;
          }
          part := Some(c.data);
        } else if c.typ == MIDDLE {
          if part.None? {
            return Broken;
          }
          part := Some(part.value + c.data);
        } else if c.typ == LAST {
          return if part.None? then Broken else Rec(part.value + c.data, c.next);
        } else {
          return Broken;
        }
      }
    }

    lemma PosInStream()
      requires Valid()
      ensures Pos() <= |stream|
    {
    }
  }
}
