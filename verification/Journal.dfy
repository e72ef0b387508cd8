/**
The journal framing: records cut into checksummed chunks that never cross a
32 KiB block, and what reading back any prefix of the bytes gives.
*/
module Journal {
  import opened Bytes

  const BLOCK: nat := 32768
  const HEADER: nat := 7

  const FULL: byte := 1
  const FIRST: byte := 2
  const MIDDLE: byte := 3
  const LAST: byte := 4

  type Word = w: seq<byte> | |w| == 4 witness [0, 0, 0, 0]

  /** The checksum of a chunk's type and data; any function will do here. */
  type Checksum = (byte, Bytes) -> Word

  /** Bytes left in the block at stream position `pos`. */
  function Room(pos: nat): (r: nat)
    ensures 1 <= r <= BLOCK
  {
    BLOCK - pos % BLOCK
  }

  /** Padding the writer leaves when no header fits. */
  function PadLen(pos: nat): (n: nat)
    ensures n < HEADER && Room(pos + n) >= HEADER
  {
    if Room(pos) < HEADER then Room(pos) else 0
  }

  /** emitChunk: checksum, little-endian length, type, data. */
  function Chunk(sum: Checksum, typ: byte, data: Bytes): (c: Bytes)
    requires |data| < 0x10000
    ensures |c| == HEADER + |data|
  {
    sum(typ, data) + [|data| % 256, |data| / 256, typ] + data
  }

  function TypeOf(first: bool, last: bool): byte {
    if first && last then FULL else if first then FIRST else if last then LAST else MIDDLE
  }

  /** How much of `rec` the chunk at `pos` takes, padding skipped. */
  function Piece(pos: nat, rec: Bytes): (n: nat)
    ensures n <= |rec| && HEADER + n <= Room(pos + PadLen(pos)) && n < 0x10000
    ensures n < |rec| ==> HEADER + n == Room(pos + PadLen(pos))
  {
    Min(|rec|, Room(pos + PadLen(pos)) - HEADER)
  }

  /** The bytes Write appends for one record at stream position `pos`. */
  function Frame(sum: Checksum, pos: nat, rec: Bytes, first: bool): (f: Bytes)
    ensures |f| >= HEADER
    decreases |rec|, if Room(pos) == HEADER then 1 else 0
  {
    var pad, n := PadLen(pos), Piece(pos, rec);
    var last := n == |rec|;
    Zeros(pad) + Chunk(sum, TypeOf(first, last), rec[..n])
    + (if last then [] else Frame(sum, pos + pad + HEADER + n, rec[n..], false))
  }

  function FrameAll(sum: Checksum, pos: nat, recs: seq<Bytes>): Bytes
    decreases |recs|
  {
    if recs == [] then []
    else
      var f := Frame(sum, pos, recs[0], true);
      f + FrameAll(sum, pos + |f|, recs[1..])
  }

  /** One more record is framed where the log ends. */
  lemma {:induction false} FrameAllGrows(sum: Checksum, pos: nat, recs: seq<Bytes>, rec: Bytes)
    ensures FrameAll(sum, pos, recs + [rec])
            == FrameAll(sum, pos, recs) + Frame(sum, pos + |FrameAll(sum, pos, recs)|, rec, true)
    decreases |recs|
  {
    hide Frame;
    if recs == [] {
      assert [rec][1..] == [] && recs + [rec] == [rec];
    } else {
      var f := Frame(sum, pos, recs[0], true);
      assert (recs + [rec])[1..] == recs[1..] + [rec];
      FrameAllGrows(sum, pos + |f|, recs[1..], rec);
    }
  }

  // ---------------------------------------------------------------------------
  // Reading
  // ---------------------------------------------------------------------------

  datatype Read = Eof | Corrupt | Got(typ: byte, data: Bytes, next: nat)

  /** How many bytes of the block at `pos` the stream holds. */
  function BlockLen(s: Bytes, pos: nat): (n: nat)
    requires pos <= |s|
    ensures pos % BLOCK <= n <= BLOCK
  {
    Min(BLOCK, |s| - (pos - pos % BLOCK))
  }

  /** What the rest of a block, from a header on, holds first. `partial` marks the stream's last, short block. */
  function Parse(sum: Checksum, w: Bytes, partial: bool, strict: bool): (r: Read)
    requires |w| >= HEADER
    ensures r.Got? ==> HEADER <= r.next <= |w|
  {
    var length: nat := w[4] as int + 256 * (w[5] as int);
    var typ := w[6];
    if typ == 0 && length == 0 then Corrupt
    else if HEADER + length > |w| then (if partial && !strict then Eof else Corrupt)
    else
      var data := w[HEADER..HEADER + length];
      if sum(typ, data) != w[..4] then Corrupt else Got(typ, data, HEADER + length)
  }

  function Shift(r: Read, base: nat): Read {
    if r.Got? then Got(r.typ, r.data, base + r.next) else r
  }

  /** readChunk once the block holds a whole header, or the block has just been filled. */
  function ReadAt(sum: Checksum, s: Bytes, pos: nat, strict: bool): (r: Read)
    requires pos <= |s|
    requires pos % BLOCK == 0 || BlockLen(s, pos) - pos % BLOCK >= HEADER
    ensures r.Got? ==> pos + HEADER <= r.next <= |s|
  {
    var off, len := pos % BLOCK, BlockLen(s, pos);
    if pos == |s| then Eof
    else if len - off < HEADER then (if strict then Corrupt else Eof)
    else Shift(Parse(sum, s[pos..pos + len - off], len < BLOCK, strict), pos)
  }

  function ReadChunk(sum: Checksum, s: Bytes, pos: nat, strict: bool): (r: Read)
    requires pos <= |s|
    ensures r.Got? ==> pos + HEADER <= r.next <= |s|
  {
    var off, len := pos % BLOCK, BlockLen(s, pos);
    if off != 0 && len - off < HEADER then
      if strict && len < BLOCK && len > off then Corrupt
      else if len < BLOCK then Eof
      else ReadAt(sum, s, pos + BLOCK - off, strict)
    else ReadAt(sum, s, pos, strict)
  }

  datatype Record = End | Broken | Rec(data: Bytes, next: nat)

  /** Next: reassembles one record. `part` is what has been read of it, if it has begun. */
  function ReadRecord(sum: Checksum, s: Bytes, pos: nat, strict: bool, part: Option<Bytes>): (r: Record)
    requires pos <= |s|
    ensures r.Rec? ==> pos < r.next <= |s|
    decreases |s| - pos
  {
    match ReadChunk(sum, s, pos, strict)
    case Eof => if part.Some? && strict then Broken else End
    case Corrupt => Broken
    case Got(typ, data, next) =>
      if typ == FULL then (if part.Some? then Broken else Rec(data, next))
      else if typ == FIRST then (if part.Some? then Broken else ReadRecord(sum, s, next, strict, Some(data)))
      else if typ == MIDDLE then (if part.None? then Broken else ReadRecord(sum, s, next, strict, Some(part.value + data)))
      else if typ == LAST then (if part.None? then Broken else Rec(part.value + data, next))
      else Broken
  }

  /** Everything a reader gets from `pos` on, and whether it ended on corruption. */
  function ReadAll(sum: Checksum, s: Bytes, pos: nat, strict: bool): (r: (seq<Bytes>, bool))
    requires pos <= |s|
    decreases |s| - pos
  {
    match ReadRecord(sum, s, pos, strict, None)
    case End => ([], false)
    case Broken => ([], true)
    case Rec(data, next) =>
      var rest := ReadAll(sum, s, next, strict);
      ([data] + rest.0, rest.1)
  }

  // ---------------------------------------------------------------------------
  // Chunks
  // ---------------------------------------------------------------------------

  /** The stream from `pos` on is `f`, up to where either ends. */
  ghost predicate Agrees(s: Bytes, pos: nat, f: Bytes) {
    pos <= |s| && s[pos..Min(|s|, pos + |f|)] == f[..Min(|s| - pos, |f|)]
  }

  lemma AgreesAt(s: Bytes, pos: nat, f: Bytes, k: nat)
    requires Agrees(s, pos, f) && k < |f| && pos + k < |s|
    ensures s[pos + k] == f[k]
  {
    assert s[pos..Min(|s|, pos + |f|)][k] == f[..Min(|s| - pos, |f|)][k];
  }

  lemma ParseWhole(sum: Checksum, w: Bytes, partial: bool, strict: bool, typ: byte, data: Bytes)
    requires |data| < 0x10000 && HEADER + |data| <= |w| && typ != 0 && w[..HEADER + |data|] == Chunk(sum, typ, data)
    ensures Parse(sum, w, partial, strict) == Got(typ, data, HEADER + |data|)
  {
    var c := w[..HEADER + |data|];
    assert c[4] == w[4] && c[5] == w[5] && c[6] == w[6];
    assert c[..4] == w[..4] && c[HEADER..] == w[HEADER..HEADER + |data|];
    assert c[..4] == sum(typ, data) && c[HEADER..] == data;
  }

  lemma ReadAtWhole(sum: Checksum, s: Bytes, p: nat, strict: bool, typ: byte, data: Bytes)
    requires |data| < 0x10000 && p + HEADER + |data| <= |s| && HEADER + |data| <= Room(p) && typ != 0
    requires s[p..p + HEADER + |data|] == Chunk(sum, typ, data)
    ensures BlockLen(s, p) - p % BLOCK >= HEADER + |data|
    ensures ReadAt(sum, s, p, strict) == Got(typ, data, p + HEADER + |data|)
  {
    hide Parse, Chunk;
    var w := s[p..p + BlockLen(s, p) - p % BLOCK];
    assert w[..HEADER + |data|] == s[p..p + HEADER + |data|];
    ParseWhole(sum, w, BlockLen(s, p) < BLOCK, strict, typ, data);
  }

  /** One framed chunk, padding and all, read whole. */
  lemma ChunkWhole(sum: Checksum, s: Bytes, pos: nat, strict: bool, typ: byte, data: Bytes)
    requires typ != 0 && |data| < 0x10000 && HEADER + |data| <= Room(pos + PadLen(pos))
    requires Agrees(s, pos, Zeros(PadLen(pos)) + Chunk(sum, typ, data))
    requires pos + PadLen(pos) + HEADER + |data| <= |s|
    ensures ReadChunk(sum, s, pos, strict) == Got(typ, data, pos + PadLen(pos) + HEADER + |data|)
  {
    hide Chunk;
    var pad := PadLen(pos);
    var p, c := pos + pad, Chunk(sum, typ, data);
    var whole := Zeros(pad) + c;
    assert s[pos..pos + |whole|] == whole;
    assert s[p..p + |c|] == s[pos..pos + |whole|][pad..] == c;
    ReadAtWhole(sum, s, p, strict, typ, data);
  }

  /** One framed chunk, cut short: a lenient reader sees the end of the log, a strict one
      corruption unless nothing but whole padding precedes the cut. */
  lemma ChunkCut(sum: Checksum, s: Bytes, pos: nat, strict: bool, typ: byte, data: Bytes)
    requires typ != 0 && |data| < 0x10000 && HEADER + |data| <= Room(pos + PadLen(pos))
    requires Agrees(s, pos, Zeros(PadLen(pos)) + Chunk(sum, typ, data))
    requires |s| < pos + PadLen(pos) + HEADER + |data|
    ensures ReadChunk(sum, s, pos, strict) == if strict && |s| != pos && |s| != pos + PadLen(pos) then Corrupt else Eof
  {
    hide Parse, Chunk, Agrees;
    var pad := PadLen(pos);
    var p, f := pos + pad, Zeros(pad) + Chunk(sum, typ, data);
    if |s| >= p + HEADER {
      AgreesAt(s, pos, f, pad + 4);
      AgreesAt(s, pos, f, pad + 5);
      AgreesAt(s, pos, f, pad + 6);
      ChunkHeader(sum, typ, data);
      var w := s[p..p + BlockLen(s, p) - p % BLOCK];
      assert w == s[p..];
      ParseCut(sum, w, strict, typ, |data|);
    }
  }

  lemma ChunkHeader(sum: Checksum, typ: byte, data: Bytes)
    requires |data| < 0x10000
    ensures var c := Chunk(sum, typ, data); c[4] == |data| % 256 && c[5] == |data| / 256 && c[6] == typ
  {
  }

  lemma ParseCut(sum: Checksum, w: Bytes, strict: bool, typ: byte, n: nat)
    requires HEADER <= |w| < HEADER + n && n < 0x10000 && w[4] == n % 256 && w[5] == n / 256 && w[6] == typ != 0
    ensures Parse(sum, w, true, strict) == if strict then Corrupt else Eof
  {
  }

  // ---------------------------------------------------------------------------
  // Records
  // ---------------------------------------------------------------------------

  lemma AgreesSplit(s: Bytes, pos: nat, a: Bytes, b: Bytes)
    requires Agrees(s, pos, a + b)
    ensures Agrees(s, pos, a)
    ensures pos + |a| <= |s| ==> Agrees(s, pos + |a|, b)
  {
    var f := a + b;
    forall k | 0 <= k < Min(|s| - pos, |a|) ensures s[pos + k] == a[k] { AgreesAt(s, pos, f, k); }
    if pos + |a| <= |s| {
      forall k | 0 <= k < Min(|s| - pos - |a|, |b|) ensures s[pos + |a| + k] == b[k] { AgreesAt(s, pos, f, |a| + k); }
    }
  }

  /** The first chunk of a frame, and what follows it. */
  lemma FrameParts(sum: Checksum, pos: nat, rec: Bytes, first: bool)
    ensures var pad, n := PadLen(pos), Piece(pos, rec);
            var head := Zeros(pad) + Chunk(sum, TypeOf(first, n == |rec|), rec[..n]);
            && |head| == pad + HEADER + n
            && Frame(sum, pos, rec, first) == head + if n == |rec| then [] else Frame(sum, pos + |head|, rec[n..], false)
  {
  }

  function Begun(part: Option<Bytes>): Bytes {
    if part.Some? then part.value else []
  }

  lemma {:induction false} RecordWhole(sum: Checksum, s: Bytes, pos: nat, strict: bool, rec: Bytes, part: Option<Bytes>)
    requires pos + |Frame(sum, pos, rec, part.None?)| <= |s| && Agrees(s, pos, Frame(sum, pos, rec, part.None?))
    ensures ReadRecord(sum, s, pos, strict, part) == Rec(Begun(part) + rec, pos + |Frame(sum, pos, rec, part.None?)|)
    decreases |rec|, if Room(pos) == HEADER then 1 else 0
  {
    hide Frame, Chunk, Agrees, ReadChunk;
    FrameParts(sum, pos, rec, part.None?);
    var pad, n := PadLen(pos), Piece(pos, rec);
    var head := Zeros(pad) + Chunk(sum, TypeOf(part.None?, n == |rec|), rec[..n]);
    var tail := if n == |rec| then [] else Frame(sum, pos + |head|, rec[n..], false);
    AgreesSplit(s, pos, head, tail);
    ChunkWhole(sum, s, pos, strict, TypeOf(part.None?, n == |rec|), rec[..n]);
    if n < |rec| {
      var part' := Some(if part.None? then rec[..n] else part.value + rec[..n]);
      RecordWhole(sum, s, pos + |head|, strict, rec[n..], part');
      assert part'.value + rec[n..] == Begun(part) + rec;
    } else {
      assert rec[..n] == rec;
    }
  }

  lemma {:induction false} RecordCut(sum: Checksum, s: Bytes, pos: nat, strict: bool, rec: Bytes, part: Option<Bytes>)
    requires pos <= |s| < pos + |Frame(sum, pos, rec, part.None?)| && Agrees(s, pos, Frame(sum, pos, rec, part.None?))
    ensures ReadRecord(sum, s, pos, strict, part) ==
              if strict && (part.Some? || (|s| != pos && |s| != pos + PadLen(pos))) then Broken else End
    decreases |rec|, if Room(pos) == HEADER then 1 else 0
  {
    hide Frame, Chunk, ReadChunk, Agrees;
    FrameParts(sum, pos, rec, part.None?);
    var pad, n := PadLen(pos), Piece(pos, rec);
    var typ := TypeOf(part.None?, n == |rec|);
    var head := Zeros(pad) + Chunk(sum, typ, rec[..n]);
    AgreesSplit(s, pos, head, if n == |rec| then [] else Frame(sum, pos + |head|, rec[n..], false));
    if |s| < pos + |head| {
      ChunkCut(sum, s, pos, strict, typ, rec[..n]);
    } else {
      ChunkWhole(sum, s, pos, strict, typ, rec[..n]);
      RecordCut(sum, s, pos + |head|, strict, rec[n..], Some(if part.None? then rec[..n] else part.value + rec[..n]));
    }
  }

  // ---------------------------------------------------------------------------
  // The log
  // ---------------------------------------------------------------------------

  /** How many whole records the first `k` bytes from `pos` hold. */
  function WholeIn(sum: Checksum, pos: nat, recs: seq<Bytes>, k: nat): (n: nat)
    ensures n <= |recs|
    decreases |recs|
  {
    if recs == [] then 0
    else
      var f := |Frame(sum, pos, recs[0], true)|;
      if k < f then 0 else 1 + WholeIn(sum, pos + f, recs[1..], k - f)
  }

  /** The cut falls on the end of a record, or on the block boundary its padding reaches. */
  predicate CleanCut(sum: Checksum, pos: nat, recs: seq<Bytes>, k: nat)
    decreases |recs|
  {
    if recs == [] then k == 0
    else
      var f := |Frame(sum, pos, recs[0], true)|;
      if k < f then k == 0 || k == PadLen(pos) else CleanCut(sum, pos + f, recs[1..], k - f)
  }

  /** Reading the first `k` bytes of a log gives exactly the records that lie wholly in them.
      The lenient reader then reports the end, never corruption; the strict one reports the
      end exactly when the cut is clean. */
  lemma {:induction false} PrefixReads(sum: Checksum, s: Bytes, pos: nat, recs: seq<Bytes>, strict: bool)
    requires pos <= |s| <= pos + |FrameAll(sum, pos, recs)| && Agrees(s, pos, FrameAll(sum, pos, recs))
    ensures var k := |s| - pos;
            ReadAll(sum, s, pos, strict) == (recs[..WholeIn(sum, pos, recs, k)], strict && !CleanCut(sum, pos, recs, k))
    decreases |recs|
  {
    hide Frame, Chunk, Agrees, ReadRecord, PadLen, Room;
    if recs == [] {
      assert ReadRecord(sum, s, pos, strict, None) == End by { AtEnd(sum, s, strict); }
    } else {
      var f := Frame(sum, pos, recs[0], true);
      AgreesSplit(s, pos, f, FrameAll(sum, pos + |f|, recs[1..]));
      if |s| < pos + |f| {
        RecordCut(sum, s, pos, strict, recs[0], None);
      } else {
        RecordWhole(sum, s, pos, strict, recs[0], None);
        assert Begun(None) + recs[0] == recs[0];
        PrefixReads(sum, s, pos + |f|, recs[1..], strict);
        var n := WholeIn(sum, pos + |f|, recs[1..], |s| - pos - |f|);
        assert [recs[0]] + recs[1..][..n] == recs[..n + 1];
      }
    }
  }

  lemma AtEnd(sum: Checksum, s: Bytes, strict: bool)
    ensures ReadRecord(sum, s, |s|, strict, None) == End
  {
  }

  /** Reading back a whole log gives its records, nothing else, and a clean end. */
  lemma RoundTrip(sum: Checksum, recs: seq<Bytes>, strict: bool)
    ensures ReadAll(sum, FrameAll(sum, 0, recs), 0, strict) == (recs, false)
  {
    hide ReadAll;
    var s := FrameAll(sum, 0, recs);
    assert Agrees(s, 0, s);
    PrefixReads(sum, s, 0, recs, strict);
    AllWhole(sum, 0, recs);
    assert recs[..|recs|] == recs;
  }

  lemma {:induction false} AllWhole(sum: Checksum, pos: nat, recs: seq<Bytes>)
    ensures WholeIn(sum, pos, recs, |FrameAll(sum, pos, recs)|) == |recs|
    ensures CleanCut(sum, pos, recs, |FrameAll(sum, pos, recs)|)
    decreases |recs|
  {
    hide Frame;
    if recs != [] {
      AllWhole(sum, pos + |Frame(sum, pos, recs[0], true)|, recs[1..]);
    }
  }
}
