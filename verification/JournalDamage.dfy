/** What a journal reader vouches for on any stream, and what it makes of a log that was damaged after it was written. */
module JournalDamage {
  import opened Bytes
  import opened Log
  import opened Journal
  import R = WalRecord
  import S = WalSegment
  import W = WriteAhead

  // ---------------------------------------------------------------------------
  // Whatever is read carries its sum
  // ---------------------------------------------------------------------------

  /** A chunk found in a stream. */
  datatype Found = Found(at: nat, typ: byte, data: Bytes)

  function End(c: Found): nat {
    c.at + HEADER + |c.data|
  }

  /** Its bytes are there: the sum of its type and data, its length, its type, its data. */
  ghost predicate Summed(sum: Checksum, s: Bytes, c: Found) {
    && End(c) <= |s| && |c.data| < 0x10000
    && s[c.at..c.at + 4] == sum(c.typ, c.data)
    && s[c.at + 4] as int + 256 * s[c.at + 5] as int == |c.data| && s[c.at + 6] == c.typ
    && s[c.at + HEADER..End(c)] == c.data
  }

  /** A chunk starts where the last one ended, or at the block after a tail too short for a header. */
  predicate StartsAt(pos: nat, at: nat) {
    at == pos || (at > pos && at - pos < HEADER && at % BLOCK == 0)
  }

  /** Chunks that lie one after another from `pos` on, each with its sum. */
  ghost predicate Chained(sum: Checksum, s: Bytes, pos: nat, cs: seq<Found>)
    decreases |cs|
  {
    cs == [] || (StartsAt(pos, cs[0].at) && Summed(sum, s, cs[0]) && Chained(sum, s, End(cs[0]), cs[1..]))
  }

  function Data(cs: seq<Found>): Bytes {
    if cs == [] then [] else cs[0].data + Data(cs[1..])
  }

  function EndOf(pos: nat, cs: seq<Found>): nat {
    if cs == [] then pos else End(cs[|cs|-1])
  }

  /** The types of a record's chunks, 1 for a whole record and otherwise 2, 3, …, 4, from its first one or, if it has begun, from a later one. */
  ghost predicate Typed(cs: seq<Found>, begun: bool) {
    && cs != []
    && (if |cs| == 1 then cs[0].typ == (if begun then 4 else 1) else cs[0].typ == (if begun then 3 else 2))
    && (|cs| > 1 ==> Typed(cs[1..], true))
  }

  /** Where the next chunk is read from. */
  lemma ReadFrom(sum: Checksum, s: Bytes, pos: nat, strict: bool) returns (at: nat)
    requires pos <= |s| && ReadChunk(sum, s, pos, strict).Got?
    ensures StartsAt(pos, at) && at <= |s| && (at % BLOCK == 0 || BlockLen(s, at) - at % BLOCK >= HEADER)
    ensures ReadChunk(sum, s, pos, strict) == ReadAt(sum, s, at, strict)
  {
    hide ReadAt;
    var off, len := pos % BLOCK, BlockLen(s, pos);
    at := if off != 0 && len - off < HEADER then pos + BLOCK - off else pos;
  }

  lemma ChunkIsSummed(sum: Checksum, s: Bytes, pos: nat, strict: bool) returns (c: Found)
    requires pos <= |s| && ReadChunk(sum, s, pos, strict).Got?
    ensures var r := ReadChunk(sum, s, pos, strict);
            StartsAt(pos, c.at) && Summed(sum, s, c) && c.typ == r.typ && c.data == r.data && End(c) == r.next
  {
    hide ReadChunk, ReadAt, Summed, BlockLen;
    var at := ReadFrom(sum, s, pos, strict);
    var r := ReadChunk(sum, s, pos, strict);
    c := Found(at, r.typ, r.data);
    ReadAtIsSummed(sum, s, at, strict, c);
  }

  lemma ReadAtIsSummed(sum: Checksum, s: Bytes, at: nat, strict: bool, c: Found)
    requires at <= |s| && (at % BLOCK == 0 || BlockLen(s, at) - at % BLOCK >= HEADER)
    requires ReadAt(sum, s, at, strict).Got? && c == Found(at, ReadAt(sum, s, at, strict).typ, ReadAt(sum, s, at, strict).data)
    ensures Summed(sum, s, c) && End(c) == ReadAt(sum, s, at, strict).next
  {
    var w := s[at..at + BlockLen(s, at) - at % BLOCK];
    assert w[..4] == s[at..at + 4] && w[4] == s[at + 4] && w[5] == s[at + 5] && w[6] == s[at + 6];
    var n: nat := w[4] as int + 256 * (w[5] as int);
    assert c.data == w[HEADER..HEADER + n];
    SubSlice(s, at, at + |w|, HEADER, HEADER + n);
  }

  /** Any record read, from any bytes, is whole chunks in order, each headed by the sum of its own type and data. */
  lemma {:induction false} RecordIsSummed(sum: Checksum, s: Bytes, pos: nat, strict: bool, part: Option<Bytes>) returns (cs: seq<Found>)
    requires pos <= |s| && ReadRecord(sum, s, pos, strict, part).Rec?
    ensures var r := ReadRecord(sum, s, pos, strict, part);
            Chained(sum, s, pos, cs) && Typed(cs, part.Some?) && Begun(part) + Data(cs) == r.data && EndOf(pos, cs) == r.next
    decreases |s| - pos
  {
    hide ReadChunk, Summed;
    var r := ReadChunk(sum, s, pos, strict);
    var c := ChunkIsSummed(sum, s, pos, strict);
    if r.typ == FULL || r.typ == LAST {
      cs := [c];
      assert cs[1..] == [] && Data(cs) == c.data;
    } else {
      var part' := Some(Begun(part) + r.data);
      assert part.None? ==> Begun(part) + r.data == r.data;
      var rest := RecordIsSummed(sum, s, r.next, strict, part');
      cs := [c] + rest;
      assert cs[1..] == rest;
      assert Begun(part) + (c.data + Data(rest)) == part'.value + Data(rest);
    }
  }

  // ---------------------------------------------------------------------------
  // Damage
  // ---------------------------------------------------------------------------

  /** At `p` a header and its data lie inside the block, and the sum stored is not theirs. */
  ghost predicate Mismatched(sum: Checksum, s: Bytes, p: nat) {
    && p + HEADER <= |s| && Room(p) >= HEADER
    && var n: nat := s[p + 4] as int + 256 * (s[p + 5] as int);
    && p + HEADER + n <= |s| && HEADER + n <= Room(p)
    && sum(s[p + 6], s[p + HEADER..p + HEADER + n]) != s[p..p + 4]
  }

  lemma MismatchParses(sum: Checksum, w: Bytes, partial: bool, strict: bool, n: nat)
    requires |w| >= HEADER + n && n == w[4] as int + 256 * (w[5] as int) && sum(w[6], w[HEADER..HEADER + n]) != w[..4]
    ensures Parse(sum, w, partial, strict) == Corrupt
  {
  }

  lemma MismatchAt(sum: Checksum, s: Bytes, p: nat, strict: bool)
    requires Mismatched(sum, s, p)
    ensures BlockLen(s, p) - p % BLOCK >= HEADER && ReadAt(sum, s, p, strict) == Corrupt
  {
    hide Parse;
    var n: nat := s[p + 4] as int + 256 * (s[p + 5] as int);
    var w := s[p..p + BlockLen(s, p) - p % BLOCK];
    assert w[..4] == s[p..p + 4] && w[4] == s[p + 4] && w[5] == s[p + 5] && w[6] == s[p + 6];
    SubSlice(s, p, p + |w|, HEADER, HEADER + n);
    MismatchParses(sum, w, BlockLen(s, p) < BLOCK, strict, n);
  }

  lemma MismatchReads(sum: Checksum, s: Bytes, pos: nat, strict: bool)
    requires pos <= |s| && Mismatched(sum, s, pos + PadLen(pos))
    ensures ReadChunk(sum, s, pos, strict) == Corrupt
  {
    hide ReadAt;
    MismatchAt(sum, s, pos + PadLen(pos), strict);
  }

  /** Some chunk of a record's frame fails its sum, and those before it are as they were written. */
  ghost predicate BreaksIn(sum: Checksum, s: Bytes, pos: nat, rec: Bytes, first: bool)
    decreases |rec|, if Room(pos) == HEADER then 1 else 0
  {
    var pad, n := PadLen(pos), Piece(pos, rec);
    var head := Zeros(pad) + Chunk(sum, TypeOf(first, n == |rec|), rec[..n]);
    || Mismatched(sum, s, pos + pad)
    || (n < |rec| && pos + |head| <= |s| && s[pos..pos + |head|] == head && BreaksIn(sum, s, pos + |head|, rec[n..], false))
  }

  lemma {:induction false} BrokenRecord(sum: Checksum, s: Bytes, pos: nat, strict: bool, rec: Bytes, part: Option<Bytes>)
    requires pos <= |s| && BreaksIn(sum, s, pos, rec, part.None?)
    ensures ReadRecord(sum, s, pos, strict, part) == Broken
    decreases |rec|, if Room(pos) == HEADER then 1 else 0
  {
    hide Chunk, ReadChunk, Mismatched;
    var pad, n := PadLen(pos), Piece(pos, rec);
    if Mismatched(sum, s, pos + pad) {
      MismatchReads(sum, s, pos, strict);
    } else {
      var typ := TypeOf(part.None?, n == |rec|);
      var head := Zeros(pad) + Chunk(sum, typ, rec[..n]);
      ChunkWhole(sum, s, pos, strict, typ, rec[..n]);
      BrokenRecord(sum, s, pos + |head|, strict, rec[n..], Some(if part.None? then rec[..n] else part.value + rec[..n]));
    }
  }

  /** A log damaged in one record reads as the records before it, and then as corruption, strictly or not. */
  lemma {:induction false} DamagedLogReads(sum: Checksum, s: Bytes, pos: nat, before: seq<Bytes>, rec: Bytes, strict: bool)
    requires pos + |FrameAll(sum, pos, before)| <= |s| && Agrees(s, pos, FrameAll(sum, pos, before))
    requires BreaksIn(sum, s, pos + |FrameAll(sum, pos, before)|, rec, true)
    ensures ReadAll(sum, s, pos, strict) == (before, true)
    decreases |before|
  {
    hide Frame, Agrees, ReadRecord, BreaksIn;
    if before == [] {
      BrokenRecord(sum, s, pos, strict, rec, None);
    } else {
      var f := Frame(sum, pos, before[0], true);
      AgreesSplit(s, pos, f, FrameAll(sum, pos + |f|, before[1..]));
      RecordWhole(sum, s, pos, strict, before[0], None);
      assert Begun(None) + before[0] == before[0];
      DamagedLogReads(sum, s, pos + |f|, before[1..], rec, strict);
      assert [before[0]] + before[1..] == before;
    }
  }

  /** So does a log file: the batches before the damage, then the end a reader of its kind gives corruption. */
  lemma {:induction false} DamagedSegmentReplays(sum: Checksum, s: Bytes, pos: nat, bs: seq<W.Batch>, rec: Bytes, lenient: bool, strict: bool, last: nat)
    requires (forall i :: 0 <= i < |bs| ==> S.Loggable(bs[i])) && S.Follows(bs, last)
    requires pos + |FrameAll(sum, pos, S.Records(bs))| <= |s| && Agrees(s, pos, FrameAll(sum, pos, S.Records(bs)))
    requires BreaksIn(sum, s, pos + |FrameAll(sum, pos, S.Records(bs))|, rec, true)
    ensures S.Replay(sum, s, pos, lenient, strict, last) == (S.Decoded(bs), if lenient then S.Stopped else S.Failed)
    decreases |bs|
  {
    hide Frame, Agrees, ReadRecord, R.Decode, S.Logged, S.Loggable, S.Mutations, SqnOf, S.Replay, BreaksIn;
    if bs == [] {
      BrokenRecord(sum, s, pos, strict, rec, None);
      S.ReplayEnds(sum, s, pos, lenient, strict, last);
    } else {
      var recs := S.Records(bs);
      var f := Frame(sum, pos, recs[0], true);
      assert recs[1..] == S.Records(bs[1..]);
      AgreesSplit(s, pos, f, FrameAll(sum, pos + |f|, recs[1..]));
      RecordWhole(sum, s, pos, strict, recs[0], None);
      assert Begun(None) + recs[0] == recs[0];
      S.ReplayNext(sum, s, pos, pos + |f|, lenient, strict, last, bs[0]);
      DamagedSegmentReplays(sum, s, pos + |f|, bs[1..], rec, lenient, strict, SqnOf(bs[0][0]) + |bs[0]| - 1);
    }
  }

  /** One payload byte changed, to a payload with another sum, in a record that is one chunk: whatever follows it. */
  lemma FlippedByteReads(sum: Checksum, before: seq<Bytes>, rec: Bytes, after: Bytes, i: nat, b: byte, strict: bool)
    requires var pos := |FrameAll(sum, 0, before)|; Piece(pos, rec) == |rec|
    requires i < |rec| && sum(FULL, rec[i := b]) != sum(FULL, rec)
    ensures var pos := |FrameAll(sum, 0, before)|;
            var written := FrameAll(sum, 0, before + [rec]) + after;
            var x := pos + PadLen(pos) + HEADER + i;
            x < |written| && ReadAll(sum, written[x := b], 0, strict) == (before, true)
  {
    hide FrameAll, Agrees;
    var front := FrameAll(sum, 0, before);
    var pos := |front|;
    var pad := PadLen(pos);
    FrameAllGrows(sum, 0, before, rec);
    FrameParts(sum, pos, rec, true);
    var head := Zeros(pad) + Chunk(sum, FULL, rec[..|rec|]);
    assert rec[..|rec|] == rec;
    var written := FrameAll(sum, 0, before + [rec]) + after;
    var x := pos + pad + HEADER + i;
    var s := written[x := b];
    assert written == front + head + after;
    FlipMismatches(sum, front, head, after, pos, rec, i, b);
    assert Agrees(s, 0, front) by { FrontAgrees(s, front, written, x, b); }
    DamagedLogReads(sum, s, 0, before, rec, strict);
  }

  lemma FrontAgrees(s: Bytes, front: Bytes, written: Bytes, x: nat, b: byte)
    requires |front| <= x < |written| && front <= written && s == written[x := b]
    ensures Agrees(s, 0, front)
  {
    assert s[0..|front|] == front;
  }

  lemma FlipMismatches(sum: Checksum, front: Bytes, head: Bytes, after: Bytes, pos: nat, rec: Bytes, i: nat, b: byte)
    requires pos == |front| && Piece(pos, rec) == |rec| && i < |rec| && sum(FULL, rec[i := b]) != sum(FULL, rec)
    requires |rec| < 0x10000 && head == Zeros(PadLen(pos)) + Chunk(sum, FULL, rec)
    ensures var x := pos + PadLen(pos) + HEADER + i;
            x < |front + head + after| && Mismatched(sum, (front + head + after)[x := b], pos + PadLen(pos))
  {
    hide Room;
    var p, c := pos + PadLen(pos), Chunk(sum, FULL, rec);
    var written := front + head + after;
    var s := written[p + HEADER + i := b];
    forall k | 0 <= k < |c| ensures written[p + k] == c[k] {
    }
    ChunkHeader(sum, FULL, rec);
    assert s[p..p + 4] == c[..4] == sum(FULL, rec);
    assert s[p + HEADER..p + HEADER + |rec|] == rec[i := b];
  }
}
