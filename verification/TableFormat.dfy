/** A table file: data blocks, range tombstones, filter, index, footer. */
module TableFormat {
  import opened Bytes
  import opened Varint
  import opened Versions
  import opened DataBlock
  import Bloom
  import RangeDelBlock

  const FOOTER: nat := 72
  const MAGIC: nat := 0xdb1e_5100_0000_0001
  const BLOCK_TRAILER: nat := 5
  const NO_CODEC: byte := 0
  const RESTART_INTERVAL: nat := 16

  /** The compression codec, checksum and key hash a table is written and read with. */
  datatype Env = Env(
    codec: byte,
    compress: Bytes -> Bytes,
    decompress: (byte, Bytes) -> Option<Bytes>,
    crc: Bytes -> nat,
    hash: Bytes -> nat)

  /** The checksum and hash are 32-bit; the codec undoes itself. */
  ghost predicate EnvOk(env: Env) {
    && (forall b :: env.crc(b) <= MAX_UINT32)
    && (forall b :: env.hash(b) < Bloom.WORD)
    && (env.codec != NO_CODEC ==> forall b :: env.decompress(env.codec, env.compress(b)) == Some(b))
  }

  // ---------------------------------------------------------------------------
  // Blocks
  // ---------------------------------------------------------------------------

  /** A block body under its codec id, with the checksum. */
  function Sealed(env: Env, id: byte, out: Bytes): (b: Bytes)
    ensures |b| == |out| + BLOCK_TRAILER
  {
    out + [id] + PutLe(env.crc(out + [id]), 4)
  }

  /** finishBlock without a codec. */
  function RawBlock(env: Env, payload: Bytes): Bytes {
    Sealed(env, NO_CODEC, payload)
  }

  /** finishBlock: compressed only when that makes it smaller. */
  function FinishBlock(env: Env, payload: Bytes): (b: Bytes)
    ensures BLOCK_TRAILER <= |b| <= |payload| + BLOCK_TRAILER
  {
    if env.codec == NO_CODEC then RawBlock(env, payload)
    else
      var out := env.compress(payload);
      if |out| >= |payload| then RawBlock(env, payload) else Sealed(env, env.codec, out)
  }

  /** A block takes what its payload takes or, under a codec, what the compressed payload takes if that is less. */
  lemma BlockSize(env: Env, payload: Bytes)
    ensures |RawBlock(env, payload)| == |payload| + 5
    ensures |FinishBlock(env, payload)| == 5 + if env.codec == 0 then |payload| else Min(|payload|, |env.compress(payload)|)
  {
  }

  /** decodeBlock. */
  function DecodeBlock(env: Env, raw: Bytes): Option<Bytes> {
    if |raw| < BLOCK_TRAILER then None
    else
      var body := raw[..|raw| - 4];
      if env.crc(body) != FromLe(raw[|raw| - 4..]) then None
      else
        var id, comp := body[|body| - 1], body[..|body| - 1];
        if id == NO_CODEC then Some(comp) else env.decompress(id, comp)
  }

  /** Whatever decodes, from any bytes, was stored with the checksum of its body and codec id. */
  lemma DecodedIsSummed(env: Env, raw: Bytes)
    requires DecodeBlock(env, raw).Some?
    ensures |raw| >= BLOCK_TRAILER
    ensures var comp, id, stored := raw[..|raw| - BLOCK_TRAILER], raw[|raw| - BLOCK_TRAILER], raw[|raw| - 4..];
            && env.crc(comp + [id]) == FromLe(stored)
            && DecodeBlock(env, raw) == if id == NO_CODEC then Some(comp) else env.decompress(id, comp)
  {
    var body := raw[..|raw| - 4];
    assert body == raw[..|raw| - BLOCK_TRAILER] + [raw[|raw| - BLOCK_TRAILER]];
    assert body[..|body| - 1] == raw[..|raw| - BLOCK_TRAILER];
  }

  lemma SealedReads(env: Env, id: byte, out: Bytes)
    requires EnvOk(env)
    ensures DecodeBlock(env, Sealed(env, id, out)) == if id == NO_CODEC then Some(out) else env.decompress(id, out)
  {
    hide FromLe, PutLe;
    var raw := Sealed(env, id, out);
    assert raw[..|raw| - 4] == out + [id];
    assert raw[|raw| - 4..] == PutLe(env.crc(out + [id]), 4);
    WordReads(env.crc(out + [id]));
    assert (out + [id])[..|out|] == out;
  }

  /** A finished block, compressed or not, decodes to its payload. */
  lemma BlockRoundTrip(env: Env, payload: Bytes)
    requires EnvOk(env)
    ensures DecodeBlock(env, FinishBlock(env, payload)) == Some(payload)
    ensures DecodeBlock(env, RawBlock(env, payload)) == Some(payload)
  {
    hide DecodeBlock, Sealed;
    SealedReads(env, NO_CODEC, payload);
    SealedReads(env, env.codec, env.compress(payload));
  }

  // ---------------------------------------------------------------------------
  // Handles and the footer
  // ---------------------------------------------------------------------------

  datatype Handle = Handle(offset: nat, length: nat)

  function PutHandle(h: Handle): Bytes {
    PutUvarint(h.offset) + PutUvarint(h.length)
  }

  function TakeHandle(b: Bytes): (r: Take<Handle>)
    ensures r.Took? ==> |r.rest| < |b|
  {
    var o := Uvarint(b);
    if o.Bad? then Bad else
    var n := Uvarint(o.rest);
    if n.Bad? then Bad else Took(Handle(o.value, n.value), n.rest)
  }

  predicate HandleFits(h: Handle) {
    h.offset <= MAX_UINT64 && h.length <= MAX_UINT64
  }

  lemma HandleReads(h: Handle, rest: Bytes)
    requires HandleFits(h)
    ensures TakeHandle(PutHandle(h) + rest) == Took(h, rest)
  {
    hide Uvarint, PutUvarint;
    assert PutHandle(h) + rest == PutUvarint(h.offset) + (PutUvarint(h.length) + rest);
    UvarintRoundTrip(h.offset, PutUvarint(h.length) + rest);
    UvarintRoundTrip(h.length, rest);
  }

  lemma {:induction false} UvarintShort(x: nat, i: nat)
    requires i <= 9 && x < Pow2(64 - 7 * i)
    ensures |PutUvarint(x)| <= 10 - i
    decreases x
  {
    if x >= 128 {
      assert i < 9 by { assert Pow2(1) == 2 * Pow2(0); }
      Pow2Seven(64 - 7 * (i + 1));
      UvarintShort(x / 128, i + 1);
    }
  }

  lemma HandleShort(h: Handle)
    requires HandleFits(h)
    ensures |PutHandle(h)| <= 20
  {
    Pow2Of64();
    UvarintShort(h.offset, 0);
    UvarintShort(h.length, 0);
  }

  /** The three handles at the front of a fixed region, zeros, and the magic number. */
  function PutFooter(index: Handle, filter: Handle, dels: Handle): (b: Bytes)
    ensures |b| == FOOTER
  {
    (PutHandle(index) + PutHandle(filter) + PutHandle(dels) + Zeros(FOOTER - 8))[..FOOTER - 8] + PutLe(MAGIC, 8)
  }

  datatype Layout = Layout(index: Handle, filter: Handle, dels: Handle) {
    predicate HasDels() {
      dels.length != 0 || dels.offset != 0
    }

    /** Where the data blocks end. */
    function DataEnd(): nat {
      if HasDels() then dels.offset else filter.offset
    }
  }

  function TakeFooter(footer: Bytes): Option<Layout>
    requires |footer| == FOOTER
  {
    if FromLe(footer[FOOTER - 8..]) != MAGIC then None else
    var index := TakeHandle(footer);
    if index.Bad? then None else
    var filter := TakeHandle(index.rest);
    if filter.Bad? then None else
    var dels := TakeHandle(filter.rest);
    if dels.Bad? || |dels.rest| < 8 || exists i :: 0 <= i < |dels.rest| - 8 && dels.rest[i] != 0 then None
    else Some(Layout(index.value, filter.value, dels.value))
  }

  /** newTableReaderOpt: [data][range-del?][filter][index][footer], nothing between. */
  predicate LayoutOk(l: Layout, dataEnd: nat) {
    && l.filter.offset + l.filter.length == l.index.offset
    && l.index.offset + l.index.length == dataEnd
    && (l.HasDels() ==> l.dels.offset + l.dels.length == l.filter.offset)
  }

  function Open(file: Bytes): Option<Layout> {
    if |file| < FOOTER then None
    else
      var l := TakeFooter(file[|file| - FOOTER..]);
      if l.None? || !LayoutOk(l.value, |file| - FOOTER) then None else l
  }

  /** A file that opens ends in the magic number, its footer is zero after the handles, and its blocks lie end to end: data,
      range tombstones if there are any, filter, index, footer. */
  lemma OpenedIsWhole(file: Bytes)
    requires Open(file).Some?
    ensures var l := Open(file).value;
            && |file| >= 72 && FromLe(file[|file| - 8..]) == 0xdb1e_5100_0000_0001
            && l.filter.offset + l.filter.length == l.index.offset && l.index.offset + l.index.length == |file| - 72
            && (if l.dels == Handle(0, 0) then l.DataEnd() == l.filter.offset
                else l.DataEnd() == l.dels.offset && l.dels.offset + l.dels.length == l.filter.offset)
    ensures var rest := TakeHandle(TakeHandle(TakeHandle(file[|file| - 72..]).rest).rest).rest;
            8 <= |rest| <= 72 && forall i :: |file| - |rest| <= i < |file| - 8 ==> file[i] == 0
  {
    hide TakeHandle, FromLe;
    var footer := file[|file| - FOOTER..];
    assert footer[FOOTER - 8..] == file[|file| - 8..];
    FooterRests(footer);
    var rest := TakeHandle(TakeHandle(TakeHandle(footer).rest).rest).rest;
    forall i | |file| - |rest| <= i < |file| - 8 ensures file[i] == 0 {
      assert file[i] == footer[i - |file| + FOOTER] == rest[i - |file| + |rest|];
    }
  }

  lemma UvarintRests(b: Bytes)
    requires Uvarint(b).Took?
    ensures Uvarint(b).rest == b[|b| - |Uvarint(b).rest|..]
  {
    hide Uvarint;
    UvarintIff(b);
    var k :| EndsAt(b, 0, k);
  }

  lemma HandleRests(b: Bytes)
    requires TakeHandle(b).Took?
    ensures TakeHandle(b).rest == b[|b| - |TakeHandle(b).rest|..]
  {
    hide Uvarint;
    UvarintRests(b);
    UvarintRests(Uvarint(b).rest);
  }

  lemma FooterRests(footer: Bytes)
    requires |footer| == FOOTER && TakeFooter(footer).Some?
    ensures var rest := TakeHandle(TakeHandle(TakeHandle(footer).rest).rest).rest;
            8 <= |rest| <= FOOTER && rest == footer[FOOTER - |rest|..] && forall i :: 0 <= i < |rest| - 8 ==> rest[i] == 0
  {
    hide TakeHandle, FromLe;
    var a := TakeHandle(footer);
    HandleRests(footer);
    HandleRests(a.rest);
    HandleRests(TakeHandle(a.rest).rest);
  }

  lemma FooterReads(index: Handle, filter: Handle, dels: Handle)
    requires HandleFits(index) && HandleFits(filter) && HandleFits(dels)
    ensures TakeFooter(PutFooter(index, filter, dels)) == Some(Layout(index, filter, dels))
  {
    hide TakeHandle, PutHandle, HandleFits, FromLe, PutLe;
    HandleShort(index);
    HandleShort(filter);
    HandleShort(dels);
    var f := PutFooter(index, filter, dels);
    var used := |PutHandle(index)| + |PutHandle(filter)| + |PutHandle(dels)|;
    var r3 := Zeros(FOOTER - 8 - used) + PutLe(MAGIC, 8);
    var r2 := PutHandle(dels) + r3;
    var r1 := PutHandle(filter) + r2;
    assert f == PutHandle(index) + r1;
    HandleReads(index, r1);
    HandleReads(filter, r2);
    HandleReads(dels, r3);
    assert f[FOOTER - 8..] == PutLe(MAGIC, 8);
    assert FromLe(PutLe(MAGIC, 8)) == MAGIC by { Pow2Of64(); LeRoundTrip(MAGIC, 8); }
  }

  // ---------------------------------------------------------------------------
  // A whole table
  // ---------------------------------------------------------------------------

  function BlockBytes(env: Env, items: seq<Item>): Bytes {
    FinishBlock(env, BlockPayload(items, RESTART_INTERVAL))
  }

  /** The first `n` data blocks. */
  function DataBytes(env: Env, blocks: seq<seq<Item>>, n: nat): Bytes
    requires n <= |blocks|
  {
    if n == 0 then [] else DataBytes(env, blocks, n - 1) + BlockBytes(env, blocks[n-1])
  }

  function HandleOf(env: Env, blocks: seq<seq<Item>>, i: nat): Handle
    requires i < |blocks|
  {
    Handle(|DataBytes(env, blocks, i)|, |BlockBytes(env, blocks[i])|)
  }

  /** A block's separator is its last key. */
  function Separator(items: seq<Item>): Bytes {
    if items == [] then [] else items[|items|-1].key
  }

  function PutIndexEntry(sep: Bytes, h: Handle): Bytes {
    PutBytes(sep) + PutBytes(PutHandle(h))
  }

  function IndexBytes(env: Env, blocks: seq<seq<Item>>, n: nat): Bytes
    requires n <= |blocks|
  {
    if n == 0 then []
    else IndexBytes(env, blocks, n - 1) + PutIndexEntry(Separator(blocks[n-1]), HandleOf(env, blocks, n - 1))
  }

  function DelBytes(env: Env, dels: seq<RangeDel>): Bytes {
    if dels == [] then [] else RawBlock(env, RangeDelBlock.Block(dels))
  }

  /** Where everything goes. */
  function LayoutOf(env: Env, blocks: seq<seq<Item>>, dels: seq<RangeDel>, filter: Bytes): Layout {
    var data := |DataBytes(env, blocks, |blocks|)|;
    var rd := |DelBytes(env, dels)|;
    var fb := Handle(data + rd, |RawBlock(env, filter)|);
    var ib := Handle(fb.offset + fb.length, |FinishBlock(env, IndexBytes(env, blocks, |blocks|))|);
    Layout(ib, fb, if dels == [] then Handle(0, 0) else Handle(data, rd))
  }

  /** The file a finished writer leaves. */
  function TableBytes(env: Env, blocks: seq<seq<Item>>, dels: seq<RangeDel>, filter: Bytes): Bytes {
    var l := LayoutOf(env, blocks, dels, filter);
    DataBytes(env, blocks, |blocks|) + DelBytes(env, dels) + RawBlock(env, filter)
    + FinishBlock(env, IndexBytes(env, blocks, |blocks|)) + PutFooter(l.index, l.filter, l.dels)
  }

  /** Every table the writer finishes passes the reader's layout checks. */
  lemma WrittenOpens(env: Env, blocks: seq<seq<Item>>, dels: seq<RangeDel>, filter: Bytes)
    requires |TableBytes(env, blocks, dels, filter)| <= MAX_UINT64
    ensures Open(TableBytes(env, blocks, dels, filter)) == Some(LayoutOf(env, blocks, dels, filter))
  {
    hide PutFooter, TakeFooter, DataBytes, IndexBytes, FinishBlock, RawBlock;
    var file := TableBytes(env, blocks, dels, filter);
    var l := LayoutOf(env, blocks, dels, filter);
    FooterReads(l.index, l.filter, l.dels);
    assert file[|file| - FOOTER..] == PutFooter(l.index, l.filter, l.dels);
  }

  /** readBlockRaw. */
  function ReadBlock(env: Env, file: Bytes, h: Handle): Option<Bytes> {
    if |file| < FOOTER || h.length < BLOCK_TRAILER || h.offset + h.length > |file| - FOOTER then None
    else DecodeBlock(env, file[h.offset..h.offset + h.length])
  }

  /** Only bytes before the footer are ever read as a block. */
  lemma BlockInside(env: Env, file: Bytes, h: Handle)
    requires ReadBlock(env, file, h).Some?
    ensures h.length >= 5 && h.offset + h.length + 72 <= |file|
    ensures ReadBlock(env, file, h) == DecodeBlock(env, file[h.offset..h.offset + h.length])
  {
  }

  lemma {:induction false} DataPrefix(env: Env, blocks: seq<seq<Item>>, i: nat, n: nat)
    requires i <= n <= |blocks|
    ensures |DataBytes(env, blocks, i)| <= |DataBytes(env, blocks, n)|
    ensures DataBytes(env, blocks, n)[..|DataBytes(env, blocks, i)|] == DataBytes(env, blocks, i)
    decreases n
  {
    hide BlockBytes;
    if i < n {
      DataPrefix(env, blocks, i, n - 1);
      var a, b, c := DataBytes(env, blocks, i), DataBytes(env, blocks, n - 1), DataBytes(env, blocks, n);
      assert c[..|b|] == b;
      assert c[..|a|] == c[..|b|][..|a|];
    }
  }

  /** A block in place, with at least a footer after it, reads back. */
  lemma SectionReads(env: Env, pre: Bytes, raw: Bytes, post: Bytes)
    requires |raw| >= BLOCK_TRAILER && |post| >= FOOTER
    ensures ReadBlock(env, pre + raw + post, Handle(|pre|, |raw|)) == DecodeBlock(env, raw)
  {
    hide DecodeBlock;
    assert (pre + raw + post)[|pre|..|pre| + |raw|] == raw;
  }

  /** Every block of a written table is found where its handle says. */
  lemma BlocksRead(env: Env, blocks: seq<seq<Item>>, dels: seq<RangeDel>, filter: Bytes)
    requires EnvOk(env)
    ensures var file := TableBytes(env, blocks, dels, filter); var l := LayoutOf(env, blocks, dels, filter);
            && ReadBlock(env, file, l.filter) == Some(filter)
            && ReadBlock(env, file, l.index) == Some(IndexBytes(env, blocks, |blocks|))
            && (dels != [] ==> ReadBlock(env, file, l.dels) == Some(RangeDelBlock.Block(dels)))
  {
    hide EnvOk, DataBytes, IndexBytes, FinishBlock, RawBlock, DecodeBlock, ReadBlock, PutFooter, RangeDelBlock.Block;
    var l := LayoutOf(env, blocks, dels, filter);
    var index := IndexBytes(env, blocks, |blocks|);
    var data, rd := DataBytes(env, blocks, |blocks|), DelBytes(env, dels);
    var fb, ib := RawBlock(env, filter), FinishBlock(env, index);
    var foot := PutFooter(l.index, l.filter, l.dels);
    BlockRoundTrip(env, filter);
    BlockRoundTrip(env, index);
    BlockRoundTrip(env, RangeDelBlock.Block(dels));
    RawLong(env, filter);
    RawLong(env, RangeDelBlock.Block(dels));
    SectionReads(env, data + rd + fb, ib, foot);
    SectionReads(env, data + rd, fb, ib + foot);
    assert data + rd + fb + (ib + foot) == data + rd + fb + ib + foot;
    if dels != [] {
      SectionReads(env, data, rd, fb + ib + foot);
      assert data + rd + (fb + ib + foot) == data + rd + fb + ib + foot;
    }
  }

  lemma RawLong(env: Env, payload: Bytes)
    ensures |RawBlock(env, payload)| >= BLOCK_TRAILER
  {
  }

  lemma DataBlockReads(env: Env, blocks: seq<seq<Item>>, dels: seq<RangeDel>, filter: Bytes, i: nat)
    requires EnvOk(env) && i < |blocks|
    ensures ReadBlock(env, TableBytes(env, blocks, dels, filter), HandleOf(env, blocks, i)) == Some(BlockPayload(blocks[i], RESTART_INTERVAL))
  {
    hide EnvOk, IndexBytes, FinishBlock, RawBlock, DecodeBlock, ReadBlock, PutFooter, RangeDelBlock.Block, BlockPayload;
    var l := LayoutOf(env, blocks, dels, filter);
    var data, upTo, at := DataBytes(env, blocks, |blocks|), DataBytes(env, blocks, i + 1), DataBytes(env, blocks, i);
    DataPrefix(env, blocks, i + 1, |blocks|);
    var rd, fb, ib := DelBytes(env, dels), RawBlock(env, filter), FinishBlock(env, IndexBytes(env, blocks, |blocks|));
    var foot := PutFooter(l.index, l.filter, l.dels);
    var post := data[|upTo|..] + rd + fb + ib + foot;
    assert data == at + BlockBytes(env, blocks[i]) + data[|upTo|..];
    assert at + BlockBytes(env, blocks[i]) + post == data + rd + fb + ib + foot;
    SectionReads(env, at, BlockBytes(env, blocks[i]), post);
    BlockRoundTrip(env, BlockPayload(blocks[i], RESTART_INTERVAL));
  }
}
