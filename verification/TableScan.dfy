/** Iterating a table: every entry, block after block, through a read-ahead window. */
module TableScan {
  import opened Bytes
  import opened DataBlock
  import opened BlockIter
  import opened TableFormat
  import opened TableWriter
  import opened TableLookup
  import opened TableIndex
  import opened TableReader
  import Ikey

  const READ_AHEAD: nat := 0x4_0000

  /** Where the inner iterator stands in its block. */
  datatype Cursor = Cursor(entries: Bytes, pos: nat, key: Bytes)

  /** In a written table: block `blk`, before its entry `i`, with `at` entries behind. */
  ghost predicate Standing(blocks: seq<seq<Item>>, blk: int, loaded: bool, c: Cursor, last: Option<Bytes>, i: nat, at: nat) {
    && blk >= -1 && (loaded ==> blk >= 0) && (0 <= blk < |blocks| ==> loaded)
    && at <= |Flat(blocks)| && last == (if at == 0 then None else Some(Flat(blocks)[at-1].key))
    && (!loaded ==> at == 0)
    && (0 <= blk < |blocks| ==> InBlock(blocks[blk], c, i) && at == |Flat(blocks[..blk])| + i)
    && (blk >= |blocks| ==> at == |Flat(blocks)| && (loaded ==> c.pos == |c.entries|))
  }

  /** The cursor stands before entry `i` of a block. */
  ghost predicate InBlock(items: seq<Item>, c: Cursor, i: nat) {
    && i <= |items| && c.entries == Encoded(items, |items|, RESTART_INTERVAL)
    && c.pos == Off(items, i, RESTART_INTERVAL)
    && c.key == if i == 0 then [] else items[i-1].key
  }

  /** What the next step reads. */
  lemma InBlockReads(items: seq<Item>, c: Cursor, i: nat)
    requires ItemsOk(items) && InBlock(items, c, i)
    ensures c.pos <= |c.entries|
    ensures i == |items| ==> c.pos == |c.entries| && StepFrom(c.entries, c.pos, c.key) == Done
    ensures i < |items| ==> var next := Off(items, i + 1, RESTART_INTERVAL);
                            && StepFrom(c.entries, c.pos, c.key) == At(items[i].key, items[i].value, next)
                            && InBlock(items, Cursor(c.entries, next, items[i].key), i + 1)
  {
    hide Encoded, StepFrom;
    if i < |items| {
      StepAt(items, RESTART_INTERVAL, i, c.key);
    } else {
      AtEnd(c.entries, c.key);
    }
  }

  /** A block just loaded. */
  lemma InBlockFirst(items: seq<Item>)
    ensures InBlock(items, Cursor(Encoded(items, |items|, RESTART_INTERVAL), 0, []), 0)
  {
  }

  /** The entry a loaded cursor reads is the next of the whole table. */
  lemma StandingReads(blocks: seq<seq<Item>>, blk: int, loaded: bool, c: Cursor, last: Option<Bytes>, i: nat, at: nat)
    requires Standing(blocks, blk, loaded, c, last, i, at) && loaded && Sorted(Flat(blocks))
    requires c.pos <= |c.entries| && forall k :: 0 <= k < |blocks| ==> ItemsOk(blocks[k])
    ensures var step := StepFrom(c.entries, c.pos, c.key);
            && (step == Done || (step.At? && at < |Flat(blocks)| && Item(step.key, step.value) == Flat(blocks)[at]))
            && (step == Done ==> c.pos == |c.entries| && (0 <= blk < |blocks| ==> i == |blocks[blk]|))
            && (step.At? ==> && KeyOk(step.key) && (last.Some? ==> Ikey.Less(last.value, step.key))
                             && Standing(blocks, blk, loaded, Cursor(c.entries, step.next, step.key), Some(step.key), i + 1, at + 1))
  {
    hide StepFrom, InBlock, Sorted, Flat, ItemsOk, KeyOk, Ikey.Less;
    if blk < |blocks| {
      InBlockReads(blocks[blk], c, i);
      InBlockBound(blocks[blk], c, i);
      FlatAround(blocks, blk);
      if i < |blocks[blk]| {
        assert Flat(blocks)[at] == blocks[blk][i];
        SortedAt(Flat(blocks), if at == 0 then 0 else at - 1, at);
      }
    } else {
      AtEnd(c.entries, c.key);
    }
  }

  lemma InBlockBound(items: seq<Item>, c: Cursor, i: nat)
    requires InBlock(items, c, i)
    ensures i <= |items|
  {
  }

  /** An exhausted block gives way to the next, or to the end. */
  lemma StandingMoves(blocks: seq<seq<Item>>, blk: int, loaded: bool, c: Cursor, last: Option<Bytes>, i: nat, at: nat)
    requires Standing(blocks, blk, loaded, c, last, i, at)
    requires loaded ==> c.pos == |c.entries| && (0 <= blk < |blocks| ==> i == |blocks[blk]|)
    ensures blk + 1 < |blocks| ==> Standing(blocks, blk + 1, true, Cursor(Encoded(blocks[blk + 1], |blocks[blk + 1]|, RESTART_INTERVAL), 0, []), last, 0, at)
    ensures blk + 1 >= |blocks| ==> at == |Flat(blocks)|
    ensures blk + 1 >= |blocks| ==> Standing(blocks, blk + 1, loaded, c, last, i, at)
  {
    hide Encoded, Flat;
    if blk + 1 < |blocks| {
      InBlockFirst(blocks[blk + 1]);
    }
    if 0 <= blk < |blocks| {
      FlatAround(blocks, blk);
      FlatNext(blocks[..blk], blocks[blk]);
      assert blocks[..blk + 1] == blocks[..blk] + [blocks[blk]];
      if blk + 1 == |blocks| {
        assert blocks[..blk + 1] == blocks;
      }
    } else if blk == -1 {
      EmptyFlat();
      assert blocks[..0] == [];
      assert |blocks| == 0 ==> blocks == [];
    }
  }

  /** What iterating a written table relies on. */
  lemma WrittenBlocks(env: Env, file: Bytes, w: Image)
    requires EnvOk(env) && Written(env, file, w)
    ensures Sorted(Flat(w.blocks)) && forall k :: 0 <= k < |w.blocks| ==> ItemsOk(w.blocks[k])
  {
    hide EnvOk, Written, WrittenBlock, Sorted, Flat, ReadBlock, HandleOf, EntriesOf, ItemsOk;
    WrittenFlat(env, file, w);
    forall k | 0 <= k < |w.blocks| ensures ItemsOk(w.blocks[k]) {
      WrittenData(env, file, w, k);
      BlockItems(env, file, w, k);
    }
  }

  lemma WrittenFlat(env: Env, file: Bytes, w: Image)
    requires Written(env, file, w)
    ensures Sorted(Flat(w.blocks))
  {
  }

  lemma BlockItems(env: Env, file: Bytes, w: Image, k: nat)
    requires k < |w.blocks|
    requires var p := ReadBlock(env, file, HandleOf(env, w.blocks, k)); p.Some? && WrittenBlock(p.value, w.blocks[k])
    ensures ItemsOk(w.blocks[k])
  {
  }

  /** The entry region of a block's bytes. */
  function EntriesIn(env: Env, raw: Bytes): Option<Bytes> {
    var payload := DecodeBlock(env, raw);
    if payload.None? then None
    else
      var parts := Split(payload.value);
      if parts.None? then None else Some(parts.value.0)
  }

  /** The next block of a written table, decoded and split. */
  lemma NextBlock(env: Env, file: Bytes, w: Image, k: nat, h: Handle)
    requires EnvOk(env) && Written(env, file, w) && k < |w.blocks| && h == HandleOf(env, w.blocks, k)
    ensures h.offset + h.length <= |file|
            && EntriesIn(env, file[h.offset..h.offset + h.length]) == Some(Encoded(w.blocks[k], |w.blocks[k]|, RESTART_INTERVAL))
  {
    hide EnvOk, Written, WrittenBlock, Split, DecodeBlock, HandleOf, Encoded, Words, EntriesOf, EntryFor;
    WrittenData(env, file, w, k);
    WrittenSplits(ReadBlock(env, file, h).value, w.blocks[k]);
  }

  lemma StepDone(entries: Bytes, pos: nat, key: Bytes)
    requires pos <= |entries|
    ensures StepFrom(entries, pos, key) == Done <==> pos == |entries|
  {
    hide TakeLengths;
  }

  lemma AdmitsLong(last: Option<Bytes>, ik: Bytes)
    requires Admits(last, ik)
    ensures |ik| >= Ikey.TRAILER
  {
  }

  lemma AdmitsNext(last: Option<Bytes>, ik: Bytes)
    requires KeyOk(ik) && (last.Some? ==> Ikey.Less(last.value, ik))
    ensures Admits(last, ik)
  {
  }

  lemma Within(file: Bytes, a: nat, b: nat, c: nat, d: nat)
    requires a <= c <= d <= b <= |file|
    ensures file[a..b][c - a..d - a] == file[c..d]
  {
    forall i | 0 <= i < d - c ensures file[a..b][c - a..d - a][i] == file[c..d][i] {
      assert file[a..b][c - a + i] == file[c + i];
    }
  }

  class TableIterator {
    const reader: Reader
    const inner: DataBlockIter
    var meta: Option<Meta>
    var blk: int
    var loaded: bool
    var err: bool
    var lastKey: Option<Bytes>
    var win: Bytes
    var winOff: nat
    ghost var i: nat
    ghost var at: nat

    /** The window is a stretch of the file. */
    ghost predicate WindowOk()
      reads this`win, this`winOff
    {
      winOff + |win| <= |reader.file| && win == reader.file[winOff..winOff + |win|]
    }

    ghost predicate Good()
    {
      Written(reader.env, reader.file, reader.image)
    }

    /** On a written table the iterator always stands between two entries of it. */
    ghost predicate Placed()
      reads this, inner
    {
      && (meta.Some? ==> meta.value == MetaOf(reader.env, reader.image))
      && Standing(reader.image.blocks, blk, loaded, Cursor(inner.entries, inner.pos, inner.key), lastKey, i, at)
    }

    /** The loaded block has been read to its end. */
    ghost predicate Exhausted()
      reads this`blk, this`i, inner
    {
      && inner.pos == |inner.entries|
      && (0 <= blk < |reader.image.blocks| ==> i == |reader.image.blocks[blk]|)
    }

    ghost predicate Valid()
      reads this, inner, reader
    {
      && reader.Valid() && inner.Valid() && !inner.err && WindowOk() && blk >= -1
      && (lastKey.Some? ==> |lastKey.value| >= Ikey.TRAILER)
      && (Good() ==> Placed())
    }

    constructor (reader: Reader)
      requires reader.Valid()
      ensures Valid() && fresh(inner) && this.reader == reader && at == 0 && !err
    {
      this.reader := reader;
      inner := new DataBlockIter([], [], 0);
      meta, blk, loaded, err, lastKey, win, winOff, i, at := None, -1, false, false, None, [], 0, 0, 0;
    }

    /** blockRaw: a block's bytes, from the window when they are in it. */
    method BlockRaw(h: Handle) returns (raw: Option<Bytes>)
      requires WindowOk()
      modifies this`win, this`winOff
      ensures WindowOk()
      ensures raw == if h.offset + h.length <= |reader.file| then Some(reader.file[h.offset..h.offset + h.length]) else None
    {
      var file := reader.file;
      if h.offset + h.length > |file| {
        return None;
      }
      if h.length > READ_AHEAD {
        return Some(file[h.offset..h.offset + h.length]);
      }
      if win == [] || h.offset < winOff || h.offset + h.length > winOff + |win| {
        var end := if h.offset + READ_AHEAD > |file| then |file| else h.offset + READ_AHEAD;
        win, winOff := file[h.offset..end], h.offset;
      }
      var start := h.offset - winOff;
      Within(file, winOff, winOff + |win|, h.offset, h.offset + h.length);
      return Some(win[start..start + h.length]);
    }

    /** One step within the loaded block; the key must be admitted and in order. */
    method StepInner() returns (ok: bool)
      requires Valid() && !err && loaded
      modifies this`lastKey, this`err, this`i, this`at, inner
      ensures ok ==> Valid() && !err
      ensures !ok && !err ==> Valid() && lastKey == old(lastKey) && at == old(at)
      ensures err ==> !ok && !Good() && WindowOk()
      ensures Good() && ok ==> && at == old(at) + 1 && at <= |Flat(reader.image.blocks)|
                               && Item(inner.key, inner.value) == Flat(reader.image.blocks)[old(at)]
      ensures Good() && !ok ==> Exhausted()
      // On any file: the keys taken are admitted and ascend, and a block is left only at its end.
      ensures ok ==> lastKey == Some(inner.key) && Admits(old(lastKey), inner.key)
      ensures !ok && !err ==> inner.pos == |inner.entries|
    {
      hide Written, Standing, StepFrom, Flat, KeyOk, Admits, MetaOf, Reader.Valid, Ikey.Less, EnvOk;
      StepDone(inner.entries, inner.pos, inner.key);
      if Good() {
        EnvHolds();
        WrittenBlocks(reader.env, reader.file, reader.image);
        StandingReads(reader.image.blocks, blk, loaded, Cursor(inner.entries, inner.pos, inner.key), lastKey, i, at);
      }
      var more := inner.Next();
      if !more {
        if inner.err {
          err := true;
        }
        return false;
      }
      if Good() {
        AdmitsNext(lastKey, inner.key);
      }
      if !Admits(lastKey, inner.key) {
        err := true;
        return false;
      }
      AdmitsLong(lastKey, inner.key);
      lastKey := Some(inner.key);
      i, at := i + 1, at + 1;
      return true;
    }

    lemma Behind()
      requires Valid()
      ensures Good() ==> at <= |Flat(reader.image.blocks)|
    {
      hide Written, Flat, MetaOf, Reader.Valid, InBlock;
    }

    lemma EnvHolds()
      requires reader.Valid()
      ensures EnvOk(reader.env)
    {
    }

    /** The entries of a block, if it reads. */
    ghost function BlockAt(h: Handle): Option<Bytes> {
      if h.offset + h.length > |reader.file| then None else EntriesIn(reader.env, reader.file[h.offset..h.offset + h.length])
    }

    /** On to the next block: read, decoded, split. */
    method LoadNext() returns (more: bool)
      requires Valid() && !err && meta.Some?
      requires Good() && loaded ==> Exhausted()
      modifies this`blk, this`loaded, this`err, this`win, this`winOff, this`i, inner
      ensures WindowOk() && (err ==> !more && !Good())
      ensures blk == old(blk) + 1 && (more ==> Valid() && loaded && blk < |meta.value.index|)
      ensures !more && !err ==> Valid() && (Good() ==> at == |Flat(reader.image.blocks)|)
      // On any file: the block taken is the next, read and decoded, and there is none only past the last.
      ensures more ==> BlockAt(meta.value.index[blk].handle) == Some(inner.entries)
      ensures !more && !err ==> blk >= |meta.value.index|
    {
      hide Written, Standing, Flat, MetaOf, Reader.Valid, EnvOk, EntriesIn, Encoded, HandleOf;
      ghost var blocks := reader.image.blocks;
      if Good() {
        EnvHolds();
        StandingMoves(blocks, blk, loaded, Cursor(inner.entries, inner.pos, inner.key), lastKey, i, at);
        IndexLength(reader.env, reader.image);
      }
      blk := blk + 1;
      if blk >= |meta.value.index| {
        return false;
      }
      var h := meta.value.index[blk].handle;
      if Good() {
        IndexHandle(reader.env, reader.image, blk);
        NextBlock(reader.env, reader.file, reader.image, blk, h);
      }
      var raw := BlockRaw(h);
      if raw.None? {
        err := true;
        return false;
      }
      var entries := EntriesIn(reader.env, raw.value);
      if entries.None? {
        err := true;
        return false;
      }
      inner.ResetEntries(entries.value);
      loaded, i := true, 0;
      return true;
    }

    /** Next: on a written table, its entries in order, each once, and then the end. */
    method Next() returns (ok: bool)
      requires !err ==> Valid()
      modifies this, inner, reader`meta
      ensures !err ==> Valid()
      ensures old(err) ==> err && !ok
      ensures Good() && !old(err) ==> && !err
                                      && (ok <==> old(at) < |Flat(reader.image.blocks)|)
                                      && at == (if ok then old(at) + 1 else old(at))
      ensures Good() && !old(err) && ok ==> Item(inner.key, inner.value) == Flat(reader.image.blocks)[old(at)]
      // On any file: keys ascend, and the end is past the last block.
      ensures ok ==> !err && lastKey == Some(inner.key) && Admits(old(lastKey), inner.key)
      ensures !ok && !err ==> meta.Some? && blk >= |meta.value.index|
    {
      hide Written, Standing, Flat, MetaOf, Reader.Valid, Admits;
      if err {
        return false;
      }
      if meta.None? {
        var m := reader.EnsureMeta();
        if m.None? {
          err := true;
          return false;
        }
        meta := m;
      }
      Behind();
      while true
        invariant Valid() && !err && meta.Some? && at == old(at) && lastKey == old(lastKey) && (Good() ==> at <= |Flat(reader.image.blocks)|)
        decreases |meta.value.index| - blk
      {
        if loaded {
          ok := StepInner();
          if ok || err {
            return;
          }
        }
        var more := LoadNext();
        if !more {
          return false;
        }
      }
    }
  }

  lemma IndexLength(env: Env, w: Image)
    ensures |MetaOf(env, w).index| == |w.blocks|
  {
  }

  lemma IndexHandle(env: Env, w: Image, k: nat)
    requires k < |w.blocks|
    ensures k < |MetaOf(env, w).index| && MetaOf(env, w).index[k].handle == HandleOf(env, w.blocks, k)
  {
  }
}
