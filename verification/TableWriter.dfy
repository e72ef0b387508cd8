/** Writing a table: entries into blocks, blocks into a file. */
module TableWriter {
  import opened Bytes
  import opened Versions
  import opened DataBlock
  import opened TableFormat
  import Bloom
  import BlockIter
  import Ikey
  import RangeDelBlock

  function Flat(blocks: seq<seq<Item>>): seq<Item> {
    if blocks == [] then [] else Flat(blocks[..|blocks|-1]) + blocks[|blocks|-1]
  }

  /** A key the table format admits: long enough for its trailer, and of a known kind. */
  predicate KeyOk(ik: Bytes) {
    |ik| >= Ikey.TRAILER && Ikey.KindOf(ik) <= 3
  }

  ghost predicate KeysOk(items: seq<Item>) {
    forall i :: 0 <= i < |items| ==> KeyOk(items[i].key)
  }

  function Hashes(env: Env, items: seq<Item>): (r: seq<nat>)
    requires KeysOk(items)
    ensures |r| == |items| && forall i :: 0 <= i < |items| ==> r[i] == env.hash(Ikey.UserKey(items[i].key))
  {
    if items == [] then [] else Hashes(env, items[..|items|-1]) + [env.hash(Ikey.UserKey(items[|items|-1].key))]
  }

  /** How many of the entries are tombstones. */
  function Tombstones(items: seq<Item>): nat
    requires KeysOk(items)
  {
    if items == [] then 0
    else Tombstones(items[..|items|-1]) + if Ikey.KindOf(items[|items|-1].key) == 0 then 1 else 0
  }

  /** What the format demands of the entries: admitted keys, strictly ascending. */
  ghost predicate Sorted(items: seq<Item>) {
    KeysOk(items) && BlockIter.Ascending(items)
  }

  /** The next key may follow. */
  predicate Follows(items: seq<Item>, ik: Bytes) {
    KeyOk(ik) && (items == [] || Ikey.Less(items[|items|-1].key, ik))
  }

  lemma SortedNext(items: seq<Item>, x: Item)
    requires Sorted(items) && Follows(items, x.key)
    ensures Sorted(items + [x])
  {
    hide Ikey.Less, Ikey.KindOf;
    var more := items + [x];
    forall i, j | 0 <= i < j < |more| ensures Ikey.Less(more[i].key, more[j].key) {
      if j == |items| && i < |items| - 1 {
        Ikey.Laws(items[i].key, items[|items|-1].key, x.key);
      }
    }
  }

  // ---------------------------------------------------------------------------
  // What has been written so far
  // ---------------------------------------------------------------------------

  datatype Out = Out(file: Bytes, offset: nat, index: Bytes, pending: Option<Handle>)

  /** Finished blocks are in the file; all but a pending one are indexed. */
  ghost predicate Filed(env: Env, blocks: seq<seq<Item>>, cur: seq<Item>, o: Out) {
    && (forall i :: 0 <= i < |blocks| ==> blocks[i] != [])
    && o.file == DataBytes(env, blocks, |blocks|) && o.offset == |o.file|
    && (o.pending.None? ==> o.index == IndexBytes(env, blocks, |blocks|))
    && (o.pending.Some? ==> |blocks| > 0 && cur == [] && o.pending.value == HandleOf(env, blocks, |blocks| - 1)
                            && o.index == IndexBytes(env, blocks, |blocks| - 1))
  }

  lemma {:induction false} DataSame(env: Env, blocks: seq<seq<Item>>, b: seq<Item>, n: nat)
    requires n <= |blocks|
    ensures DataBytes(env, blocks + [b], n) == DataBytes(env, blocks, n)
    decreases n
  {
    hide BlockBytes;
    if n > 0 {
      DataSame(env, blocks, b, n - 1);
    }
  }

  lemma {:induction false} IndexSame(env: Env, blocks: seq<seq<Item>>, b: seq<Item>, n: nat)
    requires n <= |blocks|
    ensures IndexBytes(env, blocks + [b], n) == IndexBytes(env, blocks, n)
    decreases n
  {
    hide BlockBytes, PutIndexEntry, Separator;
    if n > 0 {
      IndexSame(env, blocks, b, n - 1);
      DataSame(env, blocks, b, n - 1);
    }
  }

  /** Emitting the pending index entry, under the last key added. */
  lemma Indexed(env: Env, blocks: seq<seq<Item>>, cur: seq<Item>, o: Out, last: Option<Bytes>)
    requires Filed(env, blocks, cur, o) && o.pending.Some?
    requires var all := Flat(blocks) + cur; last == if all == [] then None else Some(all[|all|-1].key)
    ensures last.Some?
    ensures var index := o.index + PutIndexEntry(last.value, o.pending.value);
            index == IndexBytes(env, blocks, |blocks|) && Filed(env, blocks, cur, Out(o.file, o.offset, index, None))
  {
    hide DataBytes, PutIndexEntry;
    LastCloses(blocks);
  }

  /** Flushing the current block. */
  lemma Flushed(env: Env, blocks: seq<seq<Item>>, cur: seq<Item>, o: Out)
    requires Filed(env, blocks, cur, o) && cur != []
    ensures o.pending.None?
    ensures var block := BlockBytes(env, cur);
            Filed(env, blocks + [cur], [], Out(o.file + block, o.offset + |block|, o.index, Some(Handle(o.offset, |block|))))
  {
    hide BlockBytes, PutIndexEntry;
    DataSame(env, blocks, cur, |blocks|);
    IndexSame(env, blocks, cur, |blocks|);
  }

  /** An entry joins the current block. */
  lemma FiledGrows(env: Env, blocks: seq<seq<Item>>, cur: seq<Item>, x: Item, o: Out)
    requires Filed(env, blocks, cur, o) && o.pending.None?
    ensures Filed(env, blocks, cur + [x], o)
  {
  }

  lemma FlatNext(blocks: seq<seq<Item>>, b: seq<Item>)
    ensures Flat(blocks + [b]) == Flat(blocks) + b
  {
    assert (blocks + [b])[..|blocks|] == blocks;
  }

  /** The last key added closes the last finished block while none is under way. */
  lemma LastCloses(blocks: seq<seq<Item>>)
    requires |blocks| > 0 && blocks[|blocks|-1] != []
    ensures Flat(blocks) != [] && Flat(blocks)[|Flat(blocks)|-1].key == Separator(blocks[|blocks|-1])
  {
  }

  /** Add's checks on the key: its length, its kind, its order. */
  predicate Admits(last: Option<Bytes>, ik: Bytes) {
    KeyOk(ik) && (last.Some? ==> |last.value| >= Ikey.TRAILER && Ikey.Order(last.value, ik) < 0)
  }

  lemma AdmitsIs(items: seq<Item>, last: Option<Bytes>, ik: Bytes)
    requires last == if items == [] then None else Some(items[|items|-1].key)
    ensures Admits(last, ik) <==> Follows(items, ik)
  {
  }

  /** The counters and keys kept beside the blocks. */
  ghost predicate Counted(env: Env, items: seq<Item>, hashes: seq<nat>, first: Option<Bytes>, last: Option<Bytes>, tombstones: nat) {
    && Sorted(items)
    && hashes == Hashes(env, items) && tombstones == Tombstones(items)
    && first == (if items == [] then None else Some(items[0].key))
    && last == (if items == [] then None else Some(items[|items|-1].key))
  }

  lemma CountedNext(env: Env, items: seq<Item>, hashes: seq<nat>, first: Option<Bytes>, last: Option<Bytes>, tombstones: nat, x: Item)
    requires Counted(env, items, hashes, first, last, tombstones) && Follows(items, x.key)
    ensures Counted(env, items + [x], hashes + [env.hash(Ikey.UserKey(x.key))], Some(first.GetOr(x.key)), Some(x.key),
                    tombstones + if Ikey.KindOf(x.key) == 0 then 1 else 0)
  {
    hide Sorted, Ikey.UserKey, Ikey.KindOf;
    SortedNext(items, x);
    KeysOkOf(items);
    KeysOkOf(items + [x]);
    assert (items + [x])[..|items|] == items;
  }

  lemma KeysOkOf(items: seq<Item>)
    requires Sorted(items)
    ensures KeysOk(items)
  {
  }

  /** What a reader may rely on in a finished table. */
  ghost predicate Finished(env: Env, file: Bytes, blocks: seq<seq<Item>>, items: seq<Item>, dels: seq<RangeDel>, filter: Bytes) {
    && file == TableBytes(env, blocks, dels, filter)
    && Flat(blocks) == items && Sorted(items) && (forall i :: 0 <= i < |blocks| ==> blocks[i] != [])
    && Bloom.WellFormed(filter)
    && (forall i :: 0 <= i < |items| ==> env.hash(Ikey.UserKey(items[i].key)) < Bloom.WORD
                                          && Bloom.MayContain(filter, env.hash(Ikey.UserKey(items[i].key))))
  }

  class Writer {
    const env: Env
    const bitsPerKey: nat
    const blockSize: nat
    const data: DataBlockBuilder
    var out: Out
    var hashes: seq<nat>
    var firstKey: Option<Bytes>
    var lastKey: Option<Bytes>
    var tombstones: nat
    var dels: seq<RangeDel>
    var err: bool
    ghost var blocks: seq<seq<Item>>
    ghost var added: seq<Item>

    /** Until an error, which is final, the writer holds exactly what was added. */
    ghost predicate Valid()
      reads this, data
    {
      && EnvOk(env) && data.every == RESTART_INTERVAL
      && (!err ==>
            && data.Valid()
            && Filed(env, blocks, data.items, out)
            && added == Flat(blocks) + data.items
            && Counted(env, added, hashes, firstKey, lastKey, tombstones))
    }

    constructor (env: Env, bitsPerKey: nat, blockSize: nat)
      requires EnvOk(env)
      ensures Valid() && added == [] && !err && dels == [] && fresh(data)
      ensures this.env == env && this.bitsPerKey == bitsPerKey && this.blockSize == blockSize
    {
      this.env, this.bitsPerKey, this.blockSize := env, bitsPerKey, blockSize;
      data := new DataBlockBuilder(RESTART_INTERVAL);
      out := Out([], 0, [], None);
      hashes, firstKey, lastKey, tombstones, dels, err, blocks, added := [], None, None, 0, [], false, [], [];
    }

    /** Add: refused, for good, when the key is malformed or out of order or the block cannot be written. */
    method Add(ik: Bytes, value: Bytes, writes: bool) returns (ok: bool)
      requires Valid()
      modifies this, data
      ensures Valid() && ok == !err && dels == old(dels)
      ensures old(err) ==> err
      ensures !old(err) && !Follows(old(added), ik) ==> err
      ensures !old(err) && Follows(old(added), ik) && writes ==> !err
      ensures !err ==> added == old(added) + [Item(ik, value)]
    {
      hide Valid, EnvOk, Flat, Follows, Admits, IndexBytes, DataBlockBuilder.Size;
      if err {
        return false;
      }
      LastKeyIs();
      AdmitsIs(added, lastKey, ik);
      if !Admits(lastKey, ik) {
        Fail();
        return false;
      }
      IndexPending();
      Accept(ik, value);
      if data.Size() >= blockSize {
        FlushDataBlock(writes);
      }
      ok := !err;
    }

    /** The entry joins the current block and the running counts. */
    method Accept(ik: Bytes, value: Bytes)
      requires Valid() && !err && out.pending.None? && Follows(added, ik)
      modifies this`hashes, this`firstKey, this`lastKey, this`tombstones, this`added, data
      ensures Valid() && added == old(added) + [Item(ik, value)]
    {
      hide EnvOk, Filed, Counted, Built, Flat, Ikey.Order, Ikey.KindOf, Ikey.UserKey;
      ghost var x := Item(ik, value);
      CountedNext(env, added, hashes, firstKey, lastKey, tombstones, x);
      FiledGrows(env, blocks, data.items, x, out);
      data.Add(ik, value);
      hashes := hashes + [env.hash(Ikey.UserKey(ik))];
      firstKey, lastKey := Some(firstKey.GetOr(ik)), Some(ik);
      tombstones := tombstones + if Ikey.KindOf(ik) == 0 then 1 else 0;
      assert added + [x] == Flat(blocks) + data.items;
      added := added + [x];
    }

    method Fail()
      requires Valid()
      modifies this`err
      ensures Valid() && err
    {
      err := true;
    }

    /** The held last key is the last one added. */
    lemma LastKeyIs()
      requires Valid() && !err
      ensures lastKey == (if added == [] then None else Some(added[|added|-1].key))
    {
      hide Filed, Built;
    }

    method IndexPending()
      requires Valid() && !err
      modifies this`out
      ensures Valid() && out.pending.None?
      ensures out.index == IndexBytes(env, blocks, |blocks|)
    {
      hide EnvOk, Filed, Counted, Built, Flat, Sorted, DataBytes, IndexBytes, PutIndexEntry, Separator;
      FiledFile(env, blocks, data.items, out);
      if out.pending.Some? {
        LastKeyIs();
        Indexed(env, blocks, data.items, out, lastKey);
        out := Out(out.file, out.offset, out.index + PutIndexEntry(lastKey.value, out.pending.value), None);
      }
    }

    method FlushDataBlock(writes: bool)
      requires Valid() && !err
      modifies this`out, this`err, this`blocks, data
      ensures Valid() && (writes ==> !err)
      ensures !err ==> data.items == []
    {
      hide EnvOk, Filed, Counted, Built, Flat, DataBytes, IndexBytes, FinishBlock, BlockPayload;
      if data.entries == 0 {
        return;
      }
      if !writes {
        Fail();
        return;
      }
      var payload := data.Finish();
      var block := FinishBlock(env, payload);
      Flushed(env, blocks, data.items, out);
      FlatNext(blocks, data.items);
      assert Flat(blocks) + data.items + [] == Flat(blocks) + data.items;
      blocks := blocks + [data.items];
      out := Out(out.file + block, out.offset + |block|, out.index, Some(Handle(out.offset, |block|)));
      data.Reset();
    }

    /** The metadata blocks and the footer, after the data. */
    method Assemble(file: Bytes, bits: Bytes, ghost blocks: seq<seq<Item>>) returns (image: Bytes)
      requires file == DataBytes(env, blocks, |blocks|) && out.offset == |file| && out.index == IndexBytes(env, blocks, |blocks|)
      ensures image == TableBytes(env, blocks, dels, bits)
    {
      hide DataBytes, IndexBytes, RawBlock, FinishBlock, PutFooter;
      image := file;
      var offset := out.offset;
      var rangeDel := Handle(0, 0);
      if dels != [] {
        var payload := RangeDelBlock.Encode(dels);
        var block := RawBlock(env, payload);
        rangeDel := Handle(offset, |block|);
        image, offset := image + block, offset + |block|;
      }
      var filterBlock := RawBlock(env, bits);
      var filterHandle := Handle(offset, |filterBlock|);
      image, offset := image + filterBlock, offset + |filterBlock|;
      var indexBlock := FinishBlock(env, out.index);
      var indexHandle := Handle(offset, |indexBlock|);
      image := image + indexBlock + PutFooter(indexHandle, filterHandle, rangeDel);
      assert dels == [] ==> file + [] == file;
    }

    /** finish: the last block, its index entry, the metadata blocks and the footer. */
    method Finish(writes: bool) returns (file: Result<Bytes>, ghost filter: Bytes)
      requires Valid()
      modifies this, data
      ensures Valid()
      ensures file.Ok? <==> !old(err) && writes
      ensures file.Ok? ==> Finished(env, file.value, blocks, old(added), dels, filter) && dels == old(dels)
    {
      hide EnvOk, Filed, Counted, Built, DataBytes, IndexBytes, TableBytes, Bloom.WellFormed, Bloom.MayContain;
      filter := [];
      if err {
        return Err, filter;
      }
      FlushDataBlock(writes);
      if err {
        return Err, filter;
      }
      IndexPending();
      FiledFile(env, blocks, data.items, out);
      HashesFit(env, added, hashes, firstKey, lastKey, tombstones);
      var bits := Bloom.Build(hashes, bitsPerKey);
      filter := bits;
      var image := Assemble(out.file, bits, blocks);
      FinishedIs(env, image, blocks, added, dels, bits, hashes, firstKey, lastKey, tombstones);
      if !writes {
        Fail();
        return Err, filter;
      }
      return Ok(image), filter;
    }
  }

  lemma FiledFile(env: Env, blocks: seq<seq<Item>>, cur: seq<Item>, o: Out)
    requires Filed(env, blocks, cur, o)
    ensures o.file == DataBytes(env, blocks, |blocks|) && o.offset == |o.file|
    ensures o.pending.None? ==> o.index == IndexBytes(env, blocks, |blocks|)
    ensures forall i :: 0 <= i < |blocks| ==> blocks[i] != []
  {
  }

  lemma HashesFit(env: Env, items: seq<Item>, hashes: seq<nat>, first: Option<Bytes>, last: Option<Bytes>, tombstones: nat)
    requires EnvOk(env) && Counted(env, items, hashes, first, last, tombstones)
    ensures forall i :: 0 <= i < |hashes| ==> hashes[i] < Bloom.WORD
  {
  }

  lemma FinishedIs(env: Env, file: Bytes, blocks: seq<seq<Item>>, items: seq<Item>, dels: seq<RangeDel>, filter: Bytes,
                   hashes: seq<nat>, first: Option<Bytes>, last: Option<Bytes>, tombstones: nat)
    requires EnvOk(env) && Counted(env, items, hashes, first, last, tombstones)
    requires file == TableBytes(env, blocks, dels, filter) && Flat(blocks) == items
    requires forall i :: 0 <= i < |blocks| ==> blocks[i] != []
    requires Bloom.WellFormed(filter)
    requires forall i :: 0 <= i < |hashes| ==> hashes[i] < Bloom.WORD && Bloom.MayContain(filter, hashes[i])
    ensures Finished(env, file, blocks, items, dels, filter)
  {
    hide TableBytes, Bloom.MayContain, Bloom.WellFormed, BlockIter.Ascending;
    forall i | 0 <= i < |items|
      ensures env.hash(Ikey.UserKey(items[i].key)) < Bloom.WORD && Bloom.MayContain(filter, env.hash(Ikey.UserKey(items[i].key)))
    {
      assert hashes[i] == env.hash(Ikey.UserKey(items[i].key));
    }
  }
}
