/** Reading a table: metadata, point lookups, and iteration over every entry. */
module TableReader {
  import opened Bytes
  import opened Varint
  import opened Versions
  import opened DataBlock
  import opened BlockIter
  import opened TableFormat
  import opened TableWriter
  import opened TableLookup
  import opened TableIndex
  import Bloom
  import Ikey
  import RangeDelBlock
  import M = Memtables
  import T = Tables

  // ---------------------------------------------------------------------------
  // Scanning one block
  // ---------------------------------------------------------------------------

  /** The payload of a block of sorted entries whose sizes fit. */
  ghost predicate WrittenBlock(payload: Bytes, items: seq<Item>) {
    && payload == BlockPayload(items, RESTART_INTERVAL) && |payload| <= MAX_UINT32
    && Sorted(items) && ItemsOk(items)
  }

  /** Split, a written block's parts are the iterator's block. */
  lemma WrittenSplits(payload: Bytes, items: seq<Item>)
    requires WrittenBlock(payload, items)
    ensures var p := Split(payload); p.Some? && BlockOf(p.value.0, p.value.1, p.value.2, items, RESTART_INTERVAL)
  {
    hide Split, Encoded, Words, RestartsBelow, Sorted, ItemsOk;
    SplitPayload(items, RESTART_INTERVAL);
  }

  /** The scan stands before entry `i`, having come from `j` without a match. */
  ghost predicate Scanning(items: seq<Item>, user: Bytes, s: nat, j: nat, i: nat, pos: nat, key: Bytes, previous: Option<Bytes>) {
    && j <= i <= |items| && Restart(j, RESTART_INTERVAL)
    && (forall k :: 0 <= k < j ==> Ikey.Less(items[k].key, LookupKey(user, s)))
    && (forall k :: j <= k < i ==> !Matches(items[k], user, s))
    && pos == Off(items, i, RESTART_INTERVAL)
    && (i == j ==> key == [] && previous == None)
    && (i > j ==> key == items[i-1].key && previous == Some(key))
  }

  /** The next entry a scan reads is the next entry of the block. */
  lemma ScanReads(entries: Bytes, restarts: Bytes, n: nat, items: seq<Item>, user: Bytes, s: nat, j: nat, i: nat, pos: nat, key: Bytes, previous: Option<Bytes>)
    requires BlockOf(entries, restarts, n, items, RESTART_INTERVAL) && Sorted(items)
    requires Scanning(items, user, s, j, i, pos, key, previous)
    ensures i <= |items| && pos <= |entries|
    ensures i == |items| ==> StepFrom(entries, pos, key) == Done
    ensures i < |items| ==> StepFrom(entries, pos, key) == At(items[i].key, items[i].value, Off(items, i + 1, RESTART_INTERVAL))
    ensures i < |items| ==> KeyOk(items[i].key) && (previous.Some? ==> Ikey.Less(previous.value, items[i].key))
  {
    hide Encoded, Words, StepFrom, RestartsBelow, Ikey.Less, Ikey.KindOf, Matches, LookupKey;
    if i < |items| {
      StepAt(items, RESTART_INTERVAL, i, key);
    } else {
      AtEnd(entries, key);
    }
  }

  lemma AtEnd(entries: Bytes, key: Bytes)
    ensures StepFrom(entries, |entries|, key) == Done
  {
  }

  /** The scan passes an entry that does not match. */
  lemma ScanPasses(items: seq<Item>, user: Bytes, s: nat, j: nat, i: nat, pos: nat, key: Bytes, previous: Option<Bytes>)
    requires Scanning(items, user, s, j, i, pos, key, previous) && i < |items| && !Matches(items[i], user, s)
    ensures Scanning(items, user, s, j, i + 1, Off(items, i + 1, RESTART_INTERVAL), items[i].key, Some(items[i].key))
  {
    hide Encoded, Ikey.Less, Matches, LookupKey;
  }

  /** Nothing before where the scan stands matches. */
  lemma NoneBefore(items: seq<Item>, user: Bytes, s: nat, j: nat, i: nat, pos: nat, key: Bytes, previous: Option<Bytes>)
    requires Sorted(items) && s <= Ikey.MAX_SEQ && Scanning(items, user, s, j, i, pos, key, previous)
    ensures forall k :: 0 <= k < i ==> !Matches(items[k], user, s)
  {
    hide Encoded, Ikey.Less, Matches, LookupKey, Ikey.KindOf;
    forall k | 0 <= k < j ensures !Matches(items[k], user, s) {
      PastLookup(items[k].key, items[k].value, user, s);
      assert Item(items[k].key, items[k].value) == items[k];
    }
  }

  lemma {:induction false} FirstIs(items: seq<Item>, user: Bytes, s: nat, i: nat)
    requires i < |items| && Matches(items[i], user, s) && forall k :: 0 <= k < i ==> !Matches(items[k], user, s)
    ensures FirstMatch(items, user, s) == Some(items[i])
    decreases i
  {
    hide Matches;
    if i > 0 {
      FirstIs(items[1..], user, s, i - 1);
    }
  }

  /** Where a scan may stop, and with what answer. */
  lemma ScanEnds(items: seq<Item>, user: Bytes, s: nat, now: int, j: nat, i: nat, pos: nat, key: Bytes, previous: Option<Bytes>)
    requires Sorted(items) && s <= Ikey.MAX_SEQ && Scanning(items, user, s, j, i, pos, key, previous)
    ensures i == |items| ==> AnswerIn(items, user, s, now) == Missing
    ensures i < |items| ==> |items[i].key| >= Ikey.TRAILER
    ensures i < |items| && Lt(user, Ikey.UserKey(items[i].key)) ==> AnswerIn(items, user, s, now) == Missing
    ensures i < |items| && Matches(items[i], user, s) ==> AnswerIn(items, user, s, now) == Resolve(items[i], now)
  {
    hide Encoded, Ikey.Less, LookupKey, Ikey.KindOf, Ikey.UserKey, Ikey.SqnOf, FirstMatch, Scanning, Resolve;
    NoneBefore(items, user, s, j, i, pos, key, previous);
    ScanBounds(items, user, s, j, i, pos, key, previous);
    if i == |items| {
      NoMatch(items, user, s);
    } else if Matches(items[i], user, s) {
      FirstIs(items, user, s, i);
    } else if Lt(user, Ikey.UserKey(items[i].key)) {
      AllAbove(items, i + 1, user, s);
      NoMatch(items[i + 1..], user, s);
      assert forall k :: i < k < |items| ==> items[k] == items[i + 1..][k - i - 1];
      NoMatch(items, user, s);
    }
    OrderLaws();
  }

  lemma ScanBounds(items: seq<Item>, user: Bytes, s: nat, j: nat, i: nat, pos: nat, key: Bytes, previous: Option<Bytes>)
    requires Scanning(items, user, s, j, i, pos, key, previous)
    ensures i <= |items|
  {
  }

  lemma ScanStarts(items: seq<Item>, user: Bytes, s: nat, j: nat, pos: nat)
    requires Lands(items, RESTART_INTERVAL, LookupKey(user, s), j, pos)
    ensures Scanning(items, user, s, j, j, pos, [], None)
  {
    hide Encoded, LookupKey, Ikey.Less;
  }

  /** lookupPastBloom within its block: seek, then read on to the first match or past the key. */
  method ScanBlock(payload: Bytes, user: Bytes, s: nat, now: int, ghost items: seq<Item>) returns (r: Answer)
    requires s <= Ikey.MAX_SEQ
    ensures WrittenBlock(payload, items) ==> r == AnswerIn(items, user, s, now)
    // Of any other block too it reports damage it meets, and never takes it for the end.
    ensures Split(payload).None? ==> r == Broken
    ensures Split(payload).Some? ==> exists pos: nat :: pos <= |Split(payload).value.0| && r == ScanFrom(Split(payload).value.0, pos, [], None, user, s, now)
  {
    hide ScanFrom, WrittenBlock, BlockOf, Scanning, Lands, Sorted, StepFrom, Split, LookupKey, AnswerIn, Resolve, Matches, KeyOk, Ikey.UserKey, Ikey.SqnOf, Ikey.Order, Off;
    ghost var good := WrittenBlock(payload, items);
    var parts := Split(payload);
    if good {
      WrittenSplits(payload, items);
      WrittenSorted(payload, items);
    }
    if parts.None? {
      return Broken;
    }
    var (entries, restarts, n) := parts.value;
    var it := new DataBlockIter(entries, restarts, n);
    ghost var j := it.Seek(LookupKey(user, s), items, RESTART_INTERVAL);
    ghost var i := j;
    ghost var start := it.pos;
    var previous: Option<Bytes> := None;
    if good {
      ScanStarts(items, user, s, j, it.pos);
    }
    while true
      invariant it.Valid() && !it.err && it.entries == entries
      invariant previous.Some? ==> |previous.value| >= Ikey.TRAILER
      invariant good ==> Scanning(items, user, s, j, i, it.pos, it.key, previous)
      invariant it.pos <= |entries| && ScanFrom(entries, start, [], None, user, s, now) == ScanFrom(entries, it.pos, it.key, previous, user, s, now)
      decreases |entries| - it.pos
    {
      ScanUnfolds(entries, it.pos, it.key, previous, user, s, now);
      if good {
        ScanReads(entries, restarts, n, items, user, s, j, i, it.pos, it.key, previous);
        ScanEnds(items, user, s, now, j, i, it.pos, it.key, previous);
      }
      ghost var pos0, key0 := it.pos, it.key;
      var more := it.Next();
      if !more {
        return if it.err then Broken else Missing;
      }
      var verdict := Judge(it.key, previous, user, s);
      if good {
        JudgeOk(items[i], previous, user, s);
      }
      match verdict {
        case Reject =>
          return Broken;
        case Beyond =>
          return Missing;
        case Take =>
          return Resolve(Item(it.key, it.value), now);
        case Skip =>
          if good {
            ScanPasses(items, user, s, j, i, pos0, key0, previous);
          }
          previous := Some(it.key);
          i := i + 1;
      }
    }
  }

  /** A key too short, not above the one before it, or of the user's key with a kind no writer leaves, is damage; nothing else is. */
  lemma JudgeRejects(key: Bytes, previous: Option<Bytes>, user: Bytes, s: nat)
    requires previous.Some? ==> |previous.value| >= Ikey.TRAILER
    ensures Judge(key, previous, user, s) == Reject <==>
              || |key| < 8
              || (previous.Some? && !Ikey.Less(previous.value, key))
              || (key[..|key| - 8] == user && key[|key| - 8] > 3)
  {
    hide Ikey.KindOf, Compare, Ikey.Trailer;
    if |key| >= 8 {
      Ikey.KindIsByte(key);
      CompareSign(Ikey.UserKey(key), user);
    }
  }

  /** Reading on from `pos`: to the first match, past the key, to the end, or to damage. */
  function ScanFrom(entries: Bytes, pos: nat, key: Bytes, previous: Option<Bytes>, user: Bytes, s: nat, now: int): Answer
    requires pos <= |entries| && (previous.Some? ==> |previous.value| >= Ikey.TRAILER)
    decreases |entries| - pos
  {
    match StepFrom(entries, pos, key)
    case Done => Missing
    case Malformed => Broken
    case At(k, v, next) =>
      match Judge(k, previous, user, s)
      case Reject => Broken
      case Beyond => Missing
      case Take => Resolve(Item(k, v), now)
      case Skip => ScanFrom(entries, next, k, Some(k), user, s, now)
  }

  lemma ScanUnfolds(entries: Bytes, pos: nat, key: Bytes, previous: Option<Bytes>, user: Bytes, s: nat, now: int)
    requires pos <= |entries| && (previous.Some? ==> |previous.value| >= Ikey.TRAILER)
    ensures ScanFrom(entries, pos, key, previous, user, s, now) ==
              match StepFrom(entries, pos, key)
              case Done => Missing
              case Malformed => Broken
              case At(k, v, next) =>
                match Judge(k, previous, user, s)
                case Reject => Broken
                case Beyond => Missing
                case Take => Resolve(Item(k, v), now)
                case Skip => ScanFrom(entries, next, k, Some(k), user, s, now)
  {
    hide StepFrom, Judge, Resolve;
  }

  lemma WrittenSorted(payload: Bytes, items: seq<Item>)
    requires WrittenBlock(payload, items)
    ensures Sorted(items) && Ascending(items)
  {
  }

  /** The loop body's decision on one entry. */
  datatype Verdict = Reject | Beyond | Skip | Take

  function Judge(key: Bytes, previous: Option<Bytes>, user: Bytes, s: nat): (v: Verdict)
    requires previous.Some? ==> |previous.value| >= Ikey.TRAILER
    ensures v == Take || v == Skip ==> |key| >= Ikey.TRAILER
  {
    if |key| < Ikey.TRAILER || (previous.Some? && Ikey.Order(previous.value, key) >= 0) then Reject
    else
      var c := Compare(Ikey.UserKey(key), user);
      if c > 0 then Beyond
      else if c < 0 then Skip
      else if Ikey.KindOf(key) > 3 then Reject
      else if Ikey.SqnOf(key) > s then Skip
      else Take
  }

  lemma JudgeOk(x: Item, previous: Option<Bytes>, user: Bytes, s: nat)
    requires KeyOk(x.key) && (previous.Some? ==> |previous.value| >= Ikey.TRAILER && Ikey.Less(previous.value, x.key))
    ensures var v := Judge(x.key, previous, user, s);
            && v != Reject
            && (v == Beyond <==> Lt(user, Ikey.UserKey(x.key)))
            && (v == Take <==> Matches(x, user, s))
  {
    hide Ikey.UserKey, Ikey.SqnOf, Ikey.KindOf, Ikey.Order;
    CompareSign(Ikey.UserKey(x.key), user);
  }

  // ---------------------------------------------------------------------------
  // A whole table
  // ---------------------------------------------------------------------------

  /** What a written table holds. */
  datatype Image = Image(blocks: seq<seq<Item>>, dels: seq<RangeDel>, filter: Bytes)

  /** A table the writer finished, of sizes the format can carry. */
  ghost predicate Written(env: Env, file: Bytes, w: Image) {
    && Finished(env, file, w.blocks, Flat(w.blocks), w.dels, w.filter)
    && Fits(w.blocks, |file|) && RangeDelBlock.AllStorable(w.dels)
  }

  /** The parsed metadata: filter, index and range tombstones. */
  datatype Meta = Meta(filter: Bytes, index: seq<IndexEntry>, dels: seq<RangeDel>)

  function MetaOf(env: Env, w: Image): Meta {
    Meta(w.filter, EntriesOf(env, w.blocks, |w.blocks|), w.dels)
  }

  function ImageLayout(env: Env, w: Image): Layout {
    LayoutOf(env, w.blocks, w.dels, w.filter)
  }

  lemma WrittenIndexed(env: Env, file: Bytes, w: Image)
    requires EnvOk(env) && Written(env, file, w)
    ensures var l := ImageLayout(env, w);
            && Open(file) == Some(l) && |file| >= FOOTER && (l.HasDels() <==> w.dels != [])
            && WrittenIndex(env, w.blocks, IndexBytes(env, w.blocks, |w.blocks|), l.DataEnd(), |file| - FOOTER)
  {
    hide EnvOk, DataBytes, IndexBytes, Sorted, Flat, BlockPayload, FinishBlock, RawBlock, PutFooter, Open, Bloom.MayContain, Bloom.WellFormed;
    WrittenOpens(env, w.blocks, w.dels, w.filter);
    RawLong(env, RangeDelBlock.Block(w.dels));
  }

  /** The metadata blocks of a written table are what the writer put there. */
  lemma WrittenReads(env: Env, file: Bytes, w: Image)
    requires EnvOk(env) && Written(env, file, w)
    ensures var l := ImageLayout(env, w);
            && ReadBlock(env, file, l.filter) == Some(w.filter) && Bloom.WellFormed(w.filter)
            && ReadBlock(env, file, l.index) == Some(IndexBytes(env, w.blocks, |w.blocks|))
            && (w.dels != [] ==> ReadBlock(env, file, l.dels) == Some(RangeDelBlock.Block(w.dels)))
            && RangeDelBlock.Parse(RangeDelBlock.Block(w.dels)) == Some(w.dels)
  {
    hide EnvOk, TableBytes, LayoutOf, ReadBlock, IndexBytes, Sorted, Flat, Fits, Bloom.MayContain, Bloom.WellFormed;
    BlocksRead(env, w.blocks, w.dels, w.filter);
    RangeDelBlock.BlockRoundTrip(w.dels);
  }

  /** loadMeta: whatever is accepted is in order, and a written table's metadata is accepted. */
  method LoadMeta(env: Env, file: Bytes, l: Layout, ghost w: Image) returns (m: Option<Meta>)
    requires |file| >= FOOTER && EnvOk(env)
    ensures m.Some? ==> Ordered(m.value.index) && Bloom.WellFormed(m.value.filter)
    ensures m.Some? ==> ReadBlock(env, file, l.filter) == Some(m.value.filter) && ReadBlock(env, file, l.index).Some? && Abutting(m.value.index, l.DataEnd())
    ensures m.Some? ==> if l.HasDels() then ReadBlock(env, file, l.dels).Some? && RangeDelBlock.Parse(ReadBlock(env, file, l.dels).value) == Some(m.value.dels)
                        else m.value.dels == []
    ensures Written(env, file, w) && l == ImageLayout(env, w) ==> m == Some(MetaOf(env, w))
  {
    hide EnvOk, Written, ImageLayout, WrittenIndex, ReadBlock, Bloom.WellFormed, EntriesOf, IndexBytes, Ordered, Abutting,
         RangeDelBlock.Parse, RangeDelBlock.Block;
    ghost var good := Written(env, file, w) && l == ImageLayout(env, w);
    if good {
      WrittenIndexed(env, file, w);
      WrittenReads(env, file, w);
    }
    var filter := ReadBlock(env, file, l.filter);
    if filter.None? || !Bloom.WellFormed(filter.value) {
      return None;
    }
    var payload := ReadBlock(env, file, l.index);
    if payload.None? {
      return None;
    }
    var index := ParseIndex(payload.value, l.DataEnd(), |file| - FOOTER, env, w.blocks);
    if index.None? {
      return None;
    }
    if !l.HasDels() {
      return Some(Meta(filter.value, index.value, []));
    }
    var block := ReadBlock(env, file, l.dels);
    if block.None? {
      return None;
    }
    var dels := RangeDelBlock.Decode(block.value);
    if dels.None? {
      return None;
    }
    return Some(Meta(filter.value, index.value, dels.value));
  }

  /** Any data block of a written table reads back as a written block. */
  lemma WrittenData(env: Env, file: Bytes, w: Image, i: nat)
    requires EnvOk(env) && Written(env, file, w) && i < |w.blocks|
    ensures MetaOf(env, w).index[i] == EntryFor(env, w.blocks, i)
    ensures var p := ReadBlock(env, file, HandleOf(env, w.blocks, i)); p.Some? && WrittenBlock(p.value, w.blocks[i])
  {
    hide EnvOk, TableBytes, HandleOf, ReadBlock, Sorted, Flat, Encoded, BlockPayload, Bloom.MayContain, Bloom.WellFormed;
    DataBlockReads(env, w.blocks, w.dels, w.filter, i);
    SortedPart(w.blocks, i);
    SortedKeys(w.blocks[i]);
  }

  lemma SortedKeys(items: seq<Item>)
    requires Sorted(items)
    ensures forall i :: 0 <= i < |items| ==> |items[i].key| >= Ikey.TRAILER
  {
  }

  lemma SortedPart(blocks: seq<seq<Item>>, i: nat)
    requires Sorted(Flat(blocks)) && i < |blocks|
    ensures Sorted(blocks[i])
  {
    hide Flat, Ikey.Less, KeyOk;
    FlatAround(blocks, i);
    var items, a := Flat(blocks), |Flat(blocks[..i])|;
    assert forall k :: 0 <= k < |blocks[i]| ==> blocks[i][k] == items[a + k];
  }

  /** A key the filter does not admit has no version in the table. */
  lemma FilterMiss(env: Env, file: Bytes, w: Image, user: Bytes, s: nat)
    requires EnvOk(env) && Written(env, file, w) && !Bloom.MayContain(w.filter, env.hash(user))
    ensures FirstMatch(Flat(w.blocks), user, s).None?
  {
    hide EnvOk, TableBytes, Flat, FirstMatch, Fits, Bloom.MayContain, Bloom.WellFormed, Ikey.KindOf, Ikey.UserKey, Ikey.SqnOf, Ascending;
    var items := Flat(w.blocks);
    forall i | 0 <= i < |items| ensures !Matches(items[i], user, s) {
      assert Bloom.MayContain(w.filter, env.hash(Ikey.UserKey(items[i].key)));
    }
    NoMatch(items, user, s);
  }

  /** The block the index leads to decides the lookup. */
  lemma IndexDecides(env: Env, file: Bytes, w: Image, i: nat, user: Bytes, s: nat)
    requires Written(env, file, w) && s <= Ikey.MAX_SEQ
    requires var index := MetaOf(env, w).index;
             && i <= |index|
             && (forall k :: 0 <= k < i ==> Ikey.Less(index[k].sep, LookupKey(user, s)))
             && (forall k :: i <= k < |index| ==> !Ikey.Less(index[k].sep, LookupKey(user, s)))
    ensures FirstMatch(Flat(w.blocks), user, s) == if i < |w.blocks| then FirstMatch(w.blocks[i], user, s) else None
  {
    hide TableBytes, HandleOf, Flat, Sorted, FirstMatch, Fits, Separator, LookupKey, Ikey.Less, Bloom.MayContain, Bloom.WellFormed;
    var index := MetaOf(env, w).index;
    assert i > 0 ==> index[i-1] == EntryFor(env, w.blocks, i - 1);
    assert i < |w.blocks| ==> index[i] == EntryFor(env, w.blocks, i);
    BlockDecides(w.blocks, i, user, s);
  }

  /** Block `i` is the first whose separator is not below the key. */
  ghost predicate IndexedAt(index: seq<IndexEntry>, lookup: Bytes, i: int) {
    0 <= i < |index| && !Ikey.Less(index[i].sep, lookup) && forall j :: 0 <= j < i ==> Ikey.Less(index[j].sep, lookup)
  }

  lemma OneBlock(index: seq<IndexEntry>, lookup: Bytes, lo: nat)
    requires lo <= |index| && (forall i :: 0 <= i < lo ==> Ikey.Less(index[i].sep, lookup))
    requires forall i :: lo <= i < |index| ==> !Ikey.Less(index[i].sep, lookup)
    ensures forall i :: IndexedAt(index, lookup, i) ==> i == lo < |index|
  {
    hide Ikey.Less;
    forall i ensures IndexedAt(index, lookup, i) ==> i == lo {
      if lo < |index| {
        assert !Ikey.Less(index[lo].sep, lookup);
      }
    }
  }

  /** lookupAtTime: on a written table, exactly what a linear scan of its entries answers. */
  method LookupAtTime(env: Env, file: Bytes, m: Meta, user: Bytes, s: nat, now: int, ghost w: Image) returns (r: Answer)
    requires EnvOk(env) && Ordered(m.index) && s <= Ikey.MAX_SEQ
    ensures Written(env, file, w) && m == MetaOf(env, w) ==> r == AnswerIn(Flat(w.blocks), user, s, now)
    // On any file: a block that does not read is damage, unless the filter rules the key out or no block can hold it.
    ensures Bloom.MayContain(m.filter, env.hash(user)) ==>
              forall i :: IndexedAt(m.index, LookupKey(user, s), i) && ReadBlock(env, file, m.index[i].handle).None? ==> r == Broken
  {
    hide IndexedAt, Written, EntriesOf, Flat, FirstMatch, Resolve, LookupKey, Ikey.Less, Ordered, ReadBlock, WrittenBlock, HandleOf, Bloom.MayContain;
    ghost var good := Written(env, file, w) && m == MetaOf(env, w);
    var maybe := Bloom.Check(m.filter, env.hash(user));
    if !maybe {
      if good {
        FilterMiss(env, file, w, user, s);
      }
      return Missing;
    }
    var i := FindBlock(m.index, LookupKey(user, s));
    OneBlock(m.index, LookupKey(user, s), i);
    if good {
      IndexDecides(env, file, w, i, user, s);
    }
    if i >= |m.index| {
      return Missing;
    }
    if good {
      WrittenData(env, file, w, i);
    }
    var payload := ReadBlock(env, file, m.index[i].handle);
    if payload.None? {
      return Broken;
    }
    r := ScanBlock(payload.value, user, s, now, if good then w.blocks[i] else []);
  }

  /** An open table, whose parsed metadata may be dropped and built again. */
  class Reader {
    const env: Env
    const file: Bytes
    const layout: Layout
    var meta: Option<Meta>
    ghost const image: Image

    ghost predicate Valid()
      reads this
    {
      && EnvOk(env) && |file| >= FOOTER && Open(file) == Some(layout)
      && (meta.Some? ==> Ordered(meta.value.index))
      && (Written(env, file, image) ==> meta.Some? ==> meta.value == MetaOf(env, image))
    }

    constructor (env: Env, file: Bytes, layout: Layout, ghost image: Image)
      requires EnvOk(env) && |file| >= FOOTER && Open(file) == Some(layout)
      ensures Valid() && this.env == env && this.file == file && this.image == image && meta == None
    {
      this.env, this.file, this.layout, this.image, meta := env, file, layout, image, None;
    }

    /** ensureMeta. */
    method EnsureMeta() returns (m: Option<Meta>)
      requires Valid()
      modifies this`meta
      ensures Valid() && (m.Some? ==> Ordered(m.value.index)) && meta == m
      ensures Written(env, file, image) ==> m == Some(MetaOf(env, image))
    {
      hide EnvOk, Written, MetaOf, ImageLayout, WrittenIndex, IndexBytes, Open, Ordered;
      if meta.Some? {
        return meta;
      }
      if Written(env, file, image) {
        WrittenIndexed(env, file, image);
      }
      m := LoadMeta(env, file, layout, image);
      if m.Some? {
        meta := m;
      }
    }

    /** dropMeta. */
    method DropMeta()
      requires Valid()
      modifies this`meta
      ensures Valid() && meta == None
    {
      meta := None;
    }

    /** A lookup answers as a linear scan does, whether or not the metadata was dropped. */
    method Lookup(user: Bytes, s: nat, now: int) returns (r: Answer)
      requires Valid() && s <= Ikey.MAX_SEQ
      modifies this`meta
      ensures Valid() && (meta.None? ==> r == Broken)
      ensures Written(env, file, image) ==> r == AnswerIn(Flat(image.blocks), user, s, now)
    {
      hide EnvOk, Written, MetaOf, Open, Ordered, AnswerIn, Flat;
      var m := EnsureMeta();
      if m.None? {
        return Broken;
      }
      r := LookupAtTime(env, file, m.value, user, s, now, image);
    }
  }

  /** newTableReaderOpt: every written table opens, lazily or not. */
  method OpenTable(env: Env, file: Bytes, lazy: bool, ghost image: Image) returns (r: Option<Reader>)
    requires EnvOk(env)
    ensures r.Some? ==> fresh(r.value) && r.value.Valid() && r.value.env == env && r.value.file == file && r.value.image == image
    ensures Written(env, file, image) ==> r.Some?
  {
    hide EnvOk, Written, MetaOf, ImageLayout, WrittenIndex, IndexBytes, Ordered, TakeFooter;
    if Written(env, file, image) {
      WrittenIndexed(env, file, image);
    }
    var l := Open(file);
    if l.None? {
      return None;
    }
    var t := new Reader(env, file, l.value, image);
    if !lazy {
      var m := t.EnsureMeta();
      if m.None? {
        return None;
      }
    }
    return Some(t);
  }

  /** Versions written to a table and looked up in it: the newest one visible, or nothing. */
  lemma AnswerIsNewest(points: seq<Entry>, w: Image, user: Bytes, s: nat, now: int)
    requires ItemsOf(Flat(w.blocks), points) && T.Ascending(points)
    ensures match AnswerIn(Flat(w.blocks), user, s, now)
            case Missing => forall e :: e in points && e.key == user ==> e.sqn > s
            case Hit(sqn, shown) => exists e :: Newest(PointSet(points), e, s) && e.key == user && e.sqn == sqn
                                                && shown == Outcome(e.payload, now)
            case _ => false
  {
    hide Flat, ItemsOf, AnswerIn, T.Ascending, Newest;
    AnswerIsLookup(Flat(w.blocks), points, user, s, now);
    M.LookupFindsNewest(points, user, s);
  }
}
