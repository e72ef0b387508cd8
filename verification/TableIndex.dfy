/** The parsed index of a table: one separator and handle per data block. */
module TableIndex {
  import opened Bytes
  import opened Varint
  import opened DataBlock
  import opened TableFormat
  import opened TableWriter
  import Ikey

  datatype IndexEntry = IndexEntry(sep: Bytes, handle: Handle)

  /** One index entry off the front: a separator, then a handle that fills its field. */
  function TakeEntry(b: Bytes): (r: Take<IndexEntry>)
    ensures r.Took? ==> |r.rest| < |b|
  {
    var sep := TakeBytes(b);
    if sep.Bad? then Bad else
    var field := TakeBytes(sep.rest);
    if field.Bad? then Bad else
    var h := TakeHandle(field.value);
    if h.Bad? || h.rest != [] then Bad else Took(IndexEntry(sep.value, h.value), field.rest)
  }

  /** parseIndex's checks on one entry, after blocks that end at `next`. */
  predicate EntryOk(e: IndexEntry, prev: Option<Bytes>, next: nat, dataEnd: nat, limit: nat) {
    && KeyOk(e.sep) && |e.sep| <= MAX_UINT32
    && BLOCK_TRAILER <= e.handle.length <= MAX_UINT32 && e.handle.offset + e.handle.length <= limit
    && e.handle.offset == next && e.handle.offset + e.handle.length <= dataEnd
    && (prev.Some? ==> Ikey.Less(prev.value, e.sep))
  }

  /** Admitted separators, strictly ascending. */
  ghost predicate Ordered(index: seq<IndexEntry>) {
    && (forall i :: 0 <= i < |index| ==> KeyOk(index[i].sep))
    && (forall i, j :: 0 <= i < j < |index| ==> Ikey.Less(index[i].sep, index[j].sep))
  }

  /** Blocks laid end to end from 0 to `next`. */
  ghost predicate Abutting(index: seq<IndexEntry>, next: nat) {
    if index == [] then next == 0
    else
      var h := index[|index|-1].handle;
      h.length >= BLOCK_TRAILER && next == h.offset + h.length && Abutting(index[..|index|-1], h.offset)
  }

  ghost function LastSep(index: seq<IndexEntry>): Option<Bytes> {
    if index == [] then None else Some(index[|index|-1].sep)
  }

  lemma OrderedNext(index: seq<IndexEntry>, e: IndexEntry)
    requires Ordered(index) && KeyOk(e.sep) && (index != [] ==> Ikey.Less(index[|index|-1].sep, e.sep))
    ensures Ordered(index + [e])
  {
    hide Ikey.Less, Ikey.KindOf;
    var more := index + [e];
    forall i, j | 0 <= i < j < |more| ensures Ikey.Less(more[i].sep, more[j].sep) {
      if j == |index| && i < |index| - 1 {
        Ikey.Laws(index[i].sep, index[|index|-1].sep, e.sep);
      }
    }
  }

  lemma AbuttingNext(index: seq<IndexEntry>, next: nat, e: IndexEntry)
    requires Abutting(index, next) && e.handle.offset == next && e.handle.length >= BLOCK_TRAILER
    ensures Abutting(index + [e], next + e.handle.length)
  {
    assert (index + [e])[..|index|] == index;
  }

  lemma EntryKeeps(index: seq<IndexEntry>, next: nat, e: IndexEntry, dataEnd: nat, limit: nat)
    requires Ordered(index) && Abutting(index, next) && EntryOk(e, LastSep(index), next, dataEnd, limit)
    ensures Ordered(index + [e]) && Abutting(index + [e], next + e.handle.length)
  {
    hide Ordered, Abutting, KeyOk, Ikey.Less;
    OrderedNext(index, e);
    AbuttingNext(index, next, e);
  }

  // ---------------------------------------------------------------------------
  // The index of a written table
  // ---------------------------------------------------------------------------

  function EntryFor(env: Env, blocks: seq<seq<Item>>, i: nat): IndexEntry
    requires i < |blocks|
  {
    IndexEntry(Separator(blocks[i]), HandleOf(env, blocks, i))
  }

  function EntriesOf(env: Env, blocks: seq<seq<Item>>, n: nat): (r: seq<IndexEntry>)
    requires n <= |blocks|
    ensures |r| == n && forall i :: 0 <= i < n ==> r[i] == EntryFor(env, blocks, i)
  {
    if n == 0 then [] else EntriesOf(env, blocks, n - 1) + [EntryFor(env, blocks, n - 1)]
  }

  /** Block images, keys and values whose sizes fit 32 bits, in a file whose size fits 64. */
  ghost predicate Fits(blocks: seq<seq<Item>>, size: nat) {
    && size <= MAX_UINT64
    && (forall i :: 0 <= i < |blocks| ==> |BlockPayload(blocks[i], RESTART_INTERVAL)| + BLOCK_TRAILER <= MAX_UINT32)
    && (forall i, j :: 0 <= i < |blocks| && 0 <= j < |blocks[i]| ==>
                         |blocks[i][j].key| <= MAX_UINT32 && |blocks[i][j].value| <= MAX_UINT32)
  }

  ghost predicate NonEmpty(blocks: seq<seq<Item>>) {
    forall i :: 0 <= i < |blocks| ==> blocks[i] != []
  }

  lemma EntryReads(e: IndexEntry, rest: Bytes)
    requires HandleFits(e.handle) && |e.sep| <= MAX_UINT64
    ensures TakeEntry(PutIndexEntry(e.sep, e.handle) + rest) == Took(e, rest)
  {
    hide TakeBytes, PutBytes, TakeHandle, PutHandle, HandleFits;
    var field := PutHandle(e.handle);
    HandleShort(e.handle);
    assert PutIndexEntry(e.sep, e.handle) + rest == PutBytes(e.sep) + (PutBytes(field) + rest);
    BytesRoundTrip(e.sep, PutBytes(field) + rest);
    BytesRoundTrip(field, rest);
    HandleReads(e.handle, []);
    assert field + [] == field;
  }

  lemma {:induction false} IndexPrefix(env: Env, blocks: seq<seq<Item>>, i: nat, n: nat)
    requires i <= n <= |blocks|
    ensures |IndexBytes(env, blocks, i)| <= |IndexBytes(env, blocks, n)|
    ensures IndexBytes(env, blocks, n)[..|IndexBytes(env, blocks, i)|] == IndexBytes(env, blocks, i)
    decreases n
  {
    hide PutIndexEntry, Separator, HandleOf;
    if i < n {
      IndexPrefix(env, blocks, i, n - 1);
      var a, b, c := IndexBytes(env, blocks, i), IndexBytes(env, blocks, n - 1), IndexBytes(env, blocks, n);
      assert c[..|b|] == b;
      assert c[..|a|] == c[..|b|][..|a|];
    }
  }

  /** Where a block's last entry stands among all entries. */
  lemma LastOf(blocks: seq<seq<Item>>, i: nat) returns (at: nat)
    requires i < |blocks| && blocks[i] != []
    ensures at == |Flat(blocks[..i + 1])| - 1 && at < |Flat(blocks)| && Flat(blocks)[at].key == Separator(blocks[i])
    ensures |Flat(blocks[..i])| <= at
  {
    hide Flat;
    var here := blocks[..i + 1];
    assert here == blocks[..i] + [blocks[i]] && here[|here|-1] == blocks[i];
    FlatNext(blocks[..i], blocks[i]);
    FlatSplit(blocks, i + 1);
    LastCloses(here);
    at := |Flat(here)| - 1;
    assert Flat(blocks)[..at + 1][at] == Flat(blocks)[at];
  }

  /** The separators of a sorted table are admitted keys, strictly ascending. */
  lemma SeparatorsAscend(blocks: seq<seq<Item>>, i: nat)
    requires Sorted(Flat(blocks)) && NonEmpty(blocks) && i < |blocks|
    ensures KeyOk(Separator(blocks[i]))
    ensures i > 0 ==> Ikey.Less(Separator(blocks[i-1]), Separator(blocks[i]))
  {
    hide Sorted, Ikey.Less, KeyOk, Flat, Separator;
    var q := LastOf(blocks, i);
    SortedAt(Flat(blocks), q, q);
    if i > 0 {
      var p := LastOf(blocks, i - 1);
      SortedAt(Flat(blocks), p, q);
    }
  }

  lemma SortedAt(items: seq<Item>, p: nat, q: nat)
    requires Sorted(items) && p <= q < |items|
    ensures KeyOk(items[q].key) && (p < q ==> Ikey.Less(items[p].key, items[q].key))
  {
    hide KeyOk, Ikey.Less;
  }

  lemma {:induction false} FlatSplit(blocks: seq<seq<Item>>, i: nat)
    requires i <= |blocks|
    ensures |Flat(blocks[..i])| <= |Flat(blocks)| && Flat(blocks)[..|Flat(blocks[..i])|] == Flat(blocks[..i])
    decreases |blocks|
  {
    if i == |blocks| {
      assert blocks[..i] == blocks;
    } else {
      var front := blocks[..|blocks|-1];
      FlatSplit(front, i);
      assert front[..i] == blocks[..i];
    }
  }

  /** Every entry the writer indexes passes the reader's checks. */
  lemma EntryForOk(env: Env, blocks: seq<seq<Item>>, i: nat, size: nat)
    requires Sorted(Flat(blocks)) && NonEmpty(blocks) && Fits(blocks, size) && i < |blocks|
    requires |DataBytes(env, blocks, |blocks|)| + FOOTER <= size
    ensures EntryOk(EntryFor(env, blocks, i), if i == 0 then None else Some(Separator(blocks[i-1])),
                    |DataBytes(env, blocks, i)|, |DataBytes(env, blocks, |blocks|)|, size - FOOTER)
    ensures |DataBytes(env, blocks, i + 1)| == |DataBytes(env, blocks, i)| + HandleOf(env, blocks, i).length
    ensures HandleFits(HandleOf(env, blocks, i)) && |Separator(blocks[i])| <= MAX_UINT64
  {
    hide Sorted, Flat, KeyOk, Ikey.Less, BlockPayload, FinishBlock;
    SeparatorsAscend(blocks, i);
    DataPrefix(env, blocks, i + 1, |blocks|);
    var n := |blocks[i]|;
    assert Separator(blocks[i]) == blocks[i][n-1].key;
  }

  /** The index payload of a written table, with its data region and the room before its footer. */
  ghost predicate WrittenIndex(env: Env, blocks: seq<seq<Item>>, payload: Bytes, dataEnd: nat, limit: nat) {
    && payload == IndexBytes(env, blocks, |blocks|)
    && dataEnd == |DataBytes(env, blocks, |blocks|)| && dataEnd <= limit
    && Sorted(Flat(blocks)) && NonEmpty(blocks) && Fits(blocks, limit + FOOTER)
  }

  /** How far parsing a written index has come. */
  ghost predicate Parsing(env: Env, blocks: seq<seq<Item>>, rest: Bytes, index: seq<IndexEntry>, next: nat) {
    && |index| <= |blocks| && index == EntriesOf(env, blocks, |index|)
    && |IndexBytes(env, blocks, |index|)| <= |IndexBytes(env, blocks, |blocks|)|
    && rest == IndexBytes(env, blocks, |blocks|)[|IndexBytes(env, blocks, |index|)|..]
    && next == |DataBytes(env, blocks, |index|)|
  }

  lemma ParsingStart(env: Env, blocks: seq<seq<Item>>, payload: Bytes, dataEnd: nat, limit: nat)
    requires WrittenIndex(env, blocks, payload, dataEnd, limit)
    ensures Parsing(env, blocks, payload, [], 0)
  {
    var all := IndexBytes(env, blocks, |blocks|);
    assert IndexBytes(env, blocks, 0) == [] && all[0..] == all;
  }

  lemma ParsingNext(env: Env, blocks: seq<seq<Item>>, payload: Bytes, dataEnd: nat, limit: nat,
                    rest: Bytes, index: seq<IndexEntry>, next: nat)
    requires WrittenIndex(env, blocks, payload, dataEnd, limit) && Parsing(env, blocks, rest, index, next) && rest != []
    ensures var e := TakeEntry(rest);
            && e.Took?
            && EntryOk(e.value, LastSep(index), next, dataEnd, limit)
            && Parsing(env, blocks, e.rest, index + [e.value], next + e.value.handle.length)
  {
    hide Sorted, Flat, NonEmpty, Fits, DataBytes, IndexBytes, EntriesOf, TakeEntry, PutIndexEntry, Separator, HandleOf, EntryOk, HandleFits;
    var i := |index|;
    if i == |blocks| {
      return;
    }
    var e := EntryFor(env, blocks, i);
    EntryForOk(env, blocks, i, limit + FOOTER);
    var after := IndexAt(env, blocks, i);
    EntryReads(e, after);
    EntriesNext(env, blocks, index);
    assert i > 0 ==> index[i-1] == EntryFor(env, blocks, i - 1);
  }

  lemma EntriesNext(env: Env, blocks: seq<seq<Item>>, index: seq<IndexEntry>)
    requires |index| < |blocks| && index == EntriesOf(env, blocks, |index|)
    ensures index + [EntryFor(env, blocks, |index|)] == EntriesOf(env, blocks, |index| + 1)
  {
  }

  /** Entry `i` of a written index, and what follows it. */
  lemma IndexAt(env: Env, blocks: seq<seq<Item>>, i: nat) returns (after: Bytes)
    requires i < |blocks|
    ensures var all := IndexBytes(env, blocks, |blocks|); var e := EntryFor(env, blocks, i);
            && |IndexBytes(env, blocks, i + 1)| <= |all| && after == all[|IndexBytes(env, blocks, i + 1)|..]
            && |IndexBytes(env, blocks, i)| <= |all|
            && all[|IndexBytes(env, blocks, i)|..] == PutIndexEntry(e.sep, e.handle) + after
  {
    hide PutIndexEntry, Separator, HandleOf;
    IndexPrefix(env, blocks, i + 1, |blocks|);
    var all, b := IndexBytes(env, blocks, |blocks|), IndexBytes(env, blocks, i + 1);
    after := all[|b|..];
    assert all == b + after;
  }

  lemma ParsingEnd(env: Env, blocks: seq<seq<Item>>, payload: Bytes, dataEnd: nat, limit: nat, index: seq<IndexEntry>, next: nat)
    requires WrittenIndex(env, blocks, payload, dataEnd, limit) && Parsing(env, blocks, [], index, next)
    ensures index == EntriesOf(env, blocks, |blocks|) && next == dataEnd
  {
    hide Sorted, Flat, NonEmpty, Fits, DataBytes, Separator, HandleOf;
    if |index| < |blocks| {
      IndexGrows(env, blocks, |index|);
    }
  }

  lemma IndexGrows(env: Env, blocks: seq<seq<Item>>, i: nat)
    requires i < |blocks|
    ensures |IndexBytes(env, blocks, i)| < |IndexBytes(env, blocks, |blocks|)|
  {
    IndexPrefix(env, blocks, i + 1, |blocks|);
  }

  /** parseIndex: an accepted index is sorted and covers the data region; the writer's is accepted. */
  method ParseIndex(payload: Bytes, dataEnd: nat, limit: nat, ghost env: Env, ghost blocks: seq<seq<Item>>)
    returns (r: Option<seq<IndexEntry>>)
    ensures r.Some? ==> Ordered(r.value) && Abutting(r.value, dataEnd)
    ensures WrittenIndex(env, blocks, payload, dataEnd, limit) ==> r == Some(EntriesOf(env, blocks, |blocks|))
  {
    hide WrittenIndex, EntriesOf, EntryFor, TakeEntry, EntryOk, Ordered, Abutting, Parsing;
    ghost var good := WrittenIndex(env, blocks, payload, dataEnd, limit);
    var rest, index, next: nat := payload, [], 0;
    var prev: Option<Bytes> := None;
    NothingYet();
    if good {
      ParsingStart(env, blocks, payload, dataEnd, limit);
    }
    while rest != []
      invariant Ordered(index) && Abutting(index, next) && prev == LastSep(index)
      invariant good ==> Parsing(env, blocks, rest, index, next)
      decreases |rest|
    {
      if good {
        ParsingNext(env, blocks, payload, dataEnd, limit, rest, index, next);
      }
      var e := TakeEntry(rest);
      if e.Bad? {
        return None;
      }
      if !EntryOk(e.value, prev, next, dataEnd, limit) {
        return None;
      }
      EntryKeeps(index, next, e.value, dataEnd, limit);
      index, next, prev, rest := index + [e.value], next + e.value.handle.length, Some(e.value.sep), e.rest;
    }
    if good {
      ParsingEnd(env, blocks, payload, dataEnd, limit, index, next);
    }
    return if next == dataEnd then Some(index) else None;
  }

  lemma NothingYet()
    ensures Ordered([]) && Abutting([], 0)
  {
  }

  /** findBlock: the first block whose separator is not below the key. */
  method FindBlock(index: seq<IndexEntry>, lookup: Bytes) returns (lo: nat)
    requires Ordered(index) && |lookup| >= Ikey.TRAILER
    ensures lo <= |index| && (forall i :: 0 <= i < lo ==> Ikey.Less(index[i].sep, lookup))
    ensures forall i :: lo <= i < |index| ==> !Ikey.Less(index[i].sep, lookup)
  {
    hide Ikey.Order, Ikey.KindOf;
    lo := 0;
    var hi := |index|;
    while lo < hi
      invariant lo <= hi <= |index|
      invariant forall i :: 0 <= i < lo ==> Ikey.Less(index[i].sep, lookup)
      invariant forall i :: hi <= i < |index| ==> !Ikey.Less(index[i].sep, lookup)
    {
      var mid := (lo + hi) / 2;
      if Ikey.Order(index[mid].sep, lookup) < 0 {
        forall i | 0 <= i < mid ensures Ikey.Less(index[i].sep, lookup) {
          Ikey.Laws(index[i].sep, index[mid].sep, lookup);
        }
        lo := mid + 1;
      } else {
        forall i | mid < i < |index| ensures !Ikey.Less(index[i].sep, lookup) {
          Ikey.Laws(index[mid].sep, index[i].sep, lookup);
        }
        hi := mid;
      }
    }
  }
}
