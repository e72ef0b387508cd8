/** Reading a data block: reconstruction of keys, and search over restart points. */
module BlockIter {
  import opened Bytes
  import opened Varint
  import opened DataBlock
  import Ikey

  // ---------------------------------------------------------------------------
  // One entry
  // ---------------------------------------------------------------------------

  datatype Step = Done | Malformed | At(key: Bytes, value: Bytes, next: nat)

  /** Three lengths off the front: shared, non-shared, value. */
  function TakeLengths(b: Bytes): (r: Take<(nat, nat, nat)>)
    ensures r.Took? ==> |r.rest| < |b|
  {
    var s := Uvarint(b);
    if s.Bad? then Bad else
    var k := Uvarint(s.rest);
    if k.Bad? then Bad else
    var v := Uvarint(k.rest);
    if v.Bad? then Bad else Took((s.value, k.value, v.value), v.rest)
  }

  /** next: the entry at `pos`, its key rebuilt on the previous one. */
  function StepFrom(entries: Bytes, pos: nat, prev: Bytes): (r: Step)
    requires pos <= |entries|
    ensures r.At? ==> pos < r.next <= |entries|
  {
    if pos == |entries| then Done
    else
      var t := TakeLengths(entries[pos..]);
      if t.Bad? then Malformed
      else
        var (shared, nonShared, valLen) := t.value;
        if shared > |prev| || nonShared > |t.rest| || valLen > |t.rest| - nonShared then Malformed
        else At(prev[..shared] + t.rest[..nonShared], t.rest[nonShared..nonShared + valLen],
                |entries| - |t.rest| + nonShared + valLen)
  }

  /** keyAt: the key of a restart entry. */
  function KeyAt(entries: Bytes, off: nat): (r: Option<Bytes>)
    ensures r.Some? ==> |r.value| >= Ikey.TRAILER
  {
    if off >= |entries| then None
    else
      var t := TakeLengths(entries[off..]);
      if t.Bad? || t.value.0 != 0 || t.value.1 < Ikey.TRAILER || t.value.1 > |t.rest| then None
      else Some(t.rest[..t.value.1])
  }

  predicate Storable(x: Item) {
    |x.key| <= MAX_UINT64 && |x.value| <= MAX_UINT64
  }

  lemma LengthsRead(shared: nat, x: Item, post: Bytes)
    requires Storable(x) && shared <= |x.key|
    ensures TakeLengths(PutEntry(shared, x) + post) == Took((shared, |x.key| - shared, |x.value|), x.key[shared..] + x.value + post)
  {
    hide Uvarint, PutUvarint;
    var rest := x.key[shared..] + x.value + post;
    var r2 := PutUvarint(|x.value|) + rest;
    var r1 := PutUvarint(|x.key| - shared) + r2;
    assert PutEntry(shared, x) + post == PutUvarint(shared) + r1;
    UvarintRoundTrip(shared, r1);
    UvarintRoundTrip(|x.key| - shared, r2);
    UvarintRoundTrip(|x.value|, rest);
  }

  /** An entry in place reads back, given the key it was built on. */
  lemma EntryReads(pre: Bytes, shared: nat, x: Item, post: Bytes, prev: Bytes)
    requires Storable(x) && shared <= |x.key| && shared <= |prev| && prev[..shared] == x.key[..shared]
    ensures var entries := pre + PutEntry(shared, x) + post;
            && StepFrom(entries, |pre|, prev) == At(x.key, x.value, |pre| + |PutEntry(shared, x)|)
            && (shared == 0 && |x.key| >= Ikey.TRAILER ==> KeyAt(entries, |pre|) == Some(x.key))
  {
    hide TakeLengths;
    var entries := pre + PutEntry(shared, x) + post;
    LengthsRead(shared, x, post);
    assert entries[|pre|..] == PutEntry(shared, x) + post;
    var rest := x.key[shared..] + x.value + post;
    assert rest[..|x.key| - shared] == x.key[shared..];
    assert rest[|x.key| - shared..|x.key| - shared + |x.value|] == x.value;
    assert prev[..shared] + x.key[shared..] == x.key by { assert x.key == x.key[..shared] + x.key[shared..]; }
    PutUvarintSome(shared, x);
  }

  lemma PutUvarintSome(shared: nat, x: Item)
    requires shared <= |x.key|
    ensures |PutEntry(shared, x)| > |x.key| - shared + |x.value|
  {
  }

  // ---------------------------------------------------------------------------
  // A whole block
  // ---------------------------------------------------------------------------

  lemma {:induction false} EncodedPrefix(items: seq<Item>, i: nat, n: nat, every: nat)
    requires i <= n <= |items|
    ensures Off(items, i, every) <= Off(items, n, every) && Encoded(items, n, every)[..Off(items, i, every)] == Encoded(items, i, every)
    decreases n
  {
    hide PutEntry, Shared;
    if i < n {
      EncodedPrefix(items, i, n - 1, every);
      var a, b := Encoded(items, n - 1, every), Encoded(items, n, every);
      assert b[..|a|] == a;
      assert b[..Off(items, i, every)] == b[..|a|][..Off(items, i, every)];
    }
  }

  /** Entries can be stored, and their keys are internal keys. */
  ghost predicate ItemsOk(items: seq<Item>) {
    forall i :: 0 <= i < |items| ==> Storable(items[i]) && |items[i].key| >= Ikey.TRAILER
  }

  ghost predicate Ascending(items: seq<Item>) {
    forall i, j :: 0 <= i < j < |items| ==> Ikey.Less(items[i].key, items[j].key)
  }

  /** Stepping from entry `i`, on its predecessor's key or from a restart point, gives entry `i`. */
  lemma StepAt(items: seq<Item>, every: nat, i: nat, prev: Bytes)
    requires ItemsOk(items) && i < |items|
    requires Restart(i, every) || prev == items[i-1].key
    ensures var e := Encoded(items, |items|, every);
            && Off(items, i, every) < Off(items, i + 1, every) <= |e|
            && StepFrom(e, Off(items, i, every), prev) == At(items[i].key, items[i].value, Off(items, i + 1, every))
            && (Restart(i, every) ==> KeyAt(e, Off(items, i, every)) == Some(items[i].key))
  {
    hide StepFrom, KeyAt, PutEntry, Restart;
    var e := Encoded(items, |items|, every);
    EncodedPrefix(items, i + 1, |items|, every);
    var pre, shared := Encoded(items, i, every), Shared(items, i, every);
    var post := e[Off(items, i + 1, every)..];
    assert e == Encoded(items, i + 1, every) + post;
    assert e == pre + PutEntry(shared, items[i]) + post;
    EntryReads(pre, shared, items[i], post, prev);
    PutUvarintSome(shared, items[i]);
  }

  lemma {:induction false} WordAt(ns: seq<nat>, m: nat)
    requires m < |ns| && forall i :: 0 <= i < |ns| ==> ns[i] <= MAX_UINT32
    ensures FromLe(Words(ns)[4 * m..4 * m + 4]) == ns[m]
    decreases |ns|
  {
    hide FromLe, PutLe;
    var front, w := ns[..|ns|-1], Words(ns);
    if m == |ns| - 1 {
      assert w[4 * m..4 * m + 4] == PutLe(ns[m], 4);
      WordReads(ns[m]);
    } else {
      WordAt(front, m);
      assert w[4 * m..4 * m + 4] == Words(front)[4 * m..4 * m + 4];
    }
  }

  /** splitDataBlock: entry region, restart words, restart count. */
  function Split(payload: Bytes): Option<(Bytes, Bytes, nat)> {
    if |payload| < 4 then None
    else
      var n := FromLe(payload[|payload| - 4..]);
      if (n + 1) * 4 > |payload| then None
      else
        var end := |payload| - (n + 1) * 4;
        Some((payload[..end], payload[end..|payload| - 4], n))
  }

  /** A finished block splits into what it was made of. */
  lemma SplitPayload(items: seq<Item>, every: nat)
    requires |RestartsBelow(|items|, every)| <= MAX_UINT32
    ensures var rs := Offsets(items, RestartsBelow(|items|, every), every);
            Split(BlockPayload(items, every)) == Some((Encoded(items, |items|, every), Words(rs), |rs|))
  {
    hide Encoded, Words, FromLe, PutLe, Offsets, RestartsBelow;
    var rs := Offsets(items, RestartsBelow(|items|, every), every);
    var e, w, p := Encoded(items, |items|, every), Words(rs), BlockPayload(items, every);
    assert p[|p| - 4..] == PutLe(|rs|, 4);
    WordReads(|rs|);
    assert p[..|e|] == e && p[|e|..|p| - 4] == w;
  }

  // ---------------------------------------------------------------------------
  // The iterator
  // ---------------------------------------------------------------------------

  /** The three parts are those of a block of `items`, small enough for 32-bit offsets. */
  ghost predicate BlockOf(entries: Bytes, restarts: Bytes, n: nat, items: seq<Item>, every: nat) {
    && ItemsOk(items)
    && entries == Encoded(items, |items|, every) && |entries| <= MAX_UINT32
    && restarts == Words(Offsets(items, RestartsBelow(|items|, every), every))
    && n == |RestartsBelow(|items|, every)|
  }

  /** restartOffset. */
  function RestartOffset(entries: Bytes, restarts: Bytes, i: nat): Option<nat> {
    if (i + 1) * 4 > |restarts| then None
    else
      var off := FromLe(restarts[4 * i..4 * i + 4]);
      if off >= |entries| then None else Some(off)
  }

  /** The key a restart index leads to. */
  function RestartKey(entries: Bytes, restarts: Bytes, i: nat): (r: Option<Bytes>)
    ensures r.Some? ==> |r.value| >= Ikey.TRAILER
  {
    var off := RestartOffset(entries, restarts, i);
    if off.None? then None else KeyAt(entries, off.value)
  }

  /** In a block, restart index `m` leads to the m-th restart point and its key. */
  lemma RestartReads(entries: Bytes, restarts: Bytes, n: nat, items: seq<Item>, every: nat, m: nat)
    requires BlockOf(entries, restarts, n, items, every) && m < n
    ensures var r := RestartsBelow(|items|, every)[m];
            && r < |items|
            && RestartOffset(entries, restarts, m) == Some(Off(items, r, every))
            && RestartKey(entries, restarts, m) == Some(items[r].key)
  {
    hide Encoded, Words, KeyAt, StepFrom, FromLe;
    var at := RestartsBelow(|items|, every);
    var offs := Offsets(items, at, every);
    forall i | 0 <= i < |offs| ensures offs[i] <= MAX_UINT32 {
      EncodedPrefix(items, at[i], |items|, every);
    }
    WordAt(offs, m);
    StepAt(items, every, at[m], []);
  }

  lemma {:induction false} RestartListed(n: nat, every: nat, r: nat) returns (m: nat)
    requires r < n && Restart(r, every)
    ensures m < |RestartsBelow(n, every)| && RestartsBelow(n, every)[m] == r
    decreases n
  {
    if r == n - 1 {
      m := |RestartsBelow(n, every)| - 1;
    } else {
      m := RestartListed(n - 1, every, r);
    }
  }

  /** What a search leaves: everything before entry `j` is below the target, `j` can be read
      with no predecessor, and no later restart point is below the target. */
  ghost predicate Lands(items: seq<Item>, every: nat, target: Bytes, j: nat, pos: nat) {
    && j <= |items| && pos == Off(items, j, every) && Restart(j, every)
    && (forall i :: 0 <= i < j ==> Ikey.Less(items[i].key, target))
    && (forall r :: j < r < |items| && Restart(r, every) ==> !Ikey.Less(items[r].key, target))
  }

  /** The search has narrowed to restart indices in [lo, hi). */
  ghost predicate Narrowed(items: seq<Item>, every: nat, target: Bytes, lo: nat, hi: nat) {
    var at := RestartsBelow(|items|, every);
    && lo <= hi <= |at|
    && (lo > 0 ==> Ikey.Less(items[at[lo-1]].key, target))
    && (hi < |at| ==> !Ikey.Less(items[at[hi]].key, target))
  }

  lemma NarrowedLands(items: seq<Item>, every: nat, target: Bytes, lo: nat, j: nat)
    requires ItemsOk(items) && Ascending(items) && |target| >= Ikey.TRAILER && Narrowed(items, every, target, lo, lo)
    requires var at := RestartsBelow(|items|, every);
             if |at| == 0 then j == 0 else j == at[if lo == 0 then 0 else lo - 1]
    ensures Lands(items, every, target, j, if j <= |items| then Off(items, j, every) else 0)
  {
    hide Encoded, Ikey.Less, Ikey.Order;
    var at := RestartsBelow(|items|, every);
    forall i | 0 <= i < j ensures Ikey.Less(items[i].key, target) {
      Ikey.Laws(items[i].key, items[j].key, target);
    }
    forall r | j < r < |items| && Restart(r, every) ensures !Ikey.Less(items[r].key, target) {
      var m := RestartListed(|items|, every, r);
      assert m >= lo;
      Ikey.Laws(items[at[lo]].key, items[r].key, target);
    }
  }

  class DataBlockIter {
    var entries: Bytes
    var restarts: Bytes
    var nRestart: nat
    var pos: nat
    var key: Bytes
    var value: Bytes
    var err: bool

    ghost predicate Valid()
      reads this
    {
      pos <= |entries|
    }

    constructor (entries: Bytes, restarts: Bytes, n: nat)
      ensures Valid() && this.entries == entries && this.restarts == restarts && nRestart == n
      ensures pos == 0 && key == [] && !err
    {
      this.entries, this.restarts, nRestart := entries, restarts, n;
      pos, key, value, err := 0, [], [], false;
    }

    /** seek: to the last restart point below the target, or to the start of a damaged block. */
    method Seek(target: Bytes, ghost items: seq<Item>, ghost every: nat) returns (ghost j: nat)
      requires Valid() && |target| >= Ikey.TRAILER
      modifies this`pos, this`key
      ensures Valid() && key == []
      ensures BlockOf(entries, restarts, nRestart, items, every) && Ascending(items) ==> Lands(items, every, target, j, pos)
    {
      hide BlockOf, Narrowed, Lands, RestartKey, RestartOffset, Ikey.Order, Ascending;
      ghost var good := BlockOf(entries, restarts, nRestart, items, every) && Ascending(items);
      j := 0;
      var lo: nat, hi: nat := 0, nRestart;
      if good {
        NarrowedFirst(entries, restarts, nRestart, items, every, target);
      }
      while lo < hi
        invariant lo <= hi <= nRestart
        invariant good ==> Narrowed(items, every, target, lo, hi)
      {
        var mid := (lo + hi) / 2;
        var k := RestartKey(entries, restarts, mid);
        NarrowedNext(entries, restarts, nRestart, items, every, target, lo, mid, hi);
        if k.None? {
          pos, key := 0, [];
          return;
        }
        if Ikey.Order(k.value, target) < 0 {
          lo := mid + 1;
        } else {
          hi := mid;
        }
      }
      if good {
        j := LandsThere(entries, restarts, nRestart, items, every, target, lo);
      }
      key := [];
      if nRestart == 0 {
        pos := 0;
        return;
      }
      var off := RestartOffset(entries, restarts, if lo == 0 then 0 else lo - 1);
      pos := if off.None? then 0 else off.value;
      OffsetInside(entries, restarts, if lo == 0 then 0 else lo - 1);
    }

    /** next: one entry, or the end, or a damaged entry, which stops the iterator for good. */
    method Next() returns (ok: bool)
      requires Valid()
      modifies this`pos, this`key, this`value, this`err
      ensures Valid()
      ensures old(err) ==> !ok && err
      ensures !old(err) ==> match StepFrom(entries, old(pos), old(key))
                            case Done => !ok && !err && pos == old(pos) && key == old(key)
                            case Malformed => !ok && err
                            case At(k, v, next) => ok && !err && key == k && value == v && pos == next
    {
      hide Uvarint;
      if err || pos == |entries| {
        return false;
      }
      var shared := Uvarint(entries[pos..]);
      if shared.Bad? {
        err := true;
        return false;
      }
      var nonShared := Uvarint(shared.rest);
      if nonShared.Bad? {
        err := true;
        return false;
      }
      var valLen := Uvarint(nonShared.rest);
      if valLen.Bad? {
        err := true;
        return false;
      }
      var rest := valLen.rest;
      if shared.value > |key| || nonShared.value > |rest| {
        err := true;
        return false;
      }
      key := key[..shared.value] + rest[..nonShared.value];
      if valLen.value > |rest| - nonShared.value {
        err := true;
        return false;
      }
      value := rest[nonShared.value..nonShared.value + valLen.value];
      pos := |entries| - |rest| + nonShared.value + valLen.value;
      return true;
    }

    /** resetEntries: onto the next block of a scan. */
    method ResetEntries(es: Bytes)
      modifies this
      ensures Valid() && entries == es && restarts == [] && nRestart == 0 && pos == 0 && key == [] && !err
    {
      entries, restarts, nRestart, pos, key, value, err := es, [], 0, 0, [], [], false;
    }
  }

  lemma OffsetInside(entries: Bytes, restarts: Bytes, i: nat)
    ensures RestartOffset(entries, restarts, i).Some? ==> RestartOffset(entries, restarts, i).value <= |entries|
  {
  }

  lemma NarrowedFirst(entries: Bytes, restarts: Bytes, n: nat, items: seq<Item>, every: nat, target: Bytes)
    requires BlockOf(entries, restarts, n, items, every)
    ensures Narrowed(items, every, target, 0, n)
  {
    hide Encoded, Words;
  }

  lemma NarrowedNext(entries: Bytes, restarts: Bytes, n: nat, items: seq<Item>, every: nat, target: Bytes, lo: nat, mid: nat, hi: nat)
    requires lo <= mid < hi <= n && |target| >= Ikey.TRAILER
    ensures BlockOf(entries, restarts, n, items, every) && Narrowed(items, every, target, lo, hi) ==>
              var k := RestartKey(entries, restarts, mid);
              && k.Some?
              && (if Ikey.Order(k.value, target) < 0 then Narrowed(items, every, target, mid + 1, hi)
                  else Narrowed(items, every, target, lo, mid))
  {
    hide Encoded, Words, RestartKey, RestartOffset, Ikey.Order;
    if BlockOf(entries, restarts, n, items, every) && Narrowed(items, every, target, lo, hi) {
      RestartReads(entries, restarts, n, items, every, mid);
    }
  }

  lemma LandsThere(entries: Bytes, restarts: Bytes, n: nat, items: seq<Item>, every: nat, target: Bytes, lo: nat) returns (j: nat)
    requires BlockOf(entries, restarts, n, items, every) && Ascending(items) && |target| >= Ikey.TRAILER
    requires Narrowed(items, every, target, lo, lo)
    ensures n == 0 ==> Lands(items, every, target, j, 0)
    ensures n > 0 ==> var off := RestartOffset(entries, restarts, if lo == 0 then 0 else lo - 1);
                      off.Some? && Lands(items, every, target, j, off.value)
  {
    hide Words, RestartKey, RestartOffset, Lands, Ikey.Less;
    var at := RestartsBelow(|items|, every);
    var m := if lo == 0 then 0 else lo - 1;
    j := if n == 0 then 0 else at[m];
    NarrowedLands(items, every, target, lo, j);
    if n > 0 {
      RestartReads(entries, restarts, n, items, every, m);
    } else {
      assert Off(items, 0, every) == 0;
    }
  }
}
