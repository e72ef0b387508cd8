/** The manifest: edits to the live table set, their encoding, and replay. */
module Manifest {
  import opened Bytes
  import opened Varint
  import Ikey

  const VERSION: nat := 1

  /** One table; an empty bound is an unknown one. */
  datatype TableInfo = TableInfo(num: nat, depth: nat, size: nat, minKey: Bytes, maxKey: Bytes, entries: nat, tombstones: nat)

  datatype BlobInfo = BlobInfo(num: nat, size: nat)

  datatype Edit = Edit(
    identity: bool,
    lastSeq: Option<nat>,
    replayLog: nat,
    added: seq<TableInfo>,
    deleted: seq<nat>,
    addedBlobs: seq<BlobInfo>,
    deletedBlobs: seq<nat>)

  const EMPTY: Edit := Edit(false, None, 0, [], [], [], [])

  // ---------------------------------------------------------------------------
  // Encoding
  // ---------------------------------------------------------------------------

  function PutTable(t: TableInfo): Bytes {
    PutUvarint(t.num) + PutUvarint(t.depth) + PutUvarint(t.size) + PutBytes(t.minKey) + PutBytes(t.maxKey)
    + PutUvarint(t.entries) + PutUvarint(t.tombstones)
  }

  function PutAdds(ts: seq<TableInfo>): Bytes {
    if ts == [] then [] else [2] + PutTable(ts[0]) + PutAdds(ts[1..])
  }

  function PutNums(tag: byte, ns: seq<nat>): Bytes {
    if ns == [] then [] else [tag] + PutUvarint(ns[0]) + PutNums(tag, ns[1..])
  }

  function PutBlobs(bs: seq<BlobInfo>): Bytes {
    if bs == [] then [] else [6] + PutUvarint(bs[0].num) + PutUvarint(bs[0].size) + PutBlobs(bs[1..])
  }

  function Encode(e: Edit): Bytes {
    PutIdentity(e) + PutLastSeq(e) + PutReplayLog(e)
    + PutAdds(e.added) + PutNums(3, e.deleted) + PutBlobs(e.addedBlobs) + PutNums(7, e.deletedBlobs) + [0]
  }

  /** readTable. */
  function TakeTable(b: Bytes): (r: Take<TableInfo>)
    ensures r.Took? ==> |r.rest| < |b|
  {
    var num := Uvarint(b);
    if num.Bad? then Bad else
    var depth := Uvarint(num.rest);
    if depth.Bad? then Bad else
    var size := Uvarint(depth.rest);
    if size.Bad? || num.value > MAX_UINT32 || depth.value > MAX_INT64 || size.value > MAX_INT64 then Bad else
    var lo := TakeBytes(size.rest);
    if lo.Bad? then Bad else
    var hi := TakeBytes(lo.rest);
    if hi.Bad? then Bad else
    var entries := Uvarint(hi.rest);
    if entries.Bad? then Bad else
    var dead := Uvarint(entries.rest);
    if dead.Bad? || entries.value > MAX_INT64 || dead.value > MAX_INT64 then Bad else
    Took(TableInfo(num.value, depth.value, size.value, lo.value, hi.value, entries.value, dead.value), dead.rest)
  }

  /** One tagged field folded into the edit read so far; the end tag is not a field. */
  function TakeField(e: Edit, b: Bytes): (r: Take<Edit>)
    requires b != [] && b[0] != 0
    ensures r.Took? ==> |r.rest| < |b|
  {
    var tag, rest := b[0], b[1..];
    if tag == 1 then
      var v := Uvarint(rest);
      if e.identity || v.Bad? || v.value != VERSION then Bad else Took(e.(identity := true), v.rest)
    else if tag == 4 then
      var v := Uvarint(rest);
      if e.lastSeq.Some? || v.Bad? || v.value > Ikey.MAX_SEQ then Bad else Took(e.(lastSeq := Some(v.value)), v.rest)
    else if tag == 5 then
      var v := Uvarint(rest);
      if v.Bad? || v.value == 0 || v.value > MAX_UINT32 || e.replayLog != 0 then Bad else Took(e.(replayLog := v.value), v.rest)
    else if tag == 2 then
      var t := TakeTable(rest);
      if t.Bad? then Bad else Took(e.(added := e.added + [t.value]), t.rest)
    else if tag == 3 then
      var v := Uvarint(rest);
      if v.Bad? || v.value > MAX_UINT32 then Bad else Took(e.(deleted := e.deleted + [v.value]), v.rest)
    else if tag == 6 then
      var v := Uvarint(rest);
      if v.Bad? || v.value == 0 || v.value > MAX_UINT32 then Bad else
      var size := Uvarint(v.rest);
      if size.Bad? || size.value > MAX_INT64 then Bad
      else Took(e.(addedBlobs := e.addedBlobs + [BlobInfo(v.value, size.value)]), size.rest)
    else if tag == 7 then
      var v := Uvarint(rest);
      if v.Bad? || v.value == 0 || v.value > MAX_UINT32 then Bad else Took(e.(deletedBlobs := e.deletedBlobs + [v.value]), v.rest)
    else Bad
  }

  function DecodeFrom(e: Edit, b: Bytes): Option<Edit>
    decreases |b|
  {
    if b == [] then None
    else if b[0] == 0 then (if |b| == 1 then Some(e) else None)
    else
      var f := TakeField(e, b);
      if f.Bad? then None else DecodeFrom(f.value, f.rest)
  }

  /** decodeEdit. */
  method DecodeEdit(b: Bytes) returns (r: Option<Edit>)
    ensures r == DecodeFrom(EMPTY, b)
  {
    hide TakeField;
    var e, rest := EMPTY, b;
    while rest != []
      invariant DecodeFrom(EMPTY, b) == DecodeFrom(e, rest)
      decreases |rest|
    {
      if rest[0] == 0 {
        return if |rest| == 1 then Some(e) else None;
      }
      var f := TakeField(e, rest);
      if f.Bad? {
        return None;
      }
      e, rest := f.value, f.rest;
    }
    return None;
  }

  // ---------------------------------------------------------------------------
  // Round trip
  // ---------------------------------------------------------------------------

  predicate TableInRange(t: TableInfo) {
    && t.num <= MAX_UINT32 && t.depth <= MAX_INT64 && t.size <= MAX_INT64 && |t.minKey| <= MAX_UINT64 && |t.maxKey| <= MAX_UINT64
    && t.entries <= MAX_INT64 && t.tombstones <= MAX_INT64
  }

  predicate InRange(e: Edit) {
    && (e.lastSeq.Some? ==> e.lastSeq.value <= Ikey.MAX_SEQ) && e.replayLog <= MAX_UINT32
    && (forall i :: 0 <= i < |e.added| ==> TableInRange(e.added[i]))
    && (forall i :: 0 <= i < |e.deleted| ==> e.deleted[i] <= MAX_UINT32)
    && (forall i :: 0 <= i < |e.addedBlobs| ==> 0 < e.addedBlobs[i].num <= MAX_UINT32 && e.addedBlobs[i].size <= MAX_INT64)
    && (forall i :: 0 <= i < |e.deletedBlobs| ==> 0 < e.deletedBlobs[i] <= MAX_UINT32)
  }

  lemma TableRoundTrip(t: TableInfo, rest: Bytes)
    requires TableInRange(t)
    ensures TakeTable(PutTable(t) + rest) == Took(t, rest)
  {
    hide Uvarint, PutUvarint, TakeBytes, PutBytes;
    var r6 := PutUvarint(t.tombstones) + rest;
    var r5 := PutUvarint(t.entries) + r6;
    var r4 := PutBytes(t.maxKey) + r5;
    var r3 := PutBytes(t.minKey) + r4;
    var r2 := PutUvarint(t.size) + r3;
    var r1 := PutUvarint(t.depth) + r2;
    assert PutTable(t) + rest == PutUvarint(t.num) + r1;
    UvarintRoundTrip(t.num, r1);
    UvarintRoundTrip(t.depth, r2);
    UvarintRoundTrip(t.size, r3);
    BytesRoundTrip(t.minKey, r4);
    BytesRoundTrip(t.maxKey, r5);
    UvarintRoundTrip(t.entries, r6);
    UvarintRoundTrip(t.tombstones, rest);
  }

  lemma TableField(e: Edit, t: TableInfo, rest: Bytes)
    requires TableInRange(t)
    ensures TakeField(e, [2] + (PutTable(t) + rest)) == Took(e.(added := e.added + [t]), rest)
  {
    hide TakeTable, PutTable, TableInRange;
    TableRoundTrip(t, rest);
    assert ([2] + (PutTable(t) + rest))[1..] == PutTable(t) + rest;
  }

  lemma BlobField(e: Edit, b: BlobInfo, rest: Bytes)
    requires 0 < b.num <= MAX_UINT32 && b.size <= MAX_INT64
    ensures TakeField(e, [6] + (PutUvarint(b.num) + (PutUvarint(b.size) + rest))) == Took(e.(addedBlobs := e.addedBlobs + [b]), rest)
  {
    hide Uvarint, PutUvarint;
    var tail := PutUvarint(b.num) + (PutUvarint(b.size) + rest);
    assert ([6] + tail)[1..] == tail;
    UvarintRoundTrip(b.num, PutUvarint(b.size) + rest);
    UvarintRoundTrip(b.size, rest);
  }

  lemma {:induction false} AddsRoundTrip(e: Edit, ts: seq<TableInfo>, rest: Bytes)
    requires forall i :: 0 <= i < |ts| ==> TableInRange(ts[i])
    ensures DecodeFrom(e, PutAdds(ts) + rest) == DecodeFrom(e.(added := e.added + ts), rest)
    decreases |ts|
  {
    hide TakeField, PutTable, TableInRange;
    if ts == [] {
      assert PutAdds(ts) + rest == rest && e.added + ts == e.added;
    } else {
      var tail := PutAdds(ts[1..]) + rest;
      assert PutAdds(ts) + rest == [2] + (PutTable(ts[0]) + tail);
      TableField(e, ts[0], tail);
      AddsRoundTrip(e.(added := e.added + [ts[0]]), ts[1..], rest);
      assert e.added + [ts[0]] + ts[1..] == e.added + ts;
    }
  }

  lemma {:induction false} DeletesRoundTrip(e: Edit, ns: seq<nat>, rest: Bytes)
    requires forall i :: 0 <= i < |ns| ==> ns[i] <= MAX_UINT32
    ensures DecodeFrom(e, PutNums(3, ns) + rest) == DecodeFrom(e.(deleted := e.deleted + ns), rest)
    decreases |ns|
  {
    hide Uvarint, PutUvarint;
    if ns == [] {
      assert PutNums(3, ns) + rest == rest && e.deleted + ns == e.deleted;
    } else {
      var tail := PutNums(3, ns[1..]) + rest;
      var b := [3] + (PutUvarint(ns[0]) + tail);
      assert PutNums(3, ns) + rest == b;
      assert b[1..] == PutUvarint(ns[0]) + tail;
      UvarintRoundTrip(ns[0], tail);
      DeletesRoundTrip(e.(deleted := e.deleted + [ns[0]]), ns[1..], rest);
      assert e.deleted + [ns[0]] + ns[1..] == e.deleted + ns;
    }
  }

  lemma {:induction false} BlobDeletesRoundTrip(e: Edit, ns: seq<nat>, rest: Bytes)
    requires forall i :: 0 <= i < |ns| ==> 0 < ns[i] <= MAX_UINT32
    ensures DecodeFrom(e, PutNums(7, ns) + rest) == DecodeFrom(e.(deletedBlobs := e.deletedBlobs + ns), rest)
    decreases |ns|
  {
    hide Uvarint, PutUvarint;
    if ns == [] {
      assert PutNums(7, ns) + rest == rest && e.deletedBlobs + ns == e.deletedBlobs;
    } else {
      var tail := PutNums(7, ns[1..]) + rest;
      var b := [7] + (PutUvarint(ns[0]) + tail);
      assert PutNums(7, ns) + rest == b;
      assert b[1..] == PutUvarint(ns[0]) + tail;
      UvarintRoundTrip(ns[0], tail);
      BlobDeletesRoundTrip(e.(deletedBlobs := e.deletedBlobs + [ns[0]]), ns[1..], rest);
      assert e.deletedBlobs + [ns[0]] + ns[1..] == e.deletedBlobs + ns;
    }
  }

  lemma {:induction false} BlobsRoundTrip(e: Edit, bs: seq<BlobInfo>, rest: Bytes)
    requires forall i :: 0 <= i < |bs| ==> 0 < bs[i].num <= MAX_UINT32 && bs[i].size <= MAX_INT64
    ensures DecodeFrom(e, PutBlobs(bs) + rest) == DecodeFrom(e.(addedBlobs := e.addedBlobs + bs), rest)
    decreases |bs|
  {
    hide TakeField, PutUvarint;
    if bs == [] {
      assert PutBlobs(bs) + rest == rest && e.addedBlobs + bs == e.addedBlobs;
    } else {
      var tail := PutBlobs(bs[1..]) + rest;
      assert PutBlobs(bs) + rest == [6] + (PutUvarint(bs[0].num) + (PutUvarint(bs[0].size) + tail));
      BlobField(e, bs[0], tail);
      BlobsRoundTrip(e.(addedBlobs := e.addedBlobs + [bs[0]]), bs[1..], rest);
      assert e.addedBlobs + [bs[0]] + bs[1..] == e.addedBlobs + bs;
    }
  }

  function PutIdentity(e: Edit): Bytes {
    if e.identity then [1] + PutUvarint(VERSION) else []
  }

  function PutLastSeq(e: Edit): Bytes {
    if e.lastSeq.Some? then [4] + PutUvarint(e.lastSeq.value) else []
  }

  function PutReplayLog(e: Edit): Bytes {
    if e.replayLog != 0 then [5] + PutUvarint(e.replayLog) else []
  }

  lemma IdentityRoundTrip(e: Edit, rest: Bytes)
    ensures DecodeFrom(EMPTY, PutIdentity(e) + rest) == DecodeFrom(EMPTY.(identity := e.identity), rest)
  {
    hide Uvarint, PutUvarint;
    var b := PutIdentity(e) + rest;
    if e.identity {
      assert b[1..] == PutUvarint(VERSION) + rest;
      UvarintRoundTrip(VERSION, rest);
    } else {
      assert b == rest;
    }
  }

  lemma LastSeqRoundTrip(e: Edit, acc: Edit, rest: Bytes)
    requires InRange(e) && acc.lastSeq.None?
    ensures DecodeFrom(acc, PutLastSeq(e) + rest) == DecodeFrom(acc.(lastSeq := e.lastSeq), rest)
  {
    hide Uvarint, PutUvarint;
    var b := PutLastSeq(e) + rest;
    if e.lastSeq.Some? {
      assert b[1..] == PutUvarint(e.lastSeq.value) + rest;
      UvarintRoundTrip(e.lastSeq.value, rest);
    } else {
      assert b == rest && acc.(lastSeq := e.lastSeq) == acc;
    }
  }

  lemma ReplayLogRoundTrip(e: Edit, acc: Edit, rest: Bytes)
    requires InRange(e) && acc.replayLog == 0
    ensures DecodeFrom(acc, PutReplayLog(e) + rest) == DecodeFrom(acc.(replayLog := e.replayLog), rest)
  {
    hide Uvarint, PutUvarint;
    var b := PutReplayLog(e) + rest;
    if e.replayLog != 0 {
      assert b[1..] == PutUvarint(e.replayLog) + rest;
      UvarintRoundTrip(e.replayLog, rest);
    } else {
      assert b == rest && acc.(replayLog := e.replayLog) == acc;
    }
  }

  /** Every edit in range reads back as written. */
  lemma EditRoundTrip(e: Edit)
    requires InRange(e)
    ensures DecodeFrom(EMPTY, Encode(e)) == Some(e)
  {
    hide TakeField, PutAdds, PutNums, PutBlobs, PutIdentity, PutLastSeq, PutReplayLog, TableInRange, InRange;
    var r7 := PutNums(7, e.deletedBlobs) + [0];
    var r6 := PutBlobs(e.addedBlobs) + r7;
    var r5 := PutNums(3, e.deleted) + r6;
    var r4 := PutAdds(e.added) + r5;
    var r3 := PutReplayLog(e) + r4;
    var r2 := PutLastSeq(e) + r3;
    EncodeParts(PutIdentity(e), PutLastSeq(e), PutReplayLog(e), PutAdds(e.added), PutNums(3, e.deleted), PutBlobs(e.addedBlobs),
                PutNums(7, e.deletedBlobs), [0]);
    assert [] + e.added == e.added && [] + e.deleted == e.deleted && [] + e.addedBlobs == e.addedBlobs && [] + e.deletedBlobs == e.deletedBlobs;
    IdentityRoundTrip(e, r2);
    LastSeqRoundTrip(e, EMPTY.(identity := e.identity), r3);
    var e0 := EMPTY.(identity := e.identity, lastSeq := e.lastSeq);
    ReplayLogRoundTrip(e, e0, r4);
    InRangeParts(e);
    var e1 := e0.(replayLog := e.replayLog);
    AddsRoundTrip(e1, e.added, r5);
    var e2 := e1.(added := e.added);
    DeletesRoundTrip(e2, e.deleted, r6);
    var e3 := e2.(deleted := e.deleted);
    BlobsRoundTrip(e3, e.addedBlobs, r7);
    var e4 := e3.(addedBlobs := e.addedBlobs);
    BlobDeletesRoundTrip(e4, e.deletedBlobs, [0]);
    assert DecodeFrom(e, [0]) == Some(e);
  }

  lemma InRangeParts(e: Edit)
    requires InRange(e)
    ensures forall i :: 0 <= i < |e.added| ==> TableInRange(e.added[i])
    ensures forall i :: 0 <= i < |e.deleted| ==> e.deleted[i] <= MAX_UINT32
    ensures forall i :: 0 <= i < |e.addedBlobs| ==> 0 < e.addedBlobs[i].num <= MAX_UINT32 && e.addedBlobs[i].size <= MAX_INT64
    ensures forall i :: 0 <= i < |e.deletedBlobs| ==> 0 < e.deletedBlobs[i] <= MAX_UINT32
  {
  }

  lemma EncodeParts(a: Bytes, b: Bytes, c: Bytes, d: Bytes, e: Bytes, f: Bytes, g: Bytes, h: Bytes)
    ensures a + b + c + d + e + f + g + h == a + (b + (c + (d + (e + (f + (g + h))))))
  {
    assert a + b + c + d + e + f + g + h == a + b + c + d + e + f + (g + h);
    assert a + b + c + d + e + f + (g + h) == a + b + c + d + e + (f + (g + h));
    assert a + b + c + d + e + (f + (g + h)) == a + b + c + d + (e + (f + (g + h)));
    assert a + b + c + d + (e + (f + (g + h))) == a + b + c + (d + (e + (f + (g + h))));
    assert a + b + c + (d + (e + (f + (g + h)))) == a + b + (c + (d + (e + (f + (g + h)))));
  }

  // ---------------------------------------------------------------------------
  // Any record that decodes
  // ---------------------------------------------------------------------------

  lemma TableExtends(b: Bytes, x: Bytes)
    requires TakeTable(b).Took?
    ensures TakeTable(b + x) == Took(TakeTable(b).value, TakeTable(b).rest + x) && TableInRange(TakeTable(b).value)
  {
    hide TakeBytes, Uvarint;
    UvarintExtends(b, x);
    var depth := Uvarint(Uvarint(b).rest);
    UvarintExtends(Uvarint(b).rest, x);
    UvarintExtends(depth.rest, x);
    var lo := TakeBytes(Uvarint(depth.rest).rest);
    TakeBytesExtends(Uvarint(depth.rest).rest, x);
    TakeBytesExtends(lo.rest, x);
    var hi := TakeBytes(lo.rest);
    UvarintExtends(hi.rest, x);
    UvarintExtends(Uvarint(hi.rest).rest, x);
  }

  lemma FieldExtends(e: Edit, b: Bytes, x: Bytes)
    requires b != [] && b[0] != 0 && TakeField(e, b).Took?
    ensures TakeField(e, b + x) == Took(TakeField(e, b).value, TakeField(e, b).rest + x)
    ensures InRange(e) ==> InRange(TakeField(e, b).value)
  {
    hide TakeTable, Uvarint, TableInRange;
    var tag, rest := b[0], b[1..];
    assert (b + x)[1..] == rest + x;
    if tag == 2 {
      TableExtends(rest, x);
    } else {
      UvarintExtends(rest, x);
      if tag == 6 {
        UvarintExtends(Uvarint(rest).rest, x);
      }
    }
  }

  lemma {:induction false} DecodeExtends(e: Edit, b: Bytes, x: Bytes)
    requires DecodeFrom(e, b).Some?
    ensures x != [] ==> DecodeFrom(e, b + x) == None
    ensures InRange(e) ==> InRange(DecodeFrom(e, b).value)
    decreases |b|
  {
    hide TakeField, InRange;
    if b[0] != 0 {
      FieldExtends(e, b, x);
      DecodeExtends(TakeField(e, b).value, TakeField(e, b).rest, x);
    }
  }

  /** A second identity, another version, a second watermark, and a second or empty boundary are all refused. */
  lemma RefusedFields(e: Edit, v: nat, rest: Bytes)
    requires v <= MAX_UINT64
    ensures DecodeFrom(e, [1] + PutUvarint(v) + rest).Some? ==> v == 1 && !e.identity
    ensures DecodeFrom(e, [4] + PutUvarint(v) + rest).Some? ==> v <= Ikey.MAX_SEQ && e.lastSeq.None?
    ensures DecodeFrom(e, [5] + PutUvarint(v) + rest).Some? ==> 0 < v <= MAX_UINT32 && e.replayLog == 0
  {
    hide Uvarint, PutUvarint;
    UvarintRoundTrip(v, rest);
    forall tag: byte ensures ([tag] + PutUvarint(v) + rest)[1..] == PutUvarint(v) + rest {
    }
  }

  /** Whatever decodes is within bounds, so encoding it again gives a record of the same edit; and it decodes only whole. */
  lemma DecodedIsWhole(b: Bytes, x: Bytes)
    requires DecodeFrom(EMPTY, b).Some?
    ensures InRange(DecodeFrom(EMPTY, b).value)
    ensures DecodeFrom(EMPTY, Encode(DecodeFrom(EMPTY, b).value)) == DecodeFrom(EMPTY, b)
    ensures x != [] ==> DecodeFrom(EMPTY, b + x) == None
  {
    hide DecodeFrom, Encode;
    DecodeExtends(EMPTY, b, x);
    EditRoundTrip(DecodeFrom(EMPTY, b).value);
  }

  // ---------------------------------------------------------------------------
  // Replay
  // ---------------------------------------------------------------------------

  /** The state replay builds: what is live, and every number it has seen. */
  datatype Live = Live(
    identity: bool,
    lastSeq: nat,
    replayLog: nat,
    tables: map<nat, TableInfo>,
    seen: set<nat>,
    blobs: map<nat, BlobInfo>,
    seenBlobs: set<nat>)

  const FRESH: Live := Live(false, 0, 0, map[], {}, map[], {})

  function AddTables(st: Live, ts: seq<TableInfo>): Option<Live>
    decreases |ts|
  {
    if ts == [] then Some(st)
    else
      var t := ts[0];
      if t.num == 0 || t.num in st.seen then None
      else AddTables(st.(tables := st.tables[t.num := t], seen := st.seen + {t.num}), ts[1..])
  }

  function DropTables(st: Live, ns: seq<nat>): Option<Live>
    decreases |ns|
  {
    if ns == [] then Some(st)
    else if ns[0] !in st.tables then None
    else DropTables(st.(tables := st.tables - {ns[0]}), ns[1..])
  }

  function AddBlobs(st: Live, bs: seq<BlobInfo>): Option<Live>
    decreases |bs|
  {
    if bs == [] then Some(st)
    else if bs[0].num in st.seenBlobs then None
    else AddBlobs(st.(blobs := st.blobs[bs[0].num := bs[0]], seenBlobs := st.seenBlobs + {bs[0].num}), bs[1..])
  }

  function DropBlobs(st: Live, ns: seq<nat>): Option<Live>
    decreases |ns|
  {
    if ns == [] then Some(st)
    else if ns[0] !in st.blobs then None
    else DropBlobs(st.(blobs := st.blobs - {ns[0]}), ns[1..])
  }

  function ApplyEdit(st: Live, e: Edit): Option<Live> {
    if (e.identity && st.identity) || !(e.identity || st.identity) then None
    else if 0 < e.replayLog < st.replayLog then None
    else
      var st1 := st.(identity := true, lastSeq := if e.lastSeq.Some? then Max(st.lastSeq, e.lastSeq.value) else st.lastSeq,
                     replayLog := if e.replayLog != 0 then e.replayLog else st.replayLog);
      var st2 := AddTables(st1, e.added);
      if st2.None? then None else
      var st3 := DropTables(st2.value, e.deleted);
      if st3.None? then None else
      var st4 := AddBlobs(st3.value, e.addedBlobs);
      if st4.None? then None else DropBlobs(st4.value, e.deletedBlobs)
  }

  function Fold(st: Live, edits: seq<Edit>): Option<Live>
    decreases |edits|
  {
    if edits == [] then Some(st)
    else
      var next := ApplyEdit(st, edits[0]);
      if next.None? then None else Fold(next.value, edits[1..])
  }

  // ---------------------------------------------------------------------------
  // What replay means
  // ---------------------------------------------------------------------------

  /** The tables map names each table by its own number, and every live number has been seen. */
  ghost predicate LiveOk(st: Live) {
    forall n :: n in st.tables ==> st.tables[n].num == n && n in st.seen && n > 0
  }

  lemma {:induction false} AddTablesGives(st: Live, ts: seq<TableInfo>)
    requires LiveOk(st) && AddTables(st, ts).Some?
    ensures var r := AddTables(st, ts).value;
            && LiveOk(r) && r == st.(tables := r.tables, seen := r.seen)
            && st.seen <= r.seen && (forall t :: t in ts ==> t.num in r.seen && t.num !in st.seen)
            && (forall n :: n in r.tables <==> n in st.tables || exists t :: t in ts && t.num == n)
            && (forall n :: n in st.tables ==> r.tables[n] == st.tables[n])
            && (forall t :: t in ts ==> r.tables[t.num] == t)
    decreases |ts|
  {
    if ts != [] {
      var t := ts[0];
      var st1 := st.(tables := st.tables[t.num := t], seen := st.seen + {t.num});
      AddTablesGives(st1, ts[1..]);
      assert forall u :: u in ts <==> u == t || u in ts[1..];
    }
  }

  lemma {:induction false} DropTablesGives(st: Live, ns: seq<nat>)
    requires LiveOk(st) && DropTables(st, ns).Some?
    ensures var r := DropTables(st, ns).value;
            && LiveOk(r) && r == st.(tables := r.tables)
            && (forall n :: n in ns ==> n in st.tables)
            && (forall n :: n in r.tables <==> n in st.tables && n !in ns)
            && (forall n :: n in r.tables ==> r.tables[n] == st.tables[n])
    decreases |ns|
  {
    if ns != [] {
      DropTablesGives(st.(tables := st.tables - {ns[0]}), ns[1..]);
      assert forall n :: n in ns <==> n == ns[0] || n in ns[1..];
    }
  }

  lemma {:induction false} BlobsLeaveTables(st: Live, bs: seq<BlobInfo>)
    requires AddBlobs(st, bs).Some?
    ensures var r := AddBlobs(st, bs).value; r == st.(blobs := r.blobs, seenBlobs := r.seenBlobs)
    decreases |bs|
  {
    if bs != [] {
      BlobsLeaveTables(st.(blobs := st.blobs[bs[0].num := bs[0]], seenBlobs := st.seenBlobs + {bs[0].num}), bs[1..]);
    }
  }

  lemma {:induction false} BlobDropsLeaveTables(st: Live, ns: seq<nat>)
    requires DropBlobs(st, ns).Some?
    ensures var r := DropBlobs(st, ns).value; r == st.(blobs := r.blobs)
    decreases |ns|
  {
    if ns != [] {
      BlobDropsLeaveTables(st.(blobs := st.blobs - {ns[0]}), ns[1..]);
    }
  }

  /** One edit: its tables join, its deletions leave, and no number comes back. */
  lemma ApplyGives(st: Live, e: Edit)
    requires LiveOk(st) && ApplyEdit(st, e).Some?
    ensures var r := ApplyEdit(st, e).value;
            && LiveOk(r) && r.identity && st.seen <= r.seen
            && r.lastSeq == (if e.lastSeq.Some? then Max(st.lastSeq, e.lastSeq.value) else st.lastSeq)
            && r.replayLog == (if e.replayLog != 0 then e.replayLog else st.replayLog) && r.replayLog >= st.replayLog
            && (forall t :: t in e.added ==> t.num !in st.seen && t.num in r.seen)
            && (forall n :: n in e.deleted ==> n in r.seen && n !in r.tables)
            && (forall n :: n in r.tables <==> (n in st.tables || exists t :: t in e.added && t.num == n) && n !in e.deleted)
            && (forall n :: n in st.tables && n in r.tables ==> r.tables[n] == st.tables[n])
            && (forall t :: t in e.added && t.num in r.tables ==> r.tables[t.num] == t)
  {
    hide AddTables, DropTables, AddBlobs, DropBlobs;
    var st1 := st.(identity := true, lastSeq := if e.lastSeq.Some? then Max(st.lastSeq, e.lastSeq.value) else st.lastSeq,
                   replayLog := if e.replayLog != 0 then e.replayLog else st.replayLog);
    AddTablesGives(st1, e.added);
    var st2 := AddTables(st1, e.added).value;
    DropTablesGives(st2, e.deleted);
    var st3 := DropTables(st2, e.deleted).value;
    BlobsLeaveTables(st3, e.addedBlobs);
    BlobDropsLeaveTables(AddBlobs(st3, e.addedBlobs).value, e.deletedBlobs);
  }

  ghost predicate AddedBy(edits: seq<Edit>, n: nat) {
    exists i, t :: 0 <= i < |edits| && t in edits[i].added && t.num == n
  }

  ghost predicate DeletedBy(edits: seq<Edit>, n: nat) {
    exists i :: 0 <= i < |edits| && n in edits[i].deleted
  }

  lemma ByFirst(edits: seq<Edit>, n: nat)
    requires edits != []
    ensures AddedBy(edits, n) <==> (exists t :: t in edits[0].added && t.num == n) || AddedBy(edits[1..], n)
    ensures DeletedBy(edits, n) <==> n in edits[0].deleted || DeletedBy(edits[1..], n)
  {
    var rest := edits[1..];
    if AddedBy(rest, n) {
      var i, t :| 0 <= i < |rest| && t in rest[i].added && t.num == n;
      assert edits[i + 1] == rest[i];
    }
    if AddedBy(edits, n) {
      var i, t :| 0 <= i < |edits| && t in edits[i].added && t.num == n;
      if i > 0 {
        assert rest[i - 1] == edits[i];
      }
    }
    if DeletedBy(rest, n) {
      var i :| 0 <= i < |rest| && n in rest[i].deleted;
      assert edits[i + 1] == rest[i];
    }
    if DeletedBy(edits, n) {
      var i :| 0 <= i < |edits| && n in edits[i].deleted;
      if i > 0 {
        assert rest[i - 1] == edits[i];
      }
    }
  }

  /** Replay is set algebra: what was live or is added, less what is deleted. */
  lemma {:induction false} FoldGives(st: Live, edits: seq<Edit>, n: nat)
    requires LiveOk(st) && Fold(st, edits).Some?
    ensures var r := Fold(st, edits).value;
            && LiveOk(r) && (n in st.seen ==> n in r.seen && !AddedBy(edits, n))
            && (n in r.tables <==> (n in st.tables || AddedBy(edits, n)) && !DeletedBy(edits, n))
            && (n in r.tables && n in st.tables ==> r.tables[n] == st.tables[n])
            && r.lastSeq >= st.lastSeq && r.replayLog >= st.replayLog
    decreases |edits|
  {
    hide ApplyEdit, LiveOk, AddedBy, DeletedBy;
    if edits == [] {
      NoEdits(n);
      assert LiveOk(st);
    } else {
      ApplyGives(st, edits[0]);
      var next := ApplyEdit(st, edits[0]).value;
      FoldGives(next, edits[1..], n);
      ByFirst(edits, n);
      if n in next.tables {
        LiveIsSeen(next, n);
      }
      if n in st.tables {
        LiveIsSeen(st, n);
      }
    }
  }

  lemma LiveIsSeen(st: Live, n: nat)
    requires LiveOk(st) && n in st.tables
    ensures n in st.seen
  {
  }

  lemma NoEdits(n: nat)
    ensures !AddedBy([], n) && !DeletedBy([], n)
  {
  }

  /** A live number carries the table it was added with. */
  lemma {:induction false} AddedInfo(st: Live, edits: seq<Edit>, i: nat, t: TableInfo)
    requires LiveOk(st) && Fold(st, edits).Some? && i < |edits| && t in edits[i].added
    ensures t.num in Fold(st, edits).value.tables ==> Fold(st, edits).value.tables[t.num] == t
    decreases |edits|
  {
    hide ApplyEdit, LiveOk, AddedBy, DeletedBy;
    ApplyGives(st, edits[0]);
    var next := ApplyEdit(st, edits[0]).value;
    if i > 0 {
      assert edits[1..][i-1] == edits[i];
      AddedInfo(next, edits[1..], i - 1, t);
    } else {
      FoldGives(next, edits[1..], t.num);
    }
  }

  /** The live tables of a manifest are those some edit added and none deleted. */
  lemma ReplayIsAddedLessDeleted(edits: seq<Edit>, t: TableInfo)
    requires Fold(FRESH, edits).Some?
    ensures var live := Fold(FRESH, edits).value.tables;
            t.num in live && live[t.num] == t <==>
              (exists i :: 0 <= i < |edits| && t in edits[i].added) && forall i :: 0 <= i < |edits| ==> t.num !in edits[i].deleted
  {
    hide Fold;
    var live := Fold(FRESH, edits).value.tables;
    FoldGives(FRESH, edits, t.num);
    if i :| 0 <= i < |edits| && t in edits[i].added {
      AddedInfo(FRESH, edits, i, t);
    }
    if t.num in live && live[t.num] == t {
      var i, u :| 0 <= i < |edits| && u in edits[i].added && u.num == t.num;
      AddedInfo(FRESH, edits, i, u);
    }
  }

  // ---------------------------------------------------------------------------
  // Rotation
  // ---------------------------------------------------------------------------

  const IDENTITY: Edit := EMPTY.(identity := true)

  /** newManifestWithBaseline: the watermark, the boundary and every live table, in any order. */
  function Baseline(walSeq: nat, replayLog: nat, listing: seq<TableInfo>): Edit {
    EMPTY.(lastSeq := Some(walSeq), replayLog := replayLog, added := listing)
  }

  /** `listing` names each live table once. */
  ghost predicate Lists(listing: seq<TableInfo>, tables: map<nat, TableInfo>) {
    && (forall i :: 0 <= i < |listing| ==> listing[i].num in tables && tables[listing[i].num] == listing[i])
    && (forall n :: n in tables ==> tables[n] in listing)
    && (forall i, j :: 0 <= i < j < |listing| ==> listing[i].num != listing[j].num)
  }

  lemma {:induction false} AddsSucceed(st: Live, ts: seq<TableInfo>)
    requires forall i :: 0 <= i < |ts| ==> ts[i].num > 0 && ts[i].num !in st.seen
    requires forall i, j :: 0 <= i < j < |ts| ==> ts[i].num != ts[j].num
    ensures AddTables(st, ts).Some?
    decreases |ts|
  {
    if ts != [] {
      AddsSucceed(st.(tables := st.tables[ts[0].num := ts[0]], seen := st.seen + {ts[0].num}), ts[1..]);
    }
  }

  /** A rotated manifest replays to the same live tables and boundary, with the allocated watermark. */
  lemma RotationKeepsState(edits: seq<Edit>, listing: seq<TableInfo>, walSeq: nat)
    requires Fold(FRESH, edits).Some? && Fold(FRESH, edits).value.identity
    requires Lists(listing, Fold(FRESH, edits).value.tables)
    ensures var st := Fold(FRESH, edits).value;
            var r := Fold(FRESH, [IDENTITY, Baseline(walSeq, st.replayLog, listing)]);
            && r.Some? && r.value.identity && r.value.tables == st.tables && r.value.replayLog == st.replayLog
            && r.value.lastSeq == walSeq
  {
    hide Fold, AddTables;
    var st := Fold(FRESH, edits).value;
    FoldGives(FRESH, edits, 0);
    var base := Baseline(walSeq, st.replayLog, listing);
    var st1 := FRESH.(identity := true);
    NothingAdded(st1);
    assert ApplyEdit(FRESH, IDENTITY) == Some(st1);
    var st2 := st1.(lastSeq := walSeq, replayLog := st.replayLog);
    AddsSucceed(st2, listing);
    AddTablesGives(st2, listing);
    var st3 := AddTables(st2, listing).value;
    assert st3.tables == st.tables by {
      forall n ensures n in st3.tables <==> n in st.tables {
        if n in st.tables {
          assert st.tables[n] in listing;
        }
      }
    }
    assert ApplyEdit(st1, base) == Some(st3);
    TwoEdits(FRESH, IDENTITY, base);
  }

  lemma TwoEdits(st: Live, a: Edit, b: Edit)
    requires ApplyEdit(st, a).Some?
    ensures Fold(st, [a, b]) == ApplyEdit(ApplyEdit(st, a).value, b)
  {
    hide ApplyEdit;
    assert [a, b][1..] == [b];
    OneEdit(ApplyEdit(st, a).value, b);
  }

  lemma OneEdit(st: Live, b: Edit)
    ensures Fold(st, [b]) == ApplyEdit(st, b)
  {
    hide ApplyEdit;
    assert [b][1..] == [];
  }

  lemma NothingAdded(st: Live)
    ensures AddTables(st, []) == Some(st)
  {
  }
}
