/** The block that carries a table's range tombstones. */
module RangeDelBlock {
  import opened Bytes
  import opened Varint
  import opened Versions

  function PutDel(d: RangeDel): Bytes {
    PutBytes(d.start) + PutBytes(d.end) + PutUvarint(d.sqn)
  }

  function PutDels(ds: seq<RangeDel>): Bytes {
    if ds == [] then [] else PutDel(ds[0]) + PutDels(ds[1..])
  }

  /** encodeRangeDelBlock's bytes: a count, then the tombstones. */
  function Block(ds: seq<RangeDel>): Bytes {
    PutUvarint(|ds|) + PutDels(ds)
  }

  /** One tombstone off the front; an empty range is refused. */
  function TakeDel(b: Bytes): (r: Take<RangeDel>)
    ensures r.Took? ==> |r.rest| < |b| && r.value.WellFormed()
  {
    var s := TakeBytes(b);
    if s.Bad? then Bad else
    var e := TakeBytes(s.rest);
    if e.Bad? then Bad else
    var q := Uvarint(e.rest);
    if q.Bad? || !Lt(s.value, e.value) then Bad else Took(RangeDel(s.value, e.value, q.value), q.rest)
  }

  /** `count` tombstones and nothing after them, following those already read. */
  function TakeDels(b: Bytes, count: nat, had: seq<RangeDel>): (r: Option<seq<RangeDel>>)
    decreases count
  {
    if count == 0 then (if b == [] then Some(had) else None)
    else
      var d := TakeDel(b);
      if d.Bad? then None else TakeDels(d.rest, count - 1, had + [d.value])
  }

  function Parse(b: Bytes): Option<seq<RangeDel>> {
    var n := Uvarint(b);
    if n.Bad? || n.value > |n.rest| then None else TakeDels(n.rest, n.value, [])
  }

  predicate Storable(d: RangeDel) {
    d.WellFormed() && |d.start| <= MAX_UINT64 && |d.end| <= MAX_UINT64 && d.sqn <= MAX_UINT64
  }

  predicate AllStorable(ds: seq<RangeDel>) {
    |ds| <= MAX_UINT64 && forall i :: 0 <= i < |ds| ==> Storable(ds[i])
  }

  lemma DelReads(d: RangeDel, rest: Bytes)
    requires Storable(d)
    ensures TakeDel(PutDel(d) + rest) == Took(d, rest)
  {
    hide Uvarint, PutUvarint, TakeBytes, PutBytes;
    var r2 := PutUvarint(d.sqn) + rest;
    var r1 := PutBytes(d.end) + r2;
    assert PutDel(d) + rest == PutBytes(d.start) + r1;
    BytesRoundTrip(d.start, r1);
    BytesRoundTrip(d.end, r2);
    UvarintRoundTrip(d.sqn, rest);
  }

  lemma {:induction false} DelsRead(ds: seq<RangeDel>, had: seq<RangeDel>)
    requires AllStorable(ds)
    ensures |PutDels(ds)| >= |ds| && TakeDels(PutDels(ds), |ds|, had) == Some(had + ds)
    decreases |ds|
  {
    hide PutDel, TakeDel, Storable;
    if ds == [] {
      assert had + ds == had;
    } else {
      DelReads(ds[0], PutDels(ds[1..]));
      DelSome(ds[0]);
      DelsRead(ds[1..], had + [ds[0]]);
      assert had + [ds[0]] + ds[1..] == had + ds;
    }
  }

  lemma DelSome(d: RangeDel)
    ensures |PutDel(d)| > 0
  {
  }

  /** The block reads back as the tombstones it was made from. */
  lemma BlockRoundTrip(ds: seq<RangeDel>)
    requires AllStorable(ds)
    ensures Parse(Block(ds)) == Some(ds)
  {
    UvarintRoundTrip(|ds|, PutDels(ds));
    DelsRead(ds, []);
    assert [] + ds == ds;
  }

  method Encode(ds: seq<RangeDel>) returns (b: Bytes)
    ensures b == Block(ds)
  {
    hide PutDel, PutUvarint;
    b := PutUvarint(|ds|);
    for i := 0 to |ds|
      invariant b + PutDels(ds[i..]) == Block(ds)
    {
      assert ds[i..][0] == ds[i] && ds[i..][1..] == ds[i + 1..];
      assert b + (PutDel(ds[i]) + PutDels(ds[i + 1..])) == b + PutDel(ds[i]) + PutDels(ds[i + 1..]);
      b := b + PutDel(ds[i]);
    }
  }

  method Decode(b: Bytes) returns (r: Option<seq<RangeDel>>)
    ensures r == Parse(b)
    ensures r.Some? ==> forall i :: 0 <= i < |r.value| ==> r.value[i].WellFormed()
  {
    hide TakeDel, Uvarint;
    var n := Uvarint(b);
    if n.Bad? || n.value > |n.rest| {
      return None;
    }
    var out, rest := [], n.rest;
    for i := 0 to n.value
      invariant TakeDels(rest, n.value - i, out) == TakeDels(n.rest, n.value, [])
      invariant forall j :: 0 <= j < |out| ==> out[j].WellFormed()
    {
      var d := TakeDel(rest);
      if d.Bad? {
        return None;
      }
      out, rest := out + [d.value], d.rest;
    }
    return if rest == [] then Some(out) else None;
  }

  // ---------------------------------------------------------------------------
  // Any block that parses
  // ---------------------------------------------------------------------------

  lemma DelExtends(b: Bytes, x: Bytes)
    requires TakeDel(b).Took?
    ensures TakeDel(b + x) == Took(TakeDel(b).value, TakeDel(b).rest + x) && Storable(TakeDel(b).value)
  {
    hide TakeBytes, Uvarint, Lt;
    TakeBytesExtends(b, x);
    var s := TakeBytes(b);
    TakeBytesExtends(s.rest, x);
    UvarintExtends(TakeBytes(s.rest).rest, x);
    UvarintIff(TakeBytes(s.rest).rest);
  }

  lemma {:induction false} DelsExtend(b: Bytes, count: nat, had: seq<RangeDel>, x: Bytes)
    requires TakeDels(b, count, had).Some?
    ensures x != [] ==> TakeDels(b + x, count, had) == None
    ensures |TakeDels(b, count, had).value| == |had| + count
    ensures (forall d :: d in had ==> Storable(d)) ==> forall d :: d in TakeDels(b, count, had).value ==> Storable(d)
    decreases count
  {
    hide TakeDel, Storable;
    if count > 0 {
      DelExtends(b, x);
      DelsExtend(TakeDel(b).rest, count - 1, had + [TakeDel(b).value], x);
    }
  }

  /** Whatever parses is tombstones the format can carry, none of them empty; and it parses only whole. */
  lemma ParsedIsWhole(b: Bytes, x: Bytes)
    requires Parse(b).Some?
    ensures AllStorable(Parse(b).value) && Parse(Block(Parse(b).value)) == Parse(b)
    ensures x != [] ==> Parse(b + x) == None
  {
    hide TakeDels, Uvarint, Block, Storable;
    UvarintExtends(b, x);
    UvarintIff(b);
    DelsExtend(Uvarint(b).rest, Uvarint(b).value, [], x);
    BlockRoundTrip(Parse(b).value);
  }
}
