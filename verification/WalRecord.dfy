/** One write-ahead-log record: a batch of mutations with consecutive sequences. */
module WalRecord {
  import opened Bytes
  import opened Varint

  datatype Mutation =
    | Put(key: Bytes, value: Bytes)
    | Delete(key: Bytes)
    | PutTtl(key: Bytes, value: Bytes, expiresAt: int)
    | RangeDelete(key: Bytes, end: Bytes)

  function KindOf(m: Mutation): byte {
    match m
    case Put(_, _) => 0
    case Delete(_) => 1
    case PutTtl(_, _, _) => 2
    case RangeDelete(_, _) => 3
  }

  function PutEntry(m: Mutation): (b: Bytes)
    ensures |b| > 0
  {
    [KindOf(m)] + PutBytes(m.key)
    + match m
      case Put(_, v) => PutBytes(v)
      case Delete(_) => []
      case PutTtl(_, v, x) => PutVarint(x) + PutBytes(v)
      case RangeDelete(_, e) => PutBytes(e)
  }

  function PutEntries(ms: seq<Mutation>): (b: Bytes)
    ensures |b| >= |ms|
  {
    if ms == [] then [] else PutEntry(ms[0]) + PutEntries(ms[1..])
  }

  function Encode(base: nat, ms: seq<Mutation>): Bytes {
    PutLe(base, 8) + PutUvarint(|ms|) + PutEntries(ms)
  }

  function TakeEntry(b: Bytes): (r: Take<Mutation>)
    ensures r.Took? ==> |r.rest| < |b|
  {
    if b == [] || b[0] > 3 then Bad
    else
      var k := TakeBytes(b[1..]);
      if k.Bad? then Bad
      else if b[0] == 1 then Took(Delete(k.value), k.rest)
      else if b[0] == 2 then
        var x := Varint.Varint(k.rest);
        if x.Bad? || x.value <= 0 then Bad
        else
          var v := TakeBytes(x.rest);
          if v.Bad? then Bad else Took(PutTtl(k.value, v.value, x.value), v.rest)
      else
        var v := TakeBytes(k.rest);
        if v.Bad? then Bad
        else Took(if b[0] == 0 then Put(k.value, v.value) else RangeDelete(k.value, v.value), v.rest)
  }

  function TakeEntries(b: Bytes, n: nat): Take<seq<Mutation>>
    decreases n
  {
    if n == 0 then Took([], b)
    else
      var m := TakeEntry(b);
      if m.Bad? then Bad
      else
        var ms := TakeEntries(m.rest, n - 1);
        if ms.Bad? then Bad else Took([m.value] + ms.value, ms.rest)
  }

  datatype Batch = Batch(base: nat, ops: seq<Mutation>)

  /** What a record means, if it is one. */
  function Decode(rec: Bytes): Option<Batch> {
    if |rec| < 8 then None
    else
      var base, count := FromLe(rec[..8]), Uvarint(rec[8..]);
      if count.Bad? || count.value > |count.rest| then None
      else if count.value > 0 && base > MAX_UINT64 - (count.value - 1) then None
      else
        var ms := TakeEntries(count.rest, count.value);
        if ms.Bad? || ms.rest != [] then None else Some(Batch(base, ms.value))
  }

  /** A deadline is positive and, like every length, fits its machine word. */
  predicate InRange(m: Mutation) {
    && |m.key| <= MAX_UINT64
    && match m
       case Put(_, v) => |v| <= MAX_UINT64
       case Delete(_) => true
       case PutTtl(_, v, x) => |v| <= MAX_UINT64 && 0 < x <= MAX_INT64
       case RangeDelete(_, e) => |e| <= MAX_UINT64
  }

  lemma EntryRoundTrip(m: Mutation, rest: Bytes)
    requires InRange(m)
    ensures TakeEntry(PutEntry(m) + rest) == Took(m, rest)
  {
    hide TakeBytes, PutBytes, Varint.Varint, PutVarint;
    var b := PutEntry(m) + rest;
    var tail := match m
      case Put(_, v) => PutBytes(v)
      case Delete(_) => []
      case PutTtl(_, v, x) => PutVarint(x) + PutBytes(v)
      case RangeDelete(_, e) => PutBytes(e);
    assert b[1..] == PutBytes(m.key) + (tail + rest);
    BytesRoundTrip(m.key, tail + rest);
    match m
    case Put(_, v) => BytesRoundTrip(v, rest);
    case Delete(_) => assert tail + rest == rest;
    case PutTtl(_, v, x) =>
      VarintRoundTrip(x, PutBytes(v) + rest);
      assert tail + rest == PutVarint(x) + (PutBytes(v) + rest);
      BytesRoundTrip(v, rest);
    case RangeDelete(_, e) => BytesRoundTrip(e, rest);
  }

  lemma {:induction false} EntriesRoundTrip(ms: seq<Mutation>, rest: Bytes)
    requires forall i :: 0 <= i < |ms| ==> InRange(ms[i])
    ensures TakeEntries(PutEntries(ms) + rest, |ms|) == Took(ms, rest)
  {
    hide TakeEntry, PutEntry, InRange;
    if ms == [] {
      assert PutEntries(ms) + rest == rest;
    } else {
      EntryRoundTrip(ms[0], PutEntries(ms[1..]) + rest);
      EntriesRoundTrip(ms[1..], rest);
      assert PutEntries(ms) + rest == PutEntry(ms[0]) + (PutEntries(ms[1..]) + rest);
      assert [ms[0]] + ms[1..] == ms;
    }
  }

  /** Every batch in range reads back whole. */
  lemma BatchRoundTrip(base: nat, ms: seq<Mutation>)
    requires base + |ms| <= MAX_UINT64 + 1 && base <= MAX_UINT64 && |ms| <= MAX_UINT64
    requires forall i :: 0 <= i < |ms| ==> InRange(ms[i])
    ensures Decode(Encode(base, ms)) == Some(Batch(base, ms))
  {
    hide TakeEntries, PutEntries, PutLe, FromLe, Uvarint, PutUvarint, InRange;
    var rec := Encode(base, ms);
    var tail := PutUvarint(|ms|) + PutEntries(ms);
    assert rec == PutLe(base, 8) + tail;
    assert rec[..8] == PutLe(base, 8) && rec[8..] == tail;
    Pow2Of64();
    LeRoundTrip(base, 8);
    UvarintRoundTrip(|ms|, PutEntries(ms));
    EntriesRoundTrip(ms, []);
    assert PutEntries(ms) + [] == PutEntries(ms);
  }

  /** encodeBatch. */
  method EncodeBatch(base: nat, ms: seq<Mutation>) returns (dst: Bytes)
    ensures dst == Encode(base, ms)
  {
    hide PutEntry, PutLe, PutUvarint;
    dst := PutLe(base, 8) + PutUvarint(|ms|);
    ghost var head := dst;
    for i := 0 to |ms|
      invariant dst + PutEntries(ms[i..]) == Encode(base, ms)
    {
      assert ms[i..][0] == ms[i] && ms[i..][1..] == ms[i + 1..];
      dst := dst + PutEntry(ms[i]);
    }
    assert PutEntries(ms[|ms|..]) == [];
  }

  /** Having taken `ops`, what is left to take completes what was wanted. */
  ghost predicate Resumes(want: Take<seq<Mutation>>, ops: seq<Mutation>, left: Take<seq<Mutation>>) {
    if left.Bad? then want.Bad? else want == Took(ops + left.value, left.rest)
  }

  lemma ResumesAtStart(want: Take<seq<Mutation>>)
    ensures Resumes(want, [], want)
  {
    if want.Took? {
      assert [] + want.value == want.value;
    }
  }

  lemma ResumesNext(want: Take<seq<Mutation>>, ops: seq<Mutation>, m: Mutation, left: Take<seq<Mutation>>)
    requires Resumes(want, ops, if left.Bad? then Bad else Took([m] + left.value, left.rest))
    ensures Resumes(want, ops + [m], left)
  {
    if left.Took? {
      assert ops + ([m] + left.value) == ops + [m] + left.value;
    }
  }

  /** decodeBatch. */
  method DecodeBatch(rec: Bytes) returns (r: Option<Batch>)
    ensures r == Decode(rec)
  {
    hide TakeEntry, FromLe, Uvarint;
    if |rec| < 8 {
      return None;
    }
    var base, count := FromLe(rec[..8]), Uvarint(rec[8..]);
    if count.Bad? || count.value > |count.rest| {
      return None;
    }
    if count.value > 0 && base > MAX_UINT64 - (count.value - 1) {
      return None;
    }
    var rest, ops := count.rest, [];
    ghost var want := TakeEntries(count.rest, count.value);
    assert Resumes(want, ops, want) by { ResumesAtStart(want); }
    for i := 0 to count.value
      invariant Resumes(want, ops, TakeEntries(rest, count.value - i))
    {
      var m := TakeEntry(rest);
      if m.Bad? {
        return None;
      }
      ResumesNext(want, ops, m.value, TakeEntries(m.rest, count.value - i - 1));
      rest, ops := m.rest, ops + [m.value];
    }
    assert want == Took(ops, rest) by { assert ops + [] == ops; }
    r := if rest != [] then None else Some(Batch(base, ops));
  }

  // ---------------------------------------------------------------------------
  // Any record that decodes
  // ---------------------------------------------------------------------------

  lemma EntryExtends(b: Bytes, x: Bytes)
    requires TakeEntry(b).Took?
    ensures TakeEntry(b + x) == Took(TakeEntry(b).value, TakeEntry(b).rest + x) && InRange(TakeEntry(b).value)
  {
    hide TakeBytes, Uvarint;
    assert (b + x)[1..] == b[1..] + x;
    TakeBytesExtends(b[1..], x);
    var k := TakeBytes(b[1..]);
    if b[0] == 2 {
      UvarintExtends(k.rest, x);
      VarintFits(k.rest);
      TakeBytesExtends(Varint.Varint(k.rest).rest, x);
    } else if b[0] != 1 {
      TakeBytesExtends(k.rest, x);
    }
  }

  lemma {:induction false} EntriesExtend(b: Bytes, n: nat, x: Bytes)
    requires TakeEntries(b, n).Took?
    ensures TakeEntries(b + x, n) == Took(TakeEntries(b, n).value, TakeEntries(b, n).rest + x)
    ensures |TakeEntries(b, n).value| == n && forall i :: 0 <= i < n ==> InRange(TakeEntries(b, n).value[i])
    decreases n
  {
    hide TakeEntry, InRange;
    if n > 0 {
      EntryExtends(b, x);
      EntriesExtend(TakeEntry(b).rest, n - 1, x);
    }
  }

  lemma {:induction false} LeFits(b: Bytes)
    ensures FromLe(b) < Pow2(8 * |b|)
    decreases |b|
  {
    if b != [] {
      LeFits(b[1..]);
      Pow2Eight(8 * (|b| - 1));
    }
  }

  /** Whatever decodes is a batch the log can carry, so encoding it again gives a record of the same batch; and it decodes
      only whole: with anything behind it, it is no record. */
  lemma DecodedIsWhole(rec: Bytes, x: Bytes)
    requires Decode(rec).Some?
    ensures var b := Decode(rec).value;
            && b.base + |b.ops| <= MAX_UINT64 + 1 && b.base <= MAX_UINT64 && (forall i :: 0 <= i < |b.ops| ==> InRange(b.ops[i]))
            && Decode(Encode(b.base, b.ops)) == Some(b)
    ensures x != [] ==> Decode(rec + x) == None
  {
    hide TakeEntries, Uvarint, FromLe, Encode, InRange;
    var count := Uvarint(rec[8..]);
    assert (rec + x)[..8] == rec[..8] && (rec + x)[8..] == rec[8..] + x;
    UvarintExtends(rec[8..], x);
    UvarintIff(rec[8..]);
    EntriesExtend(count.rest, count.value, x);
    LeFits(rec[..8]);
    Pow2Of64();
    var b := Decode(rec).value;
    BatchRoundTrip(b.base, b.ops);
  }
}
