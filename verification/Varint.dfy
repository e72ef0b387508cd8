/** The integer and byte-string encodings the on-disk formats share. */
module Varint {
  import opened Bytes

  /** A value taken off the front of a byte string. */
  datatype Take<+T> = Bad | Took(value: T, rest: Bytes)

  function Pow2(n: nat): (p: nat)
    ensures p > 0
  {
    if n == 0 then 1 else 2 * Pow2(n - 1)
  }

  const MAX_UINT64: nat := 0xFFFF_FFFF_FFFF_FFFF
  const MAX_INT64: nat := 0x7FFF_FFFF_FFFF_FFFF

  /** binary.AppendUvarint: seven bits a byte, low first, the high bit marking more. */
  function PutUvarint(x: nat): (b: Bytes)
    ensures |b| > 0
  {
    if x < 128 then [x] else [x % 128 + 128] + PutUvarint(x / 128)
  }

  /** binary.Uvarint from its i-th byte on: at most ten bytes, and the tenth at most 1. */
  function UvarintFrom(b: Bytes, i: nat): (r: Take<nat>)
    ensures r.Took? ==> |r.rest| < |b|
    decreases |b|
  {
    if b == [] || i == 10 then Bad
    else if b[0] < 128 then (if i == 9 && b[0] > 1 then Bad else Took(b[0], b[1..]))
    else
      var r := UvarintFrom(b[1..], i + 1);
      if r.Bad? then Bad else Took(b[0] - 128 + 128 * r.value, r.rest)
  }

  function Uvarint(b: Bytes): (r: Take<nat>)
    ensures r.Took? ==> |r.rest| < |b|
  {
    UvarintFrom(b, 0)
  }

  lemma Pow2Seven(n: nat)
    ensures Pow2(n + 7) == 128 * Pow2(n)
  {
    assert Pow2(n + 7) == 2 * Pow2(n + 6) == 4 * Pow2(n + 5) == 8 * Pow2(n + 4);
    assert Pow2(n + 4) == 2 * Pow2(n + 3) == 4 * Pow2(n + 2) == 8 * Pow2(n + 1) == 16 * Pow2(n);
  }

  lemma {:induction false} UvarintFromPut(x: nat, rest: Bytes, i: nat)
    requires i <= 9 && x < Pow2(64 - 7 * i)
    ensures UvarintFrom(PutUvarint(x) + rest, i) == Took(x, rest)
  {
    var b := PutUvarint(x) + rest;
    if x < 128 {
      assert b[1..] == rest;
      if i == 9 {
        assert Pow2(1) == 2 * Pow2(0);
      }
    } else {
      assert i < 9 by {
        assert Pow2(1) == 2 * Pow2(0);
      }
      Pow2Seven(64 - 7 * (i + 1));
      UvarintFromPut(x / 128, rest, i + 1);
      assert b[1..] == PutUvarint(x / 128) + rest;
    }
  }

  lemma Pow2Of64()
    ensures Pow2(64) == MAX_UINT64 + 1
  {
    hide Pow2;
    Pow2Seven(57);
    Pow2Seven(50);
    Pow2Seven(43);
    Pow2Seven(36);
    Pow2Seven(29);
    Pow2Seven(22);
    Pow2Seven(15);
    Pow2Seven(8);
    Pow2Seven(1);
    Pow2One();
  }

  lemma Pow2One()
    ensures Pow2(1) == 2
  {
    assert Pow2(1) == 2 * Pow2(0);
  }

  /** Every 64-bit value reads back, whatever follows it. */
  lemma UvarintRoundTrip(x: nat, rest: Bytes)
    requires x <= MAX_UINT64
    ensures Uvarint(PutUvarint(x) + rest) == Took(x, rest)
  {
    Pow2Of64();
    UvarintFromPut(x, rest, 0);
  }

  /** What an accepted encoding is worth: seven bits of each byte, low first, up to the one without the high bit. */
  function Worth(b: Bytes, k: nat): nat
    requires k < |b|
    decreases k
  {
    if k == 0 then b[0] as int % 128 else b[0] as int % 128 + 128 * Worth(b[1..], k - 1)
  }

  /** The encoding ends at byte `k`: the first below 128, at most the tenth, which may only be 0 or 1. */
  ghost predicate EndsAt(b: Bytes, i: nat, k: int) {
    && 0 <= k < |b| && i + k < 10 && b[k] < 128 && (i + k == 9 ==> b[k] <= 1)
    && forall j :: 0 <= j < k ==> b[j] >= 128
  }

  /** Reading succeeds exactly on such bytes, and its value fits 64 bits. */
  lemma {:induction false} UvarintFromIff(b: Bytes, i: nat)
    requires i <= 10
    ensures UvarintFrom(b, i).Took? <==> exists k :: EndsAt(b, i, k)
    ensures forall k :: EndsAt(b, i, k) ==> UvarintFrom(b, i) == Took(Worth(b, k), b[k + 1..])
    ensures UvarintFrom(b, i).Took? ==> i < 10 && UvarintFrom(b, i).value < Pow2(64 - 7 * i)
    decreases |b|
  {
    if b != [] && i < 10 {
      var r := UvarintFrom(b, i);
      if b[0] < 128 {
        if r.Took? {
          assert EndsAt(b, i, 0);
          SmallFits(b[0], i);
        }
      } else {
        var rest, next := b[1..], i + 1;
        UvarintFromIff(rest, next);
        if k :| EndsAt(rest, next, k) {
          LaterEnd(b, i, k + 1);
          if i < 9 {
            Pow2Seven(64 - 7 * (i + 1));
          }
        }
        forall k | EndsAt(b, i, k) ensures r == Took(Worth(b, k), b[k + 1..]) {
          LaterEnd(b, i, k);
          assert b[1..][k..] == b[k + 1..];
        }
      }
    }
  }

  lemma SmallFits(x: byte, i: nat)
    requires x < 128 && i < 10 && (i == 9 ==> x <= 1)
    ensures x < Pow2(64 - 7 * i)
  {
    assert Pow2(1) == 2 * Pow2(0);
    if i < 9 {
      Pow2Seven(64 - 7 * (i + 1));
    }
  }

  lemma LaterEnd(b: Bytes, i: nat, k: int)
    requires b != [] && b[0] >= 128
    ensures EndsAt(b, i, k) <==> EndsAt(b[1..], i + 1, k - 1)
  {
    if EndsAt(b[1..], i + 1, k - 1) {
      forall j | 0 <= j < k ensures b[j] >= 128 {
        assert j > 0 ==> b[j] == b[1..][j - 1];
      }
    }
  }

  lemma UvarintIff(b: Bytes)
    ensures Uvarint(b).Took? <==> exists k :: EndsAt(b, 0, k)
    ensures forall k :: EndsAt(b, 0, k) ==> Uvarint(b) == Took(Worth(b, k), b[k + 1..])
    ensures Uvarint(b).Took? ==> Uvarint(b).value <= MAX_UINT64
  {
    Pow2Of64();
    UvarintFromIff(b, 0);
  }

  /** binary.AppendVarint: zig-zag, so small negative values stay small. */
  function ZigZag(x: int): nat {
    if x >= 0 then 2 * x else -2 * x - 1
  }

  function UnZigZag(u: nat): int {
    if u % 2 == 0 then u / 2 else -(u / 2) - 1
  }

  function PutVarint(x: int): Bytes {
    PutUvarint(ZigZag(x))
  }

  function Varint(b: Bytes): (r: Take<int>)
    ensures r.Took? ==> |r.rest| < |b|
  {
    var u := Uvarint(b);
    if u.Bad? then Bad else Took(UnZigZag(u.value), u.rest)
  }

  lemma VarintRoundTrip(x: int, rest: Bytes)
    requires -(MAX_INT64 + 1) <= x <= MAX_INT64
    ensures Varint(PutVarint(x) + rest) == Took(x, rest)
  {
    UvarintRoundTrip(ZigZag(x), rest);
  }

  /** `n` little-endian bytes. */
  function PutLe(x: nat, n: nat): (b: Bytes)
    ensures |b| == n
    decreases n
  {
    if n == 0 then [] else [x % 256] + PutLe(x / 256, n - 1)
  }

  function FromLe(b: Bytes): nat {
    if b == [] then 0 else b[0] + 256 * FromLe(b[1..])
  }

  lemma {:induction false} LeRoundTrip(x: nat, n: nat)
    requires x < Pow2(8 * n)
    ensures FromLe(PutLe(x, n)) == x
    decreases n
  {
    if n > 0 {
      Pow2Eight(8 * (n - 1));
      LeRoundTrip(x / 256, n - 1);
      assert PutLe(x, n)[1..] == PutLe(x / 256, n - 1);
    }
  }

  lemma Pow2Eight(n: nat)
    ensures Pow2(n + 8) == 256 * Pow2(n)
  {
    Pow2Seven(n + 1);
    assert Pow2(n + 1) == 2 * Pow2(n);
  }

  /** A length-prefixed byte string. */
  function PutBytes(v: Bytes): Bytes {
    PutUvarint(|v|) + v
  }

  /** readBytes. */
  function TakeBytes(b: Bytes): (r: Take<Bytes>)
    ensures r.Took? ==> |r.rest| < |b|
  {
    var n := Uvarint(b);
    if n.Bad? || |n.rest| < n.value then Bad else Took(n.rest[..n.value], n.rest[n.value..])
  }

  lemma BytesRoundTrip(v: Bytes, rest: Bytes)
    requires |v| <= MAX_UINT64
    ensures TakeBytes(PutBytes(v) + rest) == Took(v, rest)
  {
    UvarintRoundTrip(|v|, v + rest);
    assert PutBytes(v) + rest == PutUvarint(|v|) + (v + rest);
  }

  // ---------------------------------------------------------------------------
  // Whatever reads, reads the same with more behind it
  // ---------------------------------------------------------------------------

  lemma {:induction false} UvarintFromExtends(b: Bytes, x: Bytes, i: nat)
    requires UvarintFrom(b, i).Took?
    ensures UvarintFrom(b + x, i) == Took(UvarintFrom(b, i).value, UvarintFrom(b, i).rest + x)
    decreases |b|
  {
    assert (b + x)[1..] == b[1..] + x;
    if b[0] >= 128 {
      UvarintFromExtends(b[1..], x, i + 1);
    }
  }

  lemma UvarintExtends(b: Bytes, x: Bytes)
    requires Uvarint(b).Took?
    ensures Uvarint(b + x) == Took(Uvarint(b).value, Uvarint(b).rest + x)
  {
    UvarintFromExtends(b, x, 0);
  }

  lemma TakeBytesExtends(b: Bytes, x: Bytes)
    requires TakeBytes(b).Took?
    ensures TakeBytes(b + x) == Took(TakeBytes(b).value, TakeBytes(b).rest + x)
    ensures |TakeBytes(b).value| <= MAX_UINT64
  {
    hide Uvarint;
    UvarintExtends(b, x);
    UvarintIff(b);
    var n := Uvarint(b);
    assert (n.rest + x)[..n.value] == n.rest[..n.value] && (n.rest + x)[n.value..] == n.rest[n.value..] + x;
  }

  /** A signed value read is within 64 bits. */
  lemma VarintFits(b: Bytes)
    requires Varint(b).Took?
    ensures -(MAX_INT64 + 1) <= Varint(b).value <= MAX_INT64
  {
    hide Uvarint;
    UvarintIff(b);
  }

  /** Eight bytes read as a signed word: zero, or past the largest. */
  lemma SignBit(b: Bytes)
    requires |b| == 8
    ensures b == Zeros(8) ==> FromLe(b) == 0
    ensures b[7] >= 128 ==> FromLe(b) > MAX_INT64
  {
    hide FromLe;
    LeSplits(b);
    LeSplits(b[1..]);
    LeSplits(b[2..]);
    LeSplits(b[3..]);
    LeSplits(b[4..]);
    LeSplits(b[5..]);
    LeSplits(b[6..]);
    LeSplits(b[7..]);
    assert FromLe(b[8..]) == 0 by { LeEmpty(); }
  }

  lemma LeSplits(b: Bytes)
    requires b != []
    ensures FromLe(b) == b[0] + 256 * FromLe(b[1..])
  {
  }

  lemma LeEmpty()
    ensures FromLe([]) == 0
  {
  }
}
