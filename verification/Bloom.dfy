/** The Bloom filter of a table: a miss is definite. */
module Bloom {
  import opened Bytes
  import opened Varint

  const WORD: nat := 0x1_0000_0000

  /** Bit `j` of `b`. */
  predicate BitOf(b: nat, j: nat) {
    if j == 0 then b % 2 == 1 else BitOf(b / 2, j - 1)
  }

  /** b | 1<<j, among `n` bits. */
  function SetBit(b: nat, j: nat, n: nat): (r: nat)
    requires j < n && b < Pow2(n)
    ensures r < Pow2(n)
  {
    var half := Pow2(n - 1);
    assert Pow2(n) == 2 * half && b / 2 < half;
    if j == 0 then (if b % 2 == 1 then b else b + 1)
    else
      var r := SetBit(b / 2, j - 1, n - 1);
      2 * r + b % 2
  }

  lemma {:induction false} SetBitSets(b: nat, j: nat, n: nat, k: nat)
    requires j < n && b < Pow2(n)
    ensures BitOf(SetBit(b, j, n), k) <==> k == j || BitOf(b, k)
    decreases j
  {
    if j > 0 && k > 0 {
      SetBitSets(b / 2, j - 1, n - 1, k - 1);
    }
  }

  /** b | 1<<j for a byte. */
  function Mark(b: byte, j: nat): byte
    requires j < 8
  {
    assert Pow2(8) == 256 by { PowEight(); }
    SetBit(b, j, 8)
  }

  lemma PowEight()
    ensures Pow2(8) == 256
  {
    assert Pow2(4) == 16;
    assert Pow2(8) == 16 * Pow2(4);
  }

  lemma MarkSets(b: byte, j: nat, k: nat)
    requires j < 8
    ensures BitOf(Mark(b, j), k) <==> k == j || BitOf(b, k)
  {
    PowEight();
    SetBitSets(b, j, 8, k);
  }

  /** A power of two. */
  predicate Power(n: nat) {
    n == 1 || (n > 1 && n % 2 == 0 && Power(n / 2))
  }

  /** 1 << bits.Len(n) for n that is not a power of two: the next power up. */
  function PowerAtLeast(n: nat): (p: nat)
    ensures Power(p) && p >= n && (n > 1 ==> p < 2 * n)
  {
    if n <= 1 then 1 else 2 * PowerAtLeast((n + 1) / 2)
  }

  /** pow2Bytes. */
  function Pow2Bytes(minBits: nat): (n: nat)
    ensures Power(n) && n >= 8 && 8 * n >= minBits
  {
    var nbytes := (minBits + 7) / 8;
    PowerAtLeast(if nbytes < 8 then 8 else nbytes)
  }

  /** The second hash: a 15-bit rotation. */
  function Delta(h: nat): nat
    requires h < WORD
  {
    h % 0x2_0000 * 0x8000 + h / 0x2_0000
  }

  /** It is the hash with its top 17 bits and its low 15 changed about: rotated again by the other 17 it is the hash. */
  lemma DeltaRotates(h: nat)
    requires h < WORD
    ensures Delta(h) < WORD && Delta(h) / 0x8000 == h % 0x2_0000 && Delta(h) % 0x8000 == h / 0x2_0000
    ensures Delta(h) % 0x8000 * 0x2_0000 + Delta(h) / 0x8000 == h
  {
  }

  function Probes(bitsPerKey: nat): (k: nat)
    ensures 1 <= k <= 30
  {
    var k := (69 * bitsPerKey + 50) / 100;
    if k < 1 then 1 else if k > 30 then 30 else k
  }

  /** As near 0.69 probes for each bit of a key as a whole number gets, but at least one and at most thirty. */
  lemma ProbesNear(bitsPerKey: nat)
    ensures var k := Probes(bitsPerKey);
            if bitsPerKey == 0 then k == 1 else if bitsPerKey >= 44 then k == 30 else -50 <= 69 * bitsPerKey - 100 * k < 50 || k == 30
  {
  }

  /** Where probe `i` of hash `h` falls in a filter of `nbits` bits. */
  function Probe(h: nat, i: nat, nbits: nat): (p: nat)
    requires h < WORD && nbits > 0
    ensures p < nbits
  {
    (h + i * Delta(h)) % WORD % nbits
  }

  predicate Bit(filter: Bytes, p: nat) {
    p / 8 < |filter| && BitOf(filter[p / 8], p % 8)
  }

  /** Every probe of `h` finds its bit set. */
  ghost predicate Covers(bits: Bytes, k: nat, h: nat)
    requires h < WORD && |bits| > 0
  {
    forall i {:trigger Probe(h, i, 8 * |bits|)} :: 0 <= i < k ==> Bit(bits, Probe(h, i, 8 * |bits|))
  }

  /** What validateBloomFilter demands. */
  predicate WellFormed(filter: Bytes) {
    |filter| >= 9 && Power(|filter| - 1) && 1 <= filter[|filter| - 1] <= 30
  }

  /** An accepted filter is a power of two of at least eight bytes, and then a probe count from one to thirty. */
  lemma WellFormedIff(filter: Bytes)
    ensures WellFormed(filter) <==> (exists e: nat :: e >= 3 && |filter| == Pow2(e) + 1) && 1 <= filter[|filter| - 1] <= 30
  {
    if |filter| > 0 {
      PowerIff(|filter| - 1);
      forall e: nat | |filter| - 1 == Pow2(e) ensures e >= 3 <==> |filter| >= 9 {
        PowSmall(e);
      }
    }
  }

  lemma PowerIff(n: nat)
    ensures Power(n) <==> exists e: nat :: n == Pow2(e)
  {
    if Power(n) {
      var e := Exponent(n);
    }
    if e: nat :| n == Pow2(e) {
      PowIsPower(e);
    }
  }

  lemma {:induction false} Exponent(n: nat) returns (e: nat)
    requires Power(n)
    ensures n == Pow2(e)
    decreases n
  {
    if n == 1 {
      e := 0;
    } else {
      e := Exponent(n / 2);
      e := e + 1;
    }
  }

  lemma {:induction false} PowIsPower(e: nat)
    ensures Power(Pow2(e))
    decreases e
  {
    if e > 0 {
      PowIsPower(e - 1);
    }
  }

  lemma PowSmall(e: nat)
    ensures e >= 3 <==> Pow2(e) >= 8
  {
    if e >= 3 {
      PowGrows(3, e);
    }
  }

  lemma {:induction false} PowGrows(a: nat, b: nat)
    requires a <= b
    ensures Pow2(a) <= Pow2(b)
    decreases b
  {
    if a < b {
      PowGrows(a, b - 1);
    }
  }

  lemma StepMod(h: nat, d: nat, i: nat, x: nat)
    requires x == (h + i * d) % WORD
    ensures (x + d) % WORD == (h + (i + 1) * d) % WORD
  {
    assert (i + 1) * d == i * d + d;
  }

  /** build: one key's probes. */
  method SetProbes(bits: Bytes, h: nat, k: nat) returns (out: Bytes)
    requires h < WORD && |bits| > 0
    ensures |out| == |bits| && Covers(out, k, h)
    ensures forall p: nat :: Bit(bits, p) ==> Bit(out, p)
  {
    hide Delta, Mark, BitOf;
    out := bits;
    var x := h;
    for i := 0 to k
      invariant |out| == |bits| && x == (h + i * Delta(h)) % WORD
      invariant forall p: nat :: Bit(bits, p) ==> Bit(out, p)
      invariant Covers(out, i, h)
    {
      var p := x % (8 * |bits|);
      assert p == Probe(h, i, 8 * |bits|);
      ghost var before := out;
      out := out[p / 8 := Mark(out[p / 8], p % 8)];
      BitsAfter(before, p, out);
      StepMod(h, Delta(h), i, x);
      x := (x + Delta(h)) % WORD;
    }
  }

  lemma BitsAfter(before: Bytes, p: nat, after: Bytes)
    requires p / 8 < |before| && after == before[p / 8 := Mark(before[p / 8], p % 8)]
    ensures Bit(after, p) && forall q: nat :: Bit(before, q) ==> Bit(after, q)
  {
    hide BitOf, Mark;
    MarkSets(before[p / 8], p % 8, p % 8);
    forall q: nat | Bit(before, q) ensures Bit(after, q) {
      if q / 8 == p / 8 {
        MarkSets(before[p / 8], p % 8, q % 8);
      }
    }
  }

  /** build: a filter in the accepted form that misses none of its keys. */
  method Build(hashes: seq<nat>, bitsPerKey: nat) returns (filter: Bytes)
    requires forall i :: 0 <= i < |hashes| ==> hashes[i] < WORD
    ensures WellFormed(filter)
    ensures forall i :: 0 <= i < |hashes| ==> MayContain(filter, hashes[i])
  {
    hide Probes, Pow2Bytes, Probe, Bit, Power;
    var k, nbytes := Probes(bitsPerKey), Pow2Bytes(|hashes| * bitsPerKey);
    var bits := seq(nbytes, _ => 0);
    for i := 0 to |hashes|
      invariant |bits| == nbytes
      invariant forall j :: 0 <= j < i ==> Covers(bits, k, hashes[j])
    {
      ghost var before := bits;
      bits := SetProbes(bits, hashes[i], k);
      forall j | 0 <= j < i ensures Covers(bits, k, hashes[j]) {
        assert Covers(before, k, hashes[j]);
      }
    }
    filter := bits + [k];
    assert filter[..|filter| - 1] == bits;
  }

  /** bloomMayContain. */
  ghost predicate MayContain(filter: Bytes, h: nat)
    requires h < WORD
  {
    |filter| >= 2 && (filter[|filter| - 1] > 30 || Covers(filter[..|filter| - 1], filter[|filter| - 1], h))
  }

  method Check(filter: Bytes, h: nat) returns (maybe: bool)
    requires h < WORD
    ensures maybe <==> MayContain(filter, h)
  {
    hide Delta, BitOf;
    if |filter| < 2 {
      return false;
    }
    var k := filter[|filter| - 1];
    if k > 30 {
      return true;
    }
    var bits := filter[..|filter| - 1];
    var x := h;
    for i := 0 to k
      invariant x == (h + i * Delta(h)) % WORD && Covers(bits, i, h)
    {
      var p := x % (8 * |bits|);
      assert p == Probe(h, i, 8 * |bits|);
      if !BitOf(bits[p / 8], p % 8) {
        return false;
      }
      StepMod(h, Delta(h), i, x);
      x := (x + Delta(h)) % WORD;
    }
    return true;
  }
}
