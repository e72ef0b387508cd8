/** Byte strings and the lexicographic order that Go's bytes.Compare gives them. */
module Bytes {

  type byte = b: int | 0 <= b < 256

  type Bytes = seq<byte>

  datatype Option<+T> = None | Some(value: T) {
    function GetOr(other: T): T {
      if None? then other else value
    }
  }

  datatype Result<+T> = Ok(value: T) | Err

  const MAX_UINT32: nat := 0xFFFF_FFFF

  function Min(a: nat, b: nat): nat {
    if a < b then a else b
  }

  function Max(a: nat, b: nat): nat {
    if a < b then b else a
  }

  function MaxInt(a: int, b: int): int {
    if a < b then b else a
  }

  function Zeros(n: nat): (z: Bytes)
    ensures |z| == n
  {
    seq(n, _ => 0)
  }

  /** Three-way lexicographic comparison: negative, zero or positive. */
  function Compare(a: Bytes, b: Bytes): int {
    if a == [] then (if b == [] then 0 else -1)
    else if b == [] then 1
    else if a[0] != b[0] then a[0] - b[0]
    else Compare(a[1..], b[1..])
  }

  predicate Lt(a: Bytes, b: Bytes) {
    Compare(a, b) < 0
  }

  predicate Le(a: Bytes, b: Bytes) {
    Compare(a, b) <= 0
  }

  lemma {:induction false} CompareSign(a: Bytes, b: Bytes)
    ensures Compare(a, b) == 0 <==> a == b
    ensures Compare(a, b) == -Compare(b, a)
  {
    if a != [] && b != [] && a[0] == b[0] {
      CompareSign(a[1..], b[1..]);
      assert a == [a[0]] + a[1..] && b == [b[0]] + b[1..];
    }
  }

  lemma {:induction false} CompareTransitive(a: Bytes, b: Bytes, c: Bytes)
    requires Compare(a, b) <= 0 && Compare(b, c) <= 0
    ensures Compare(a, c) <= 0
    ensures Compare(a, b) < 0 || Compare(b, c) < 0 ==> Compare(a, c) < 0
  {
    if a != [] && b != [] && c != [] && a[0] == b[0] == c[0] {
      CompareTransitive(a[1..], b[1..], c[1..]);
    }
  }

  /** The total-order laws of Lt and Le, for use at the head of a proof. */
  lemma OrderLaws()
    ensures forall a, b :: Le(a, b) || Lt(b, a)
    ensures forall a, b :: !(Le(a, b) && Lt(b, a))
    ensures forall a, b :: Le(a, b) <==> (Lt(a, b) || a == b)
    ensures forall a, b, c :: Le(a, b) && Le(b, c) ==> Le(a, c)
    ensures forall a, b, c :: Lt(a, b) && Le(b, c) ==> Lt(a, c)
    ensures forall a, b, c :: Le(a, b) && Lt(b, c) ==> Lt(a, c)
  {
    forall a, b ensures (Le(a, b) || Lt(b, a)) && !(Le(a, b) && Lt(b, a)) && (Le(a, b) <==> (Lt(a, b) || a == b)) {
      CompareSign(a, b);
    }
    forall a, b, c | Le(a, b) && Le(b, c)
      ensures Le(a, c) && (Lt(a, b) || Lt(b, c) ==> Lt(a, c))
    {
      CompareTransitive(a, b, c);
    }
    forall a, b, c | Lt(a, b) && Le(b, c) ensures Lt(a, c) { CompareTransitive(a, b, c); }
    forall a, b, c | Le(a, b) && Lt(b, c) ensures Lt(a, c) { CompareTransitive(a, b, c); }
  }

  /** `a` and `b` agree up to `k`, where `a` ends first or holds the smaller byte. */
  ghost predicate LessAt(a: Bytes, b: Bytes, k: int) {
    && 0 <= k <= |a| && k <= |b| && a[..k] == b[..k]
    && (k == |a| < |b| || (k < |a| && k < |b| && a[k] < b[k]))
  }

  /** The order is the lexicographic one: a proper prefix comes first, and otherwise the first byte that differs decides. */
  lemma {:induction false} LtIsLexicographic(a: Bytes, b: Bytes)
    ensures Lt(a, b) <==> exists k :: LessAt(a, b, k)
    decreases |a|
  {
    if a != [] && b != [] && a[0] == b[0] {
      LtIsLexicographic(a[1..], b[1..]);
      if k :| LessAt(a[1..], b[1..], k) {
        assert a[..k + 1] == [a[0]] + a[1..][..k] && b[..k + 1] == [b[0]] + b[1..][..k];
        assert LessAt(a, b, k + 1);
      }
      if k :| LessAt(a, b, k) {
        assert a[1..][..k - 1] == a[..k][1..] && b[1..][..k - 1] == b[..k][1..];
        assert LessAt(a[1..], b[1..], k - 1);
      }
    } else if Lt(a, b) {
      assert a[..0] == b[..0];
      assert LessAt(a, b, 0);
    } else {
      forall k | 0 < k <= |a| && k <= |b| ensures a[..k] != b[..k] {
        assert a[..k][0] == a[0] && b[..k][0] == b[0];
      }
    }
  }

  /** A slice of a slice. */
  lemma SubSlice(a: Bytes, lo: nat, hi: nat, i: nat, j: nat)
    requires lo <= hi <= |a| && i <= j <= hi - lo
    ensures a[lo..hi][i..j] == a[lo + i..lo + j]
  {
    forall k | i <= k < j ensures a[lo..hi][k] == a[lo + k] {
    }
  }
}
