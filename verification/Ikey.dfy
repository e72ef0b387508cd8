/** Internal keys: a user key and a packed trailer of sequence and kind. */
module Ikey {
  import opened Bytes
  import opened Varint
  import V = Versions
  import T = Tables

  const TRAILER: nat := 8
  const MAX_SEQ: nat := 0xFF_FFFF_FFFF_FFFF

  function Encode(user: Bytes, sqn: nat, kind: byte): (ik: Bytes)
    ensures |ik| == |user| + TRAILER
  {
    user + PutLe(sqn * 256 + kind, TRAILER)
  }

  function UserKey(ik: Bytes): Bytes
    requires |ik| >= TRAILER
  {
    ik[..|ik| - TRAILER]
  }

  function Trailer(ik: Bytes): nat
    requires |ik| >= TRAILER
  {
    FromLe(ik[|ik| - TRAILER..])
  }

  function SqnOf(ik: Bytes): nat
    requires |ik| >= TRAILER
  {
    Trailer(ik) / 256
  }

  function KindOf(ik: Bytes): nat
    requires |ik| >= TRAILER
  {
    Trailer(ik) % 256
  }

  /** The kind is the first byte of the trailer. */
  lemma KindIsByte(ik: Bytes)
    requires |ik| >= TRAILER
    ensures KindOf(ik) == ik[|ik| - TRAILER] as int
  {
    var t := ik[|ik| - TRAILER..];
    assert FromLe(t) == t[0] + 256 * FromLe(t[1..]);
  }

  /** ikeyCompare: user key ascending, then trailer descending. */
  function Order(a: Bytes, b: Bytes): int
    requires |a| >= TRAILER && |b| >= TRAILER
  {
    var c := Compare(UserKey(a), UserKey(b));
    if c != 0 then c
    else if Trailer(a) > Trailer(b) then -1
    else if Trailer(a) < Trailer(b) then 1
    else 0
  }

  /** The strict order this gives. */
  predicate Less(a: Bytes, b: Bytes) {
    |a| >= TRAILER && |b| >= TRAILER && Order(a, b) < 0
  }

  /** Encoding is undone by the accessors, for every sequence the 56 bits hold. */
  lemma RoundTrip(user: Bytes, sqn: nat, kind: byte)
    requires sqn <= MAX_SEQ
    ensures var ik := Encode(user, sqn, kind); UserKey(ik) == user && SqnOf(ik) == sqn && KindOf(ik) == kind
  {
    var ik := Encode(user, sqn, kind);
    assert ik[|ik| - TRAILER..] == PutLe(sqn * 256 + kind, TRAILER);
    Pow2Of64();
    LeRoundTrip(sqn * 256 + kind, TRAILER);
  }

  /** A strict total order. */
  lemma Laws(a: Bytes, b: Bytes, c: Bytes)
    requires |a| >= TRAILER && |b| >= TRAILER && |c| >= TRAILER
    ensures Less(a, b) && Less(b, c) ==> Less(a, c)
    ensures Less(a, b) || Less(b, a) || Order(a, b) == 0
    ensures !(Less(a, b) && Less(b, a))
    ensures Order(a, b) == 0 ==> Order(b, a) == 0 && (Less(b, c) <==> Less(a, c)) && (Less(c, a) <==> Less(c, b))
  {
    hide Trailer, UserKey, Compare;
    var ua, ub, uc := UserKey(a), UserKey(b), UserKey(c);
    CompareSign(ua, ub);
    CompareSign(ub, uc);
    CompareSign(ua, uc);
    if Compare(ua, ub) <= 0 && Compare(ub, uc) <= 0 {
      CompareTransitive(ua, ub, uc);
    }
  }

  /** The internal key of a version. */
  function KeyOf(e: V.Entry): Bytes {
    Encode(e.key, e.sqn, V.Kind(e.payload))
  }

  /** Encoded keys sort exactly as versions do. */
  lemma OrderIsPrecedes(e: V.Entry, f: V.Entry)
    requires e.sqn <= MAX_SEQ && f.sqn <= MAX_SEQ
    ensures Less(KeyOf(e), KeyOf(f)) <==> T.Precedes(e, f)
  {
    RoundTrip(e.key, e.sqn, V.Kind(e.payload));
    RoundTrip(f.key, f.sqn, V.Kind(f.payload));
    CompareSign(e.key, f.key);
  }
}
