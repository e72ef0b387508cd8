/** The skiplist's byte arena: packed nodes, links overwritten in place, data never. */
module Arena {
  import opened Bytes
  import opened Varint

  const HEADER: nat := 12

  /** The part of a node that never changes. */
  datatype Node = Node(key: Bytes, value: Bytes, height: nat)

  function DataAt(n: Node): nat {
    HEADER + 4 * n.height
  }

  function Size(n: Node): nat {
    DataAt(n) + |n.key| + |n.value|
  }

  function Header(n: Node): (h: Bytes)
    ensures |h| == HEADER
  {
    PutLe(|n.key|, 4) + PutLe(|n.value|, 4) + PutLe(n.height, 2) + [0, 0]
  }

  /** The arena holds node `n` at `off`. */
  ghost predicate Holds(a: Bytes, off: nat, n: Node) {
    && off + Size(n) <= |a|
    && a[off..off + HEADER] == Header(n)
    && a[off + DataAt(n)..off + Size(n)] == n.key + n.value
  }

  function U32(a: Bytes, at: nat): nat
    requires at + 4 <= |a|
  {
    FromLe(a[at..at + 4])
  }

  function U16(a: Bytes, at: nat): nat
    requires at + 2 <= |a|
  {
    FromLe(a[at..at + 2])
  }

  function LinkAt(off: nat, level: nat): nat {
    off + HEADER + 4 * level
  }

  /** next. */
  function Link(a: Bytes, off: nat, level: nat): nat
    requires LinkAt(off, level) + 4 <= |a|
  {
    U32(a, LinkAt(off, level))
  }

  /** setNext. */
  function SetLink(a: Bytes, off: nat, level: nat, target: nat): (r: Bytes)
    requires LinkAt(off, level) + 4 <= |a|
    ensures |r| == |a|
  {
    a[..LinkAt(off, level)] + PutLe(target, 4) + a[LinkAt(off, level) + 4..]
  }

  /** allocNode: the node's bytes at the end of the arena, every link nil. */
  function Alloc(a: Bytes, n: Node): Bytes {
    a + Header(n) + Zeros(4 * n.height) + n.key + n.value
  }

  predicate Fits(n: Node) {
    |n.key| <= MAX_UINT32 && |n.value| <= MAX_UINT32 && n.height <= 0xFFFF
  }

  // ---------------------------------------------------------------------------
  // Reading a node
  // ---------------------------------------------------------------------------

  /** skiplistKeyAt, in two steps: where the data starts, and the bytes. */
  function KeyAt(a: Bytes, off: nat): Option<Bytes> {
    if off + HEADER > |a| then None
    else
      var d := off + HEADER + 4 * U16(a, off + 8);
      if d + U32(a, off) > |a| then None else Some(a[d..d + U32(a, off)])
  }

  function ValueAt(a: Bytes, off: nat): Option<Bytes> {
    if off + HEADER > |a| then None
    else
      var d := off + HEADER + 4 * U16(a, off + 8) + U32(a, off);
      if d + U32(a, off + 4) > |a| then None else Some(a[d..d + U32(a, off + 4)])
  }

  lemma Pow2Of32()
    ensures Pow2(32) == MAX_UINT32 + 1 && Pow2(16) == 0x10000
  {
    hide Pow2;
    Pow2Eight(24);
    Pow2Eight(16);
    Pow2Eight(8);
    Pow2Eight(0);
    assert Pow2(0) == 1 by { Pow2One(); Pow2Zero(); }
  }

  lemma Pow2Zero()
    ensures Pow2(0) == 1
  {
  }

  lemma Fields(a: Bytes, b: Bytes, c: Bytes, d: Bytes)
    requires |a| == 4 && |b| == 4 && |c| == 2 && |d| == 2
    ensures var h := a + b + c + d; h[..4] == a && h[4..8] == b && h[8..10] == c
  {
    var h := a + b + c + d;
    assert forall i :: 0 <= i < 4 ==> h[i] == a[i] && h[4 + i] == b[i];
    assert forall i :: 0 <= i < 2 ==> h[8 + i] == c[i];
  }

  lemma HeaderReads(a: Bytes, off: nat, n: Node)
    requires Holds(a, off, n) && Fits(n)
    ensures U32(a, off) == |n.key| && U32(a, off + 4) == |n.value| && U16(a, off + 8) == n.height
  {
    hide PutLe, FromLe, Pow2;
    Pow2Of32();
    LeRoundTrip(|n.key|, 4);
    LeRoundTrip(|n.value|, 4);
    LeRoundTrip(n.height, 2);
    var h := a[off..off + HEADER];
    Fields(PutLe(|n.key|, 4), PutLe(|n.value|, 4), PutLe(n.height, 2), [0, 0]);
    SubSlice(a, off, off + HEADER, 0, 4);
    SubSlice(a, off, off + HEADER, 4, 8);
    SubSlice(a, off, off + HEADER, 8, 10);
  }

  /** A held node reads back its key and value. */
  lemma NodeReads(a: Bytes, off: nat, n: Node)
    requires Holds(a, off, n) && Fits(n)
    ensures KeyAt(a, off) == Some(n.key) && ValueAt(a, off) == Some(n.value)
  {
    hide Header, U32, U16;
    HeaderReads(a, off, n);
    var data := a[off + DataAt(n)..off + Size(n)];
    assert data[..|n.key|] == n.key && data[|n.key|..] == n.value;
    assert a[off + DataAt(n)..off + DataAt(n) + |n.key|] == data[..|n.key|];
    assert a[off + DataAt(n) + |n.key|..off + Size(n)] == data[|n.key|..];
  }

  // ---------------------------------------------------------------------------
  // Writing
  // ---------------------------------------------------------------------------

  lemma AllocHolds(a: Bytes, n: Node)
    ensures Holds(Alloc(a, n), |a|, n) && |Alloc(a, n)| == |a| + Size(n)
    ensures forall level :: 0 <= level < n.height ==> Link(Alloc(a, n), |a|, level) == 0
  {
    hide Header, FromLe;
    var r := Alloc(a, n);
    assert r[|a|..|a| + HEADER] == Header(n);
    assert r[|a| + DataAt(n)..|a| + Size(n)] == n.key + n.value;
    forall level | 0 <= level < n.height ensures Link(r, |a|, level) == 0 {
      assert r[LinkAt(|a|, level)..LinkAt(|a|, level) + 4] == [0, 0, 0, 0];
      ZeroReads();
    }
  }

  lemma ZeroReads()
    ensures FromLe([0, 0, 0, 0]) == 0
  {
    assert [0, 0, 0, 0] == PutLe(0, 4);
    Pow2Of32();
    LeRoundTrip(0, 4);
  }

  /** Bytes below the old end are untouched by an allocation. */
  lemma AllocKeeps(a: Bytes, n: Node, lo: nat, hi: nat)
    requires lo <= hi <= |a|
    ensures Alloc(a, n)[lo..hi] == a[lo..hi] && |Alloc(a, n)| >= |a|
  {
  }

  lemma HoldsAfterAlloc(a: Bytes, n: Node, off: nat, m: Node)
    requires Holds(a, off, m)
    ensures Holds(Alloc(a, n), off, m)
    ensures forall level :: 0 <= level < m.height ==> Link(Alloc(a, n), off, level) == Link(a, off, level)
  {
    hide Header, FromLe, Alloc;
    AllocKeeps(a, n, off, off + HEADER);
    AllocKeeps(a, n, off + DataAt(m), off + Size(m));
    forall level | 0 <= level < m.height ensures Link(Alloc(a, n), off, level) == Link(a, off, level) {
      AllocKeeps(a, n, LinkAt(off, level), LinkAt(off, level) + 4);
    }
  }

  /** A link write touches its own four bytes. */
  lemma SetLinkKeeps(a: Bytes, off: nat, level: nat, target: nat, lo: nat, hi: nat)
    requires LinkAt(off, level) + 4 <= |a| && lo <= hi <= |a|
    requires hi <= LinkAt(off, level) || LinkAt(off, level) + 4 <= lo
    ensures SetLink(a, off, level, target)[lo..hi] == a[lo..hi]
  {
  }

  lemma SetLinkReads(a: Bytes, off: nat, level: nat, target: nat)
    requires LinkAt(off, level) + 4 <= |a| && target <= MAX_UINT32
    ensures Link(SetLink(a, off, level, target), off, level) == target
  {
    hide FromLe, PutLe, Pow2;
    var p := LinkAt(off, level);
    assert SetLink(a, off, level, target)[p..p + 4] == PutLe(target, 4);
    Pow2Of32();
    LeRoundTrip(target, 4);
  }

  /** Two nodes do not share bytes. */
  predicate Apart(off: nat, n: Node, off': nat, m: Node) {
    off + Size(n) <= off' || off' + Size(m) <= off
  }

  /** Overwriting a link changes no node's header or data, and no other link. */
  lemma HoldsAfterSetLink(a: Bytes, off: nat, n: Node, level: nat, target: nat, off': nat, m: Node)
    requires Holds(a, off, n) && level < n.height && Holds(a, off', m)
    requires Apart(off, n, off', m) || (off == off' && n == m)
    ensures Holds(SetLink(a, off, level, target), off', m)
    ensures forall k :: 0 <= k < m.height && (off', k) != (off, level) ==> Link(SetLink(a, off, level, target), off', k) == Link(a, off', k)
  {
    hide Header, FromLe, SetLink;
    SetLinkKeeps(a, off, level, target, off', off' + HEADER);
    SetLinkKeeps(a, off, level, target, off' + DataAt(m), off' + Size(m));
    forall k | 0 <= k < m.height && (off', k) != (off, level) ensures Link(SetLink(a, off, level, target), off', k) == Link(a, off', k) {
      SetLinkKeeps(a, off, level, target, LinkAt(off', k), LinkAt(off', k) + 4);
    }
  }
}
