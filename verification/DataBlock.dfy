/** Data blocks: prefix-compressed entries with restart points. */
module DataBlock {
  import opened Bytes
  import opened Varint

  datatype Item = Item(key: Bytes, value: Bytes)

  // ---------------------------------------------------------------------------
  // The bytes of a block
  // ---------------------------------------------------------------------------

  /** The length of the longest common prefix. */
  function Common(a: Bytes, b: Bytes): (n: nat)
    ensures n <= |a| && n <= |b| && a[..n] == b[..n]
    ensures n < |a| && n < |b| ==> a[n] != b[n]
  {
    if a == [] || b == [] || a[0] != b[0] then 0
    else
      var n := Common(a[1..], b[1..]);
      assert a[..n + 1] == [a[0]] + a[1..][..n] && b[..n + 1] == [b[0]] + b[1..][..n];
      n + 1
  }

  /** The builder's counter when entry `i` arrives: entries since the last restart point. */
  function Since(i: nat, every: nat): nat {
    if i == 0 then 0 else if Since(i - 1, every) < every then Since(i - 1, every) + 1 else 1
  }

  /** Entry `i` stores its whole key. */
  predicate Restart(i: nat, every: nat) {
    i == 0 || Since(i, every) >= every
  }

  /** That is every entry whose place is a multiple of the interval. */
  lemma {:induction false} RestartIff(i: nat, every: nat)
    requires every > 0
    ensures Since(i, every) == if i == 0 then 0 else (i - 1) % every + 1
    ensures Restart(i, every) <==> i % every == 0
  {
    if i > 0 {
      RestartIff(i - 1, every);
      NextMod(i - 1, every);
      if i > 1 {
        NextMod(i - 2, every);
      }
    }
  }

  lemma NextMod(n: nat, m: nat)
    requires m > 0
    ensures (n + 1) % m == if n % m == m - 1 then 0 else n % m + 1
  {
    var a, b := n / m, (n + 1) / m;
    var r := if n % m == m - 1 then 0 else n % m + 1;
    var q := if n % m == m - 1 then a + 1 else a;
    assert n == m * a + n % m && n + 1 == m * b + (n + 1) % m;
    assert m * (a + 1) == m * a + m;
    assert m * (q - b) == m * q - m * b;
    NoMultiple(q - b, m);
  }

  lemma NoMultiple(d: int, m: int)
    requires -m < m * d < m
    ensures d == 0
  {
    Multiples(d, m);
  }

  lemma Multiples(d: int, m: int)
    requires m > 0
    ensures (d >= 1 ==> m * d >= m) && (d <= -1 ==> m * d <= -m)
  {
  }

  /** How much of its predecessor's key entry `i` reuses. */
  function Shared(items: seq<Item>, i: nat, every: nat): (n: nat)
    requires i < |items|
    ensures n <= |items[i].key| && (Restart(i, every) ==> n == 0)
    ensures !Restart(i, every) ==> n <= |items[i-1].key| && items[i-1].key[..n] == items[i].key[..n]
  {
    if Restart(i, every) then 0 else Common(items[i-1].key, items[i].key)
  }

  function PutEntry(shared: nat, x: Item): Bytes
    requires shared <= |x.key|
  {
    PutUvarint(shared) + PutUvarint(|x.key| - shared) + PutUvarint(|x.value|) + x.key[shared..] + x.value
  }

  /** The first `n` entries. */
  function Encoded(items: seq<Item>, n: nat, every: nat): Bytes
    requires n <= |items|
  {
    if n == 0 then [] else Encoded(items, n - 1, every) + PutEntry(Shared(items, n - 1, every), items[n-1])
  }

  /** Where entry `n` starts. */
  function Off(items: seq<Item>, n: nat, every: nat): nat
    requires n <= |items|
  {
    |Encoded(items, n, every)|
  }

  /** The restart points among the first `n` entries. */
  function RestartsBelow(n: nat, every: nat): (r: seq<nat>)
    ensures n > 0 ==> |r| > 0 && r[0] == 0
    ensures forall m :: 0 <= m < |r| ==> r[m] < n && Restart(r[m], every)
    ensures forall m, k :: 0 <= m < k < |r| ==> r[m] < r[k]
  {
    if n == 0 then [] else RestartsBelow(n - 1, every) + if Restart(n - 1, every) then [n - 1] else []
  }

  function Offsets(items: seq<Item>, at: seq<nat>, every: nat): (r: seq<nat>)
    requires forall m :: 0 <= m < |at| ==> at[m] <= |items|
    ensures |r| == |at| && forall m :: 0 <= m < |at| ==> r[m] == Off(items, at[m], every)
  {
    if at == [] then [] else Offsets(items, at[..|at|-1], every) + [Off(items, at[|at|-1], every)]
  }

  function Words(ns: seq<nat>): (b: Bytes)
    ensures |b| == 4 * |ns|
  {
    if ns == [] then [] else Words(ns[..|ns|-1]) + PutLe(ns[|ns|-1], 4)
  }

  /** The finished payload: entries, restart offsets, their count. */
  function BlockPayload(items: seq<Item>, every: nat): Bytes {
    var rs := Offsets(items, RestartsBelow(|items|, every), every);
    Encoded(items, |items|, every) + Words(rs) + PutLe(|rs|, 4)
  }

  lemma WordReads(x: nat)
    requires x <= MAX_UINT32
    ensures FromLe(PutLe(x, 4)) == x
  {
    hide Pow2;
    Pow2Eight(24);
    Pow2Eight(16);
    Pow2Eight(8);
    Pow2Eight(0);
    Pow2One();
    assert Pow2(0) == 1 by { Pow2Base(); }
    LeRoundTrip(x, 4);
  }

  lemma Pow2Base()
    ensures Pow2(0) == 1
  {
  }

  // ---------------------------------------------------------------------------
  // Building
  // ---------------------------------------------------------------------------

  /** The builder's fields after `items`. */
  ghost predicate Built(items: seq<Item>, every: nat, buf: Bytes, restarts: seq<nat>, counter: nat, lastKey: Bytes) {
    && every > 0 && counter == Since(|items|, every)
    && buf == Encoded(items, |items|, every)
    && lastKey == (if items == [] then [] else items[|items|-1].key)
    && (if items == [] then [] else [0]) + restarts == Offsets(items, RestartsBelow(|items|, every), every)
  }

  lemma BuiltNext(items: seq<Item>, every: nat, buf: Bytes, restarts: seq<nat>, counter: nat, lastKey: Bytes, x: Item, shared: nat)
    requires Built(items, every, buf, restarts, counter, lastKey)
    requires shared == if counter < every then Common(lastKey, x.key) else 0
    ensures shared <= |x.key|
    ensures Built(items + [x], every, buf + PutEntry(shared, x), if counter < every then restarts else restarts + [|buf|],
                  if counter < every then counter + 1 else 1, x.key)
  {
    hide Common, PutEntry, Encoded, Offsets, RestartsBelow;
    SharedIs(items, x, every, lastKey, shared);
    RestartsGrow(items, x, every);
    EncodedGrows(items, x, every);
    var had := (if items == [] then [] else [0]) + restarts;
    if items == [] {
      FirstRestart(every);
      assert restarts == [] by { NoRestarts(items, every); }
    } else if counter < every {
      assert had + [] == had;
    } else {
      assert [0] + (restarts + [|buf|]) == had + [|buf|];
    }
  }

  lemma FirstRestart(every: nat)
    ensures Encoded([], 0, every) == []
  {
  }

  lemma NoRestarts(items: seq<Item>, every: nat)
    requires items == []
    ensures Offsets(items, RestartsBelow(|items|, every), every) == []
  {
  }

  lemma WordsNext(rs: seq<nat>, i: nat)
    requires i < |rs|
    ensures Words(rs[..i + 1]) == Words(rs[..i]) + PutLe(rs[i], 4)
  {
    assert rs[..i + 1][..i] == rs[..i];
  }

  class DataBlockBuilder {
    const every: nat
    var buf: Bytes
    var restarts: seq<nat>
    var entries: nat
    var counter: nat
    var lastKey: Bytes
    ghost var items: seq<Item>

    ghost predicate Valid()
      reads this
    {
      entries == |items| && Built(items, every, buf, restarts, counter, lastKey)
    }

    constructor (every: nat)
      requires every > 0
      ensures Valid() && items == [] && this.every == every
    {
      this.every := every;
      buf, restarts, entries, counter, lastKey, items := [], [], 0, 0, [], [];
    }

    method Add(key: Bytes, value: Bytes)
      requires Valid()
      modifies this
      ensures Valid() && items == old(items) + [Item(key, value)]
    {
      hide Common, PutEntry, Built;
      var shared := 0;
      ghost var x := Item(key, value);
      if counter < every {
        var limit := Min(|lastKey|, |key|);
        while shared < limit && lastKey[shared] == key[shared]
          invariant shared <= limit && lastKey[..shared] == key[..shared]
        {
          shared := shared + 1;
        }
        CommonIs(lastKey, key, shared);
        BuiltNext(items, every, buf, restarts, counter, lastKey, x, shared);
      } else {
        BuiltNext(items, every, buf, restarts, counter, lastKey, x, shared);
        restarts := restarts + [|buf|];
        counter := 0;
      }
      EntryParts(buf, shared, x);
      buf := buf + PutUvarint(shared) + PutUvarint(|key| - shared) + PutUvarint(|value|) + key[shared..] + value;
      lastKey := key;
      entries := entries + 1;
      counter := counter + 1;
      items := items + [x];
    }

    /** size: about what the finished payload will take. */
    function Size(): nat
      reads this
    {
      |buf| + (|restarts| + 1) * 4 + 4
    }

    method Reset()
      requires every > 0
      modifies this
      ensures Valid() && items == []
    {
      buf, restarts, entries, counter, lastKey, items := [], [], 0, 0, [], [];
    }

    /** finish: the payload; the first entry is always a restart point. */
    method Finish() returns (payload: Bytes)
      requires Valid()
      ensures payload == BlockPayload(items, every)
    {
      hide Encoded, Offsets, RestartsBelow, Words;
      var rs := (if entries > 0 then [0] else []) + restarts;
      payload := buf;
      assert Words(rs[..0]) == [] && buf + [] == buf;
      for i := 0 to |rs|
        invariant payload == buf + Words(rs[..i])
      {
        WordsNext(rs, i);
        payload := payload + PutLe(rs[i], 4);
      }
      assert rs[..|rs|] == rs;
      payload := payload + PutLe(|rs|, 4);
    }
  }

  lemma {:induction false} CommonIs(a: Bytes, b: Bytes, n: nat)
    requires n <= |a| && n <= |b| && a[..n] == b[..n] && (n < |a| && n < |b| ==> a[n] != b[n])
    ensures Common(a, b) == n
    decreases n
  {
    if n > 0 {
      assert a[..n][0] == b[..n][0];
      assert a[1..][..n-1] == a[..n][1..] && b[1..][..n-1] == b[..n][1..];
      CommonIs(a[1..], b[1..], n - 1);
    }
  }

  lemma EntryParts(buf: Bytes, shared: nat, x: Item)
    requires shared <= |x.key|
    ensures buf + PutUvarint(shared) + PutUvarint(|x.key| - shared) + PutUvarint(|x.value|) + x.key[shared..] + x.value
            == buf + PutEntry(shared, x)
  {
    hide PutUvarint;
  }

  lemma SharedIs(items: seq<Item>, x: Item, every: nat, lastKey: Bytes, shared: nat)
    requires every > 0 && lastKey == if items == [] then [] else items[|items|-1].key
    requires shared == if Since(|items|, every) < every then Common(lastKey, x.key) else 0
    ensures Shared(items + [x], |items|, every) == shared
  {
  }

  lemma {:induction false} EncodedSame(items: seq<Item>, more: seq<Item>, n: nat, every: nat)
    requires n <= |items|
    ensures Encoded(items + more, n, every) == Encoded(items, n, every)
    decreases n
  {
    hide Common, PutEntry, Restart;
    if n > 0 {
      EncodedSame(items, more, n - 1, every);
      assert (items + more)[n-1] == items[n-1];
      if n > 1 {
        assert (items + more)[n-2] == items[n-2];
      }
      SharedSame(items, more, n - 1, every);
    }
  }

  lemma SharedSame(items: seq<Item>, more: seq<Item>, i: nat, every: nat)
    requires i < |items|
    ensures Shared(items + more, i, every) == Shared(items, i, every)
  {
    hide Common;
  }

  lemma EncodedGrows(items: seq<Item>, x: Item, every: nat)
    ensures Encoded(items + [x], |items| + 1, every)
            == Encoded(items, |items|, every) + PutEntry(Shared(items + [x], |items|, every), x)
  {
    EncodedSame(items, [x], |items|, every);
  }

  lemma {:induction false} OffsetsSame(items: seq<Item>, more: seq<Item>, at: seq<nat>, every: nat)
    requires forall m :: 0 <= m < |at| ==> at[m] <= |items|
    ensures Offsets(items + more, at, every) == Offsets(items, at, every)
    decreases |at|
  {
    hide Encoded;
    if at != [] {
      OffsetsSame(items, more, at[..|at|-1], every);
      EncodedSame(items, more, at[|at|-1], every);
    }
  }

  lemma RestartsGrow(items: seq<Item>, x: Item, every: nat)
    ensures Offsets(items + [x], RestartsBelow(|items| + 1, every), every)
            == Offsets(items, RestartsBelow(|items|, every), every)
               + if Restart(|items|, every) then [Off(items, |items|, every)] else []
  {
    hide Encoded;
    var at := RestartsBelow(|items|, every);
    OffsetsSame(items, [x], at, every);
    EncodedSame(items, [x], |items|, every);
    if Restart(|items|, every) {
      assert (at + [|items|])[..|at|] == at;
    } else {
      assert at + [] == at;
    }
  }
}
