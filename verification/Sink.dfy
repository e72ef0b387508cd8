/** The file-number allocator and the rolling output of a compaction. */
module Sink {
  import opened Bytes
  import opened Versions
  import opened Tables

  const MAX_FILE_NUM := 0xFFFF_FFFF

  class Allocator {
    var n: nat

    constructor (start: nat)
      ensures n == start
    {
      n := start;
    }

    /** The next file number, or zero once the 32-bit namespace is exhausted. */
    method Next() returns (num: nat)
      modifies this
      ensures old(n) >= MAX_FILE_NUM ==> num == 0 && n == old(n)
      ensures old(n) < MAX_FILE_NUM ==> num == n == old(n) + 1
    {
      if n >= MAX_FILE_NUM {
        return 0;
      }
      n := n + 1;
      return n;
    }
  }

  /** On-disk sizes come from the codec, which is outside this model: `projected`
      is the finished size the writer predicts, `actual` the size it reports. */
  datatype Sizes = Sizes(projected: seq<Entry> -> nat, actual: (seq<Entry>, seq<RangeDel>) -> nat, target: nat)

  function PointSeq(ts: seq<Table>): seq<Entry> {
    if ts == [] then [] else PointSeq(ts[..|ts|-1]) + ts[|ts|-1].points
  }

  function DelSeq(ts: seq<Table>): seq<RangeDel> {
    if ts == [] then [] else DelSeq(ts[..|ts|-1]) + ts[|ts|-1].dels
  }

  /** Every key of one output lies below every key of the next: a key's versions never split. */
  predicate KeysApart(ts: seq<Table>) {
    forall i, j, a, b :: 0 <= i < j < |ts| && a in ts[i].points && b in ts[j].points ==> Lt(a.key, b.key)
  }

  predicate NumbersWithin(ts: seq<Table>, lo: nat, hi: int) {
    && (forall i :: 0 <= i < |ts| ==> lo < ts[i].num <= hi)
    && (forall i, j :: 0 <= i < j < |ts| ==> ts[i].num < ts[j].num)
  }

  lemma {:induction false} SeqsMatchView(ts: seq<Table>)
    ensures forall e :: e in PointSeq(ts) <==> e in PointsOf(ts)
    ensures forall d :: d in DelSeq(ts) <==> d in DelsOf(ts)
  {
    if ts != [] {
      var n := |ts| - 1;
      SeqsMatchView(ts[..n]);
      assert ts == ts[..n] + [ts[n]];
    }
  }

  /** The key span of an ascending run is that of its first and last entry. */
  lemma RunBounds(es: seq<Entry>, b: Bounds)
    requires es != [] && Ascending(es)
    requires forall k :: Le(es[0].key, k) && Le(k, es[|es|-1].key) ==> b.MayContain(k)
    ensures forall i :: 0 <= i < |es| ==> b.MayContain(es[i].key)
  {
    OrderLaws();
    forall i | 0 <= i < |es| ensures b.MayContain(es[i].key) {
      assert i > 0 ==> Before(es[0], es[i]);
      assert i < |es| - 1 ==> Before(es[i], es[|es|-1]);
    }
  }

  datatype Open = Open(num: nat, points: seq<Entry>)

  /** The invariant of the rolling output: closed tables `metas`, the open one `out`,
      the range tombstones still to be attached, and the `carried` ones in all. */
  ghost predicate SinkOk(depth: nat, lo: nat, hi: nat, carried: seq<RangeDel>,
                         out: Option<Open>, metas: seq<Table>, pending: seq<RangeDel>) {
    && lo <= hi
    && (forall i :: 0 <= i < |carried| ==> carried[i].WellFormed())
    && (forall i :: 0 <= i < |metas| ==> TableOk(metas[i]) && metas[i].depth == depth && (metas[i].points != [] || metas[i].dels != []))
    && KeysApart(metas)
    && DelSeq(metas) + pending == carried
    && NumbersWithin(metas, lo, if out.Some? then out.value.num - 1 else hi)
    && (out.Some? ==> OpenOk(lo, hi, out.value, metas, pending))
  }

  ghost predicate OpenOk(lo: nat, hi: nat, out: Open, metas: seq<Table>, pending: seq<RangeDel>) {
    && lo < out.num <= hi
    && Ascending(out.points)
    && (out.points != [] || pending != [])
    && forall a, b :: a in PointSeq(metas) && b in out.points ==> Lt(a.key, b.key)
  }

  lemma AddKeeps(depth: nat, lo: nat, hi: nat, hi': nat, carried: seq<RangeDel>,
                 out: Option<Open>, metas: seq<Table>, pending: seq<RangeDel>, num: nat, e: Entry)
    requires SinkOk(depth, lo, hi, carried, out, metas, pending)
    requires hi <= hi' && if out.Some? then num == out.value.num else hi < num <= hi'
    requires out.Some? && out.value.points != [] ==> Before(out.value.points[|out.value.points|-1], e)
    requires forall f :: f in PointSeq(metas) ==> Lt(f.key, e.key)
    ensures SinkOk(depth, lo, hi', carried, Some(Open(num, (if out.Some? then out.value.points else []) + [e])), metas, pending)
  {
    hide TableOk, KeysApart;
    var es := if out.Some? then out.value.points else [];
    assert Ascending(es + [e]) by {
      OrderLaws();
      forall i | 0 <= i < |es| ensures Before(es[i], e) {
        assert i < |es| - 1 ==> Before(es[i], es[|es|-1]);
      }
    }
  }

  lemma HeldIsSane(t: Table)
    requires BoundsSound(t) && (t.points != [] || t.dels != [])
    ensures Sane(t.bounds)
  {
    OrderLaws();
    assert t.points != [] ==> t.bounds.MayContain(t.points[0].key);
    assert t.dels != [] ==> t.bounds.MayContain(t.dels[0].start);
  }

  lemma PendingOk(depth: nat, lo: nat, hi: nat, carried: seq<RangeDel>, out: Open, metas: seq<Table>, pending: seq<RangeDel>)
    requires SinkOk(depth, lo, hi, carried, Some(out), metas, pending)
    ensures Ascending(out.points) && forall i :: 0 <= i < |pending| ==> pending[i].WellFormed()
  {
    hide RangeDel.WellFormed, Ascending, KeysApart, TableOk;
    forall i | 0 <= i < |pending| ensures pending[i].WellFormed() {
      assert pending[i] == carried[|DelSeq(metas)| + i];
    }
  }

  lemma FinishKeeps(depth: nat, lo: nat, hi: nat, carried: seq<RangeDel>,
                    out: Open, metas: seq<Table>, pending: seq<RangeDel>, t: Table)
    requires SinkOk(depth, lo, hi, carried, Some(out), metas, pending)
    requires t.num == out.num && t.depth == depth && t.points == out.points && t.dels == pending && BoundsSound(t)
    ensures SinkOk(depth, lo, hi, carried, None, metas + [t], [])
    ensures PointSeq(metas + [t]) == PointSeq(metas) + out.points
  {
    hide Lt, Bounds.MayContain, RangeDel.WellFormed, Before, KeysApart, BoundsSound;
    var ts := metas + [t];
    assert ts[..|metas|] == metas;
    forall i | 0 <= i < |t.dels| ensures t.dels[i].WellFormed() {
      assert t.dels[i] == carried[|DelSeq(metas)| + i];
    }
    HeldIsSane(t);
    StayApart(metas, t);
  }

  lemma StayApart(metas: seq<Table>, t: Table)
    requires KeysApart(metas) && forall a, b :: a in PointSeq(metas) && b in t.points ==> Lt(a.key, b.key)
    ensures KeysApart(metas + [t])
  {
    hide Lt, PointSeq;
    var ts := metas + [t];
    SeqsMatchView(metas);
    forall i, j, a, b | 0 <= i < j < |ts| && a in ts[i].points && b in ts[j].points
      ensures Lt(a.key, b.key)
    {
      if j == |metas| {
        assert metas[i] in metas && a in PointsOf(metas);
      }
    }
  }

  /** Records an output's bounds: its first and last key, widened over its range tombstones. */
  method MakeTable(out: Open, depth: nat, sizes: Sizes, dels: seq<RangeDel>) returns (t: Table)
    requires Ascending(out.points)
    requires forall i :: 0 <= i < |dels| ==> dels[i].WellFormed()
    ensures t.num == out.num && t.depth == depth && t.points == out.points && t.dels == dels
    ensures BoundsSound(t)
    ensures BoundsTight(t)
  {
    var es := out.points;
    var min, max: Option<Bytes> := None, None;
    if es != [] {
      min, max := Some(es[0].key), Some(es[|es|-1].key);
    }
    var b := WidenBounds(min, max, dels);
    if es != [] {
      RunBounds(es, b);
    }
    t := Table(out.num, depth, sizes.actual(es, dels), b, es, dels);
  }

  class CompactionSink {
    const alloc: Allocator
    const depth: nat
    const sizes: Sizes
    ghost const base: nat
    ghost const carried: seq<RangeDel>
    var out: Option<Open>
    var metas: seq<Table>
    var pending: seq<RangeDel>

    ghost predicate Valid()
      reads this, alloc
    {
      SinkOk(depth, base, alloc.n, carried, out, metas, pending)
    }

    /** All entries added so far, in order. */
    ghost function All(): seq<Entry>
      reads this
    {
      PointSeq(metas) + (if out.Some? then out.value.points else [])
    }

    constructor (alloc: Allocator, depth: nat, sizes: Sizes, dels: seq<RangeDel>)
      requires forall i :: 0 <= i < |dels| ==> dels[i].WellFormed()
      ensures Valid() && All() == [] && this.alloc == alloc && this.depth == depth
      ensures base == alloc.n && carried == dels && pending == dels && out == None && metas == []
    {
      this.alloc, this.depth, this.sizes := alloc, depth, sizes;
      base, carried := alloc.n, dels;
      out, metas, pending := None, [], dels;
    }

    /** Appends an entry, starting an output table if none is open. */
    method Add(e: Entry) returns (ok: bool)
      requires Valid()
      requires out.Some? && out.value.points != [] ==> Before(out.value.points[|out.value.points|-1], e)
      requires forall f :: f in PointSeq(metas) ==> Lt(f.key, e.key)
      modifies this`out, alloc
      ensures Valid() && alloc.n >= old(alloc.n)
      ensures ok ==> out.Some? && All() == old(All()) + [e] && out.value.points != [] && out.value.points[|out.value.points|-1] == e
      ensures !ok ==> alloc.n >= MAX_FILE_NUM && out == old(out)
    {
      hide SinkOk, OpenOk;
      ghost var hi := alloc.n;
      if out.None? {
        var num := alloc.Next();
        if num == 0 {
          return false;
        }
        AddKeeps(depth, base, hi, alloc.n, carried, out, metas, pending, num, e);
        out := Some(Open(num, [] + [e]));
      } else {
        AddKeeps(depth, base, hi, hi, carried, out, metas, pending, out.value.num, e);
        out := Some(Open(out.value.num, out.value.points + [e]));
      }
      return true;
    }

    /** Opens an output only to carry range tombstones. */
    method StartEmpty() returns (ok: bool)
      requires Valid() && out.None? && pending != []
      modifies this`out, alloc
      ensures Valid() && alloc.n >= old(alloc.n) && All() == old(All())
      ensures ok ==> out.Some? && out.value.points == []
      ensures !ok ==> alloc.n >= MAX_FILE_NUM && out == old(out)
    {
      hide TableOk, KeysApart;
      var num := alloc.Next();
      if num == 0 {
        return false;
      }
      out := Some(Open(num, []));
      return true;
    }

    /** Closes the open output; the first one closed carries every pending range tombstone. */
    method Finish()
      requires Valid()
      modifies this`out, this`metas, this`pending
      ensures Valid() && out == None && All() == old(All())
      ensures old(out).Some? ==> pending == [] && |metas| == |old(metas)| + 1
      ensures old(out).None? ==> metas == old(metas) && pending == old(pending)
    {
      hide SinkOk, BoundsSound, BoundsTight, Ascending, RangeDel.WellFormed, PointSeq;
      if out.None? {
        return;
      }
      PendingOk(depth, base, alloc.n, carried, out.value, metas, pending);
      var t := MakeTable(out.value, depth, sizes, pending);
      FinishKeeps(depth, base, alloc.n, carried, out.value, metas, pending, t);
      metas := metas + [t];
      pending := [];
      out := None;
    }

    /** Called at a user-key boundary: closes the output once its predicted size reaches the target. */
    method RollIfNeeded()
      requires Valid()
      modifies this`out, this`metas, this`pending
      ensures Valid() && All() == old(All())
      ensures old(out).Some? && sizes.projected(old(out).value.points) >= sizes.target ==>
                out == None && |metas| == |old(metas)| + 1
      ensures !(old(out).Some? && sizes.projected(old(out).value.points) >= sizes.target) ==>
                out == old(out) && metas == old(metas) && pending == old(pending)
    {
      if out.Some? && sizes.projected(out.value.points) >= sizes.target {
        Finish();
      }
    }
  }
}
