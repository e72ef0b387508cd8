/** Memtables as sorted value sequences, and the newest-visible lookup every source answers. */
module Memtables {
  import opened Bytes
  import opened Versions
  import opened Tables

  datatype Memtable = Memtable(points: seq<Entry>, dels: seq<RangeDel>) {
    predicate Ok() {
      Ascending(points) && forall i :: 0 <= i < |dels| ==> dels[i].WellFormed()
    }

    predicate Empty() {
      points == [] && dels == []
    }

    function Content(): View {
      View(PointSet(points), DelSet(dels))
    }
  }

  /** The newest version of `key` at or below `s` in an ascending run. */
  function Lookup(points: seq<Entry>, key: Bytes, s: nat): Option<Entry> {
    if points == [] then None
    else if points[0].key == key && points[0].sqn <= s then Some(points[0])
    else Lookup(points[1..], key, s)
  }

  lemma {:induction false} LookupFindsNewest(points: seq<Entry>, key: Bytes, s: nat)
    requires Ascending(points)
    ensures Lookup(points, key, s).None? ==> forall e :: e in points && e.key == key ==> e.sqn > s
    ensures Lookup(points, key, s).Some? ==>
              var e := Lookup(points, key, s).value; e.key == key && Newest(PointSet(points), e, s)
  {
    if points != [] {
      var rest := points[1..];
      LookupFindsNewest(rest, key, s);
      assert points == [points[0]] + rest;
      assert forall e :: e in rest ==> Before(points[0], e);
      OrderLaws();
    }
  }

  /** Where a new entry goes: before the first entry that does not precede it. */
  function Slot(points: seq<Entry>, e: Entry): (k: nat)
    ensures k <= |points|
    ensures forall i :: 0 <= i < k ==> Before(points[i], e)
    ensures k < |points| ==> !Before(points[k], e)
  {
    if points == [] || !Before(points[0], e) then 0
    else
      var k := Slot(points[1..], e);
      assert forall i :: 1 <= i < k + 1 ==> points[i] == points[1..][i-1];
      k + 1
  }

  function Insert(points: seq<Entry>, e: Entry): seq<Entry> {
    points[..Slot(points, e)] + [e] + points[Slot(points, e)..]
  }

  lemma SlotIsBefore(points: seq<Entry>, e: Entry, i: nat)
    requires Ascending(points) && Slot(points, e) <= i < |points|
    requires forall f :: f in points ==> f.key != e.key || f.sqn != e.sqn
    ensures Before(e, points[i])
  {
    var k := Slot(points, e);
    OrderLaws();
    assert points[k] in points;
    assert Before(e, points[k]);
    assert i > k ==> Before(points[k], points[i]);
  }

  lemma InsertMembers(points: seq<Entry>, e: Entry)
    ensures forall f :: f in Insert(points, e) <==> f in points || f == e
  {
    var k := Slot(points, e);
    assert points == points[..k] + points[k..];
  }

  lemma InsertKeepsAscending(points: seq<Entry>, e: Entry)
    requires Ascending(points)
    requires forall f :: f in points ==> f.key != e.key || f.sqn != e.sqn
    ensures Ascending(Insert(points, e))
  {
    hide Before;
    var k := Slot(points, e);
    var r := Insert(points, e);
    forall i, j | 0 <= i < j < |r| ensures Before(r[i], r[j]) {
      if i == k {
        SlotIsBefore(points, e, j - 1);
      }
      assert i < k ==> r[i] == points[i];
      assert i > k ==> r[i] == points[i-1];
      assert j > k ==> r[j] == points[j-1];
    }
  }
}
