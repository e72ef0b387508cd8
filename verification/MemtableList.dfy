/** The memtable over its skiplist, as the sorted run of versions the rest of the engine sees. */
module MemtableList {
  import opened Bytes
  import opened Versions
  import opened Tables
  import opened Memtables
  import opened Varint
  import opened StoredValues
  import opened Arena
  import opened SkipOrder
  import S = Skiplist
  import Ikey

  /** What getVersionAt makes of a node: the value it shows, or deleted. */
  function Shown(kind: nat, stored: Bytes, now: int): Option<Visible> {
    if kind == 0 then None
    else if kind == 3 then
      if |stored| < EXPIRY_PREFIX then None
      else
        var x := FromLe(stored[..EXPIRY_PREFIX]);
        // Read as a signed word: past the largest int64 it is negative, and invalid like zero.
        if x == 0 || x > MAX_INT64 || x <= now then None else Some(Visible(stored[EXPIRY_PREFIX..], x))
    else Some(Visible(stored, 0))
  }

  /** A deadline cut short, zero or with its sign bit set shows nothing. */
  lemma DamagedShowsNothing(stored: Bytes, now: int)
    ensures |stored| < 8 || stored[..8] == Zeros(8) || stored[7] >= 128 ==> Shown(3, stored, now) == None
  {
    hide FromLe;
    if |stored| >= 8 {
      SignBit(stored[..8]);
    }
  }

  lemma ShownIsOutcome(e: Entry, now: int)
    requires Encodable(e)
    ensures Shown(Kind(e.payload), Stored(e.payload), now) == Outcome(e.payload, now)
  {
    if e.payload.Expiring? {
      var stored := Stored(e.payload);
      Pow2Of64();
      LeRoundTrip(e.payload.expiresAt, EXPIRY_PREFIX);
      assert stored[..EXPIRY_PREFIX] == PutLe(e.payload.expiresAt, EXPIRY_PREFIX) && stored[EXPIRY_PREFIX..] == e.payload.value;
    }
  }

  /** The skiplist's row holds exactly these versions, in this order. */
  ghost predicate Mirrors(row: seq<nat>, info: map<nat, Node>, points: seq<Entry>) {
    && S.Row(row, info) && |row| == |points| + 1 && Ascending(points)
    && (forall i :: 0 <= i < |points| ==> Encodable(points[i]))
    && (forall i :: 0 <= i < |points| ==>
          info[row[i + 1]].key == Ikey.KeyOf(points[i]) && info[row[i + 1]].value == Stored(points[i].payload))
  }

  /** Below the key of a version not among them is before its slot. */
  lemma SlotIsFirstGE(row: seq<nat>, info: map<nat, Node>, points: seq<Entry>, e: Entry)
    requires Mirrors(row, info, points) && Encodable(e)
    requires forall f :: f in points ==> f.key != e.key || f.sqn != e.sqn
    ensures S.FirstGE(row, info, Ikey.KeyOf(e), 1) == Slot(points, e) + 1
  {
    hide Ikey.Less, Ikey.KeyOf, Ascending, Stored;
    var k := Slot(points, e);
    forall i | 0 <= i < |points| ensures Ikey.Less(info[row[i + 1]].key, Ikey.KeyOf(e)) <==> Before(points[i], e) {
      Ikey.OrderIsPrecedes(points[i], e);
      assert points[i] in points;
    }
    forall i | 1 <= i < k + 1 ensures Ikey.Less(info[row[i]].key, Ikey.KeyOf(e)) {
      assert Before(points[i - 1], e) && row[i] == row[i - 1 + 1];
    }
    FirstGEIs(row, info, Ikey.KeyOf(e), k + 1);
  }

  lemma FirstGEIs(row: seq<nat>, info: map<nat, Node>, key: Bytes, pos: nat)
    requires S.Row(row, info) && 0 < pos <= |row|
    requires forall i :: 1 <= i < pos ==> Ikey.Less(info[row[i]].key, key)
    requires pos < |row| ==> !Ikey.Less(info[row[pos]].key, key)
    ensures S.FirstGE(row, info, key, 1) == pos
  {
    hide Ikey.Less;
  }

  lemma MirrorsInserted(row: seq<nat>, info: map<nat, Node>, points: seq<Entry>, e: Entry, n: nat, h: nat)
    requires Mirrors(row, info, points) && Encodable(e) && n !in info && h > 0
    requires forall f :: f in points ==> f.key != e.key || f.sqn != e.sqn
    ensures Mirrors(Inserted(row, Slot(points, e) + 1, n), info[n := Node(Ikey.KeyOf(e), Stored(e.payload), h)], Insert(points, e))
  {
    hide Ikey.KeyOf, Stored, Ascending, Before, S.Row, Inserted;
    var k := Slot(points, e);
    var node := Node(Ikey.KeyOf(e), Stored(e.payload), h);
    S.RowInserted(row, info, k + 1, n, node);
    InsertKeepsAscending(points, e);
    var row', info', now := Inserted(row, k + 1, n), info[n := node], Insert(points, e);
    TowersIn(row', info');
    forall i | 0 <= i < |now| ensures Encodable(now[i]) && info'[row'[i + 1]].key == Ikey.KeyOf(now[i])
                                      && info'[row'[i + 1]].value == Stored(now[i].payload) {
      TowerAt(row, info, k + 1, n, node, i + 1);
      if i < k {
        assert now[i] == points[i];
      } else if i > k {
        assert now[i] == points[i - 1] && info[row[i]] == info[row[i - 1 + 1]];
      }
    }
  }

  lemma TowersIn(row: seq<nat>, info: map<nat, Node>)
    requires S.Row(row, info)
    ensures forall i :: 0 <= i < |row| ==> row[i] in info
  {
  }

  /** Who stands where after an insertion. */
  lemma TowerAt(row: seq<nat>, info: map<nat, Node>, pos: nat, n: nat, node: Node, p: nat)
    requires S.Row(row, info) && 0 < pos <= |row| && n !in info && p <= |row|
    ensures var row', info' := Inserted(row, pos, n), info[n := node];
            && row'[p] in info' && (p < pos ==> row[p] in info) && (p > pos ==> row[p - 1] in info)
            && info'[row'[p]] == if p < pos then info[row[p]] else if p == pos then node else info[row[p - 1]]
  {
  }

  /** The first entry not wholly above the query is the one a lookup finds. */
  lemma {:induction false} LookupIsFirst(points: seq<Entry>, key: Bytes, s: nat, k: nat)
    requires Ascending(points) && k <= |points|
    requires forall i :: 0 <= i < k ==> Lt(points[i].key, key) || (points[i].key == key && points[i].sqn > s)
    requires k < |points| ==> !Lt(points[k].key, key) && !(points[k].key == key && points[k].sqn > s)
    ensures Lookup(points, key, s) == if k < |points| && points[k].key == key then Some(points[k]) else None
    decreases |points|
  {
    OrderLaws();
    if points != [] {
      var rest := points[1..];
      assert forall i :: 0 <= i < |rest| ==> rest[i] == points[i + 1];
      if k > 0 {
        LookupIsFirst(rest, key, s, k - 1);
      } else if points[0].key != key {
        forall i | 0 <= i < |rest| ensures rest[i].key != key {
          assert Before(points[0], points[i + 1]);
        }
        NothingFound(rest, key, s);
      }
    }
  }

  lemma {:induction false} NothingFound(points: seq<Entry>, key: Bytes, s: nat)
    requires forall i :: 0 <= i < |points| ==> points[i].key != key
    ensures Lookup(points, key, s).None?
    decreases |points|
  {
    if points != [] {
      NothingFound(points[1..], key, s);
    }
  }

  /** Seeking the lookup key lands on what a lookup finds. */
  lemma SeekFinds(row: seq<nat>, info: map<nat, Node>, points: seq<Entry>, key: Bytes, s: nat)
    requires Mirrors(row, info, points) && s <= Ikey.MAX_SEQ
    ensures var pos := S.FirstGE(row, info, Ikey.Encode(key, s, 3), 1);
            Lookup(points, key, s) ==
              if pos < |row| && points[pos - 1].key == key && points[pos - 1].sqn <= s then Some(points[pos - 1]) else None
  {
    hide Ikey.Less, Ikey.KeyOf, Ascending, Stored, Lookup;
    var probe := Entry(key, s, Expiring([], 1));
    var pos := S.FirstGE(row, info, Ikey.KeyOf(probe), 1);
    assert Ikey.KeyOf(probe) == Ikey.Encode(key, s, 3) by { ProbeKey(key, s); }
    forall i | 0 <= i < |points|
      ensures Ikey.Less(info[row[i + 1]].key, Ikey.KeyOf(probe)) <==> Lt(points[i].key, key) || (points[i].key == key && points[i].sqn > s)
    {
      Ikey.OrderIsPrecedes(points[i], probe);
      OrderLaws();
    }
    forall i | 0 <= i < pos - 1 ensures Lt(points[i].key, key) || (points[i].key == key && points[i].sqn > s) {
      assert Ikey.Less(info[row[i + 1]].key, Ikey.KeyOf(probe));
    }
    LookupIsFirst(points, key, s, pos - 1);
    LookupFindsNewest(points, key, s);
  }

  lemma ProbeKey(key: Bytes, s: nat)
    ensures Ikey.KeyOf(Entry(key, s, Expiring([], 1))) == Ikey.Encode(key, s, 3)
  {
  }

  lemma RowOf(row: seq<nat>, info: map<nat, Node>, points: seq<Entry>)
    requires Mirrors(row, info, points)
    ensures S.Row(row, info)
  {
  }

  lemma ContainsMeans(d: RangeDel)
    ensures forall key :: d.Contains(key) <==> !Lt(key, d.start) && Lt(key, d.end)
  {
    OrderLaws();
  }

  class SkipMemtable {
    const list: S.Skiplist
    var rts: seq<RangeDel>
    ghost var points: seq<Entry>

    ghost predicate Valid()
      reads this, list
    {
      list.Valid() && Mirrors(list.row, list.info, points) && forall i :: 0 <= i < |rts| ==> rts[i].WellFormed()
    }

    constructor ()
      ensures Valid() && points == [] && rts == [] && fresh(list)
    {
      list := new S.Skiplist();
      rts, points := [], [];
    }

    /** add: the version joins the run at its place. Sequences are unique, so it is not there yet. */
    method Add(e: Entry, h: nat)
      requires Valid() && Encodable(e) && 0 < h <= S.MAX_HEIGHT
      requires forall f :: f in points ==> f.key != e.key || f.sqn != e.sqn
      requires |list.arena| + Size(Node(Ikey.KeyOf(e), Stored(e.payload), h)) <= MAX_UINT32
      modifies this`points, list
      ensures Valid() && points == Insert(old(points), e) && rts == old(rts)
    {
      hide Mirrors, S.SkipOk, Stored, Insert;
      SlotIsFirstGE(list.row, list.info, points, e);
      ghost var row, info, n := list.row, list.info, |list.arena|;
      list.Insert(Ikey.Encode(e.key, e.sqn, Kind(e.payload)), Stored(e.payload), h);
      MirrorsInserted(row, info, points, e, n, h);
      points := Insert(points, e);
    }

    /** addRangeDel: a version is now deleted, for a reader, if it was before, or if it is older than `d`, within it,
        and the reader sees `d`. */
    method DelRange(d: RangeDel)
      requires Valid() && d.WellFormed()
      modifies this`rts
      ensures Valid() && rts == old(rts) + [d] && points == old(points)
      ensures forall key, v: nat, s: nat :: RangeDeleted(DelSet(rts), key, v, s)
                <==> RangeDeleted(DelSet(old(rts)), key, v, s) || (!Lt(key, d.start) && Lt(key, d.end) && v < d.sqn <= s)
    {
      hide RangeDel.Contains, Lt, S.SkipOk, Mirrors;
      ContainsMeans(d);
      rts := rts + [d];
      assert DelSet(rts) == DelSet(old(rts)) + {d};
    }

    /** getVersionAt: the newest version at or below `s`, and what it shows at `now`. */
    method GetVersionAt(s: nat, key: Bytes, now: int) returns (r: Option<(nat, Option<Visible>)>)
      requires Valid() && s <= Ikey.MAX_SEQ
      ensures var e := Lookup(points, key, s);
              r == if e.None? then None else Some((e.value.sqn, Outcome(e.value.payload, now)))
    {
      hide Mirrors, S.SkipOk, Stored, Lookup, Ikey.Less, KeyAt, ValueAt, Shown;
      SeekFinds(list.row, list.info, points, key, s);
      assert S.Row(list.row, list.info) by { RowOf(list.row, list.info, points); }
      ghost var pos := S.FirstGE(list.row, list.info, Ikey.Encode(key, s, 3), 1);
      var n := list.Seek(Ikey.Encode(key, s, 3));
      if n == 0 {
        Nonzero(pos);
        return None;
      }
      Landed(pos, key, now);
      var nkey := KeyAt(list.arena, n).value;
      if Ikey.UserKey(nkey) != key || Ikey.SqnOf(nkey) > s {
        return None;
      }
      r := Some((Ikey.SqnOf(nkey), Shown(Ikey.KindOf(nkey), ValueAt(list.arena, n).value, now)));
    }

    lemma Nonzero(pos: nat)
      requires Valid()
      ensures 0 < pos < |list.row| ==> list.row[pos] > 0
    {
      hide Mirrors, S.SkipOk;
      if 0 < pos < |list.row| {
        list.NodeIs(pos);
      }
    }

    lemma Landed(pos: nat, key: Bytes, now: int)
      requires Valid() && 0 < pos < |list.row|
      ensures |points| == |list.row| - 1 && KeyAt(list.arena, list.row[pos]).Some? && ValueAt(list.arena, list.row[pos]).Some?
      ensures var k, e := KeyAt(list.arena, list.row[pos]).value, points[pos - 1];
              && |k| >= Ikey.TRAILER && Ikey.UserKey(k) == e.key && Ikey.SqnOf(k) == e.sqn
              && Shown(Ikey.KindOf(k), ValueAt(list.arena, list.row[pos]).value, now) == Outcome(e.payload, now)
    {
      hide S.SkipOk, KeyAt, ValueAt, Ascending, Stored, Shown;
      list.NodeIs(pos);
      var e := points[pos - 1];
      assert list.info[list.row[pos - 1 + 1]].key == Ikey.KeyOf(e);
      Ikey.RoundTrip(e.key, e.sqn, Kind(e.payload));
      ShownIsOutcome(e, now);
    }
  }
}
