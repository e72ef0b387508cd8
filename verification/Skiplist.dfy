/** The memtable's skiplist over its byte arena. */
module Skiplist {
  import opened Bytes
  import opened Arena
  import opened SkipOrder
  import Ikey

  const MAX_HEIGHT: nat := 12

  // ---------------------------------------------------------------------------
  // The list an arena stands for
  // ---------------------------------------------------------------------------

  /** Every node's bytes are in place, and no two nodes share any. */
  ghost predicate Layout(a: Bytes, info: map<nat, Node>) {
    && (forall o :: o in info ==> o > 0 && Fits(info[o]) && Holds(a, o, info[o]))
    && (forall o, o' :: o in info && o' in info && o != o' ==> Apart(o, info[o], o', info[o']))
  }

  /** The towers in key order, the head first. */
  ghost predicate Row(row: seq<nat>, info: map<nat, Node>) {
    && row != [] && (forall i :: 0 <= i < |row| ==> row[i] in info && info[row[i]].height > 0)
    && (forall i, j :: 0 <= i < j < |row| ==> row[i] != row[j])
    && info[row[0]].height == MAX_HEIGHT
  }

  function Heights(row: seq<nat>, info: map<nat, Node>): (hs: seq<nat>)
    requires forall i :: 0 <= i < |row| ==> row[i] in info
    ensures |hs| == |row| && forall i :: 0 <= i < |row| ==> hs[i] == info[row[i]].height
  {
    seq(|row|, i requires 0 <= i < |row| => info[row[i]].height)
  }

  /** Where position `i` points on `level`: the next tower that tall, or nil. */
  function Target(row: seq<nat>, hs: seq<nat>, i: nat, level: nat): nat
    requires i < |row| == |hs|
  {
    var j := Next(hs, i, level);
    if j < |row| then row[j] else 0
  }

  /** Each level is the sublist of the towers that reach it. */
  ghost predicate Threaded(a: Bytes, row: seq<nat>, info: map<nat, Node>)
    requires Layout(a, info) && Row(row, info)
  {
    forall i, level :: 0 <= i < |row| && 0 <= level < info[row[i]].height ==>
      Link(a, row[i], level) == Target(row, Heights(row, info), i, level)
  }

  /** Keys are internal keys, and never descend along the row. */
  ghost predicate Ascends(row: seq<nat>, info: map<nat, Node>)
    requires Row(row, info)
  {
    && (forall i :: 0 < i < |row| ==> |info[row[i]].key| >= Ikey.TRAILER)
    && (forall i, j :: 0 < i < j < |row| ==> !Ikey.Less(info[row[j]].key, info[row[i]].key))
  }

  // ---------------------------------------------------------------------------
  // Searching
  // ---------------------------------------------------------------------------

  /** The first position, head aside, whose key is not below `key`. */
  ghost function FirstGE(row: seq<nat>, info: map<nat, Node>, key: Bytes, from: nat): (pos: nat)
    requires Row(row, info) && 0 < from <= |row|
    ensures from <= pos <= |row| && (pos < |row| ==> !Ikey.Less(info[row[pos]].key, key))
    ensures forall i :: from <= i < pos ==> Ikey.Less(info[row[i]].key, key)
    decreases |row| - from
  {
    if from == |row| || !Ikey.Less(info[row[from]].key, key) then from else FirstGE(row, info, key, from + 1)
  }

  /** Along an ascending row, being below `key` is being before that position. */
  lemma SplitsAt(row: seq<nat>, info: map<nat, Node>, key: Bytes, i: nat)
    requires Row(row, info) && Ascends(row, info) && 0 < i < |row| && |key| >= Ikey.TRAILER
    ensures Ikey.Less(info[row[i]].key, key) <==> i < FirstGE(row, info, key, 1)
  {
    hide Ikey.Less, FirstGE;
    var pos := FirstGE(row, info, key, 1);
    if pos < i {
      Ikey.Laws(info[row[pos]].key, info[row[i]].key, key);
      Ikey.Laws(info[row[i]].key, info[row[pos]].key, key);
    }
  }

  /** A predecessor of `pos` on `level`: it reaches the level, and its link there passes `pos`. */
  ghost predicate Before(row: seq<nat>, info: map<nat, Node>, pos: nat, level: nat, off: nat)
    requires forall i :: 0 <= i < |row| ==> row[i] in info
  {
    exists i :: BeforeAt(row, info, pos, level, off, i)
  }

  ghost predicate BeforeAt(row: seq<nat>, info: map<nat, Node>, pos: nat, level: nat, off: nat, i: int)
    requires forall i :: 0 <= i < |row| ==> row[i] in info
  {
    && 0 <= i < pos <= |row| && row[i] == off && info[off].height > level
    && Next(Heights(row, info), i, level) >= pos
  }

  // ---------------------------------------------------------------------------
  // Inserting
  // ---------------------------------------------------------------------------

  /** What a new tower at `pos` does to every link target. */
  lemma TargetBefore(row: seq<nat>, hs: seq<nat>, pos: nat, h: nat, n: nat, p: nat, level: nat)
    requires |row| == |hs| && 0 < pos <= |row| && p < pos
    ensures Target(Inserted(row, pos, n), Inserted(hs, pos, h), p, level)
            == if Next(hs, p, level) >= pos && level < h then n else Target(row, hs, p, level)
  {
    InsertMovesNext(hs, pos, h, p, level);
    var row' := Inserted(row, pos, n);
    assert forall k :: 0 <= k < pos ==> row'[k] == row[k];
    assert row'[pos] == n && forall k :: pos < k < |row'| ==> row'[k] == row[k - 1];
  }

  lemma TargetAfter(row: seq<nat>, hs: seq<nat>, pos: nat, h: nat, n: nat, p: nat, level: nat)
    requires |row| == |hs| && pos < p <= |row|
    ensures Target(Inserted(row, pos, n), Inserted(hs, pos, h), p, level) == Target(row, hs, p - 1, level)
  {
    InsertKeepsNext(hs, pos, h, p - 1, level);
    var row' := Inserted(row, pos, n);
    assert forall k :: pos < k < |row'| ==> row'[k] == row[k - 1];
  }

  lemma TargetOfNew(row: seq<nat>, hs: seq<nat>, pos: nat, h: nat, n: nat, i: nat, level: nat)
    requires |row| == |hs| && 0 < pos <= |row| && i < pos <= Next(hs, i, level)
    ensures Target(Inserted(row, pos, n), Inserted(hs, pos, h), pos, level) == Target(row, hs, i, level)
  {
    InsertedNext(hs, pos, h, i, level);
    var row' := Inserted(row, pos, n);
    assert forall k :: pos < k < |row'| ==> row'[k] == row[k - 1];
  }

  /** The links after `done` levels of an insertion: those levels as they will be, the rest as they were. */
  function Midway(row: seq<nat>, hs: seq<nat>, pos: nat, h: nat, n: nat, done: nat, p: nat, level: nat): nat
    requires |row| == |hs| && 0 < pos <= |row| && p <= |row|
  {
    if level < done then Target(Inserted(row, pos, n), Inserted(hs, pos, h), p, level)
    else if p == pos then 0
    else Target(row, hs, if p < pos then p else p - 1, level)
  }

  ghost predicate Partly(a: Bytes, row: seq<nat>, info: map<nat, Node>, pos: nat, n: nat, node: Node, done: nat)
    requires Row(row, info) && 0 < pos <= |row| && n !in info
  {
    var info', row' := info[n := node], Inserted(row, pos, n);
    && Layout(a, info')
    && forall p, level :: 0 <= p < |row'| && 0 <= level < info'[row'[p]].height ==>
         Link(a, row'[p], level) == Midway(row, Heights(row, info), pos, node.height, n, done, p, level)
  }

  lemma RowInserted(row: seq<nat>, info: map<nat, Node>, pos: nat, n: nat, node: Node)
    requires Row(row, info) && 0 < pos <= |row| && n !in info && node.height > 0
    ensures var info', row' := info[n := node], Inserted(row, pos, n);
            && Row(row', info') && Heights(row', info') == Inserted(Heights(row, info), pos, node.height)
            && forall p :: 0 <= p < |row'| ==> row'[p] == if p < pos then row[p] else if p == pos then n else row[p - 1]
  {
    InsertedAt(row, pos, n);
    InsertedAt(Heights(row, info), pos, node.height);
    hide Inserted;
    var info', row' := info[n := node], Inserted(row, pos, n);
    var a, b := Heights(row', info'), Inserted(Heights(row, info), pos, node.height);
    forall p | 0 <= p < |a| ensures a[p] == b[p] {
    }
  }

  lemma InsertedAt(s: seq<nat>, pos: nat, x: nat)
    requires pos <= |s|
    ensures var r := Inserted(s, pos, x);
            |r| == |s| + 1 && forall p :: 0 <= p < |r| ==> r[p] == if p < pos then s[p] else if p == pos then x else s[p - 1]
  {
  }

  /** An allocation leaves every other node, and its links, as they were. */
  lemma AllocLayout(a: Bytes, info: map<nat, Node>, node: Node)
    requires Layout(a, info) && Fits(node) && |a| > 0
    ensures |a| !in info && Layout(Alloc(a, node), info[|a| := node])
    ensures forall o, k :: o in info && 0 <= k < info[o].height ==> LinkAt(o, k) + 4 <= |a| <= |Alloc(a, node)|
    ensures forall o, k :: o in info && 0 <= k < info[o].height ==> Link(Alloc(a, node), o, k) == Link(a, o, k)
  {
    hide Alloc, Header, Link;
    var b := Alloc(a, node);
    assert |a| !in info;
    AllocHolds(a, node);
    forall o | o in info ensures Holds(b, o, info[o]) && forall k :: 0 <= k < info[o].height ==> Link(b, o, k) == Link(a, o, k) {
      HoldsAfterAlloc(a, node, o, info[o]);
    }
  }

  /** A fresh node, not yet linked. */
  lemma AllocPartly(a: Bytes, row: seq<nat>, info: map<nat, Node>, pos: nat, node: Node)
    requires Layout(a, info) && Row(row, info) && Threaded(a, row, info) && 0 < pos <= |row|
    requires Fits(node) && node.height > 0 && |a| > 0
    ensures |a| !in info && Partly(Alloc(a, node), row, info, pos, |a|, node, 0)
  {
    hide Alloc, Header, Target, Heights, Link, Layout;
    AllocLayout(a, info, node);
    AllocHolds(a, node);
    RowInserted(row, info, pos, |a|, node);
    var b, info', row', hs := Alloc(a, node), info[|a| := node], Inserted(row, pos, |a|), Heights(row, info);
    LinksFit(b, info');
    forall p, k | 0 <= p < |row'| && 0 <= k < info'[row'[p]].height
      ensures Link(b, row'[p], k) == Midway(row, hs, pos, node.height, |a|, 0, p, k)
    {
      if p != pos {
        var q := if p < pos then p else p - 1;
        assert row'[p] == row[q] && Link(a, row[q], k) == Target(row, hs, q, k);
      }
    }
  }

  /** One level of the splice: the new node takes its predecessor's link, the predecessor points at it. */
  function Splice(a: Bytes, n: nat, prev: nat, level: nat): Bytes
    requires LinkAt(n, level) + 4 <= |a| && LinkAt(prev, level) + 4 <= |a|
  {
    var b := SetLink(a, n, level, Link(a, prev, level));
    SetLink(b, prev, level, n)
  }

  /** Two link writes to different nodes, as links and layout see them. */
  lemma SpliceLinks(a: Bytes, info: map<nat, Node>, n: nat, prev: nat, level: nat)
    requires Layout(a, info) && n in info && prev in info && n != prev && n <= MAX_UINT32
    requires level < info[n].height && level < info[prev].height && Link(a, prev, level) <= MAX_UINT32
    ensures LinkAt(n, level) + 4 <= |a| && LinkAt(prev, level) + 4 <= |a|
    ensures var b := Splice(a, n, prev, level);
            && |b| == |a| && Layout(b, info)
            && Link(b, n, level) == Link(a, prev, level) && Link(b, prev, level) == n
            && forall o, k :: o in info && 0 <= k < info[o].height && (o, k) != (n, level) && (o, k) != (prev, level) ==>
                 Link(b, o, k) == Link(a, o, k)
  {
    hide Header, Link, SetLink;
    var t := Link(a, prev, level);
    var a1 := SetLink(a, n, level, t);
    SetLinkReads(a, n, level, t);
    forall o | o in info ensures Holds(a1, o, info[o])
                                 && forall k :: 0 <= k < info[o].height && (o, k) != (n, level) ==> Link(a1, o, k) == Link(a, o, k) {
      HoldsAfterSetLink(a, n, info[n], level, t, o, info[o]);
    }
    var b := SetLink(a1, prev, level, n);
    SetLinkReads(a1, prev, level, n);
    forall o | o in info ensures Holds(b, o, info[o])
                                 && forall k :: 0 <= k < info[o].height && (o, k) != (prev, level) ==> Link(b, o, k) == Link(a1, o, k) {
      HoldsAfterSetLink(a1, prev, info[prev], level, n, o, info[o]);
    }
  }

  lemma LinksFit(a: Bytes, info: map<nat, Node>)
    requires Layout(a, info)
    ensures forall o, k :: o in info && 0 <= k < info[o].height ==> LinkAt(o, k) + 4 <= |a|
  {
    forall o, k | o in info && 0 <= k < info[o].height ensures LinkAt(o, k) + 4 <= |a| {
      assert Holds(a, o, info[o]);
    }
  }

  lemma SpliceStep(a: Bytes, row: seq<nat>, info: map<nat, Node>, pos: nat, n: nat, node: Node, prev: nat, i: nat, level: nat)
    requires Row(row, info) && 0 < pos <= |row| && n !in info && 0 < node.height
    requires Partly(a, row, info, pos, n, node, level) && level < node.height && |a| <= MAX_UINT32
    requires BeforeAt(row, info, pos, level, prev, i)
    ensures LinkAt(n, level) + 4 <= |a| && LinkAt(prev, level) + 4 <= |a|
    ensures |Splice(a, n, prev, level)| == |a| && Partly(Splice(a, n, prev, level), row, info, pos, n, node, level + 1)
  {
    hide Header, Link, SetLink, Splice, Holds, Apart, Fits, Next, Target;
    var info', row', hs := info[n := node], Inserted(row, pos, n), Heights(row, info);
    RowInserted(row, info, pos, n, node);
    LinksFit(a, info');
    assert row'[i] == prev && row'[pos] == n;
    OffsetsFit(a, row, info, n, node, i, level);
    assert Link(a, prev, level) == Target(row, hs, i, level);
    SpliceLinks(a, info', n, prev, level);
    var b := Splice(a, n, prev, level);
    forall p, k | 0 <= p < |row'| && 0 <= k < info'[row'[p]].height
      ensures Link(b, row'[p], k) == Midway(row, hs, pos, node.height, n, level + 1, p, k)
    {
      if k == level {
        if p == pos {
          TargetOfNew(row, hs, pos, node.height, n, i, level);
        } else if p < pos {
          TargetBefore(row, hs, pos, node.height, n, p, level);
          OnePredecessor(hs, pos, i, p, level);
        } else {
          TargetAfter(row, hs, pos, node.height, n, p, level);
        }
      }
    }
  }

  /** Every link target is an offset in the arena. */
  lemma OffsetsFit(a: Bytes, row: seq<nat>, info: map<nat, Node>, n: nat, node: Node, i: nat, level: nat)
    requires Row(row, info) && n !in info && Layout(a, info[n := node]) && |a| <= MAX_UINT32 && i < |row|
    ensures n <= MAX_UINT32 && Target(row, Heights(row, info), i, level) <= MAX_UINT32
  {
    hide Header;
    var j := Next(Heights(row, info), i, level);
    assert n in info[n := node];
    if j < |row| {
      assert row[j] in info[n := node];
    }
  }

  /** With every level of the new tower spliced, the row is threaded again. */
  lemma Spliced(a: Bytes, row: seq<nat>, info: map<nat, Node>, pos: nat, n: nat, node: Node)
    requires Row(row, info) && 0 < pos <= |row| && n !in info && 0 < node.height
    requires Partly(a, row, info, pos, n, node, node.height)
    ensures var info', row' := info[n := node], Inserted(row, pos, n);
            Row(row', info') && Layout(a, info') && Threaded(a, row', info')
  {
    hide Header, Link, Holds, Apart, Fits, Next, Target;
    var info', row', hs := info[n := node], Inserted(row, pos, n), Heights(row, info);
    RowInserted(row, info, pos, n, node);
    LinksFit(a, info');
    forall p, k | 0 <= p < |row'| && 0 <= k < info'[row'[p]].height
      ensures Link(a, row'[p], k) == Target(row', Heights(row', info'), p, k)
    {
      if k >= node.height {
        if p < pos {
          TargetBefore(row, hs, pos, node.height, n, p, k);
        } else if p > pos {
          TargetAfter(row, hs, pos, node.height, n, p, k);
        }
      }
    }
  }

  /** A key goes in where the first key not below it was. */
  lemma AscendsInserted(row: seq<nat>, info: map<nat, Node>, n: nat, node: Node)
    requires Row(row, info) && Ascends(row, info) && n !in info && node.height > 0 && |node.key| >= Ikey.TRAILER
    ensures var pos := FirstGE(row, info, node.key, 1);
            var info', row' := info[n := node], Inserted(row, pos, n);
            Row(row', info') && Ascends(row', info')
  {
    hide Ikey.Less, FirstGE, Inserted;
    var pos := FirstGE(row, info, node.key, 1);
    var info', row' := info[n := node], Inserted(row, pos, n);
    RowInserted(row, info, pos, n, node);
    InsertedAt(row, pos, n);
    forall i | 0 < i < |row'| ensures |info'[row'[i]].key| >= Ikey.TRAILER {
      NodeInserted(row, info, pos, n, node, i);
    }
    forall i, j | 0 < i < j < |row'| ensures !Ikey.Less(info'[row'[j]].key, info'[row'[i]].key) {
      NodeInserted(row, info, pos, n, node, i);
      NodeInserted(row, info, pos, n, node, j);
      InOrder(row, info, n, node, i, j);
    }
  }

  lemma NodeInserted(row: seq<nat>, info: map<nat, Node>, pos: nat, n: nat, node: Node, i: nat)
    requires Row(row, info) && 0 < pos <= |row| && n !in info && i <= |row|
    ensures var info', row' := info[n := node], Inserted(row, pos, n);
            && |row'| == |row| + 1 && row'[i] in info'
            && info'[row'[i]] == if i < pos then info[row[i]] else if i == pos then node else info[row[i - 1]]
  {
    InsertedAt(row, pos, n);
  }

  lemma InOrder(row: seq<nat>, info: map<nat, Node>, n: nat, node: Node, i: nat, j: nat)
    requires Row(row, info) && Ascends(row, info) && |node.key| >= Ikey.TRAILER && 0 < i < j <= |row|
    ensures var pos := FirstGE(row, info, node.key, 1);
            var low := if i < pos then info[row[i]].key else if i == pos then node.key else info[row[i - 1]].key;
            var high := if j < pos then info[row[j]].key else if j == pos then node.key else info[row[j - 1]].key;
            !Ikey.Less(high, low)
  {
    hide Ikey.Less, FirstGE;
    var pos := FirstGE(row, info, node.key, 1);
    if i == pos {
      SplitsAt(row, info, node.key, j - 1);
    } else if j == pos {
      SplitsAt(row, info, node.key, i);
      Ikey.Laws(info[row[i]].key, node.key, node.key);
    }
  }

  function EntriesOf(offs: seq<nat>, info: map<nat, Node>): seq<(Bytes, Bytes)>
    requires forall i :: 0 <= i < |offs| ==> offs[i] in info
  {
    seq(|offs|, i requires 0 <= i < |offs| => (info[offs[i]].key, info[offs[i]].value))
  }

  ghost predicate SkipOk(a: Bytes, row: seq<nat>, info: map<nat, Node>, height: nat) {
    && 0 < |a| <= MAX_UINT32 && 0 < height <= MAX_HEIGHT
    && Layout(a, info) && Row(row, info) && Threaded(a, row, info) && Ascends(row, info)
    && (forall o :: o in info ==> o in row)
    && forall i :: 0 < i < |row| ==> info[row[i]].height <= height
  }

  lemma ShapeInserted(row: seq<nat>, info: map<nat, Node>, pos: nat, n: nat, node: Node, height: nat, tall: nat)
    requires Row(row, info) && 0 < pos <= |row| && n !in info && 0 < node.height <= tall && height <= tall
    requires (forall o :: o in info ==> o in row) && forall i :: 0 < i < |row| ==> info[row[i]].height <= height
    ensures var info', row' := info[n := node], Inserted(row, pos, n);
            && row'[0] == row[0] && (forall o :: o in info' ==> o in row')
            && forall i :: 0 < i < |row'| ==> row'[i] in info' && info'[row'[i]].height <= tall
  {
    var info', row' := info[n := node], Inserted(row, pos, n);
    InsertedAt(row, pos, n);
    forall o | o in info' ensures o in row' {
      if o == n {
        assert row'[pos] == n;
      } else {
        var i :| 0 <= i < |row| && row[i] == o;
        assert row'[if i < pos then i else i + 1] == o;
      }
    }
    forall i | 0 < i < |row'| ensures row'[i] in info' && info'[row'[i]].height <= tall {
      NodeInserted(row, info, pos, n, node, i);
    }
  }

  lemma InsertedOk(a: Bytes, row: seq<nat>, info: map<nat, Node>, n: nat, node: Node, height: nat, tall: nat)
    requires 0 < |a| <= MAX_UINT32 && 0 < height <= tall <= MAX_HEIGHT && 0 < node.height <= tall && |node.key| >= Ikey.TRAILER
    requires Row(row, info) && Ascends(row, info) && n !in info
    requires (forall o :: o in info ==> o in row) && forall i :: 0 < i < |row| ==> info[row[i]].height <= height
    requires Partly(a, row, info, FirstGE(row, info, node.key, 1), n, node, node.height)
    ensures var row' := Inserted(row, FirstGE(row, info, node.key, 1), n);
            SkipOk(a, row', info[n := node], tall) && row'[0] == row[0]
  {
    hide Row, Ascends, Partly, FirstGE, Layout, Threaded, Inserted;
    var pos := FirstGE(row, info, node.key, 1);
    Spliced(a, row, info, pos, n, node);
    AscendsInserted(row, info, n, node);
    ShapeInserted(row, info, pos, n, node, height, tall);
  }

  /** A moment of the list: its bytes, and what they stand for. */
  datatype Moment = Moment(arena: Bytes, row: seq<nat>, info: map<nat, Node>, height: nat)

  ghost predicate Sound(m: Moment) {
    SkipOk(m.arena, m.row, m.info, m.height)
  }

  /** One entry goes in. */
  ghost predicate Grows(m: Moment, m': Moment, node: Node) {
    && Sound(m) && Sound(m') && |m.arena| !in m.info && |m'.arena| == |m.arena| + Size(node)
    && m'.row == Inserted(m.row, FirstGE(m.row, m.info, node.key, 1), |m.arena|) && m'.info == m.info[|m.arena| := node]
  }

  class Skiplist {
    var arena: Bytes
    var head: nat
    var height: nat
    // The towers in key order, the head first, and what each holds.
    ghost var row: seq<nat>
    ghost var info: map<nat, Node>

    ghost predicate Valid()
      reads this
    {
      SkipOk(arena, row, info, height) && row[0] == head
    }

    ghost function Now(): Moment
      reads this
    {
      Moment(arena, row, info, height)
    }

    /** The keys and values, in order. */
    ghost function Entries(): seq<(Bytes, Bytes)>
      requires Valid()
      reads this
    {
      EntriesOf(row[1..], info)
    }

    constructor ()
      ensures Valid() && Entries() == []
    {
      var node := Node([], [], MAX_HEIGHT);
      arena := Alloc([0], node);
      head, height := 1, 1;
      row, info := [1], map[1 := node];
      new;
      AllocHolds([0], node);
    }

    lemma LinkIs(i: nat, level: nat)
      requires Valid() && i < |row| && level < info[row[i]].height
      ensures LinkAt(row[i], level) + 4 <= |arena| && Link(arena, row[i], level) == Target(row, Heights(row, info), i, level)
    {
      hide Header, Link, Target, Heights, Ascends;
      assert Holds(arena, row[i], info[row[i]]);
    }

    lemma NodeIs(i: nat)
      requires Valid() && i < |row|
      ensures row[i] > 0 && KeyAt(arena, row[i]) == Some(info[row[i]].key) && ValueAt(arena, row[i]) == Some(info[row[i]].value)
      ensures i > 0 ==> |info[row[i]].key| >= Ikey.TRAILER
    {
      hide Header, Threaded, KeyAt, ValueAt, Ikey.Less;
      NodeReads(arena, row[i], info[row[i]]);
    }

    /** The inner loop of findGE: along one level while the next key is below `key`. */
    method Walk(x0: nat, ghost i0: nat, level: nat, key: Bytes, ghost pos: nat) returns (x: nat, ghost i: nat)
      requires Valid() && |key| >= Ikey.TRAILER && pos == FirstGE(row, info, key, 1)
      requires i0 < pos && row[i0] == x0 && level < info[x0].height
      ensures i < pos && row[i] == x && level < info[x].height && Next(Heights(row, info), i, level) >= pos
    {
      hide Layout, Threaded, Ascends, FirstGE, Ikey.Less, Header, Link, KeyAt, Heights;
      x, i := x0, i0;
      while true
        invariant i < pos && row[i] == x && level < info[x].height
        decreases |row| - i
      {
        LinkIs(i, level);
        var nxt := Link(arena, x, level);
        ghost var j := Next(Heights(row, info), i, level);
        if nxt == 0 {
          if j < |row| {
            NodeIs(j);
          }
          return;
        }
        NodeIs(j);
        SplitsAt(row, info, key, j);
        if !Ikey.Less(KeyAt(arena, nxt).value, key) {
          return;
        }
        x, i := nxt, j;
      }
    }

    /** findGE: the first node whose key is not below `key`, and its predecessor on every level in use. */
    method FindGE(key: Bytes) returns (x: nat, prev: seq<nat>, ghost pos: nat)
      requires Valid() && |key| >= Ikey.TRAILER
      ensures pos == FirstGE(row, info, key, 1) && x == if pos < |row| then row[pos] else 0
      ensures |prev| == MAX_HEIGHT && forall l :: 0 <= l < height ==> Before(row, info, pos, l, prev[l])
    {
      hide Layout, Threaded, Ascends, Next, FirstGE, Ikey.Less, Header, Link;
      pos := FirstGE(row, info, key, 1);
      x := head;
      prev := seq(MAX_HEIGHT, _ => 0);
      ghost var i := 0;
      var level := height;
      while level > 0
        invariant 0 <= level <= height && |prev| == MAX_HEIGHT
        invariant 0 <= i < pos && row[i] == x && info[x].height >= level
        invariant forall l :: level <= l < height ==> Before(row, info, pos, l, prev[l])
        invariant level == 0 ==> Next(Heights(row, info), i, 0) >= pos
      {
        level := level - 1;
        ghost var at: nat;
        x, at := Walk(x, i, level, key, pos);
        i := at;
        prev := prev[level := x];
        assert BeforeAt(row, info, pos, level, x, i);
      }
      LinkIs(i, 0);
      BottomNext(Heights(row, info), i);
      x := Link(arena, x, 0);
    }

    /** seek. */
    method Seek(target: Bytes) returns (x: nat)
      requires Valid() && |target| >= Ikey.TRAILER
      ensures var pos := FirstGE(row, info, target, 1); x == if pos < |row| then row[pos] else 0
    {
      var prev;
      ghost var pos;
      x, prev, pos := FindGE(target);
    }

    /** insert: a new node of height `h`, the coin flips' outcome, before the first key not below its own. */
    method Insert(key: Bytes, value: Bytes, h: nat)
      requires Valid() && |key| >= Ikey.TRAILER && 0 < h <= MAX_HEIGHT
      requires |arena| + Size(Node(key, value, h)) <= MAX_UINT32
      modifies this
      ensures Valid() && head == old(head)
      ensures Grows(old(Now()), Now(), Node(key, value, h))
    {
      hide Layout, Threaded, Ascends, Next, FirstGE, Ikey.Less, Header, Link, Alloc, Heights, Partly, Row, Before, Inserted;
      ghost var pos: nat;
      var x: nat, prev: seq<nat>;
      x, prev, pos := FindGE(key);
      prev := Raise(prev, pos, h);
      var node := Node(key, value, h);
      var n := |arena|;
      AllocPartly(arena, row, info, pos, node);
      AllocHolds(arena, node);
      arena := Alloc(arena, node);
      ThreadIn(n, prev, pos, node);
      InsertedOk(arena, row, info, n, node, old(height), height);
      row, info := Inserted(row, pos, n), info[n := node];
    }

    /** Levels above the height in use have the head for predecessor. */
    method Raise(prev: seq<nat>, ghost pos: nat, h: nat) returns (prev': seq<nat>)
      requires Valid() && 0 < pos <= |row| && h <= MAX_HEIGHT && |prev| == MAX_HEIGHT
      requires forall l :: 0 <= l < height ==> Before(row, info, pos, l, prev[l])
      modifies this`height
      ensures height == (if h > old(height) then h else old(height)) && |prev'| == MAX_HEIGHT
      ensures forall l :: 0 <= l < h ==> Before(row, info, pos, l, prev'[l])
    {
      hide Before;
      prev' := prev;
      if h > height {
        TopIsHead(pos);
        for l := height to h
          invariant |prev'| == MAX_HEIGHT && forall k :: 0 <= k < l ==> Before(row, info, pos, k, prev'[k])
        {
          prev' := prev'[l := head];
        }
        height := h;
      }
    }

    /** The splice, level by level. */
    method ThreadIn(n: nat, prev: seq<nat>, ghost pos: nat, node: Node)
      requires Row(row, info) && 0 < pos <= |row| && n !in info && 0 < node.height <= |prev| && |arena| <= MAX_UINT32
      requires Partly(arena, row, info, pos, n, node, 0)
      requires forall l :: 0 <= l < node.height ==> Before(row, info, pos, l, prev[l])
      modifies this`arena
      ensures |arena| == |old(arena)| && Partly(arena, row, info, pos, n, node, node.height)
    {
      hide Partly, Splice;
      for l := 0 to node.height
        invariant |arena| == |old(arena)| && Partly(arena, row, info, pos, n, node, l)
      {
        assert Before(row, info, pos, l, prev[l]);
        ghost var i: nat :| BeforeAt(row, info, pos, l, prev[l], i);
        SpliceStep(arena, row, info, pos, n, node, prev[l], i, l);
        arena := Splice(arena, n, prev[l], l);
      }
    }

    /** Above the height in use only the head's links exist, and they are nil. */
    lemma TopIsHead(pos: nat)
      requires Valid() && 0 < pos <= |row|
      ensures forall l :: height <= l < MAX_HEIGHT ==> Before(row, info, pos, l, head)
    {
      forall l | height <= l < MAX_HEIGHT ensures Before(row, info, pos, l, head) {
        NextIs(Heights(row, info), 0, l, |row|);
        assert BeforeAt(row, info, pos, l, head, 0);
      }
    }

    /** newSnapshotIterator: the offsets present now, in key order, and the bytes that hold them. */
    method Snapshot() returns (offs: seq<nat>, pinned: Bytes)
      requires Valid()
      ensures offs == row[1..] && pinned == arena
    {
      hide Layout, Threaded, Ascends, Header, Link, Heights;
      pinned := arena;
      offs := [];
      LinkIs(0, 0);
      BottomNext(Heights(row, info), 0);
      ghost var i := 1;
      var n := Link(arena, head, 0);
      while n != 0
        invariant 1 <= i <= |row| && offs == row[1..i] && n == if i < |row| then row[i] else 0
        decreases |row| - i
      {
        NodeInArena(i);
        if n >= |pinned| {
          break;
        }
        offs := offs + [n];
        LinkIs(i, 0);
        BottomNext(Heights(row, info), i);
        n := Link(arena, n, 0);
        i := i + 1;
      }
      if i < |row| {
        NodeIs(i);
      }
      assert row[1..|row|] == row[1..];
    }

    lemma NodeInArena(i: nat)
      requires Valid()
      ensures i < |row| ==> row[i] < |arena|
    {
    }
  }

  /** Node data outlives every later insertion: read through the bytes below the old end of any
      later arena, a node shows the key and value it had. */
  lemma SnapshotIsStable(before: Bytes, after: Bytes, info: map<nat, Node>, later: map<nat, Node>, o: nat)
    requires Layout(before, info) && Layout(after, later) && o in info && o in later && later[o] == info[o] && |before| <= |after|
    ensures KeyAt(after[..|before|], o) == Some(info[o].key) && ValueAt(after[..|before|], o) == Some(info[o].value)
  {
    hide Header, KeyAt, ValueAt;
    var pinned, n := after[..|before|], info[o];
    SubSlice(after, 0, |before|, o, o + HEADER);
    SubSlice(after, 0, |before|, o + DataAt(n), o + Size(n));
    assert after[0..|before|] == pinned;
    NodeReads(pinned, o, n);
  }

  // ---------------------------------------------------------------------------
  // A scan while entries go in
  // ---------------------------------------------------------------------------

  ghost predicate GrowsBySome(m: Moment, m': Moment) {
    exists node :: Grows(m, m', node)
  }

  /** Every moment of a list to which entries are only ever added. */
  ghost predicate History(hs: seq<Moment>) {
    && hs != [] && Sound(hs[0])
    && forall k :: 0 <= k < |hs| - 1 ==> GrowsBySome(hs[k], hs[k + 1])
  }

  lemma {:induction false} HistoryKeeps(hs: seq<Moment>, k: nat)
    requires History(hs) && k < |hs|
    ensures Sound(hs[k]) && |hs[0].arena| <= |hs[k].arena|
    ensures forall o :: o in hs[0].info ==> o in hs[k].info && hs[k].info[o] == hs[0].info[o]
    decreases k
  {
    hide Sound, Inserted;
    if k > 0 {
      HistoryKeeps(hs, k - 1);
      assert GrowsBySome(hs[k - 1], hs[k - 1 + 1]);
      var node :| Grows(hs[k - 1], hs[k], node);
    }
  }

  /** What the array a snapshot pinned holds at a later moment: its own length of that moment's bytes, be they
      the list's still, or those left behind when the list moved to a larger array. */
  ghost predicate Pinned(bytes: Bytes, hs: seq<Moment>) {
    exists k :: 0 <= k < |hs| && |hs[0].arena| <= |hs[k].arena| && bytes == hs[k].arena[..|hs[0].arena|]
  }

  lemma PinnedReads(bytes: Bytes, hs: seq<Moment>, o: nat)
    requires History(hs) && Pinned(bytes, hs) && o in hs[0].info
    ensures KeyAt(bytes, o) == Some(hs[0].info[o].key) && ValueAt(bytes, o) == Some(hs[0].info[o].value)
  {
    hide KeyAt, ValueAt, Layout, Row, Threaded, Ascends, History;
    var k :| 0 <= k < |hs| && |hs[0].arena| <= |hs[k].arena| && bytes == hs[k].arena[..|hs[0].arena|];
    HistoryKeeps(hs, k);
    HistoryKeeps(hs, 0);
    SnapshotIsStable(hs[0].arena, hs[k].arena, hs[0].info, hs[k].info, o);
  }

  /** The snapshot iterator to its end: whenever each key and each value is read, and whatever has gone into the
      list by then, it yields the entries there were when it was taken. */
  method Drain(offs: seq<nat>, keyBytes: seq<Bytes>, valueBytes: seq<Bytes>, ghost hs: seq<Moment>) returns (out: seq<(Bytes, Bytes)>)
    requires History(hs) && offs == hs[0].row[1..] && |keyBytes| == |valueBytes| == |offs|
    requires forall i :: 0 <= i < |offs| ==> Pinned(keyBytes[i], hs) && Pinned(valueBytes[i], hs)
    ensures (forall i :: 0 <= i < |offs| ==> offs[i] in hs[0].info) && out == EntriesOf(offs, hs[0].info)
  {
    hide KeyAt, ValueAt, GrowsBySome, Pinned, Layout, Threaded, Ascends;
    HistoryKeeps(hs, 0);
    out := [];
    var index := 0;
    while index < |offs|
      invariant 0 <= index == |out| <= |offs| && forall i :: 0 <= i < index ==> out[i] == EntriesOf(offs, hs[0].info)[i]
    {
      PinnedReads(keyBytes[index], hs, offs[index]);
      PinnedReads(valueBytes[index], hs, offs[index]);
      out := out + [(KeyAt(keyBytes[index], offs[index]).value, ValueAt(valueBytes[index], offs[index]).value)];
      index := index + 1;
    }
  }
}
