/** The range iterator: an ordered scan that agrees with point reads. */
module Scan {
  import opened Bytes
  import opened Versions
  import opened Tables
  import opened Merge

  datatype Range = Range(start: Option<Bytes>, end: Option<Bytes>) {
    predicate Contains(key: Bytes) {
      (start.Some? ==> Le(start.value, key)) && (end.Some? ==> Lt(key, end.value))
    }
  }

  datatype Row = Row(key: Bytes, shown: Visible)

  /** At one sequence a key has one payload, up to what a reader can tell apart at `now`. */
  ghost predicate Coherent(points: set<Entry>, now: int) {
    forall e, f :: e in points && f in points && e.key == f.key && e.sqn == f.sqn ==>
      Outcome(e.payload, now) == Outcome(f.payload, now)
  }

  /** Every version the scan has passed, up to and including its current key, is settled. */
  ghost predicate Passed(stream: seq<Entry>, range: Range, s: nat, pos: nat, last: Option<Bytes>) {
    && pos <= |stream|
    && (forall j :: 0 <= j < pos && range.Contains(stream[j].key) && stream[j].sqn <= s ==>
          last.Some? && Le(stream[j].key, last.value))
    && (last.Some? ==> exists j :: 0 <= j < pos && stream[j].key == last.value && stream[j].sqn <= s && range.Contains(last.value))
  }

  /** The first visible entry of a key in stream order is its newest visible version. */
  lemma FirstVisibleIsNewest(stream: seq<Entry>, range: Range, s: nat, pos: nat, last: Option<Bytes>)
    requires Sorted(stream) && Passed(stream, range, s, pos, last) && pos < |stream|
    requires range.Contains(stream[pos].key) && stream[pos].sqn <= s
    requires last.None? || last.value != stream[pos].key
    ensures Newest(PointSet(stream), stream[pos], s)
    ensures last.Some? ==> Lt(last.value, stream[pos].key)
  {
    OrderLaws();
    var e := stream[pos];
    if last.Some? {
      var i :| 0 <= i < pos && stream[i].key == last.value;
      assert !Precedes(e, stream[i]);
    }
    forall f | f in PointSet(stream) && f.key == e.key && f.sqn <= s ensures f.sqn <= e.sqn {
      var j :| 0 <= j < |stream| && stream[j] == f;
      if j > pos {
        assert !Precedes(f, e);
      }
    }
  }

  lemma PassedNext(stream: seq<Entry>, range: Range, s: nat, pos: nat, last: Option<Bytes>)
    requires Sorted(stream) && Passed(stream, range, s, pos, last) && pos < |stream|
    ensures range.Contains(stream[pos].key) && stream[pos].sqn <= s ==> Passed(stream, range, s, pos + 1, Some(stream[pos].key))
    ensures !(range.Contains(stream[pos].key) && stream[pos].sqn <= s) ==> Passed(stream, range, s, pos + 1, last)
  {
    OrderLaws();
    var e := stream[pos];
    forall j | 0 <= j < pos ensures Le(stream[j].key, e.key) {
      assert !Precedes(e, stream[j]);
    }
  }

  /** No key after `from` and up to `last` is live. */
  ghost predicate NoneLiveIn(w: View, range: Range, s: nat, now: int, from: Option<Bytes>, last: Option<Bytes>) {
    forall k, v :: range.Contains(k) && Live(w, k, s, now, v) && last.Some? && Le(k, last.value) ==>
      from.Some? && Le(k, from.value)
  }

  lemma DecidedDead(w: View, s: nat, now: int, e: Entry)
    requires Newest(w.points, e, s) && Coherent(w.points, now)
    requires Outcome(e.payload, now).None? || RangeDeleted(w.dels, e.key, e.sqn, s)
    ensures forall v :: !Live(w, e.key, s, now, v)
  {
    forall f | Deciding(w, e.key, s, f) ensures Outcome(f.payload, now).None? {
      assert f.sqn == e.sqn;
    }
  }

  lemma KeysAscend(stream: seq<Entry>, i: nat, j: nat)
    requires Sorted(stream) && i < |stream| && j < |stream|
    ensures i <= j ==> Le(stream[i].key, stream[j].key)
  {
    OrderLaws();
    assert i < j ==> !Precedes(stream[j], stream[i]);
  }

  /** A live key has a visible version in the stream. */
  lemma LiveHasVersion(stream: seq<Entry>, dels: set<RangeDel>, k: Bytes, s: nat, now: int, v: Visible) returns (j: nat)
    requires Live(View(PointSet(stream), dels), k, s, now, v)
    ensures j < |stream| && stream[j].key == k && stream[j].sqn <= s
  {
    var e :| Deciding(View(PointSet(stream), dels), k, s, e);
    j :| 0 <= j < |stream| && stream[j] == e;
  }

  /** At the end of the stream, or past the upper bound, every live key has been settled. */
  lemma EndReached(stream: seq<Entry>, dels: set<RangeDel>, range: Range, s: nat, now: int, pos: nat, last: Option<Bytes>)
    requires Sorted(stream) && Passed(stream, range, s, pos, last)
    requires pos == |stream| || (range.end.Some? && Le(range.end.value, stream[pos].key))
    ensures forall k, v :: range.Contains(k) && Live(View(PointSet(stream), dels), k, s, now, v) ==> last.Some? && Le(k, last.value)
  {
    forall k, v | range.Contains(k) && Live(View(PointSet(stream), dels), k, s, now, v)
      ensures last.Some? && Le(k, last.value)
    {
      var j := LiveHasVersion(stream, dels, k, s, now, v);
      if pos < |stream| {
        KeysAscend(stream, pos, j);
        OrderLaws();
      }
    }
  }

  /** Settling one more dead key keeps the gap free of live keys. */
  lemma GapGrows(stream: seq<Entry>, w: View, range: Range, s: nat, now: int, pos: nat, from: Option<Bytes>, last: Option<Bytes>)
    requires Sorted(stream) && Passed(stream, range, s, pos, last) && pos < |stream| && w.points == PointSet(stream)
    requires NoneLiveIn(w, range, s, now, from, last)
    requires range.Contains(stream[pos].key) && stream[pos].sqn <= s
    ensures (forall v :: !Live(w, stream[pos].key, s, now, v)) ==> NoneLiveIn(w, range, s, now, from, Some(stream[pos].key))
    ensures forall k, v :: range.Contains(k) && Live(w, k, s, now, v) && Lt(k, stream[pos].key) ==> from.Some? && Le(k, from.value)
  {
    var e := stream[pos];
    OrderLaws();
    forall k, v | range.Contains(k) && Live(w, k, s, now, v) && Lt(k, e.key) ensures from.Some? && Le(k, from.value) {
      var j := LiveHasVersion(stream, w.dels, k, s, now, v);
      KeysAscend(stream, pos, j);
    }
  }

  lemma SelfGap(w: View, range: Range, s: nat, now: int, last: Option<Bytes>)
    ensures NoneLiveIn(w, range, s, now, last, last)
  {
  }

  lemma AllSettled(w: View, range: Range, s: nat, now: int, from: Option<Bytes>, last: Option<Bytes>)
    requires NoneLiveIn(w, range, s, now, from, last)
    requires forall k, v :: range.Contains(k) && Live(w, k, s, now, v) ==> last.Some? && Le(k, last.value)
    ensures forall k, v :: range.Contains(k) && Live(w, k, s, now, v) ==> from.Some? && Le(k, from.value)
  {
  }

  lemma OutsideRange(range: Range, key: Bytes)
    ensures !range.Contains(key) <==> (range.start.Some? && Lt(key, range.start.value)) || (range.end.Some? && Le(range.end.value, key))
  {
    OrderLaws();
  }

  /** rangeDeleted. */
  method AnyCovers(dels: seq<RangeDel>, key: Bytes, sqn: nat, s: nat) returns (covered: bool)
    ensures covered <==> RangeDeleted(DelSet(dels), key, sqn, s)
  {
    for i := 0 to |dels|
      invariant forall k :: 0 <= k < i ==> !dels[k].Covers(key, sqn, s)
    {
      if dels[i].Covers(key, sqn, s) {
        assert dels[i] in DelSet(dels);
        return true;
      }
    }
    return false;
  }

  class EngineIterator {
    const stream: seq<Entry>
    const dels: seq<RangeDel>
    const range: Range
    const s: nat
    const now: int
    var pos: nat
    var last: Option<Bytes>
    var row: Option<Row>

    ghost function Captured(): View {
      View(PointSet(stream), DelSet(dels))
    }

    ghost predicate Valid()
      reads this
    {
      pos <= |stream| && Sorted(stream) && Coherent(PointSet(stream), now) && Passed(stream, range, s, pos, last)
    }

    constructor (stream: seq<Entry>, dels: seq<RangeDel>, range: Range, s: nat, now: int)
      requires Sorted(stream) && Coherent(PointSet(stream), now)
      ensures Valid() && last == None && row == None
      ensures this.stream == stream && this.dels == dels && this.range == range && this.s == s && this.now == now
    {
      this.stream, this.dels, this.range, this.s, this.now := stream, dels, range, s, now;
      pos, last, row := 0, None, None;
    }

    /** Advances to the next live key after the last settled one, or reports that none is left. */
    method Next() returns (ok: bool)
      requires Valid()
      modifies this
      ensures Valid() && pos >= old(pos)
      ensures ok ==> pos > old(pos)
      ensures ok ==> row.Some? && last == Some(row.value.key) && range.Contains(row.value.key)
      ensures ok ==> Live(Captured(), row.value.key, s, now, row.value.shown)
      ensures ok && old(last).Some? ==> Lt(old(last).value, row.value.key)
      ensures ok ==> forall k, v :: range.Contains(k) && Live(Captured(), k, s, now, v) && Lt(k, row.value.key) ==>
                       old(last).Some? && Le(k, old(last).value)
      ensures !ok ==> forall k, v :: range.Contains(k) && Live(Captured(), k, s, now, v) ==>
                        old(last).Some? && Le(k, old(last).value)
    {
      hide Sorted, Coherent, Passed, NoneLiveIn, RangeDeleted, Newest, Outcome, Compare, Range.Contains, PointSet, DelSet;
      ghost var from := last;
      SelfGap(Captured(), range, s, now, last);
      while pos < |stream|
        invariant Valid() && pos >= old(pos)
        invariant NoneLiveIn(Captured(), range, s, now, from, last)
        invariant from == last || (last.Some? && (from.Some? ==> Lt(from.value, last.value)))
      {
        var e := stream[pos];
        PassedNext(stream, range, s, pos, last);
        OutsideRange(range, e.key);
        if range.start.Some? && Lt(e.key, range.start.value) {
          pos := pos + 1;
          continue;
        }
        if range.end.Some? && Le(range.end.value, e.key) {
          EndReached(stream, DelSet(dels), range, s, now, pos, last);
          AllSettled(Captured(), range, s, now, from, last);
          return false;
        }
        if last == Some(e.key) || e.sqn > s {
          pos := pos + 1;
          continue;
        }
        FirstVisibleIsNewest(stream, range, s, pos, last);
        GapGrows(stream, Captured(), range, s, now, pos, from, last);
        if from.Some? && last.Some? && from != last {
          CompareTransitive(from.value, last.value, e.key);
        }
        pos, last := pos + 1, Some(e.key);
        var covered := AnyCovers(dels, e.key, e.sqn, s);
        var shown := Outcome(e.payload, now);
        if covered || shown.None? {
          DecidedDead(Captured(), s, now, e);
          continue;
        }
        row := Some(Row(e.key, shown.value));
        return true;
      }
      EndReached(stream, DelSet(dels), range, s, now, pos, last);
      AllSettled(Captured(), range, s, now, from, last);
      return false;
    }
  }

  predicate RowsAscend(rows: seq<Row>) {
    forall i, j :: 0 <= i < j < |rows| ==> Lt(rows[i].key, rows[j].key)
  }

  lemma RowAppended(rows: seq<Row>, row: Row)
    requires RowsAscend(rows) && (rows != [] ==> Lt(rows[|rows|-1].key, row.key))
    ensures RowsAscend(rows + [row])
  {
    OrderLaws();
    forall i | 0 <= i < |rows| ensures Lt(rows[i].key, row.key) {
      assert i < |rows| - 1 ==> Lt(rows[i].key, rows[|rows|-1].key);
    }
  }

  /** From the start up to, and not including, the end; an absent bound is no bound. */
  lemma RangeMeans()
    ensures forall r: Range, k :: r.Contains(k) <==> (r.start.Some? ==> !Lt(k, r.start.value)) && (r.end.Some? ==> Lt(k, r.end.value))
  {
    OrderLaws();
  }

  /** A whole scan yields exactly the live keys of the range, once each, in order. */
  method ScanAll(it: EngineIterator) returns (rows: seq<Row>)
    requires it.Valid() && it.last == None
    modifies it
    ensures RowsAscend(rows)
    ensures forall i :: 0 <= i < |rows| ==> Live(it.Captured(), rows[i].key, it.s, it.now, rows[i].shown)
    ensures forall i :: 0 <= i < |rows| ==> (it.range.start.Some? ==> !Lt(rows[i].key, it.range.start.value))
                                            && (it.range.end.Some? ==> Lt(rows[i].key, it.range.end.value))
    ensures forall k, v :: Live(it.Captured(), k, it.s, it.now, v)
                           && (it.range.start.Some? ==> !Lt(k, it.range.start.value)) && (it.range.end.Some? ==> Lt(k, it.range.end.value)) ==>
              exists i :: 0 <= i < |rows| && rows[i].key == k
  {
    RangeMeans();
    hide Sorted, Coherent, Passed, Live, Range.Contains, PointSet, DelSet, Compare;
    rows := [];
    while true
      invariant it.Valid() && RowsAscend(rows)
      invariant if rows == [] then it.last == None else it.last == Some(rows[|rows|-1].key)
      invariant forall i :: 0 <= i < |rows| ==> it.range.Contains(rows[i].key) && Live(it.Captured(), rows[i].key, it.s, it.now, rows[i].shown)
      invariant forall k, v :: it.range.Contains(k) && Live(it.Captured(), k, it.s, it.now, v) && it.last.Some? && Le(k, it.last.value) ==>
                  exists i :: 0 <= i < |rows| && rows[i].key == k
      decreases |it.stream| - it.pos
    {
      ghost var before := rows;
      var ok := it.Next();
      if !ok {
        forall k, v | Live(it.Captured(), k, it.s, it.now, v)
                      && (it.range.start.Some? ==> !Lt(k, it.range.start.value)) && (it.range.end.Some? ==> Lt(k, it.range.end.value))
          ensures exists i :: 0 <= i < |rows| && rows[i].key == k
        {
          assert it.range.Contains(k);
        }
        return;
      }
      rows := rows + [it.row.value];
      RowAppended(before, it.row.value);
      forall k, v | it.range.Contains(k) && Live(it.Captured(), k, it.s, it.now, v) && Le(k, it.row.value.key)
        ensures exists i :: 0 <= i < |rows| && rows[i].key == k
      {
        CompareSign(k, it.row.value.key);
        if k == it.row.value.key {
          assert rows[|before|].key == k;
        } else {
          var i :| 0 <= i < |before| && before[i].key == k;
          assert rows[i].key == k;
        }
      }
    }
  }
}
