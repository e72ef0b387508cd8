/** writeMerged: one pass over the merged stream, against the set-level Collapsed. */
module MergeWriter {
  import opened Bytes
  import opened Versions
  import opened Tables
  import opened Collapse
  import opened Merge
  import opened Sink

  function StreamView(es: seq<Entry>, ds: seq<RangeDel>): View {
    View(PointSet(es), DelSet(ds))
  }

  /** What the loop remembers between entries: the last version it decided on (its
      key, sequence and payload), whether a version at or below retain was seen for
      that key, and whether that key may be reclaimed. */
  datatype Cursor = Cursor(last: Option<Entry>, droppedBelow: bool, reclaimHere: bool)

  /** maxCoveringRangeDelSeqLE. */
  method MaxCovering(dels: seq<RangeDel>, key: Bytes, limit: nat) returns (best: nat)
    ensures best <= limit
    ensures forall v: nat :: best > v <==> RangeDeleted(DelSet(dels), key, v, limit)
  {
    best := 0;
    for i := 0 to |dels|
      invariant best == 0 || exists j :: 0 <= j < i && dels[j].sqn == best && best <= limit && dels[j].Contains(key)
      invariant forall j :: 0 <= j < i && dels[j].sqn <= limit && dels[j].Contains(key) ==> dels[j].sqn <= best
    {
      if dels[i].sqn <= limit && dels[i].sqn > best && dels[i].Contains(key) {
        best := dels[i].sqn;
      }
    }
    forall v: nat ensures best > v <==> RangeDeleted(DelSet(dels), key, v, limit) {
      if best > v {
        var j :| 0 <= j < |dels| && dels[j].sqn == best && best <= limit && dels[j].Contains(key);
        assert dels[j] in DelSet(dels) && dels[j].Covers(key, v, limit);
      }
    }
  }

  /** The entries written so far are what the merge of the prefix leaves. */
  ghost predicate Written(stream: seq<Entry>, i: nat, dels: seq<RangeDel>, rc: Reclaim, retain: nat, rw: Rewrite, written: seq<Entry>)
    requires i <= |stream|
  {
    var w := StreamView(stream[..i], dels);
    && (forall e :: e in w.points && Survives(w, rc, retain, rw, e) ==> Resolve(rw, e) in written)
    && (forall f :: f in written ==> exists e :: Survives(w, rc, retain, rw, e) && f == Resolve(rw, e))
  }

  ghost predicate CursorOk(stream: seq<Entry>, i: nat, rc: Reclaim, retain: nat, rw: Rewrite, c: Cursor)
    requires i <= |stream|
  {
    && (i == 0 <==> c.last.None?)
    && (i > 0 ==>
      var l := c.last.value;
      && l in stream[..i]
      && l.key == stream[i-1].key
      && c.reclaimHere == ReclaimHere(rc, l.key)
      && (c.droppedBelow <==> l.sqn <= retain)
      && (stream[i-1].sqn == l.sqn || (stream[i-1].sqn < l.sqn <= retain))
      && (forall j :: 0 <= j < i && stream[j].key == l.key && stream[j].sqn <= retain ==> l.sqn <= retain && stream[j].sqn <= l.sqn)
      && (forall j :: 0 <= j < i && stream[j].key == l.key && stream[j].sqn == l.sqn ==> Resolve(rw, stream[j]) == Resolve(rw, l)))
  }

  /** A later entry of the stream cannot unseat an earlier version. */
  lemma SurvivesStable(stream: seq<Entry>, i: nat, dels: seq<RangeDel>, rc: Reclaim, retain: nat, rw: Rewrite, e: Entry)
    requires Sorted(stream) && i < |stream|
    requires e in stream[..i]
    ensures Survives(StreamView(stream[..i], dels), rc, retain, rw, e)
       <==> Survives(StreamView(stream[..i+1], dels), rc, retain, rw, e)
  {
    var n := stream[i];
    var j :| 0 <= j < i && stream[j] == e;
    assert !Precedes(n, e);
    assert stream[..i+1] == stream[..i] + [n];
    assert PointSet(stream[..i+1]) == PointSet(stream[..i]) + {n};
    if n.key == e.key {
      assert n.sqn <= e.sqn;
    }
  }

  /** The entry is not written: it is not among the survivors, or an equal one is. */
  lemma Skip(stream: seq<Entry>, i: nat, dels: seq<RangeDel>, rc: Reclaim, retain: nat, rw: Rewrite, written: seq<Entry>)
    requires Sorted(stream) && i < |stream|
    requires Written(stream, i, dels, rc, retain, rw, written)
    requires Survives(StreamView(stream[..i+1], dels), rc, retain, rw, stream[i]) ==> Resolve(rw, stream[i]) in written
    ensures Written(stream, i + 1, dels, rc, retain, rw, written)
  {
    var w, w' := StreamView(stream[..i], dels), StreamView(stream[..i+1], dels);
    assert stream[..i+1] == stream[..i] + [stream[i]];
    forall e | e in w.points ensures Survives(w, rc, retain, rw, e) <==> Survives(w', rc, retain, rw, e) {
      SurvivesStable(stream, i, dels, rc, retain, rw, e);
    }
    assert w'.points == w.points + {stream[i]};
  }

  /** The entry survives and its rewritten form is written. */
  lemma Emit(stream: seq<Entry>, i: nat, dels: seq<RangeDel>, rc: Reclaim, retain: nat, rw: Rewrite, written: seq<Entry>)
    requires Sorted(stream) && i < |stream|
    requires Written(stream, i, dels, rc, retain, rw, written)
    requires Survives(StreamView(stream[..i+1], dels), rc, retain, rw, stream[i])
    ensures Written(stream, i + 1, dels, rc, retain, rw, written + [Resolve(rw, stream[i])])
  {
    var w, w' := StreamView(stream[..i], dels), StreamView(stream[..i+1], dels);
    assert stream[..i+1] == stream[..i] + [stream[i]];
    forall e | e in w.points ensures Survives(w, rc, retain, rw, e) <==> Survives(w', rc, retain, rw, e) {
      SurvivesStable(stream, i, dels, rc, retain, rw, e);
    }
    assert w'.points == w.points + {stream[i]};
    var ws := written + [Resolve(rw, stream[i])];
    forall f | f in ws ensures exists e :: Survives(w', rc, retain, rw, e) && f == Resolve(rw, e) {
      if f in written {
        var e :| Survives(w, rc, retain, rw, e) && f == Resolve(rw, e);
        assert Survives(w', rc, retain, rw, e);
      }
    }
  }

  /** Where the next entry of a sorted stream stands against the cursor's key. */
  lemma NextPosition(stream: seq<Entry>, i: nat, rc: Reclaim, retain: nat, rw: Rewrite, c: Cursor)
    requires Sorted(stream) && 0 < i < |stream|
    requires CursorOk(stream, i, rc, retain, rw, c)
    ensures stream[i].key == c.last.value.key ==> stream[i].sqn <= c.last.value.sqn
    ensures stream[i].key != c.last.value.key ==> Lt(c.last.value.key, stream[i].key)
    ensures stream[i].key != c.last.value.key ==> forall j :: 0 <= j < i ==> stream[j].key != stream[i].key
  {
    OrderLaws();
    assert !Precedes(stream[i], stream[i-1]);
    forall j | 0 <= j < i - 1 ensures Le(stream[j].key, stream[i-1].key) {
      assert !Precedes(stream[i-1], stream[j]);
    }
  }

  /** An accepted duplicate of the last decided version changes nothing. */
  lemma DuplicateStep(stream: seq<Entry>, i: nat, dels: seq<RangeDel>, rc: Reclaim, retain: nat, rw: Rewrite, c: Cursor)
    requires Sorted(stream) && 0 < i < |stream|
    requires CursorOk(stream, i, rc, retain, rw, c)
    requires stream[i].key == c.last.value.key && stream[i].sqn == c.last.value.sqn
    requires DroppableDuplicate(stream[i], c.last.value, rw.cutoff)
    ensures CursorOk(stream, i + 1, rc, retain, rw, c)
    ensures Resolve(rw, stream[i]) == Resolve(rw, c.last.value)
    ensures Survives(StreamView(stream[..i+1], dels), rc, retain, rw, stream[i])
        ==> Survives(StreamView(stream[..i], dels), rc, retain, rw, c.last.value)
  {
    assert stream[..i+1] == stream[..i] + [stream[i]];
    SurvivesStable(stream, i, dels, rc, retain, rw, c.last.value);
  }

  /** An older version below an already decided one is dead. */
  lemma DeadStep(stream: seq<Entry>, i: nat, dels: seq<RangeDel>, rc: Reclaim, retain: nat, rw: Rewrite, c: Cursor)
    requires Sorted(stream) && 0 < i < |stream|
    requires CursorOk(stream, i, rc, retain, rw, c)
    requires stream[i].key == c.last.value.key && stream[i].sqn != c.last.value.sqn
    requires stream[i].sqn < retain && c.droppedBelow
    ensures CursorOk(stream, i + 1, rc, retain, rw, c)
    ensures !Survives(StreamView(stream[..i+1], dels), rc, retain, rw, stream[i])
  {
    NextPosition(stream, i, rc, retain, rw, c);
    assert stream[..i+1] == stream[..i] + [stream[i]];
    assert c.last.value in PointSet(stream[..i+1]);
  }

  /** Any other entry is decided afresh: below retain it is the newest of its key there. */
  lemma FreshStep(stream: seq<Entry>, i: nat, dels: seq<RangeDel>, rc: Reclaim, retain: nat, rw: Rewrite, c: Cursor)
    requires Sorted(stream) && i < |stream|
    requires CursorOk(stream, i, rc, retain, rw, c)
    requires c.last.Some? && stream[i].key == c.last.value.key ==>
               stream[i].sqn != c.last.value.sqn && !(stream[i].sqn < retain && c.droppedBelow)
    ensures CursorOk(stream, i + 1, rc, retain, rw, Cursor(Some(stream[i]), stream[i].sqn <= retain, ReclaimHere(rc, stream[i].key)))
    ensures stream[i].sqn <= retain ==> Newest(PointSet(stream[..i+1]), stream[i], retain)
    ensures c.last.Some? && stream[i].key == c.last.value.key ==> !c.droppedBelow && stream[i].sqn < c.last.value.sqn
  {
    if i > 0 {
      NextPosition(stream, i, rc, retain, rw, c);
    }
    assert stream[..i+1] == stream[..i] + [stream[i]];
  }

  /** Everything written lies before the cursor's version or at it. */
  ghost predicate WrittenBefore(written: seq<Entry>, c: Cursor) {
    && (c.last.None? ==> written == [])
    && (c.last.Some? ==> forall f :: f in written ==>
          Lt(f.key, c.last.value.key) || (f.key == c.last.value.key && f.sqn >= c.last.value.sqn))
  }

  /** The invariant of the merge loop. */
  ghost predicate LoopOk(stream: seq<Entry>, i: nat, dels: seq<RangeDel>, rc: Reclaim, retain: nat, rw: Rewrite,
                         c: Cursor, written: seq<Entry>) {
    && i <= |stream|
    && CursorOk(stream, i, rc, retain, rw, c)
    && Written(stream, i, dels, rc, retain, rw, written)
    && WrittenBefore(written, c)
  }

  lemma LoopStarts(stream: seq<Entry>, dels: seq<RangeDel>, rc: Reclaim, retain: nat, rw: Rewrite)
    ensures LoopOk(stream, 0, dels, rc, retain, rw, Cursor(None, false, false), [])
  {
  }

  lemma LoopSkipsDuplicate(stream: seq<Entry>, i: nat, dels: seq<RangeDel>, rc: Reclaim, retain: nat, rw: Rewrite,
                           c: Cursor, written: seq<Entry>)
    requires Sorted(stream) && i < |stream| && LoopOk(stream, i, dels, rc, retain, rw, c, written)
    requires c.last.Some? && stream[i].key == c.last.value.key && stream[i].sqn == c.last.value.sqn
    requires DroppableDuplicate(stream[i], c.last.value, rw.cutoff)
    ensures LoopOk(stream, i + 1, dels, rc, retain, rw, c, written)
  {
    hide Survives, Resolve;
    DuplicateStep(stream, i, dels, rc, retain, rw, c);
    assert c.last.value in PointSet(stream[..i]);
    Skip(stream, i, dels, rc, retain, rw, written);
  }

  lemma LoopSkipsDead(stream: seq<Entry>, i: nat, dels: seq<RangeDel>, rc: Reclaim, retain: nat, rw: Rewrite,
                      c: Cursor, written: seq<Entry>)
    requires Sorted(stream) && i < |stream| && LoopOk(stream, i, dels, rc, retain, rw, c, written)
    requires c.last.Some? && stream[i].key == c.last.value.key && stream[i].sqn != c.last.value.sqn
    requires stream[i].sqn < retain && c.droppedBelow
    ensures LoopOk(stream, i + 1, dels, rc, retain, rw, c, written)
  {
    DeadStep(stream, i, dels, rc, retain, rw, c);
    Skip(stream, i, dels, rc, retain, rw, written);
  }

  /** A version decided afresh comes after everything written. */
  lemma FreshIsNext(stream: seq<Entry>, i: nat, dels: seq<RangeDel>, rc: Reclaim, retain: nat, rw: Rewrite,
                    c: Cursor, written: seq<Entry>)
    requires Sorted(stream) && i < |stream| && LoopOk(stream, i, dels, rc, retain, rw, c, written)
    requires c.last.Some? && stream[i].key == c.last.value.key ==>
               stream[i].sqn != c.last.value.sqn && !(stream[i].sqn < retain && c.droppedBelow)
    ensures forall f :: f in written ==> Lt(f.key, stream[i].key) || (f.key == stream[i].key && f.sqn > stream[i].sqn)
    ensures !(c.last.Some? && stream[i].key == c.last.value.key) ==> forall f :: f in written ==> Lt(f.key, stream[i].key)
    ensures c.last.Some? && stream[i].key == c.last.value.key ==> c.reclaimHere == ReclaimHere(rc, stream[i].key)
  {
    FreshStep(stream, i, dels, rc, retain, rw, c);
    if i > 0 {
      NextPosition(stream, i, rc, retain, rw, c);
    }
    OrderLaws();
  }

  ghost predicate FreshCursor(e: Entry, rc: Reclaim, retain: nat, c: Cursor) {
    c == Cursor(Some(e), e.sqn <= retain, ReclaimHere(rc, e.key))
  }

  lemma LoopReclaims(stream: seq<Entry>, i: nat, dels: seq<RangeDel>, rc: Reclaim, retain: nat, rw: Rewrite,
                     c: Cursor, written: seq<Entry>, c': Cursor)
    requires Sorted(stream) && i < |stream| && LoopOk(stream, i, dels, rc, retain, rw, c, written)
    requires c.last.Some? && stream[i].key == c.last.value.key ==>
               stream[i].sqn != c.last.value.sqn && !(stream[i].sqn < retain && c.droppedBelow)
    requires FreshCursor(stream[i], rc, retain, c')
    requires stream[i].sqn <= retain && ReclaimHere(rc, stream[i].key)
    requires RangeDeleted(DelSet(dels), stream[i].key, stream[i].sqn, retain) || Resolve(rw, stream[i]).payload.Tombstone?
    ensures LoopOk(stream, i + 1, dels, rc, retain, rw, c', written)
  {
    FreshStep(stream, i, dels, rc, retain, rw, c);
    FreshIsNext(stream, i, dels, rc, retain, rw, c, written);
    Skip(stream, i, dels, rc, retain, rw, written);
  }

  lemma LoopEmits(stream: seq<Entry>, i: nat, dels: seq<RangeDel>, rc: Reclaim, retain: nat, rw: Rewrite,
                  c: Cursor, written: seq<Entry>, c': Cursor)
    requires Sorted(stream) && i < |stream| && LoopOk(stream, i, dels, rc, retain, rw, c, written)
    requires c.last.Some? && stream[i].key == c.last.value.key ==>
               stream[i].sqn != c.last.value.sqn && !(stream[i].sqn < retain && c.droppedBelow)
    requires FreshCursor(stream[i], rc, retain, c')
    requires ReclaimHere(rc, stream[i].key) ==>
               && !RangeDeleted(DelSet(dels), stream[i].key, stream[i].sqn, retain)
               && !(Resolve(rw, stream[i]).payload.Tombstone? && stream[i].sqn <= retain)
    ensures LoopOk(stream, i + 1, dels, rc, retain, rw, c', written + [Resolve(rw, stream[i])])
  {
    FreshStep(stream, i, dels, rc, retain, rw, c);
    FreshIsNext(stream, i, dels, rc, retain, rw, c, written);
    assert stream[i] in stream[..i+1];
    Emit(stream, i, dels, rc, retain, rw, written);
  }

  /** rangeDelsToPersist. */
  method RangeDelsToPersist(dels: seq<RangeDel>, dropAtBottom: bool, retain: nat) returns (kept: seq<RangeDel>)
    ensures forall d :: d in kept <==> d in dels && (!dropAtBottom || d.sqn > retain)
    ensures |kept| <= |dels|
  {
    if !dropAtBottom {
      return dels;
    }
    kept := [];
    for i := 0 to |dels|
      invariant forall d :: d in kept <==> d in dels[..i] && d.sqn > retain
      invariant |kept| <= i
    {
      if dels[i].sqn > retain {
        kept := kept + [dels[i]];
      }
    }
  }

  predicate Conflict(stream: seq<Entry>, cutoff: int) {
    exists i, j :: 0 <= i < j < |stream| && stream[i].key == stream[j].key && stream[i].sqn == stream[j].sqn
                   && !DroppableDuplicate(stream[j], stream[i], cutoff)
  }

  /** A conflict in the stream is two held versions that clash. */
  lemma ConflictClashes(stream: seq<Entry>, cutoff: int)
    requires Sorted(stream) && Conflict(stream, cutoff)
    ensures Clashing(PointSet(stream), cutoff)
  {
    hide DroppableDuplicate;
    var i, j :| 0 <= i < j < |stream| && stream[i].key == stream[j].key && stream[i].sqn == stream[j].sqn
                && !DroppableDuplicate(stream[j], stream[i], cutoff);
    assert !Precedes(stream[j], stream[i]);
    assert stream[i] in PointSet(stream) && stream[j] in PointSet(stream);
  }

  /** What a finished merge hands back. */
  ghost predicate MergeOutput(stream: seq<Entry>, dels: seq<RangeDel>, rc: Reclaim, retain: nat, rw: Rewrite,
                              depth: nat, lo: nat, hi: nat, outs: seq<Table>) {
    && Collapsed(StreamView(stream, dels), ViewOf(outs), rc, retain, rw)
    && (forall i :: 0 <= i < |outs| ==> TableOk(outs[i]) && outs[i].depth == depth && (outs[i].points != [] || outs[i].dels != []))
    && KeysApart(outs)
    && NumbersWithin(outs, lo, hi)
  }

  lemma OutputIsCollapsed(stream: seq<Entry>, dels: seq<RangeDel>, rc: Reclaim, retain: nat, rw: Rewrite,
                          kept: seq<RangeDel>, outs: seq<Table>)
    requires Written(stream, |stream|, dels, rc, retain, rw, PointSeq(outs))
    requires forall d :: d in kept <==> d in dels && (rc != Always || d.sqn > retain)
    requires DelSeq(outs) == kept
    ensures Collapsed(StreamView(stream, dels), ViewOf(outs), rc, retain, rw)
  {
    hide Survives, Resolve;
    SeqsMatchView(outs);
    assert stream[..|stream|] == stream;
    var w, out := StreamView(stream, dels), ViewOf(outs);
    forall e | e in w.points && Survives(w, rc, retain, rw, e) ensures Resolve(rw, e) in out.points {
      assert Resolve(rw, e) in PointSeq(outs);
    }
    forall f | f in out.points ensures exists e :: Survives(w, rc, retain, rw, e) && f == Resolve(rw, e) {
      assert f in PointSeq(outs);
    }
  }

  lemma ResolveKeepsKey(rw: Rewrite, e: Entry)
    ensures Resolve(rw, e).key == e.key && Resolve(rw, e).sqn == e.sqn
  {
  }

  /** Appending after everything written keeps the sink's order. */
  lemma ReadyToAdd(sink: CompactionSink, e: Entry)
    requires forall f :: f in sink.All() ==> Lt(f.key, e.key) || (f.key == e.key && f.sqn > e.sqn)
    ensures sink.out.Some? && sink.out.value.points != [] ==> Before(sink.out.value.points[|sink.out.value.points|-1], e)
  {
    if sink.out.Some? && sink.out.value.points != [] {
      assert sink.out.value.points[|sink.out.value.points|-1] in sink.All();
    }
  }

  lemma FoundConflict(stream: seq<Entry>, i: nat, dels: seq<RangeDel>, rc: Reclaim, retain: nat, rw: Rewrite, c: Cursor, written: seq<Entry>)
    requires i < |stream| && LoopOk(stream, i, dels, rc, retain, rw, c, written)
    requires c.last.Some? && stream[i].key == c.last.value.key && stream[i].sqn == c.last.value.sqn
    requires !DroppableDuplicate(stream[i], c.last.value, rw.cutoff)
    ensures Conflict(stream, rw.cutoff)
  {
    var j :| 0 <= j < i && stream[j] == c.last.value;
  }

  /** Range tombstones survive even when no point did: one output is forced to hold them. */
  method CloseMerge(sink: CompactionSink, ghost stream: seq<Entry>, ghost dels: seq<RangeDel>,
                    ghost rc: Reclaim, ghost retain: nat, ghost rw: Rewrite, ghost kept: seq<RangeDel>)
    returns (r: Result<seq<Table>>)
    requires sink.Valid() && sink.carried == kept
    requires exists c :: LoopOk(stream, |stream|, dels, rc, retain, rw, c, sink.All())
    requires forall d :: d in kept <==> d in dels && (rc != Always || d.sqn > retain)
    modifies sink, sink.alloc
    ensures sink.alloc.n >= old(sink.alloc.n)
    ensures r.Ok? ==> MergeOutput(stream, dels, rc, retain, rw, sink.depth, sink.base, sink.alloc.n, r.value)
    ensures r.Ok? ==> |PointSeq(r.value)| == |old(sink.All())| && |DelSeq(r.value)| == |kept|
    ensures r.Err? ==> sink.alloc.n >= MAX_FILE_NUM
  {
    ghost var all := sink.All();
    if sink.pending != [] && sink.out.None? {
      var ok := sink.StartEmpty();
      if !ok {
        return Err;
      }
    }
    sink.Finish();
    assert Written(stream, |stream|, dels, rc, retain, rw, all);
    assert PointSeq(sink.metas) == all;
    assert sink.pending == [];
    OutputIsCollapsed(stream, dels, rc, retain, rw, kept, sink.metas);
    return Ok(sink.metas);
  }

  datatype Decision = Fail | Drop | Write(entry: Entry)

  /** One turn of the merge loop: what becomes of entry `i`, and the new cursor. */
  method Decide(stream: seq<Entry>, i: nat, dels: seq<RangeDel>, rc: Reclaim, retain: nat, rw: Rewrite,
                c: Cursor, ghost written: seq<Entry>)
    returns (d: Decision, c': Cursor)
    requires Sorted(stream) && i < |stream| && LoopOk(stream, i, dels, rc, retain, rw, c, written)
    ensures d.Fail? ==> Conflict(stream, rw.cutoff)
    ensures d.Drop? ==> LoopOk(stream, i + 1, dels, rc, retain, rw, c', written)
    ensures d.Write? ==> LoopOk(stream, i + 1, dels, rc, retain, rw, c', written + [d.entry])
    ensures d.Write? ==> d.entry.key == stream[i].key
    ensures d.Write? ==> forall f :: f in written ==> Lt(f.key, d.entry.key) || (f.key == d.entry.key && f.sqn > d.entry.sqn)
    ensures !d.Fail? ==> c'.last.Some? && c'.last.value.key == stream[i].key
    ensures !(c.last.Some? && c.last.value.key == stream[i].key) ==> forall f :: f in written ==> Lt(f.key, stream[i].key)
  {
    hide LoopOk, RangeDeleted, ReclaimHere, Resolve, Sorted, Conflict, DroppableDuplicate, Lt;
    var e := stream[i];
    var sameKey := c.last.Some? && e.key == c.last.value.key;
    if sameKey && e.sqn == c.last.value.sqn {
      if !DroppableDuplicate(e, c.last.value, rw.cutoff) {
        FoundConflict(stream, i, dels, rc, retain, rw, c, written);
        return Fail, c;
      }
      LoopSkipsDuplicate(stream, i, dels, rc, retain, rw, c, written);
      return Drop, c;
    }
    if sameKey && e.sqn < retain && c.droppedBelow {
      LoopSkipsDead(stream, i, dels, rc, retain, rw, c, written);
      return Drop, c;
    }
    FreshIsNext(stream, i, dels, rc, retain, rw, c, written);
    var reclaimHere := if sameKey then c.reclaimHere else ReclaimHere(rc, e.key);
    c' := Cursor(Some(e), e.sqn <= retain, reclaimHere);
    var cover := MaxCovering(dels, e.key, retain);
    var rewritten := Resolve(rw, e);
    if reclaimHere && (cover > e.sqn || (rewritten.payload.Tombstone? && e.sqn <= retain)) {
      LoopReclaims(stream, i, dels, rc, retain, rw, c, written, c');
      return Drop, c';
    }
    LoopEmits(stream, i, dels, rc, retain, rw, c, written, c');
    ResolveKeepsKey(rw, e);
    return Write(rewritten), c';
  }

  /** Closed outputs lie below the key under way. */
  ghost predicate SinkBehind(sink: CompactionSink, c: Cursor)
    reads sink`metas
  {
    c.last.Some? ==> forall f :: f in PointSeq(sink.metas) ==> Lt(f.key, c.last.value.key)
  }

  /** One entry: the output may roll first at a new key, and the entry is dropped or appended. */
  method Turn(sink: CompactionSink, stream: seq<Entry>, i: nat, dels: seq<RangeDel>, rc: Reclaim, retain: nat, rw: Rewrite, c: Cursor)
    returns (ok: bool, c': Cursor)
    requires sink.Valid() && Sorted(stream) && i < |stream|
    requires LoopOk(stream, i, dels, rc, retain, rw, c, sink.All()) && SinkBehind(sink, c)
    modifies sink`out, sink`metas, sink`pending, sink.alloc
    ensures sink.Valid() && sink.alloc.n >= old(sink.alloc.n)
    ensures ok ==> LoopOk(stream, i + 1, dels, rc, retain, rw, c', sink.All()) && SinkBehind(sink, c')
    ensures ok ==> |sink.All()| <= |old(sink.All())| + 1
    ensures !ok ==> sink.alloc.n >= MAX_FILE_NUM || Conflict(stream, rw.cutoff)
  {
    hide LoopOk, SinkOk, OpenOk, Sorted, Conflict, Lt, Before, PointSeq, DelSeq;
    var sameKey := c.last.Some? && stream[i].key == c.last.value.key;
    if !sameKey {
      sink.RollIfNeeded();
    }
    assert forall f :: f in PointSeq(sink.metas) ==> f in sink.All();
    var d;
    d, c' := Decide(stream, i, dels, rc, retain, rw, c, sink.All());
    if d.Fail? {
      return false, c';
    }
    if d.Write? {
      ReadyToAdd(sink, d.entry);
      ok := sink.Add(d.entry);
      return;
    }
    ok := true;
  }

  method WriteMerged(alloc: Allocator, depth: nat, stream: seq<Entry>, dels: seq<RangeDel>,
                     rc: Reclaim, retain: nat, rw: Rewrite, sizes: Sizes)
    returns (r: Result<seq<Table>>)
    requires Sorted(stream)
    requires forall i :: 0 <= i < |dels| ==> dels[i].WellFormed()
    modifies alloc
    ensures alloc.n >= old(alloc.n)
    ensures r.Ok? ==> MergeOutput(stream, dels, rc, retain, rw, depth, old(alloc.n), alloc.n, r.value)
    ensures r.Ok? ==> |PointSeq(r.value)| <= |stream| && |DelSeq(r.value)| <= |dels|
    ensures r.Err? ==> alloc.n >= MAX_FILE_NUM || Conflict(stream, rw.cutoff)
  {
    hide LoopOk, SinkOk, OpenOk, Sorted, Conflict, Lt, Before, MergeOutput, RangeDel.WellFormed, PointSeq, DelSeq;
    var kept := RangeDelsToPersist(dels, rc == Always, retain);
    forall i | 0 <= i < |kept| ensures kept[i].WellFormed() {
      assert kept[i] in kept;
    }
    var sink := new CompactionSink(alloc, depth, sizes, kept);
    var c := Cursor(None, false, false);
    LoopStarts(stream, dels, rc, retain, rw);
    for i := 0 to |stream|
      invariant fresh(sink) && sink.alloc == alloc && sink.Valid()
      invariant alloc.n >= old(alloc.n) && sink.base == old(alloc.n) && sink.carried == kept && sink.depth == depth
      invariant LoopOk(stream, i, dels, rc, retain, rw, c, sink.All()) && |sink.All()| <= i && SinkBehind(sink, c)
    {
      var ok;
      ok, c := Turn(sink, stream, i, dels, rc, retain, rw, c);
      if !ok {
        return Err;
      }
    }
    r := CloseMerge(sink, stream, dels, rc, retain, rw, kept);
  }
}
