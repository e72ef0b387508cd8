/** A whole compaction, from the table set it read to the table set it installs. */
module CompactionTheorem {
  import opened Bytes
  import opened Versions
  import opened Tables
  import opened Collapse
  import opened Merge
  import opened Sink
  import opened MergeWriter
  import opened Compaction

  /** commitCompaction's survivors: the tables whose number is not an input's. */
  function Without(tables: seq<Table>, inputs: seq<Table>): seq<Table> {
    if tables == [] then []
    else
      var n := |tables| - 1;
      Without(tables[..n], inputs)
      + (if exists i :: 0 <= i < |inputs| && inputs[i].num == tables[n].num then [] else [tables[n]])
  }

  lemma {:induction false} WithoutMember(tables: seq<Table>, inputs: seq<Table>, t: Table)
    ensures t in Without(tables, inputs) <==> t in tables && forall i :: 0 <= i < |inputs| ==> inputs[i].num != t.num
  {
    if tables != [] {
      WithoutMember(tables[..|tables|-1], inputs, t);
      assert tables == tables[..|tables|-1] + [tables[|tables|-1]];
    }
  }

  /** With distinct file numbers, what is left is exactly what is not an input. */
  lemma WithoutIsRest(tables: seq<Table>, inputs: seq<Table>, t: Table)
    requires TablesOk(tables) && Subset(inputs, tables)
    ensures t in Without(tables, inputs) <==> t in tables && t !in inputs
  {
    WithoutMember(tables, inputs, t);
    if t in tables && t !in inputs {
      forall i | 0 <= i < |inputs| ensures inputs[i].num != t.num {
        MemberOfPart(inputs, tables, inputs[i]);
      }
    }
  }

  lemma ViewSplits(tables: seq<Table>, inputs: seq<Table>)
    requires TablesOk(tables) && Subset(inputs, tables)
    ensures ViewOf(tables) == Join(ViewOf(inputs), ViewOf(Without(tables, inputs)))
  {
    forall t ensures t in tables <==> t in inputs || t in Without(tables, inputs) {
      WithoutIsRest(tables, inputs, t);
      if t in inputs {
        MemberOfPart(inputs, tables, t);
      }
    }
    assert PointsOf(tables) == PointsOf(inputs) + PointsOf(Without(tables, inputs));
    assert DelsOf(tables) == DelsOf(inputs) + DelsOf(Without(tables, inputs));
  }

  lemma ViewAppends(a: seq<Table>, b: seq<Table>)
    ensures ViewOf(a + b) == Join(ViewOf(a), ViewOf(b))
  {
    assert PointsOf(a + b) == PointsOf(a) + PointsOf(b);
    assert DelsOf(a + b) == DelsOf(a) + DelsOf(b);
  }

  lemma OneTable(t: Table)
    ensures ViewOf([t]) == View(PointSet(t.points), DelSet(t.dels))
  {
    assert PointsOf([t]) == PointSet(t.points) && DelsOf([t]) == DelSet(t.dels);
  }

  /** No new table has the number of one already there. */
  predicate NumbersApart(tables: seq<Table>, outs: seq<Table>) {
    forall t, u :: t in tables && u in outs ==> t.num != u.num
  }

  /** Appending a freshly numbered table keeps the table set well formed. */
  lemma AppendOk(ts: seq<Table>, t: Table, n: nat)
    requires TablesOk(ts) && (forall i :: 0 <= i < |ts| ==> ts[i].num <= n)
    requires TableOk(t) && NumbersApart(ts, [t])
    ensures TablesOk(ts + [t]) && (forall i :: 0 <= i < |ts + [t]| ==> (ts + [t])[i].num <= Max(n, t.num))
  {
    hide TableOk;
  }

  /** Every point of `extra` is newer than what `w` holds over its key. */
  ghost predicate Newer(extra: View, w: View) {
    && (forall f, e :: f in extra.points && e in w.points && f.key == e.key ==> f.sqn > e.sqn)
    && (forall f, d :: f in extra.points && d in w.dels && d.Contains(f.key) ==> f.sqn > d.sqn)
  }

  lemma EmptyNewer(w: View)
    ensures Newer(View({}, {}), w)
  {
  }

  lemma HeldKeyInBounds(t: Table, key: Bytes)
    requires TableOk(t)
    requires (exists e :: e in t.points && e.key == key) || (exists d :: d in t.dels && d.Contains(key))
    ensures t.bounds.MayContain(key)
  {
    OrderLaws();
  }

  lemma SharedKeyNotReclaimed(tables: seq<Table>, inputs: seq<Table>, rc: Reclaim, t: Table, u: Table, key: Bytes)
    requires TablesOk(tables) && Subset(inputs, tables) && Guarded(tables, inputs, rc)
    requires t in Without(tables, inputs) && u in inputs
    requires exists e :: e in t.points && e.key == key
    requires (exists e :: e in u.points && e.key == key) || (exists d :: d in u.dels && d.Contains(key))
    ensures !ReclaimHere(rc, key)
  {
    WithoutIsRest(tables, inputs, t);
    MemberOfPart(inputs, tables, u);
    HeldKeyInBounds(t, key);
    HeldKeyInBounds(u, key);
  }

  /** The connected-overlap argument: what a guarded merge reclaims shadowed nothing left behind. */
  lemma GuardedUncoversNothing(tables: seq<Table>, inputs: seq<Table>, rc: Reclaim, extra: View)
    requires TablesOk(tables) && Subset(inputs, tables)
    requires Guarded(tables, inputs, rc)
    requires Newer(extra, ViewOf(inputs))
    ensures NothingUncovered(ViewOf(inputs), Join(ViewOf(Without(tables, inputs)), extra), rc)
  {
    hide Bounds.MayContain, RangeDel.Contains;
    var left, w := Without(tables, inputs), ViewOf(inputs);
    forall f, e | f in PointsOf(left) && e in w.points && f.key == e.key ensures !ReclaimHere(rc, f.key) {
      var t, u :| t in left && f in t.points && u in inputs && e in u.points;
      SharedKeyNotReclaimed(tables, inputs, rc, t, u, f.key);
    }
    forall f, d | f in PointsOf(left) && d in w.dels && d.Contains(f.key) ensures !ReclaimHere(rc, f.key) {
      var t, u :| t in left && f in t.points && u in inputs && d in u.dels;
      SharedKeyNotReclaimed(tables, inputs, rc, t, u, f.key);
    }
  }

  /** One unfiltered compaction of any kind is invisible to every read at or above `retain`
      and at or after the expiry cutoff, whatever newer data `extra` sits beside the tables. */
  lemma CompactionPreservesReads(tables: seq<Table>, inputs: seq<Table>, outs: seq<Table>,
                                 rc: Reclaim, retain: nat, rw: Rewrite, extra: View)
    requires TablesOk(tables) && Subset(inputs, tables)
    requires Guarded(tables, inputs, rc)
    requires Collapsed(ViewOf(inputs), ViewOf(outs), rc, retain, rw)
    requires Newer(extra, ViewOf(inputs))
    requires rw.filter.None?
    ensures SameReads(Join(ViewOf(tables), extra), Join(ViewOf(Without(tables, inputs) + outs), extra), retain, rw.cutoff)
  {
    hide SameReads, Collapsed, Guarded, TablesOk, Newer, Without, Subset, NothingUncovered, ViewOf;
    var left := Without(tables, inputs);
    GuardedUncoversNothing(tables, inputs, rc, extra);
    CollapsePreservesReads(ViewOf(inputs), ViewOf(outs), Join(ViewOf(left), extra), rc, retain, rw);
    ViewSplits(tables, inputs);
    ViewAppends(left, outs);
    assert Join(ViewOf(tables), extra) == Join(ViewOf(inputs), Join(ViewOf(left), extra));
    assert Join(ViewOf(left + outs), extra) == Join(ViewOf(outs), Join(ViewOf(left), extra));
  }

  /** The runs and range tombstones of the input tables. */
  method InputRuns(inputs: seq<Table>) returns (runs: seq<seq<Entry>>, dels: seq<RangeDel>)
    requires forall t :: t in inputs ==> TableOk(t)
    ensures forall i :: 0 <= i < |runs| ==> Ascending(runs[i])
    ensures forall e :: e in Contents(runs) <==> e in PointsOf(inputs)
    ensures forall d :: d in dels <==> d in DelsOf(inputs)
    ensures forall i :: 0 <= i < |dels| ==> dels[i].WellFormed()
    ensures |Contents(runs)| == |PointSeq(inputs)| && |dels| == |DelSeq(inputs)|
  {
    hide TableOk, Contents, PointSeq, DelSeq;
    runs, dels := [], [];
    NoRuns();
    for i := 0 to |inputs|
      invariant |runs| == i && forall k :: 0 <= k < i ==> runs[k] == inputs[k].points
      invariant Contents(runs) == multiset(PointSeq(inputs[..i])) && dels == DelSeq(inputs[..i])
    {
      RunsNext(inputs, i, runs);
      runs := runs + [inputs[i].points];
      dels := dels + inputs[i].dels;
    }
    assert inputs[..|inputs|] == inputs;
    SeqsMatchView(inputs);
    InputRunsOk(inputs);
  }

  lemma NoRuns()
    ensures Contents([]) == multiset{} && PointSeq([]) == [] && DelSeq([]) == []
  {
  }

  lemma RunsNext(inputs: seq<Table>, i: nat, runs: seq<seq<Entry>>)
    requires i < |inputs|
    ensures Contents(runs + [inputs[i].points]) == Contents(runs) + multiset(inputs[i].points)
    ensures PointSeq(inputs[..i+1]) == PointSeq(inputs[..i]) + inputs[i].points
    ensures DelSeq(inputs[..i+1]) == DelSeq(inputs[..i]) + inputs[i].dels
  {
    assert inputs[..i+1][..i] == inputs[..i];
    assert (runs + [inputs[i].points])[..|runs|] == runs;
  }

  lemma InputRunsOk(inputs: seq<Table>)
    requires forall t :: t in inputs ==> TableOk(t)
    ensures forall k :: 0 <= k < |inputs| ==> Ascending(inputs[k].points)
    ensures forall d :: d in DelsOf(inputs) ==> d.WellFormed()
  {
    forall k | 0 <= k < |inputs| ensures Ascending(inputs[k].points) {
      assert inputs[k] in inputs;
    }
  }

  /** The outputs of one merge: freshly numbered, well formed, at one depth. */
  ghost predicate FreshTables(outs: seq<Table>, depth: nat, lo: nat, hi: nat) {
    && (forall i :: 0 <= i < |outs| ==> TableOk(outs[i]) && outs[i].depth == depth && (outs[i].points != [] || outs[i].dels != []))
    && KeysApart(outs)
    && NumbersWithin(outs, lo, hi)
  }

  /** Point versions and range tombstones stored, counted with repetition. */
  function Records(ts: seq<Table>): nat {
    |PointSeq(ts)| + |DelSeq(ts)|
  }

  /** Merges `inputs` into new tables at `depth`. */
  method MergeTables(alloc: Allocator, inputs: seq<Table>, depth: nat, rc: Reclaim, retain: nat, cc: Config)
    returns (r: Result<seq<Table>>)
    requires forall t :: t in inputs ==> TableOk(t)
    modifies alloc
    ensures alloc.n >= old(alloc.n)
    ensures r.Ok? ==> Collapsed(ViewOf(inputs), ViewOf(r.value), rc, retain, cc.rewrite)
    ensures r.Ok? ==> FreshTables(r.value, depth, old(alloc.n), alloc.n)
    ensures r.Ok? ==> Records(r.value) <= Records(inputs)
    ensures r.Err? ==> alloc.n >= MAX_FILE_NUM || Clashing(PointsOf(inputs), cc.rewrite.cutoff)
  {
    hide Collapsed, TableOk, Ascending, Sorted, RangeDel.WellFormed, Conflict, Clashing;
    var runs, dels := InputRuns(inputs);
    var stream := MergeAll(runs);
    r := WriteMerged(alloc, depth, stream, dels, rc, retain, cc.rewrite, cc.sizes);
    if r.Err? && Conflict(stream, cc.rewrite.cutoff) {
      ConflictClashes(stream, cc.rewrite.cutoff);
    }
    assert PointSet(stream) == PointsOf(inputs) by {
      assert forall e :: e in stream <==> e in multiset(stream);
    }
    assert DelSet(dels) == DelsOf(inputs);
    assert |stream| == |multiset(stream)|;
  }

  lemma {:induction false} WithoutOk(tables: seq<Table>, inputs: seq<Table>, n: nat)
    requires TablesOk(tables) && forall i :: 0 <= i < |tables| ==> tables[i].num <= n
    ensures TablesOk(Without(tables, inputs))
    ensures forall i :: 0 <= i < |Without(tables, inputs)| ==> Without(tables, inputs)[i].num <= n
  {
    hide TableOk;
    if tables != [] {
      var k := |tables| - 1;
      WithoutOk(tables[..k], inputs, n);
      var rest := Without(tables[..k], inputs);
      forall i | 0 <= i < |rest| ensures rest[i].num != tables[k].num {
        WithoutMember(tables[..k], inputs, rest[i]);
      }
    }
  }

  /** The table set after a commit is well formed. */
  lemma CommittedOk(tables: seq<Table>, inputs: seq<Table>, outs: seq<Table>, depth: nat, lo: nat, hi: nat)
    requires TablesOk(tables) && forall i :: 0 <= i < |tables| ==> tables[i].num <= hi
    requires FreshTables(outs, depth, lo, hi) && NumbersApart(tables, outs)
    ensures TablesOk(Without(tables, inputs) + outs)
    ensures forall i :: 0 <= i < |Without(tables, inputs) + outs| ==> (Without(tables, inputs) + outs)[i].num <= hi
  {
    hide TableOk, KeysApart, Without;
    WithoutOk(tables, inputs, hi);
    forall t | t in Without(tables, inputs) ensures t in tables { WithoutMember(tables, inputs, t); }
  }

  lemma AboveIsApart(tables: seq<Table>, outs: seq<Table>, depth: nat, lo: nat, hi: nat)
    requires (forall i :: 0 <= i < |tables| ==> tables[i].num <= lo) && FreshTables(outs, depth, lo, hi)
    ensures NumbersApart(tables, outs)
  {
    hide TableOk, KeysApart;
  }

  /** `after` is `before` with some guarded inputs replaced by what their merge leaves. */
  ghost predicate Compacted(before: seq<Table>, after: seq<Table>, retain: nat, rw: Rewrite) {
    exists inputs, outs, rc ::
      && Subset(inputs, before)
      && Guarded(before, inputs, rc)
      && Collapsed(ViewOf(inputs), ViewOf(outs), rc, retain, rw)
      && after == Without(before, inputs) + outs
  }
}
