/** When a filtered compaction leaves readers with two answers, and a run that does. */
module FilterConflict {
  import opened Bytes
  import opened Versions
  import opened Tables
  import opened Collapse
  import opened Compaction
  import opened CompactionTheorem
  import opened Scan
  import opened Log
  import opened WriteAhead
  import opened Recovery
  import opened Plans
  import opened ReplayRuns
  import CrashSafety

  /** A table outside the merge holds a copy of a version the merge keeps as the filter's tombstone. */
  ghost predicate LeavesCopy(w: View, rest: View, rc: Reclaim, retain: nat, rw: Rewrite) {
    exists e, b :: Survives(w, rc, retain, rw, e) && Rejects(rw, e) && b in rest.points && b.key == e.key && b.sqn == e.sqn
  }

  /** What a reader at the cutoff is shown of two resolved copies is the same when it was before. */
  lemma ResolveAgrees(rw: Rewrite, e: Entry, f: Entry)
    requires e.key == f.key && e.sqn == f.sqn && Outcome(e.payload, rw.cutoff) == Outcome(f.payload, rw.cutoff)
    ensures Outcome(Resolve(rw, e).payload, rw.cutoff) == Outcome(Resolve(rw, f).payload, rw.cutoff)
  {
  }

  lemma RejectedDiffers(rw: Rewrite, e: Entry)
    ensures Rejects(rw, e) <==> Outcome(Resolve(rw, e).payload, rw.cutoff) != Outcome(e.payload, rw.cutoff)
  {
  }

  /** After a filtered merge equal sequences agree exactly when it left no copy behind. */
  lemma FilteredReadsAgreeIff(w: View, out: View, rest: View, rc: Reclaim, retain: nat, rw: Rewrite)
    requires Collapsed(w, out, rc, retain, rw) && Coherent(Join(w, rest).points, rw.cutoff)
    ensures Coherent(Join(out, rest).points, rw.cutoff) <==> !LeavesCopy(w, rest, rc, retain, rw)
  {
    hide Survives, Resolve, Outcome, Rejects;
    if LeavesCopy(w, rest, rc, retain, rw) {
      var e, b :| Survives(w, rc, retain, rw, e) && Rejects(rw, e) && b in rest.points && b.key == e.key && b.sqn == e.sqn;
      SurvivorHeld(w, rc, retain, rw, e);
      RejectedDiffers(rw, e);
      assert e in Join(w, rest).points && b in Join(w, rest).points;
      assert Resolve(rw, e) in Join(out, rest).points && b in Join(out, rest).points;
    } else {
      forall a, b | a in Join(out, rest).points && b in Join(out, rest).points && a.key == b.key && a.sqn == b.sqn
        ensures Outcome(a.payload, rw.cutoff) == Outcome(b.payload, rw.cutoff)
      {
        if a in rest.points && b in rest.points {
          assert a in Join(w, rest).points && b in Join(w, rest).points;
        } else if a in rest.points {
          MergedAgrees(w, out, rest, rc, retain, rw, b, a);
        } else if b in rest.points {
          MergedAgrees(w, out, rest, rc, retain, rw, a, b);
        } else {
          var e := Origin(w, out, rc, retain, rw, a);
          var f := Origin(w, out, rc, retain, rw, b);
          assert e in Join(w, rest).points && f in Join(w, rest).points;
          ResolveAgrees(rw, e, f);
        }
      }
    }
  }

  /** In every run: a filter run that is the first to meet a copy leaves a conflict exactly when it leaves
      one outside, and one that meets none never does. */
  lemma FilterRunAgreesIff(states: seq<State>, i: nat, s': State, inputs: seq<Table>, outs: seq<Table>, rc: Reclaim,
                           retain: nat, rw: Rewrite, depth: nat, last: nat)
    requires Run(states) && i < |states| && Filters(states[i], s', inputs, outs, rc, retain, rw, depth, last)
    requires !states[i].h.filtered || !states[i].h.copied
    requires rw.cutoff >= states[i].h.cutoff
    ensures Coherent(ViewOf(s'.d.tables).points, rw.cutoff)
            <==> !LeavesCopy(ViewOf(inputs), ViewOf(Without(states[i].d.tables, inputs)), rc, retain, rw)
  {
    hide Run, Inv, ViewOf, Without, Collapsed, Guarded, Subset, FreshTables, RejectedIn, NoCopy, Coherent, LeavesCopy, Clashing;
    CrashSafety.ReplayedCopiesAgree(states, i, rw.cutoff);
    var s := states[i];
    var left := Without(s.d.tables, inputs);
    assert TablesOk(s.d.tables) by { TablesAre(states, i); }
    ViewSplits(s.d.tables, inputs);
    ViewAppends(left, outs);
    assert ViewOf(s'.d.tables) == Join(ViewOf(outs), ViewOf(left));
    FilteredReadsAgreeIff(ViewOf(inputs), ViewOf(outs), ViewOf(left), rc, retain, rw);
  }

  lemma TablesAre(states: seq<State>, i: nat)
    requires Run(states) && i < |states|
    ensures TablesOk(states[i].d.tables)
  {
    hide Run, CommitOk, SegsOk, FilterOk, CkptOk;
    RunInv(states, i);
  }

  lemma Origin(w: View, out: View, rc: Reclaim, retain: nat, rw: Rewrite, a: Entry) returns (e: Entry)
    requires Collapsed(w, out, rc, retain, rw) && a in out.points
    ensures Survives(w, rc, retain, rw, e) && a == Resolve(rw, e) && e in w.points && e.key == a.key && e.sqn == a.sqn
  {
    hide Survives, Resolve;
    e :| Survives(w, rc, retain, rw, e) && a == Resolve(rw, e);
    SurvivorHeld(w, rc, retain, rw, e);
  }

  lemma MergedAgrees(w: View, out: View, rest: View, rc: Reclaim, retain: nat, rw: Rewrite, a: Entry, b: Entry)
    requires Collapsed(w, out, rc, retain, rw) && Coherent(Join(w, rest).points, rw.cutoff) && !LeavesCopy(w, rest, rc, retain, rw)
    requires a in out.points && b in rest.points && a.key == b.key && a.sqn == b.sqn
    ensures Outcome(a.payload, rw.cutoff) == Outcome(b.payload, rw.cutoff)
  {
    hide Survives, Resolve, Outcome, Rejects;
    var e := Origin(w, out, rc, retain, rw, a);
    RejectedDiffers(rw, e);
    assert e in Join(w, rest).points && b in Join(w, rest).points;
  }

  // ---------------------------------------------------------------------------
  // A run that ends in conflict
  // ---------------------------------------------------------------------------

  const REJECT_ALL: Filter := (k, v, x) => false

  const VALUE: Payload := Plain([7])

  /** The replayed tables are the freshest tier: what a compaction picks next. */
  lemma FreshTier(m: Table, t: Table, u: Table)
    requires m.depth == 1 && t.depth == 0 && u.depth == 0
    ensures TierOf([m, t, u], 0) == [t, u] && RestOf([m, t, u], 0) == [m] && BoundsList([m]) == [m.bounds]
  {
    hide MaxDepth;
    var ts := [m, t, u];
    assert ts[..2] == [m, t] && [m, t][..1] == [m] && [m][..0] == [];
    assert TierOf([m], 0) == [] && RestOf([m], 0) == [m];
    assert TierOf([m, t], 0) == [t] && RestOf([m, t], 0) == [m];
  }

  lemma LeavesMerged(m: Table, t: Table, u: Table)
    requires t.num != m.num && u.num != m.num
    ensures Without([m, t, u], [t, u]) == [m]
  {
    var ts, inputs := [m, t, u], [t, u];
    assert inputs[0].num == t.num && inputs[1].num == u.num;
    assert ts[..2] == [m, t] && [m, t][..1] == [m] && [m][..0] == [];
    assert Without([m], inputs) == [m];
    assert Without([m, t], inputs) == [m];
  }

  lemma PairGuarded(m: Table, t: Table, u: Table)
    ensures Subset([t, u], [m, t, u]) && Guarded([m, t, u], [t, u], Unless([m.bounds]))
  {
    hide Bounds.MayContain;
    var ts, inputs := [m, t, u], [t, u];
    assert ts == [m] + inputs;
    forall x | x in ts ensures x in inputs || x == m {
    }
  }

  /** The filtered merge of the two replayed tables. */
  function Filtered(s: State, m: Table, out: Table, gone: set<(Bytes, nat)>, copied: bool): State {
    s.(d := s.d.(tables := [m] + [out], fileNum := 8), h := s.h.(filtered := true, rejected := {} + gone, copied := copied))
  }

  lemma FilterStep(m: Table, t: Table, u: Table, out: Table, rw: Rewrite, s: State)
    requires s == Replayed(VALUE, 2, 0) && rw == Rewrite(0, Some(REJECT_ALL), 2)
    requires m == Two(4, VALUE, Plain([8])) && t == One(5, First(VALUE)) && u == One(6, SECOND) && out == Two(8, Tombstone, Tombstone)
    ensures s.d.tables == [m, t, u]
    ensures var gone := RejectedIn(ViewOf([t, u]), 2, rw);
            Filters(s, Filtered(s, m, out, gone, !NoCopy(gone, ViewOf([m]))), [t, u], [out], Unless([m.bounds]), 2, rw, 1, 8)
  {
    hide Flat, LogView, ViewOf, TableOk, Collapsed, FreshTables, Guarded, Subset, Without, Rejects, RejectedIn, NoCopy;
    assert s.d.tables == [m, t, u];
    LeavesMerged(m, t, u);
    PairGuarded(m, t, u);
    TwoOk(8, Tombstone, Tombstone);
    PairView(5, 6, First(VALUE), SECOND);
    NotReclaimed(m);
    CollapsesTwo(VALUE, Unless([m.bounds]), 2, rw);
  }

  /** Two puts, flushed apart, merged one tier down, crashed, and replayed into two fresh tables.
      The next compaction takes those two, and its filter leaves each key with a value and a
      tombstone at one sequence: every read of it fails. */
  lemma FilterCanConflict() returns (states: seq<State>)
    ensures Run(states) && CodeRun(states) && !Coherent(ViewOf(states[|states|-1].d.tables).points, 0)
  {
    hide Run, CodeRun, Replayed, ViewOf, RejectedIn, NoCopy, CommitStep, Compacts, Filters, FlushBegin, FlushEnd, Crash, Recover, Planned,
         Coherent, TierOf, RestOf, BoundsList, MaxDepth;
    states := CrashReplays(VALUE, 2, 0);
    var s := Replayed(VALUE, 2, 0);
    var m, t, u, out := Two(4, VALUE, Plain([8])), One(5, First(VALUE)), One(6, SECOND), Two(8, Tombstone, Tombstone);
    var rw := Rewrite(0, Some(REJECT_ALL), 2);
    FilterStep(m, t, u, out, rw, s);
    FreshTier(m, t, u);
    PairIsPlanned(s.d.tables, rw, [t, u], [m]);
    var gone := RejectedIn(ViewOf([t, u]), 2, rw);
    var s' := Filtered(s, m, out, gone, !NoCopy(gone, ViewOf([m])));
    states := Extend(states, s');
    CodeRunIsRun(states);
    Disagree(m, out, s'.d.tables);
  }

  /** The merged table's range takes in both keys, so their tombstones are kept. */
  lemma NotReclaimed(m: Table)
    requires m.bounds == Bounds(Some(K1), Some(K2))
    ensures !ReclaimHere(Unless([m.bounds]), K1) && !ReclaimHere(Unless([m.bounds]), K2)
  {
    OrderLaws();
    assert [m.bounds][0].MayContain(K1) && [m.bounds][0].MayContain(K2);
  }

  lemma Disagree(m: Table, out: Table, tables: seq<Table>)
    requires tables == [m] + [out] && First(VALUE) in m.points && First(Tombstone) in out.points
    ensures !Coherent(ViewOf(tables).points, 0)
  {
    assert m in tables && First(VALUE) in ViewOf(tables).points;
    assert out in tables && First(Tombstone) in ViewOf(tables).points;
  }

  // ---------------------------------------------------------------------------
  // A copy and an earlier reader
  // ---------------------------------------------------------------------------

  /** Before the cutoff a replayed copy can disagree, at any two times in that order: a merge, its
      oldest pin below the put, leaves the tombstone of a value that expired at `x`, recovery
      replays the value, and a reader whose clock still shows `now` is given both. */
  lemma EarlierReadsConflict(now: int, x: int) returns (states: seq<State>)
    requires 0 < x && now < x
    ensures Run(states) && CodeRun(states)
    ensures var s := states[|states|-1];
            && !s.h.filtered && s.h.cutoff == x
            && !Coherent(ViewOf(s.d.tables).points, now) && Clashing(ViewOf(s.d.tables).points, now)
  {
    hide Run, CodeRun, Coherent, Clashing, ViewOf;
    var value := Expiring([7], x);
    states := CrashReplays(value, 0, x);
    CodeRunIsRun(states);
    var s := states[|states|-1];
    CopyDiffers(s.d.tables, value, now, x);
  }

  lemma CopyDiffers(tables: seq<Table>, value: Payload, now: int, x: int)
    requires value == Expiring([7], x) && now < x && |tables| == 3
    requires tables[0] == Two(4, Tombstone, Plain([8])) && tables[1] == One(5, First(value))
    ensures !Coherent(ViewOf(tables).points, now) && Clashing(ViewOf(tables).points, now)
  {
    var e, f := First(value), First(Tombstone);
    assert tables[0] in tables && f in tables[0].points && f in ViewOf(tables).points;
    assert tables[1] in tables && e in tables[1].points && e in ViewOf(tables).points;
    assert !DroppableDuplicate(f, e, now);
  }
}
