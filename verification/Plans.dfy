/** The merges a compaction loop may run, and small table sets whose next merge is certain. */
module Plans {
  import opened Bytes
  import opened Versions
  import opened Tables
  import opened Collapse
  import opened Sink
  import opened Compaction
  import opened CompactionTheorem
  import opened Tiers

  /** pickCompaction picks tier `from`. */
  ghost predicate Picked(tables: seq<Table>, from: nat, cap: nat, tr: Triggers) {
    tr.ratio >= 2 && Ready(TierOf(tables, from), from, cap, tr) && forall d: nat :: d < from ==> !Ready(TierOf(tables, d), d, cap, tr)
  }

  /** Under some options this merge is the one the compaction loop runs, and the only one it may. */
  ghost predicate Planned(tables: seq<Table>, inputs: seq<Table>, rc: Reclaim, rw: Rewrite, depth: nat) {
    exists from: nat, cc: Config, tr: Triggers :: PlannedBy(tables, inputs, rc, rw, depth, from, cc, tr)
  }

  ghost predicate PlannedBy(tables: seq<Table>, inputs: seq<Table>, rc: Reclaim, rw: Rewrite, depth: nat,
                            from: nat, cc: Config, tr: Triggers) {
    && cc.rewrite == rw && Picked(tables, from, ResolveMaxDepth(cc.maxLevels), tr)
    && forall plan :: Selects(tables, from, cc, plan) <==> plan == Merge(inputs, depth, rc)
  }

  const TRIGGERS: Triggers := Triggers(2, 0, 0.0, true, 0)

  const SIZES: Sizes := Sizes(points => |points|, (points, dels) => |points| + |dels|, 0)

  /** The default layout: eight tiers, overlap selection on, no byte cap. */
  function Options(rw: Rewrite): Config {
    Config(0, rw, 0, true, false, false, SIZES)
  }

  /** Two tables in the freshest tier are due and merged together. */
  lemma PairIsPlanned(tables: seq<Table>, rw: Rewrite, inputs: seq<Table>, rest: seq<Table>)
    requires TierOf(tables, 0) == inputs && |inputs| == 2 && RestOf(tables, 0) == rest
    ensures Planned(tables, inputs, ReclaimFor(BoundsList(rest), 1 > MaxDepth(tables)), rw, 1)
  {
    hide TierOf, RestOf, MaxDepth, Selects, TierEntries, TierTombstones, TierBytes, BoundsList;
    var cc := Options(rw);
    forall plan ensures Selects(tables, 0, cc, plan) <==> plan == PairPlan(tables, 0, cc) {
      PairIsMerged(tables, 0, cc, plan);
    }
    assert Picked(tables, 0, ResolveMaxDepth(cc.maxLevels), TRIGGERS);
    assert PlannedBy(tables, inputs, ReclaimFor(BoundsList(rest), 1 > MaxDepth(tables)), rw, 1, 0, cc, TRIGGERS);
  }

  // ---------------------------------------------------------------------------
  // Tables of one and of two versions
  // ---------------------------------------------------------------------------

  const K1: Bytes := [1]
  const K2: Bytes := [2]
  const SECOND: Entry := Entry(K2, 2, Plain([8]))

  function First(p: Payload): Entry {
    Entry(K1, 1, p)
  }

  /** A fresh table of one version. */
  function One(num: nat, e: Entry): Table {
    Table(num, 0, 1, Bounds(Some(e.key), Some(e.key)), [e], [])
  }

  lemma OneOk(num: nat, e: Entry)
    ensures TableOk(One(num, e)) && ViewOf([One(num, e)]) == View({e}, {})
  {
    OrderLaws();
    OneTable(One(num, e));
    assert PointSet([e]) == {e} && DelSet([]) == {};
  }

  /** A table one tier down over both keys. */
  function Two(num: nat, a: Payload, b: Payload): Table {
    Table(num, 1, 2, Bounds(Some(K1), Some(K2)), [First(a), SECOND.(payload := b)], [])
  }

  lemma TwoOk(num: nat, a: Payload, b: Payload)
    requires num > 0
    ensures TableOk(Two(num, a, b)) && ViewOf([Two(num, a, b)]) == View({First(a), SECOND.(payload := b)}, {})
    ensures forall hi: nat :: hi >= num ==> FreshTables([Two(num, a, b)], 1, 0, hi)
  {
    OrderLaws();
    OneTable(Two(num, a, b));
    assert PointSet([First(a), SECOND.(payload := b)]) == {First(a), SECOND.(payload := b)} && DelSet([]) == {};
  }

  lemma PairView(i: nat, j: nat, a: Entry, b: Entry)
    ensures ViewOf([One(i, a), One(j, b)]) == View({a, b}, {})
  {
    hide ViewOf;
    OneOk(i, a);
    OneOk(j, b);
    ViewAppends([One(i, a)], [One(j, b)]);
    assert [One(i, a)] + [One(j, b)] == [One(i, a), One(j, b)];
  }

  /** Versions of two keys, neither reclaimed, are each rewritten. */
  lemma CollapsesTwo(a: Payload, rc: Reclaim, retain: nat, rw: Rewrite)
    requires retain == 0 || !ReclaimHere(rc, K1) || !Resolve(rw, First(a)).payload.Tombstone?
    requires retain == 0 || !ReclaimHere(rc, K2) || !Resolve(rw, SECOND).payload.Tombstone?
    ensures Collapsed(View({First(a), SECOND}, {}), View({Resolve(rw, First(a)), Resolve(rw, SECOND)}, {}), rc, retain, rw)
  {
    hide Resolve, ReclaimHere;
    var w := View({First(a), SECOND}, {});
    assert Survives(w, rc, retain, rw, First(a)) && Survives(w, rc, retain, rw, SECOND);
  }

  lemma WithoutBoth(t: Table, u: Table)
    requires t.num != u.num
    ensures Without([t, u], [t, u]) == []
  {
    assert [t, u][..1] == [t] && [t][..0] == [];
    assert [t, u][0].num == t.num && [t, u][1].num == u.num;
    assert Without([t], [t, u]) == [];
  }

  lemma TierOfPair(t: Table, u: Table)
    requires t.depth == 0 && u.depth == 0
    ensures TierOf([t, u], 0) == [t, u] && RestOf([t, u], 0) == [] && MaxDepth([t, u]) == 0 && BoundsList([]) == []
  {
    assert [t, u][..1] == [t] && [t][..0] == [];
    assert TierOf([t], 0) == [t] && RestOf([t], 0) == [] && MaxDepth([t]) == 0;
  }

  lemma NothingOutside(tables: seq<Table>)
    ensures Guarded(tables, tables, Always) && Subset(tables, tables)
  {
  }

  /** Two tables that are the whole store are merged together, and their tombstones reclaimed. */
  lemma WholePair(t: Table, u: Table, rw: Rewrite)
    requires t.depth == 0 && u.depth == 0
    ensures Planned([t, u], [t, u], Always, rw, 1) && Guarded([t, u], [t, u], Always) && Subset([t, u], [t, u])
  {
    hide Guarded, Subset, Planned, TierOf, RestOf, MaxDepth, BoundsList;
    TierOfPair(t, u);
    PairIsPlanned([t, u], rw, [t, u], []);
    NothingOutside([t, u]);
  }
}
