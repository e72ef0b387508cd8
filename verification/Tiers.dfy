/** When a tier is due for compaction, and the measure every compaction lowers. */
module Tiers {
  import opened Bytes
  import opened Versions
  import opened Tables
  import opened Collapse
  import opened OverlapGroups
  import opened Compaction
  import opened CompactionTheorem
  import opened Extension

  // ---------------------------------------------------------------------------
  // Sums over a table set
  // ---------------------------------------------------------------------------

  function Sum(ts: seq<Table>, f: Table -> nat): nat {
    if ts == [] then 0 else Sum(ts[..|ts|-1], f) + f(ts[|ts|-1])
  }

  lemma {:induction false} SumConcat(a: seq<Table>, b: seq<Table>, f: Table -> nat)
    ensures Sum(a + b, f) == Sum(a, f) + Sum(b, f)
  {
    if b == [] {
      assert a + b == a;
    } else {
      assert (a + b)[..|a + b| - 1] == a + b[..|b|-1];
      SumConcat(a, b[..|b|-1], f);
    }
  }

  lemma SumRemove(ts: seq<Table>, i: nat, f: Table -> nat)
    requires i < |ts|
    ensures Sum(ts, f) == Sum(ts[..i] + ts[i+1..], f) + f(ts[i])
  {
    hide Sum;
    var a, t, b := ts[..i], ts[i], ts[i+1..];
    assert ts == a + ([t] + b);
    SumConcat(a, [t] + b, f);
    SumConcat([t], b, f);
    SumConcat(a, b, f);
    SumOne(t, f);
  }

  lemma SumOne(t: Table, f: Table -> nat)
    ensures Sum([t], f) == f(t)
  {
    assert [t][..0] == [];
  }

  /** Taking the same element out of two orders of one multiset. */
  lemma Cancels<T>(front: seq<T>, b: seq<T>, i: nat)
    requires i < |b| && multiset(front + [b[i]]) == multiset(b)
    ensures multiset(front) == multiset(b[..i] + b[i+1..])
  {
    var rest := b[..i] + b[i+1..];
    assert b == b[..i] + [b[i]] + b[i+1..];
    assert multiset(b) == multiset(rest) + multiset{b[i]};
    forall u ensures multiset(front)[u] == multiset(rest)[u] {
      assert multiset(front + [b[i]])[u] == multiset(front)[u] + multiset{b[i]}[u];
    }
  }

  lemma {:induction false} SumPerm(a: seq<Table>, b: seq<Table>, f: Table -> nat)
    requires multiset(a) == multiset(b)
    ensures Sum(a, f) == Sum(b, f)
  {
    if a == [] {
      assert |multiset(b)| == 0;
    } else {
      var t, front := a[|a|-1], a[..|a|-1];
      assert a == front + [t];
      assert t in multiset(b);
      var i :| 0 <= i < |b| && b[i] == t;
      var rest := b[..i] + b[i+1..];
      Cancels(front, b, i);
      SumPerm(front, rest, f);
      SumRemove(b, i, f);
    }
  }

  lemma {:induction false} SumZero(ts: seq<Table>, f: Table -> nat)
    requires forall t :: t in ts ==> f(t) == 0
    ensures Sum(ts, f) == 0
  {
    if ts != [] {
      SumZero(ts[..|ts|-1], f);
    }
  }

  lemma {:induction false} OncePerTable(ts: seq<Table>, t: Table)
    requires TablesOk(ts)
    ensures multiset(ts)[t] <= 1
  {
    hide TableOk;
    if ts != [] {
      var front, last := ts[..|ts|-1], ts[|ts|-1];
      OncePerTable(front, t);
      assert ts == front + [last];
      if t == last {
        assert t !in front;
      }
    }
  }

  /** The survivors and the inputs are the table set, each table once. */
  lemma WithoutSplits(tables: seq<Table>, inputs: seq<Table>)
    requires TablesOk(tables) && Subset(inputs, tables)
    ensures multiset(tables) == multiset(Without(tables, inputs) + inputs)
  {
    hide TablesOk, TableOk, Without;
    var left := Without(tables, inputs);
    LeftOk(tables, inputs);
    forall t ensures multiset(tables)[t] == multiset(left)[t] + multiset(inputs)[t] {
      OncePerTable(tables, t);
      OncePerTable(left, t);
      WithoutIsRest(tables, inputs, t);
      assert t in tables <==> t in multiset(tables);
      assert t in left <==> t in multiset(left);
      assert t in inputs <==> t in multiset(inputs);
    }
    assert multiset(left + inputs) == multiset(left) + multiset(inputs);
  }

  lemma LeftOk(tables: seq<Table>, inputs: seq<Table>)
    requires TablesOk(tables)
    ensures TablesOk(Without(tables, inputs))
  {
    hide TableOk, Without;
    WithoutOk(tables, inputs, MaxNum(tables));
  }

  function MaxNum(ts: seq<Table>): (n: nat)
    ensures forall i :: 0 <= i < |ts| ==> ts[i].num <= n
  {
    if ts == [] then 0 else Max(MaxNum(ts[..|ts|-1]), ts[|ts|-1].num)
  }

  lemma SumSplits(tables: seq<Table>, inputs: seq<Table>, outs: seq<Table>, f: Table -> nat)
    requires TablesOk(tables) && Subset(inputs, tables)
    ensures Sum(Without(tables, inputs) + outs, f) == Sum(tables, f) - Sum(inputs, f) + Sum(outs, f)
  {
    hide TablesOk, Without;
    var left := Without(tables, inputs);
    WithoutSplits(tables, inputs);
    SumPerm(tables, left + inputs, f);
    SumConcat(left, inputs, f);
    SumConcat(left, outs, f);
  }

  // ---------------------------------------------------------------------------
  // The measure
  // ---------------------------------------------------------------------------

  function Size(t: Table): nat {
    |t.points| + |t.dels|
  }

  /** How far a table's records still have to sink, in record-tiers. */
  function Height(cap: nat): Table -> nat {
    (t: Table) => if t.depth < cap then Size(t) * (cap - t.depth) else 0
  }

  function Tombstones(es: seq<Entry>): nat {
    if es == [] then 0 else Tombstones(es[..|es|-1]) + (if es[|es|-1].payload.Tombstone? then 1 else 0)
  }

  /** Point tombstones held at one tier. */
  function TombstonesAt(depth: nat): Table -> nat {
    (t: Table) => if t.depth == depth then Tombstones(t.points) else 0
  }

  lemma {:induction false} NoTombstones(es: seq<Entry>)
    requires forall e :: e in es ==> !e.payload.Tombstone?
    ensures Tombstones(es) == 0
  {
    if es != [] {
      NoTombstones(es[..|es|-1]);
    }
  }

  lemma Distributes(a: nat, b: nat, k: nat)
    ensures (a + b) * k == a * k + b * k
  {
  }

  lemma RecordsLast(ts: seq<Table>)
    requires ts != []
    ensures Records(ts) == Records(ts[..|ts|-1]) + Size(ts[|ts|-1])
  {
  }

  lemma {:induction false} HeightOf(ts: seq<Table>, depth: nat, cap: nat)
    requires depth <= cap && forall t :: t in ts ==> t.depth == depth
    ensures Sum(ts, Height(cap)) == Records(ts) * (cap - depth)
  {
    hide Records, Size;
    if ts == [] {
      assert Records([]) == 0 by { NoRecords(); }
    } else {
      var front, last := ts[..|ts|-1], ts[|ts|-1];
      HeightOf(front, depth, cap);
      RecordsLast(ts);
      Distributes(Records(front), Size(last), cap - depth);
    }
  }

  lemma NoRecords()
    ensures Records([]) == 0
  {
  }

  /** A compaction that sinks its inputs by one tier. */
  ghost predicate Hopped(before: seq<Table>, after: seq<Table>, depth: nat) {
    exists inputs, outs :: HopsTo(before, after, depth, inputs, outs)
  }

  ghost predicate HopsTo(before: seq<Table>, after: seq<Table>, depth: nat, inputs: seq<Table>, outs: seq<Table>) {
    && Subset(inputs, before) && inputs != [] && after == Without(before, inputs) + outs && Records(outs) <= Records(inputs)
    && (forall t :: t in inputs ==> t.depth == depth) && (forall t :: t in outs ==> t.depth == depth + 1 && Size(t) > 0)
  }

  /** A compaction that collapses the deepest tier, and what overlaps it, in place. */
  ghost predicate Settled(before: seq<Table>, after: seq<Table>, depth: nat, retain: nat, rw: Rewrite) {
    exists inputs, outs :: SettlesTo(before, after, depth, retain, rw, inputs, outs)
  }

  ghost predicate SettlesTo(before: seq<Table>, after: seq<Table>, depth: nat, retain: nat, rw: Rewrite, inputs: seq<Table>, outs: seq<Table>) {
    && Subset(inputs, before) && after == Without(before, inputs) + outs
    && Collapsed(ViewOf(inputs), ViewOf(outs), Always, retain, rw)
    && (forall t :: t in before && t.depth == depth ==> t in inputs) && (forall t :: t in outs ==> t.depth == depth && Size(t) > 0)
  }

  lemma HopFrom(before: seq<Table>, after: seq<Table>, depth: nat, inputs: seq<Table>, outs: seq<Table>)
    requires HopsTo(before, after, depth, inputs, outs)
    ensures Hopped(before, after, depth)
  {
  }

  lemma SettleFrom(before: seq<Table>, after: seq<Table>, depth: nat, retain: nat, rw: Rewrite, inputs: seq<Table>, outs: seq<Table>)
    requires SettlesTo(before, after, depth, retain, rw, inputs, outs)
    ensures Settled(before, after, depth, retain, rw)
  {
  }

  lemma Sinks(a: nat, r: nat, r': nat)
    requires a >= 1 && r' <= r && r >= 1
    ensures r' * (a - 1) < r * a
  {
    assert r' * (a - 1) <= r * (a - 1) < r * a;
  }

  lemma HopShrinks(before: seq<Table>, after: seq<Table>, depth: nat, cap: nat)
    requires TablesOk(before) && Hopped(before, after, depth) && depth < cap
    requires forall t :: t in before ==> Size(t) > 0
    ensures Sum(after, Height(cap)) < Sum(before, Height(cap))
  {
    hide TablesOk, Without, Sum, Records, Subset;
    var inputs, outs :| HopsTo(before, after, depth, inputs, outs);
    SumSplits(before, inputs, outs, Height(cap));
    HeightOf(inputs, depth, cap);
    HeightOf(outs, depth + 1, cap);
    MemberOfPart(inputs, before, inputs[0]);
    SizePositive(inputs);
    Sinks(cap - depth, Records(inputs), Records(outs));
  }

  lemma {:induction false} SizePositive(ts: seq<Table>)
    requires ts != [] && Size(ts[0]) > 0
    ensures Records(ts) > 0
  {
    if |ts| > 1 {
      SizePositive(ts[..|ts|-1]);
    } else {
      assert ts[..0] == [];
    }
  }

  /** At the deepest tier everything dead at or below `retain` goes. */
  lemma NothingDeadLeft(w: View, out: View, retain: nat, rw: Rewrite)
    requires Collapsed(w, out, Always, retain, rw) && UpTo(w, retain)
    ensures forall f :: f in out.points ==> !f.payload.Tombstone?
  {
    forall f | f in out.points ensures !f.payload.Tombstone? {
      var e :| Survives(w, Always, retain, rw, e) && f == Resolve(rw, e);
    }
  }

  lemma SettleShrinks(before: seq<Table>, after: seq<Table>, cap: nat, retain: nat, rw: Rewrite)
    requires TablesOk(before) && Settled(before, after, cap, retain, rw) && UpTo(ViewOf(before), retain)
    ensures Sum(after, Height(cap)) <= Sum(before, Height(cap))
    ensures Sum(after, TombstonesAt(cap)) == 0
  {
    hide TablesOk, Without, Sum, Subset, Collapsed, TableOk, UpTo;
    var inputs, outs :| SettlesTo(before, after, cap, retain, rw, inputs, outs);
    SumSplits(before, inputs, outs, Height(cap));
    SumZero(outs, Height(cap));
    ViewSplits(before, inputs);
    UpToPart(ViewOf(before), ViewOf(inputs), retain);
    NothingDeadLeft(ViewOf(inputs), ViewOf(outs), retain, rw);
    forall t | t in after ensures TombstonesAt(cap)(t) == 0 {
      if t in outs {
        assert forall e :: e in t.points ==> e in ViewOf(outs).points;
        NoTombstones(t.points);
      } else {
        WithoutMember(before, inputs, t);
      }
    }
    SumZero(after, TombstonesAt(cap));
  }

  // ---------------------------------------------------------------------------
  // Picking a tier
  // ---------------------------------------------------------------------------

  /** Options.TierRatio, TierByteTrigger, TombstoneCompactionRatio, overlap gating, MinCompactionTables. */
  datatype Triggers = Triggers(ratio: nat, bytes: nat, tombstoneRatio: real, overlapGate: bool, minTables: nat)

  /** Two tables of the tier have intersecting ranges. */
  ghost predicate Overlapped(tier: seq<Table>) {
    exists t, u :: t in tier && u in tier && t.num != u.num && Touch(t, u)
  }

  ghost predicate OverlapToResolve(depth: nat, tier: seq<Table>, tr: Triggers) {
    depth == 0 || !tr.overlapGate || (tr.ratio >= 2 && |tier| >= 2 * tr.ratio) || Overlapped(tier)
  }

  function TierBytes(tier: seq<Table>): nat {
    Sum(tier, (t: Table) => t.size)
  }

  function TierEntries(tier: seq<Table>): nat {
    Sum(tier, (t: Table) => |t.points|)
  }

  function TierTombstones(tier: seq<Table>): nat {
    Sum(tier, (t: Table) => Tombstones(t.points))
  }

  /** A tier is due: by count or bytes where there is overlap to resolve, or by its share of tombstones. */
  ghost predicate Ready(tier: seq<Table>, depth: nat, cap: nat, tr: Triggers) {
    && tier != [] && !(tr.minTables >= 2 && depth > 0 && |tier| < tr.minTables)
    && (|| (depth < cap && OverlapToResolve(depth, tier, tr)
            && (|tier| >= tr.ratio || (tr.bytes > 0 && |tier| >= 2 && TierBytes(tier) >= tr.bytes)))
        || (tr.tombstoneRatio > 0.0 && |tier| >= 2 && TierEntries(tier) > 0
            && TierTombstones(tier) as real / TierEntries(tier) as real >= tr.tombstoneRatio))
  }

  /** Two fresh tables are due by bytes exactly when their sizes together reach the trigger, and by tombstones exactly when those
      are that share of their entries. */
  lemma PairIsDue(t: Table, u: Table, cap: nat, tr: Triggers)
    requires cap > 0 && tr.ratio > 2
    ensures Ready([t, u], 0, cap, tr) <==>
              || (tr.bytes > 0 && t.size + u.size >= tr.bytes)
              || (tr.tombstoneRatio > 0.0 && |t.points| + |u.points| > 0
                  && (Tombstones(t.points) + Tombstones(u.points)) as real / (|t.points| + |u.points|) as real >= tr.tombstoneRatio)
  {
    hide Tombstones, Sum;
    SumTwo(t, u, (t: Table) => t.size);
    SumTwo(t, u, (t: Table) => |t.points|);
    SumTwo(t, u, (t: Table) => Tombstones(t.points));
  }

  lemma SumTwo(t: Table, u: Table, f: Table -> nat)
    ensures Sum([t, u], f) == f(t) + f(u)
  {
    assert [t, u][..1] == [t];
    SumOne(t, f);
  }

  /** Some overlap group of two or more: exactly, some two ranges that intersect. */
  method HasOverlap(tier: seq<Table>) returns (found: bool)
    requires TablesOk(tier)
    ensures found <==> Overlapped(tier)
  {
    hide TableOk, Separated, Linked, Flatten;
    SaneTier(tier);
    var groups := OverlapSets(tier);
    found := exists i :: 0 <= i < |groups| && |groups[i]| >= 2;
    if found {
      var i :| 0 <= i < |groups| && |groups[i]| >= 2;
      PairTouches(tier, groups, i);
    } else {
      NoPairTouches(tier, groups);
    }
  }

  lemma SaneTier(tier: seq<Table>)
    requires TablesOk(tier)
    ensures forall t :: t in tier ==> Sane(t.bounds)
  {
  }

  lemma PairTouches(tier: seq<Table>, groups: seq<seq<Table>>, i: nat)
    requires TablesOk(tier) && multiset(Flatten(groups)) == multiset(tier)
    requires i < |groups| && |groups[i]| >= 2 && Linked(groups[i])
    ensures Overlapped(tier)
  {
    hide TableOk, Flatten;
    var g := groups[i];
    GroupInFlatten(groups, g);
    var t, u := g[0], g[1];
    assert Touch(t, u);
    assert g == [t, u] + g[2..];
    assert multiset([t, u]) <= multiset(g);
    OncePerTable(tier, t);
    assert t in multiset(tier) && u in multiset(tier);
    assert multiset([t, u])[t] <= 1;
    DistinctNumbers(tier, t, u);
  }

  lemma DistinctNumbers(tier: seq<Table>, t: Table, u: Table)
    requires TablesOk(tier) && t in tier && u in tier && t != u
    ensures t.num != u.num
  {
    hide TableOk;
    var i :| 0 <= i < |tier| && tier[i] == t;
    var j :| 0 <= j < |tier| && tier[j] == u;
  }

  lemma NoPairTouches(tier: seq<Table>, groups: seq<seq<Table>>)
    requires multiset(Flatten(groups)) == multiset(tier) && Separated(groups)
    requires forall i :: 0 <= i < |groups| ==> |groups[i]| < 2
    ensures !Overlapped(tier)
  {
    hide Flatten;
    forall t, u | t in tier && u in tier && t.num != u.num ensures !Touch(t, u) {
      assert t in multiset(tier) && u in multiset(tier);
      FlattenMember(groups, t);
      FlattenMember(groups, u);
      var a :| 0 <= a < |groups| && t in groups[a];
      var b :| 0 <= b < |groups| && u in groups[b];
      if a < b {
        BelowIsApart(t, u, []);
      } else if b < a {
        BelowIsApart(u, t, []);
      }
    }
  }

  /** tierHasOverlapToResolve. */
  method ResolvesOverlap(depth: nat, tier: seq<Table>, tr: Triggers) returns (worth: bool)
    requires TablesOk(tier)
    ensures worth <==> OverlapToResolve(depth, tier, tr)
  {
    if depth == 0 || !tr.overlapGate {
      return true;
    }
    if tr.ratio >= 2 && |tier| >= 2 * tr.ratio {
      return true;
    }
    worth := HasOverlap(tier);
  }

  /** The totals of a tier: bytes, entries, point tombstones. */
  method Totals(tier: seq<Table>) returns (bytes: nat, entries: nat, tombstones: nat)
    ensures bytes == TierBytes(tier) && entries == TierEntries(tier) && tombstones == TierTombstones(tier)
  {
    bytes, entries, tombstones := 0, 0, 0;
    for i := 0 to |tier|
      invariant bytes == TierBytes(tier[..i]) && entries == TierEntries(tier[..i]) && tombstones == TierTombstones(tier[..i])
    {
      var t := tier[i];
      assert tier[..i + 1][..i] == tier[..i];
      bytes := bytes + t.size;
      entries := entries + |t.points|;
      for j := 0 to |t.points|
        invariant tombstones == TierTombstones(tier[..i]) + Tombstones(t.points[..j])
      {
        assert t.points[..j + 1][..j] == t.points[..j];
        if t.points[j].payload.Tombstone? {
          tombstones := tombstones + 1;
        }
      }
      assert t.points[..|t.points|] == t.points;
    }
    assert tier[..|tier|] == tier;
  }

  method IsReady(tier: seq<Table>, depth: nat, cap: nat, tr: Triggers) returns (ready: bool)
    requires TablesOk(tier)
    ensures ready <==> Ready(tier, depth, cap, tr)
  {
    hide TablesOk, OverlapToResolve, Sum;
    var bytes, entries, tombstones := Totals(tier);
    if tier == [] || (tr.minTables >= 2 && depth > 0 && |tier| < tr.minTables) {
      return false;
    }
    ready := false;
    if depth < cap {
      var worth := ResolvesOverlap(depth, tier, tr);
      if worth {
        ready := |tier| >= tr.ratio;
        if !ready && tr.bytes > 0 && |tier| >= 2 {
          ready := bytes >= tr.bytes;
        }
      }
    }
    if !ready && tr.tombstoneRatio > 0.0 && |tier| >= 2 && entries > 0 {
      ready := tombstones as real / entries as real >= tr.tombstoneRatio;
    }
  }

  lemma {:induction false} TierOk(tables: seq<Table>, depth: nat)
    requires TablesOk(tables)
    ensures TablesOk(TierOf(tables, depth))
  {
    hide TableOk;
    if tables != [] {
      var n := |tables| - 1;
      TierOk(tables[..n], depth);
      var front := TierOf(tables[..n], depth);
      forall i | 0 <= i < |front| ensures front[i].num != tables[n].num {
        TierMember(tables[..n], depth, front[i]);
      }
    }
  }

  /** pickCompaction: the shallowest tier that is due. */
  method PickCompaction(tables: seq<Table>, cap: nat, tr: Triggers) returns (best: Option<nat>)
    requires TablesOk(tables)
    ensures best.Some? ==> Ready(TierOf(tables, best.value), best.value, cap, tr)
    ensures best.Some? ==> forall d: nat :: d < best.value ==> !Ready(TierOf(tables, d), d, cap, tr)
    ensures best.None? ==> forall d: nat :: !Ready(TierOf(tables, d), d, cap, tr)
  {
    hide TablesOk, Ready, TierOf;
    best := None;
    var deepest := MaxDepth(tables);
    for d := 0 to deepest + 1
      invariant best.Some? ==> best.value < d && Ready(TierOf(tables, best.value), best.value, cap, tr)
      invariant best.Some? ==> forall k: nat :: k < best.value ==> !Ready(TierOf(tables, k), k, cap, tr)
      invariant best.None? ==> forall k: nat :: k < d ==> !Ready(TierOf(tables, k), k, cap, tr)
    {
      var tier, others := SplitTier(tables, d);
      TierOk(tables, d);
      var ready := IsReady(tier, d, cap, tr);
      if ready && (best.None? || d < best.value) {
        best := Some(d);
      }
    }
    forall d: nat | d > deepest ensures !Ready(TierOf(tables, d), d, cap, tr) {
      BelowDeepest(tables, d, cap, tr);
    }
  }

  lemma BelowDeepest(tables: seq<Table>, d: nat, cap: nat, tr: Triggers)
    requires d > MaxDepth(tables)
    ensures !Ready(TierOf(tables, d), d, cap, tr)
  {
    if TierOf(tables, d) != [] {
      TierMember(tables, d, TierOf(tables, d)[0]);
    }
  }

  // ---------------------------------------------------------------------------
  // The loop
  // ---------------------------------------------------------------------------

  /** Nothing lies below the deepest tier, no table is empty, and nothing stored is newer than `retain`. */
  ghost predicate Drainable(tables: seq<Table>, cap: nat, retain: nat) {
    (forall t :: t in tables ==> t.depth <= cap && Size(t) > 0) && UpTo(ViewOf(tables), retain)
  }

  /** No tier is due, or the one that is has a single table. */
  ghost predicate Drained(tables: seq<Table>, cap: nat, tr: Triggers) {
    || (forall d: nat :: !Ready(TierOf(tables, d), d, cap, tr))
    || (exists d: nat :: Ready(TierOf(tables, d), d, cap, tr) && |TierOf(tables, d)| < 2)
  }

  lemma NoneDue(tables: seq<Table>, cap: nat, tr: Triggers)
    requires forall d: nat :: !Ready(TierOf(tables, d), d, cap, tr)
    ensures Drained(tables, cap, tr)
  {
  }

  lemma TierDeclines(tables: seq<Table>, cap: nat, tr: Triggers, d: nat)
    requires Ready(TierOf(tables, d), d, cap, tr) && |TierOf(tables, d)| < 2
    ensures Drained(tables, cap, tr)
  {
  }

  lemma {:induction false} TierTombstonesAt(tables: seq<Table>, depth: nat)
    ensures TierTombstones(TierOf(tables, depth)) == Sum(tables, TombstonesAt(depth))
  {
    if tables != [] {
      var n := |tables| - 1;
      TierTombstonesAt(tables[..n], depth);
      SumConcat(TierOf(tables[..n], depth), if tables[n].depth == depth then [tables[n]] else [], (t: Table) => Tombstones(t.points));
      assert [tables[n]][..0] == [];
    }
  }

  /** A due tier is above the deepest one, or is the deepest populated one and holds tombstones. */
  lemma PickShrinks(tables: seq<Table>, cap: nat, tr: Triggers, retain: nat, d: nat)
    requires Drainable(tables, cap, retain) && Ready(TierOf(tables, d), d, cap, tr)
    ensures d < cap || (d == cap == MaxDepth(tables) && Sum(tables, TombstonesAt(cap)) > 0)
  {
    hide Sum, UpTo;
    var tier := TierOf(tables, d);
    TierMember(tables, d, tier[0]);
    if d == cap {
      TierTombstonesAt(tables, d);
    }
  }

  /** One turn lowers the measure and leaves the store drainable. */
  lemma DrainTurn(before: seq<Table>, after: seq<Table>, cap: nat, retain: nat, rw: Rewrite, d: nat)
    requires TablesOk(before) && Drainable(before, cap, retain)
    requires d < cap || (d == cap && Sum(before, TombstonesAt(cap)) > 0)
    requires d < cap ==> Hopped(before, after, d)
    requires d == cap ==> Settled(before, after, d, retain, rw)
    requires Compacted(before, after, retain, rw)
    ensures Drainable(after, cap, retain)
    ensures Sum(after, Height(cap)) < Sum(before, Height(cap))
            || (Sum(after, Height(cap)) == Sum(before, Height(cap)) && Sum(after, TombstonesAt(cap)) < Sum(before, TombstonesAt(cap)))
  {
    hide TablesOk, Sum, Hopped, Settled, Height, TombstonesAt, UpTo, Size, Compacted;
    CompactedUpTo(before, after, retain, rw);
    forall t | t in after ensures t.depth <= cap && Size(t) > 0 {
      MadeOrKept(before, after, cap, retain, rw, d, t);
    }
    if d < cap {
      HopShrinks(before, after, d, cap);
    } else {
      SettleShrinks(before, after, cap, retain, rw);
    }
  }

  lemma MadeOrKept(before: seq<Table>, after: seq<Table>, cap: nat, retain: nat, rw: Rewrite, d: nat, t: Table)
    requires (d < cap && Hopped(before, after, d)) || (d == cap && Settled(before, after, d, retain, rw))
    requires t in after && forall u :: u in before ==> u.depth <= cap && Size(u) > 0
    ensures t.depth <= cap && Size(t) > 0
  {
    hide Without, Subset, Records, Collapsed, ViewOf, Size;
    if d < cap {
      var inputs, outs :| HopsTo(before, after, d, inputs, outs);
      WithoutMember(before, inputs, t);
    } else {
      var inputs, outs :| SettlesTo(before, after, d, retain, rw, inputs, outs);
      WithoutMember(before, inputs, t);
    }
  }

  /** A merge invents no sequence. */
  lemma CompactedUpTo(before: seq<Table>, after: seq<Table>, retain: nat, rw: Rewrite)
    requires TablesOk(before) && Compacted(before, after, retain, rw) && UpTo(ViewOf(before), retain)
    ensures UpTo(ViewOf(after), retain)
  {
    hide TablesOk, Subset, Guarded, ViewOf, Without, Survives, Resolve;
    var inputs, outs, rc :| Subset(inputs, before) && Guarded(before, inputs, rc)
      && Collapsed(ViewOf(inputs), ViewOf(outs), rc, retain, rw) && after == Without(before, inputs) + outs;
    ViewSplits(before, inputs);
    ViewAppends(Without(before, inputs), outs);
    forall f | f in ViewOf(outs).points ensures f.sqn <= retain {
      var e :| Survives(ViewOf(inputs), rc, retain, rw, e) && f == Resolve(rw, e);
      ResolveKeepsVersion(ViewOf(inputs), rc, retain, rw, e);
    }
  }

  lemma ResolveKeepsVersion(w: View, rc: Reclaim, retain: nat, rw: Rewrite, e: Entry)
    requires Survives(w, rc, retain, rw, e)
    ensures e in w.points && Resolve(rw, e).sqn == e.sqn
  {
  }
}
