/** Compact's choice of inputs, and why what it reclaims was dead. */
module Compaction {
  import opened Bytes
  import opened Versions
  import opened Tables
  import opened Collapse
  import opened OverlapGroups
  import opened Sink

  const MAX_TIER_DEPTH := 7

  datatype Config = Config(
    maxLevels: nat,
    rewrite: Rewrite,
    maxBytes: int,
    overlapSelection: bool,
    rewriteSingle: bool,
    collapseInPlace: bool,
    sizes: Sizes)

  /** The deepest tier index for a level count; an unset count means eight tiers. */
  function ResolveMaxDepth(levels: nat): nat {
    if levels == 0 then MAX_TIER_DEPTH else levels - 1
  }

  function ResolveOutDepth(depth: nat, cc: Config): nat {
    if cc.collapseInPlace then depth
    else if depth + 1 <= ResolveMaxDepth(cc.maxLevels) then depth + 1
    else ResolveMaxDepth(cc.maxLevels)
  }

  /** A tier grows one down, until the deepest of the configured tiers, eight if none is set; that one, or any tier asked to
      collapse in place, stays. */
  lemma OutDepthIs(depth: nat, cc: Config)
    requires depth < if cc.maxLevels == 0 then 8 else cc.maxLevels
    ensures ResolveOutDepth(depth, cc)
            == if cc.collapseInPlace || depth + 1 == (if cc.maxLevels == 0 then 8 else cc.maxLevels) then depth else depth + 1
  {
  }

  function MaxDepth(ts: seq<Table>): (d: nat)
    ensures forall i :: 0 <= i < |ts| ==> ts[i].depth <= d
    ensures d == 0 || exists i :: 0 <= i < |ts| && ts[i].depth == d
  {
    if ts == [] then 0
    else
      var n := |ts| - 1;
      var m := MaxDepth(ts[..n]);
      assert forall i :: 0 <= i < n ==> ts[i] == ts[..n][i];
      if ts[n].depth > m then ts[n].depth else m
  }

  predicate HasTombstone(t: Table) {
    exists i :: 0 <= i < |t.points| && t.points[i].payload.Tombstone?
  }

  /** hasRewriteReason. */
  predicate RewriteReason(cc: Config, inputs: seq<Table>) {
    cc.rewrite.filter.Some? || exists i :: 0 <= i < |inputs| && HasTombstone(inputs[i])
  }

  predicate WorthCompacting(n: nat, bottomRewrite: bool, reason: bool) {
    n >= 2 || (n == 1 && bottomRewrite && reason)
  }

  datatype Plan = Idle | Merge(inputs: seq<Table>, outDepth: nat, rc: Reclaim)

  /** The tables left out of a merge hold nothing that reclaiming could uncover: under
      Always they share no key with any input, under Unless their bounds are listed. */
  ghost predicate Guarded(tables: seq<Table>, inputs: seq<Table>, rc: Reclaim) {
    match rc
    case Never => true
    case Always => forall t, u, k :: t in tables && t !in inputs && u in inputs ==> !(t.bounds.MayContain(k) && u.bounds.MayContain(k))
    case Unless(outside) => forall t :: t in tables && t !in inputs ==> t.bounds in outside
  }

  /** `inputs` are distinct members of `tables`. */
  predicate Subset(inputs: seq<Table>, tables: seq<Table>) {
    multiset(inputs) <= multiset(tables)
  }

  function BoundsList(ts: seq<Table>): (bs: seq<Bounds>)
    ensures forall t :: t in ts ==> t.bounds in bs
  {
    if ts == [] then [] else BoundsList(ts[..|ts|-1]) + [ts[|ts|-1].bounds]
  }

  /** A part `xs` of a multiset split: a member outside it is in the other part. */
  lemma InOtherPart(all: seq<Table>, xs: seq<Table>, ys: seq<Table>, t: Table)
    requires multiset(xs) + multiset(ys) == multiset(all)
    requires t in all && t !in xs
    ensures t in ys
  {
    assert t in multiset(all);
  }

  lemma MemberOfPart(part: seq<Table>, all: seq<Table>, t: Table)
    requires Subset(part, all) && t in part
    ensures t in all
  {
    assert t in multiset(part);
  }

  function TierOf(tables: seq<Table>, depth: nat): seq<Table> {
    if tables == [] then []
    else
      var n := |tables| - 1;
      TierOf(tables[..n], depth) + (if tables[n].depth == depth then [tables[n]] else [])
  }

  /** The tables of every other tier. */
  function RestOf(tables: seq<Table>, depth: nat): seq<Table> {
    if tables == [] then []
    else
      var n := |tables| - 1;
      RestOf(tables[..n], depth) + (if tables[n].depth == depth then [] else [tables[n]])
  }

  lemma {:induction false} TierMember(tables: seq<Table>, depth: nat, t: Table)
    ensures t in TierOf(tables, depth) <==> t in tables && t.depth == depth
  {
    if tables != [] {
      TierMember(tables[..|tables|-1], depth, t);
    }
  }

  /** The tables of one tier, and the rest. */
  method SplitTier(tables: seq<Table>, depth: nat) returns (tier: seq<Table>, others: seq<Table>)
    ensures tier == TierOf(tables, depth) && others == RestOf(tables, depth)
    ensures multiset(tier) + multiset(others) == multiset(tables)
    ensures forall t :: t in tier ==> t.depth == depth
    ensures forall t :: t in others ==> t.depth != depth
  {
    hide TierOf, RestOf;
    tier, others := [], [];
    NoTier(depth);
    for i := 0 to |tables|
      invariant multiset(tier) + multiset(others) == multiset(tables[..i])
      invariant tier == TierOf(tables[..i], depth) && others == RestOf(tables[..i], depth)
      invariant forall t :: t in tier ==> t.depth == depth
      invariant forall t :: t in others ==> t.depth != depth
    {
      assert tables[..i+1] == tables[..i] + [tables[i]];
      TierNext(tables, i, depth);
      if tables[i].depth == depth {
        tier := tier + [tables[i]];
      } else {
        others := others + [tables[i]];
      }
    }
    assert tables[..|tables|] == tables;
  }

  lemma NoTier(depth: nat)
    ensures TierOf([], depth) == [] && RestOf([], depth) == []
  {
  }

  lemma TierNext(tables: seq<Table>, i: nat, depth: nat)
    requires i < |tables|
    ensures TierOf(tables[..i+1], depth) == TierOf(tables[..i], depth) + (if tables[i].depth == depth then [tables[i]] else [])
    ensures RestOf(tables[..i+1], depth) == RestOf(tables[..i], depth) + (if tables[i].depth == depth then [] else [tables[i]])
  {
    assert tables[..i+1][..i] == tables[..i];
  }

  /** largestGroup. */
  method LargestGroup(groups: seq<seq<Table>>) returns (best: seq<Table>)
    ensures best == [] || best in groups
    ensures forall g :: g in groups ==> |g| <= |best|
  {
    best := [];
    for i := 0 to |groups|
      invariant best == [] || best in groups
      invariant forall k :: 0 <= k < i ==> |groups[k]| <= |best|
    {
      if |groups[i]| > |best| {
        best := groups[i];
      }
    }
  }

  /** The size of the first `n` tables. */
  function TotalSize(ts: seq<Table>, n: nat): nat
    requires n <= |ts|
  {
    if n == 0 then 0 else TotalSize(ts, n - 1) + ts[n-1].size
  }

  /** What capCompactionInputs keeps: the shortest run of two or more over the cap, or everything. */
  predicate CapsAt(inputs: seq<Table>, maxBytes: int, k: nat) {
    && k <= |inputs|
    && (k < |inputs| ==> k >= 2 && TotalSize(inputs, k) > maxBytes)
    && forall i :: 2 <= i < k ==> TotalSize(inputs, i) <= maxBytes
  }

  method CapInputs(inputs: seq<Table>, maxBytes: int) returns (k: nat)
    ensures CapsAt(inputs, maxBytes, k)
    ensures k <= |inputs| && (|inputs| >= 2 ==> k >= 2)
  {
    var total := 0;
    for i := 0 to |inputs|
      invariant total == TotalSize(inputs, i)
      invariant forall m :: 2 <= m <= i ==> TotalSize(inputs, m) <= maxBytes
    {
      total := total + inputs[i].size;
      if total > maxBytes && i + 1 >= 2 {
        return i + 1;
      }
    }
    return |inputs|;
  }

  lemma {:induction false} TotalGrows(ts: seq<Table>, a: nat, b: nat)
    requires a <= b <= |ts|
    ensures TotalSize(ts, a) <= TotalSize(ts, b)
    decreases b
  {
    if a < b {
      TotalGrows(ts, a, b - 1);
    }
  }

  /** The run kept respects the cap only when everything does: the table that crosses it is kept too. */
  lemma CapHonouredIff(inputs: seq<Table>, maxBytes: int, k: nat)
    requires CapsAt(inputs, maxBytes, k)
    ensures TotalSize(inputs, k) <= maxBytes <==> TotalSize(inputs, |inputs|) <= maxBytes
  {
    TotalGrows(inputs, k, |inputs|);
  }

  lemma {:induction false} GroupInFlatten(groups: seq<seq<Table>>, g: seq<Table>)
    requires g in groups
    ensures multiset(g) <= multiset(Flatten(groups))
  {
    var n := |groups| - 1;
    assert multiset(Flatten(groups)) == multiset(Flatten(groups[..n])) + multiset(groups[n]);
    if g != groups[n] {
      assert groups == groups[..n] + [groups[n]];
      GroupInFlatten(groups[..n], g);
    }
  }

  /** What overlap selection makes of a tier: all of it, or a proper linked group of two or more. */
  ghost predicate Narrows(tier: seq<Table>, chosen: seq<Table>, passed: seq<Bounds>) {
    (chosen == tier && passed == []) || (2 <= |chosen| < |tier| && Linked(chosen))
  }

  /** The largest overlap group of a tier when it is a proper part of two tables or
      more, and the bounds of the tables passed over. */
  method NarrowToGroup(tier: seq<Table>) returns (chosen: seq<Table>, passed: seq<Bounds>)
    requires forall t :: t in tier ==> Sane(t.bounds)
    ensures Subset(chosen, tier)
    ensures Narrows(tier, chosen, passed)
    ensures forall t :: t in tier && t !in chosen ==> t.bounds in passed
  {
    hide Separated, Linked, Flatten;
    var groups := OverlapSets(tier);
    var best := LargestGroup(groups);
    if |best| < 2 || |best| >= |tier| {
      return tier, [];
    }
    GroupInFlatten(groups, best);
    passed := PassedOver(tier, best);
    chosen := best;
  }

  method PassedOver(tier: seq<Table>, best: seq<Table>) returns (passed: seq<Bounds>)
    ensures forall t :: t in tier && t !in best ==> t.bounds in passed
  {
    passed := [];
    for i := 0 to |tier|
      invariant forall k :: 0 <= k < i && tier[k] !in best ==> tier[k].bounds in passed
    {
      if tier[i] !in best {
        passed := passed + [tier[i].bounds];
      }
    }
  }

  /** What scopeCompactionInputs yields: overlap selection, then the byte cap. */
  ghost predicate Scopes(tier: seq<Table>, outside: seq<Bounds>, cc: Config, chosen: seq<Table>, outside': seq<Bounds>) {
    exists mid: seq<Table>, passed: seq<Bounds>, k: nat :: ScopesBy(tier, outside, cc, chosen, outside', mid, passed, k)
  }

  ghost predicate ScopesBy(tier: seq<Table>, outside: seq<Bounds>, cc: Config, chosen: seq<Table>, outside': seq<Bounds>,
                           mid: seq<Table>, passed: seq<Bounds>, k: nat) {
    && (if cc.overlapSelection then Narrows(tier, mid, passed) else mid == tier && passed == [])
    && k <= |mid| && (if cc.maxBytes > 0 then CapsAt(mid, cc.maxBytes, k) else k == |mid|)
    && chosen == mid[..k] && outside' == outside + passed + BoundsList(mid[k..])
  }

  /** scopeCompactionInputs: narrow to the largest overlap group, then to the byte
      cap, listing the bounds of every table left behind. */
  method ScopeInputs(tier: seq<Table>, outside: seq<Bounds>, cc: Config) returns (chosen: seq<Table>, outside': seq<Bounds>)
    requires forall t :: t in tier ==> Sane(t.bounds)
    ensures Subset(chosen, tier)
    ensures |tier| >= 2 ==> |chosen| >= 2
    ensures forall t :: t in tier && t !in chosen ==> t.bounds in outside'
    ensures forall b :: b in outside ==> b in outside'
    ensures Scopes(tier, outside, cc, chosen, outside')
  {
    hide CapsAt, Linked, Sane;
    chosen, outside' := tier, outside;
    ghost var left := [];
    if cc.overlapSelection {
      var passed;
      chosen, passed := NarrowToGroup(tier);
      outside' := outside + passed;
      left := passed;
    }
    assert outside' == outside + left;
    ghost var mid := chosen;
    var k := |chosen|;
    if cc.maxBytes > 0 {
      k := CapInputs(chosen, cc.maxBytes);
      outside' := outside' + BoundsList(chosen[k..]);
      assert chosen == chosen[..k] + chosen[k..];
      chosen := chosen[..k];
    } else {
      assert mid[..k] == mid && outside' + BoundsList(mid[k..]) == outside';
    }
    assert ScopesBy(tier, outside, cc, chosen, outside', mid, left, k);
  }

  ghost predicate Takes(groups: seq<seq<Table>>, n: nat, taken: seq<bool>, inputs: seq<Table>, depth: nat) {
    && n == |taken| <= |groups|
    && (forall u :: u in inputs <==> exists k :: 0 <= k < n && taken[k] && u in groups[k])
    && (forall k, t: Table :: 0 <= k < n && t in groups[k] && t.depth == depth ==> taken[k])
    && multiset(inputs) <= multiset(Flatten(groups[..n]))
  }

  lemma TakesNext(groups: seq<seq<Table>>, n: nat, taken: seq<bool>, inputs: seq<Table>, depth: nat, take: bool)
    requires Takes(groups, n, taken, inputs, depth) && n < |groups|
    requires take <==> exists j :: 0 <= j < |groups[n]| && groups[n][j].depth == depth
    ensures Takes(groups, n + 1, taken + [take], inputs + (if take then groups[n] else []), depth)
  {
    var taken', inputs' := taken + [take], inputs + (if take then groups[n] else []);
    assert groups[..n+1][..n] == groups[..n];
    forall u ensures u in inputs' <==> exists k :: 0 <= k < n + 1 && taken'[k] && u in groups[k] {
      if u in inputs {
        var k :| 0 <= k < n && taken[k] && u in groups[k];
        assert taken'[k];
      } else if u in inputs' {
        assert taken'[n] && u in groups[n];
      }
    }
  }

  /** The overlap groups of the whole table set that touch a tier. */
  method TouchingGroups(tables: seq<Table>, depth: nat) returns (inputs: seq<Table>)
    requires forall t :: t in tables ==> Sane(t.bounds)
    ensures Subset(inputs, tables)
    ensures forall t :: t in tables && t.depth == depth ==> t in inputs
    ensures Guarded(tables, inputs, Always)
  {
    var groups := OverlapSets(tables);
    inputs := [];
    ghost var taken: seq<bool> := [];
    for i := 0 to |groups|
      invariant Takes(groups, i, taken, inputs, depth)
    {
      var take := exists j :: 0 <= j < |groups[i]| && groups[i][j].depth == depth;
      TakesNext(groups, i, taken, inputs, depth, take);
      inputs := inputs + (if take then groups[i] else []);
      taken := taken + [take];
    }
    assert groups[..|groups|] == groups;
    TakenAreGuarded(tables, groups, taken, inputs, depth);
  }

  lemma TakenApart(groups: seq<seq<Table>>, a: nat, b: nat, t: Table, u: Table, k: Bytes)
    requires Separated(groups) && a < |groups| && b < |groups| && a != b
    requires t in groups[a] && u in groups[b]
    ensures !(t.bounds.MayContain(k) && u.bounds.MayContain(k))
  {
    if a < b {
      BelowIsApart(t, u, k);
    } else {
      BelowIsApart(u, t, k);
    }
  }

  lemma TakenAreGuarded(tables: seq<Table>, groups: seq<seq<Table>>, taken: seq<bool>, inputs: seq<Table>, depth: nat)
    requires multiset(Flatten(groups)) == multiset(tables) && Separated(groups)
    requires Takes(groups, |groups|, taken, inputs, depth)
    ensures forall t :: t in tables && t.depth == depth ==> t in inputs
    ensures Guarded(tables, inputs, Always)
  {
    hide Separated, Bounds.MayContain, Flatten;
    forall t | t in tables ensures exists a :: 0 <= a < |groups| && t in groups[a] {
      assert t in multiset(tables) && t in Flatten(groups);
      FlattenMember(groups, t);
    }
    forall t, u, k | t in tables && t !in inputs && u in inputs
      ensures !(t.bounds.MayContain(k) && u.bounds.MayContain(k))
    {
      var a :| 0 <= a < |groups| && t in groups[a];
      var b :| 0 <= b < |groups| && taken[b] && u in groups[b];
      TakenApart(groups, a, b, t, u, k);
    }
  }

  /** The reclaim rule of a merge that leaves tables with the given bounds outside. */
  function ReclaimFor(outside: seq<Bounds>, dropTombstones: bool): Reclaim {
    if outside != [] then Unless(outside) else if dropTombstones then Always else Never
  }

  /** A merge at the deepest populated tier that stays there. */
  predicate WholeTier(tables: seq<Table>, depth: nat, cc: Config) {
    ResolveOutDepth(depth, cc) == depth == MaxDepth(tables)
  }

  /** What Compact decides for a tier. */
  ghost predicate Selects(tables: seq<Table>, depth: nat, cc: Config, plan: Plan) {
    var tier, outDepth, whole := TierOf(tables, depth), ResolveOutDepth(depth, cc), WholeTier(tables, depth, cc);
    if !WorthCompacting(|tier|, cc.rewriteSingle && whole, RewriteReason(cc, tier)) then plan == Idle
    else if whole then
      && plan.Merge? && plan.outDepth == outDepth && plan.rc == Always
      && Subset(plan.inputs, tables) && Guarded(tables, plan.inputs, Always)
      && forall t :: t in tables && t.depth == depth ==> t in plan.inputs
    else
      exists chosen, outside :: && Scopes(tier, BoundsList(RestOf(tables, depth)), cc, chosen, outside)
                                && plan == Merge(chosen, outDepth, ReclaimFor(outside, outDepth > MaxDepth(tables)))
  }

  /** What Compact decides for two tables of a tier that grows a level down. */
  function PairPlan(tables: seq<Table>, depth: nat, cc: Config): Plan {
    Merge(TierOf(tables, depth), ResolveOutDepth(depth, cc),
          ReclaimFor(BoundsList(RestOf(tables, depth)), ResolveOutDepth(depth, cc) > MaxDepth(tables)))
  }

  /** Such a pair is merged, whole, under every configuration, with every other table guarded against. */
  lemma PairIsMerged(tables: seq<Table>, depth: nat, cc: Config, plan: Plan)
    requires |TierOf(tables, depth)| == 2 && !WholeTier(tables, depth, cc)
    ensures Selects(tables, depth, cc, plan) <==> plan == PairPlan(tables, depth, cc)
  {
    hide TierOf, RestOf, MaxDepth, RewriteReason, Linked, TotalSize;
    var tier, rest := TierOf(tables, depth), BoundsList(RestOf(tables, depth));
    assert tier[..2] == tier && tier[2..] == [] && rest + [] + [] == rest;
    if Selects(tables, depth, cc, plan) {
      var chosen, outside :| && Scopes(tier, rest, cc, chosen, outside)
                             && plan == Merge(chosen, ResolveOutDepth(depth, cc), ReclaimFor(outside, ResolveOutDepth(depth, cc) > MaxDepth(tables)));
      var mid: seq<Table>, passed: seq<Bounds>, k: nat :| ScopesBy(tier, rest, cc, chosen, outside, mid, passed, k);
      assert mid == tier && passed == [] && k == 2;
    }
    assert ScopesBy(tier, rest, cc, tier, rest, tier, [], 2);
    assert Scopes(tier, rest, cc, tier, rest);
  }

  lemma LoneTable(tables: seq<Table>, depth: nat, cc: Config)
    ensures forall t :: TierOf(tables, depth) == [t] ==>
              && (depth == MaxDepth(tables) <==> forall u :: u in tables ==> u.depth <= depth)
              && (RewriteReason(cc, [t]) <==> cc.rewrite.filter.Some? || exists e :: e in t.points && e.payload.Tombstone?)
  {
    hide TierOf, MaxDepth;
    forall t | TierOf(tables, depth) == [t]
      ensures depth == MaxDepth(tables) <==> forall u :: u in tables ==> u.depth <= depth
      ensures RewriteReason(cc, [t]) <==> cc.rewrite.filter.Some? || exists e :: e in t.points && e.payload.Tombstone?
    {
      TierMember(tables, depth, t);
      assert [t][0] == t;
      if e :| e in t.points && e.payload.Tombstone? {
        var i :| 0 <= i < |t.points| && t.points[i] == e;
        assert HasTombstone([t][0]);
      }
    }
  }

  /** Compact's selection: which tables merge, where the output goes, and what may be reclaimed. */
  method SelectInputs(tables: seq<Table>, depth: nat, cc: Config) returns (plan: Plan)
    requires TablesOk(tables)
    ensures plan.Merge? ==> Subset(plan.inputs, tables) && plan.inputs != [] && Guarded(tables, plan.inputs, plan.rc)
    ensures plan.Merge? ==> plan.outDepth == ResolveOutDepth(depth, cc)
    ensures plan.Merge? && (plan.outDepth != depth || depth != MaxDepth(tables)) ==>
              |plan.inputs| >= 2 && forall t :: t in plan.inputs ==> t.depth == depth
    ensures plan.Merge? && plan.outDepth == depth == MaxDepth(tables) ==>
              plan.rc == Always && forall t :: t in tables && t.depth == depth ==> t in plan.inputs
    ensures plan.Idle? && !cc.rewriteSingle ==> |TierOf(tables, depth)| < 2
    ensures |TierOf(tables, depth)| >= 2 ==> plan.Merge?
    ensures forall t :: TierOf(tables, depth) == [t] ==>
              (plan.Merge? <==> && cc.rewriteSingle && ResolveOutDepth(depth, cc) == depth && (forall u :: u in tables ==> u.depth <= depth)
                                && (cc.rewrite.filter.Some? || exists e :: e in t.points && e.payload.Tombstone?))
    ensures Selects(tables, depth, cc, plan)
  {
    hide TableOk, TierOf, RestOf, MaxDepth, RewriteReason, Guarded, Scopes;
    TablesSane(tables);
    var maxDepth := MaxDepth(tables);
    var outDepth := ResolveOutDepth(depth, cc);
    var inPlace := outDepth == depth;
    var tier, others := SplitTier(tables, depth);
    var bottomRewrite := cc.rewriteSingle && inPlace && depth == maxDepth;
    LoneTable(tables, depth, cc);
    if !WorthCompacting(|tier|, bottomRewrite, RewriteReason(cc, tier)) {
      return Idle;
    }
    if inPlace && depth == maxDepth {
      var inputs := TouchingGroups(tables, depth);
      assert tier[0] in multiset(tables) && tier[0] in tables && tier[0] in inputs;
      return Merge(inputs, outDepth, Always);
    }
    var dropTombstones := outDepth > maxDepth;
    forall t | t in tier ensures Sane(t.bounds) {
      assert t in multiset(tables);
    }
    var inputs, outside := ScopeInputs(tier, BoundsList(others), cc);
    forall t | t in inputs ensures t.depth == depth {
      MemberOfPart(inputs, tier, t);
    }
    var rc := ReclaimFor(outside, dropTombstones);
    ScopedIsGuarded(tables, tier, others, inputs, outside, rc);
    return Merge(inputs, outDepth, rc);
  }

  lemma TablesSane(tables: seq<Table>)
    requires TablesOk(tables)
    ensures forall t :: t in tables ==> Sane(t.bounds)
  {
  }

  /** Every table left behind is on the list a scoped merge checks; an empty list leaves none behind. */
  lemma ScopedIsGuarded(tables: seq<Table>, tier: seq<Table>, others: seq<Table>, inputs: seq<Table>, outside: seq<Bounds>, rc: Reclaim)
    requires multiset(tier) + multiset(others) == multiset(tables)
    requires forall t :: t in tier && t !in inputs ==> t.bounds in outside
    requires forall t :: t in others ==> t.bounds in outside
    requires rc == Never || rc == Unless(outside) || (rc == Always && outside == [])
    ensures Guarded(tables, inputs, rc)
  {
    hide Bounds.MayContain;
    forall t | t in tables && t !in inputs ensures t.bounds in outside {
      if t !in tier {
        InOtherPart(tables, tier, others, t);
      }
    }
  }
}
