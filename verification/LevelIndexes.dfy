/** The per-level table index of the point-read path. */
module LevelIndexes {
  import opened Bytes
  import opened Tables
  import opened OverlapGroups

  datatype LevelIndex = LevelIndex(l0: seq<Table>, sorted: seq<seq<Table>>, disjoint: seq<bool>)

  /** `level` holds exactly the tables of `ts` at depth `d`. */
  ghost predicate HoldsDepth(level: seq<Table>, ts: seq<Table>, d: nat) {
    forall t :: multiset(level)[t] == if t.depth == d then multiset(ts)[t] else 0
  }

  /** Consecutive ranges, all bounds known, none overlapping. */
  predicate Disjoint(level: seq<Table>) {
    && (forall i :: 0 <= i < |level| ==> level[i].bounds.min.Some? && level[i].bounds.max.Some?)
    && (forall i :: 0 < i < |level| ==> Lt(level[i-1].bounds.max.value, level[i].bounds.min.value))
  }

  ghost predicate IndexFor(idx: LevelIndex, ts: seq<Table>) {
    && |idx.sorted| == |idx.disjoint| > 0
    && (forall t :: t in ts ==> t.depth < |idx.sorted|)
    && HoldsDepth(idx.l0, ts, 0)
    && (forall d :: 1 <= d < |idx.sorted| ==> HoldsDepth(idx.sorted[d], ts, d) && MinSorted(idx.sorted[d]))
    && (forall d :: 1 <= d < |idx.sorted| ==> (idx.disjoint[d] <==> Disjoint(idx.sorted[d])))
  }

  /** levelIsDisjoint. */
  method LevelIsDisjoint(level: seq<Table>) returns (ok: bool)
    ensures ok <==> Disjoint(level)
  {
    for i := 0 to |level|
      invariant forall k :: 0 <= k < i ==> level[k].bounds.min.Some? && level[k].bounds.max.Some?
      invariant forall k :: 0 < k < i ==> Lt(level[k-1].bounds.max.value, level[k].bounds.min.value)
    {
      if level[i].bounds.min.None? || level[i].bounds.max.None? {
        return false;
      }
      if i > 0 && !Lt(level[i-1].bounds.max.value, level[i].bounds.min.value) {
        return false;
      }
    }
    return true;
  }

  /** Groups the tables by depth. */
  method GroupByDepth(ts: seq<Table>, n: nat) returns (levels: seq<seq<Table>>)
    requires forall t :: t in ts ==> t.depth < n
    ensures |levels| == n && forall d :: 0 <= d < n ==> HoldsDepth(levels[d], ts, d)
  {
    levels := seq(n, _ => []);
    for i := 0 to |ts|
      invariant |levels| == n && forall d :: 0 <= d < n ==> HoldsDepth(levels[d], ts[..i], d)
    {
      var t := ts[i];
      assert ts[..i+1] == ts[..i] + [t];
      assert t in ts;
      levels := levels[t.depth := levels[t.depth] + [t]];
    }
    assert ts[..|ts|] == ts;
  }

  lemma HoldsSame(a: seq<Table>, b: seq<Table>, ts: seq<Table>, d: nat)
    requires HoldsDepth(a, ts, d) && multiset(a) == multiset(b)
    ensures HoldsDepth(b, ts, d)
  {
  }

  method BuildLevelIndex(ts: seq<Table>) returns (idx: LevelIndex)
    ensures IndexFor(idx, ts)
  {
    hide HoldsDepth, MinSorted, Disjoint;
    var maxDepth := 0;
    for i := 0 to |ts|
      invariant forall k :: 0 <= k < i ==> ts[k].depth <= maxDepth
    {
      if ts[i].depth > maxDepth {
        maxDepth := ts[i].depth;
      }
    }
    var levels := GroupByDepth(ts, maxDepth + 1);
    var sorted, disjoint := [[]], [false];
    for d := 1 to maxDepth + 1
      invariant |sorted| == |disjoint| == d
      invariant forall k :: 1 <= k < d ==> HoldsDepth(sorted[k], ts, k) && MinSorted(sorted[k])
      invariant forall k :: 1 <= k < d ==> (disjoint[k] <==> Disjoint(sorted[k]))
    {
      var level := SortByMin(levels[d]);
      HoldsSame(levels[d], level, ts, d);
      var ok := LevelIsDisjoint(level);
      sorted := sorted + [level];
      disjoint := disjoint + [ok];
    }
    idx := LevelIndex(levels[0], sorted, disjoint);
  }

  /** The tables of `from` that may contain `key`, each as often as it occurs. */
  ghost predicate Visits(visited: seq<Table>, from: seq<Table>, key: Bytes) {
    forall t :: multiset(visited)[t] == if t.bounds.MayContain(key) then multiset(from)[t] else 0
  }

  method ScanLevel(level: seq<Table>, key: Bytes) returns (visited: seq<Table>)
    ensures Visits(visited, level, key)
  {
    visited := [];
    for i := 0 to |level|
      invariant Visits(visited, level[..i], key)
    {
      assert level[..i+1] == level[..i] + [level[i]];
      if level[i].bounds.MayContain(key) {
        visited := visited + [level[i]];
      }
    }
    assert level[..|level|] == level;
  }

  lemma {:induction false} DisjointChain(level: seq<Table>, i: nat, j: nat)
    requires Disjoint(level) && i < j < |level|
    requires forall k :: 0 <= k < |level| ==> Sane(level[k].bounds)
    ensures Lt(level[i].bounds.max.value, level[j].bounds.min.value)
    decreases j - i
  {
    OrderLaws();
    if i + 1 < j {
      DisjointChain(level, i, j - 1);
      assert Le(level[j-1].bounds.min.value, level[j-1].bounds.max.value);
    }
  }

  /** In a disjoint level only the last table starting at or below `key` can hold it. */
  lemma OnlyCandidate(level: seq<Table>, key: Bytes, cutoff: nat, k: nat)
    requires Disjoint(level) && k < |level| && cutoff <= |level|
    requires forall i :: 0 <= i < |level| ==> Sane(level[i].bounds)
    requires forall i :: 0 <= i < cutoff ==> Le(level[i].bounds.min.value, key)
    requires forall i :: cutoff <= i < |level| ==> Lt(key, level[i].bounds.min.value)
    requires level[k].bounds.MayContain(key)
    ensures cutoff > 0 && k == cutoff - 1
  {
    OrderLaws();
    if k < cutoff - 1 {
      DisjointChain(level, k, cutoff - 1);
    }
  }

  /** Index of the first table starting above `key`. */
  method Cutoff(level: seq<Table>, key: Bytes) returns (lo: nat)
    requires MinSorted(level) && Disjoint(level)
    ensures lo <= |level|
    ensures forall i :: 0 <= i < lo ==> Le(level[i].bounds.min.value, key)
    ensures forall i :: lo <= i < |level| ==> Lt(key, level[i].bounds.min.value)
  {
    OrderLaws();
    lo := 0;
    var hi := |level|;
    while lo < hi
      invariant 0 <= lo <= hi <= |level|
      invariant forall i :: 0 <= i < lo ==> Le(level[i].bounds.min.value, key)
      invariant forall i :: hi <= i < |level| ==> Lt(key, level[i].bounds.min.value)
    {
      var mid := (lo + hi) / 2;
      assert forall i :: 0 <= i < mid ==> MinLe(level[i].bounds.min, level[mid].bounds.min);
      assert forall i :: mid < i < |level| ==> MinLe(level[mid].bounds.min, level[i].bounds.min);
      if Lt(key, level[mid].bounds.min.value) {
        hi := mid;
      } else {
        lo := mid + 1;
      }
    }
  }

  /** The binary search of a disjoint level. */
  method SearchLevel(level: seq<Table>, key: Bytes) returns (visited: seq<Table>)
    requires MinSorted(level) && Disjoint(level)
    requires forall i :: 0 <= i < |level| ==> Sane(level[i].bounds)
    ensures Visits(visited, level, key)
  {
    var lo := Cutoff(level, key);
    visited := [];
    if lo > 0 && level[lo-1].bounds.MayContain(key) {
      visited := [level[lo-1]];
    }
    forall t ensures multiset(visited)[t] == if t.bounds.MayContain(key) then multiset(level)[t] else 0 {
      SearchCounts(level, key, lo, t);
    }
  }

  lemma SearchCounts(level: seq<Table>, key: Bytes, cutoff: nat, t: Table)
    requires Disjoint(level) && cutoff <= |level|
    requires forall i :: 0 <= i < |level| ==> Sane(level[i].bounds)
    requires forall i :: 0 <= i < cutoff ==> Le(level[i].bounds.min.value, key)
    requires forall i :: cutoff <= i < |level| ==> Lt(key, level[i].bounds.min.value)
    ensures t.bounds.MayContain(key) ==>
      multiset(level)[t] == if cutoff > 0 && level[cutoff-1] == t then 1 else 0
  {
    if t.bounds.MayContain(key) {
      forall k | 0 <= k < |level| && level[k] == t ensures cutoff > 0 && k == cutoff - 1 {
        OnlyCandidate(level, key, cutoff, k);
      }
      if cutoff > 0 && level[cutoff-1] == t {
        assert level == level[..cutoff-1] + [t] + level[cutoff..];
        assert t !in level[..cutoff-1] && t !in level[cutoff..];
      } else {
        assert t !in level;
      }
    }
  }

  /** Visits, exactly once each, the tables whose recorded range may contain `key`. */
  method Candidates(idx: LevelIndex, key: Bytes, ghost ts: seq<Table>) returns (visited: seq<Table>)
    requires IndexFor(idx, ts)
    requires forall t :: t in ts ==> Sane(t.bounds)
    ensures Visits(visited, ts, key)
  {
    visited := ScanLevel(idx.l0, key);
    for d := 1 to |idx.sorted|
      invariant forall t :: multiset(visited)[t] == if t.bounds.MayContain(key) && t.depth < d then multiset(ts)[t] else 0
    {
      var level := idx.sorted[d];
      if level == [] {
        continue;
      }
      var more;
      if !idx.disjoint[d] {
        more := ScanLevel(level, key);
      } else {
        forall i | 0 <= i < |level| ensures Sane(level[i].bounds) {
          assert multiset(level)[level[i]] > 0;
          assert multiset(ts)[level[i]] > 0;
        }
        more := SearchLevel(level, key);
      }
      visited := visited + more;
    }
    forall t | multiset(ts)[t] > 0 ensures t.depth < |idx.sorted| {
      assert t in ts;
    }
  }
}
