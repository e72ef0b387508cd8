/** overlapSets: the connected components of a table set under key-range overlap. */
module OverlapGroups {
  import opened Bytes
  import opened Tables

  /** compareOptionalMin <= 0: an unknown low bound sorts before any key. */
  predicate MinLe(a: Option<Bytes>, b: Option<Bytes>) {
    a.None? || (b.Some? && Le(a.value, b.value))
  }

  predicate MinSorted(ts: seq<Table>) {
    forall i, j :: 0 <= i < j < |ts| ==> MinLe(ts[i].bounds.min, ts[j].bounds.min)
  }

  /** The two tables' recorded ranges intersect. */
  predicate Touch(a: Table, b: Table) {
    a.bounds.OverlapsRange(b.bounds.min, b.bounds.max)
  }

  /** Every key of `a` lies below every key of `b`. */
  predicate Below(a: Table, b: Table) {
    a.bounds.max.Some? && b.bounds.min.Some? && Lt(a.bounds.max.value, b.bounds.min.value)
  }

  /** Consecutive growth of one component: each later member touches an earlier one. */
  predicate Linked(g: seq<Table>) {
    |g| > 0 && forall i :: 0 < i < |g| ==> exists j :: 0 <= j < i && Touch(g[j], g[i])
  }

  function Flatten(gs: seq<seq<Table>>): seq<Table> {
    if gs == [] then [] else Flatten(gs[..|gs|-1]) + gs[|gs|-1]
  }

  /** Members of different groups have ranges that do not intersect. */
  predicate Separated(gs: seq<seq<Table>>) {
    forall i, j, a, b :: 0 <= i < j < |gs| && a in gs[i] && b in gs[j] ==> Below(a, b)
  }

  lemma BelowIsApart(a: Table, b: Table, key: Bytes)
    requires Below(a, b)
    ensures !Touch(a, b) && !Touch(b, a)
    ensures !(a.bounds.MayContain(key) && b.bounds.MayContain(key))
  {
    OrderLaws();
  }

  /** Two recorded ranges intersect exactly when some key lies in both. */
  lemma TouchIff(a: Table, b: Table)
    requires Sane(a.bounds) && Sane(b.bounds)
    ensures Touch(a, b) <==> exists key :: a.bounds.MayContain(key) && b.bounds.MayContain(key)
  {
    OrderLaws();
    if Touch(a, b) {
      var lo := if MinLe(a.bounds.min, b.bounds.min) then b.bounds.min else a.bounds.min;
      var key := if lo.Some? then lo.value
                 else if a.bounds.max.None? then b.bounds.max.GetOr([])
                 else if b.bounds.max.Some? && Lt(b.bounds.max.value, a.bounds.max.value) then b.bounds.max.value
                 else a.bounds.max.value;
      assert a.bounds.MayContain(key) && b.bounds.MayContain(key);
    }
  }

  lemma {:induction false} FlattenMember(gs: seq<seq<Table>>, t: Table)
    ensures t in Flatten(gs) <==> exists i :: 0 <= i < |gs| && t in gs[i]
  {
    if gs != [] {
      FlattenMember(gs[..|gs|-1], t);
    }
  }

  lemma MinLeLaws()
    ensures forall a, b :: MinLe(a, b) || MinLe(b, a)
    ensures forall a, b, c :: MinLe(a, b) && MinLe(b, c) ==> MinLe(a, c)
  {
    OrderLaws();
  }

  lemma InsertKeepsSorted(s: seq<Table>, j: nat, t: Table)
    requires MinSorted(s) && j <= |s|
    requires j > 0 ==> MinLe(s[j-1].bounds.min, t.bounds.min)
    requires j < |s| ==> MinLe(t.bounds.min, s[j].bounds.min)
    ensures MinSorted(s[..j] + [t] + s[j..])
  {
    MinLeLaws();
    var r := s[..j] + [t] + s[j..];
    forall a, b | 0 <= a < b < |r|
      ensures MinLe(r[a].bounds.min, r[b].bounds.min)
    {
      assert a < j ==> r[a] == s[a] && MinLe(s[a].bounds.min, t.bounds.min);
      assert b > j ==> r[b] == s[b-1] && MinLe(t.bounds.min, s[b-1].bounds.min);
    }
  }

  lemma InsertMultiset<T>(s: seq<T>, j: nat, t: T)
    requires j <= |s|
    ensures multiset(s[..j] + [t] + s[j..]) == multiset(s) + multiset{t}
  {
    assert s == s[..j] + s[j..];
  }

  /** Stable insertion sort by recorded low bound. */
  method SortByMin(ts: seq<Table>) returns (s: seq<Table>)
    ensures MinSorted(s)
    ensures multiset(s) == multiset(ts)
  {
    s := [];
    for i := 0 to |ts|
      invariant MinSorted(s)
      invariant multiset(s) == multiset(ts[..i])
    {
      var j := |s|;
      while j > 0 && !MinLe(s[j-1].bounds.min, ts[i].bounds.min)
        invariant 0 <= j <= |s|
        invariant j < |s| ==> MinLe(ts[i].bounds.min, s[j].bounds.min)
      {
        MinLeLaws();
        j := j - 1;
      }
      InsertKeepsSorted(s, j, ts[i]);
      InsertMultiset(s, j, ts[i]);
      assert ts[..i+1] == ts[..i] + [ts[i]];
      s := s[..j] + [ts[i]] + s[j..];
    }
    assert ts[..|ts|] == ts;
  }

  /** One step of the sweep: `t` starts at or below the group's running end. */
  lemma JoinLinks(cur: seq<Table>, t: Table, runMax: Option<Bytes>)
    requires Linked(cur)
    requires forall u :: u in cur ==> MinLe(u.bounds.min, t.bounds.min)
    requires exists u :: u in cur && u.bounds.max == runMax
    requires runMax.None? || t.bounds.min.None? || Le(t.bounds.min.value, runMax.value)
    requires forall u :: u in cur + [t] ==> Sane(u.bounds)
    ensures Linked(cur + [t])
  {
    OrderLaws();
    var g := cur + [t];
    var u :| u in cur && u.bounds.max == runMax;
    var k :| 0 <= k < |cur| && cur[k] == u;
    assert Touch(g[k], g[|cur|]);
    forall i | 0 < i < |g| ensures exists j :: 0 <= j < i && Touch(g[j], g[i]) {
      if i < |cur| {
        var j :| 0 <= j < i && Touch(cur[j], cur[i]);
        assert Touch(g[j], g[i]);
      }
    }
  }

  /** State of the sweep after `i` tables of the sorted list. */
  ghost predicate Sweep(sorted: seq<Table>, i: nat, groups: seq<seq<Table>>, cur: seq<Table>, runMax: Option<Bytes>) {
    && i <= |sorted|
    && Flatten(groups) + cur == sorted[..i]
    && Separated(groups)
    && (forall g :: 0 <= g < |groups| ==> Linked(groups[g]))
    && Linked(cur)
    && (forall g, a, b :: 0 <= g < |groups| && a in groups[g] && b in cur ==> Below(a, b))
    && (forall g, a, k :: 0 <= g < |groups| && a in groups[g] && i <= k < |sorted| ==> Below(a, sorted[k]))
    && SweepReach(cur, runMax)
  }

  /** The group under way reaches as far as `runMax`: no bound is recorded, or it is the highest recorded. */
  ghost predicate SweepReach(cur: seq<Table>, runMax: Option<Bytes>) {
    && (exists u :: u in cur && u.bounds.max == runMax)
    && (runMax.Some? ==> forall u :: u in cur ==> u.bounds.max.Some? && Le(u.bounds.max.value, runMax.value))
  }

  predicate Reaches(runMax: Option<Bytes>, t: Table) {
    runMax.None? || t.bounds.min.None? || Le(t.bounds.min.value, runMax.value)
  }

  function Extend(runMax: Option<Bytes>, t: Table): Option<Bytes> {
    if runMax.Some? && (t.bounds.max.None? || Lt(runMax.value, t.bounds.max.value)) then t.bounds.max else runMax
  }

  lemma ReachExtends(cur: seq<Table>, t: Table, runMax: Option<Bytes>)
    requires SweepReach(cur, runMax)
    ensures SweepReach(cur + [t], Extend(runMax, t))
  {
    OrderLaws();
    var u :| u in cur && u.bounds.max == runMax;
    assert u in cur + [t] && t in cur + [t];
  }

  lemma SweepJoins(sorted: seq<Table>, i: nat, groups: seq<seq<Table>>, cur: seq<Table>, runMax: Option<Bytes>)
    requires Sweep(sorted, i, groups, cur, runMax) && i < |sorted|
    requires MinSorted(sorted) && forall k :: 0 <= k < |sorted| ==> Sane(sorted[k].bounds)
    requires Reaches(runMax, sorted[i])
    ensures Sweep(sorted, i + 1, groups, cur + [sorted[i]], Extend(runMax, sorted[i]))
  {
    var t := sorted[i];
    assert sorted[..i+1] == sorted[..i] + [t];
    forall u | u in cur
      ensures MinLe(u.bounds.min, t.bounds.min) && Sane(u.bounds)
    {
      assert u in sorted[..i];
    }
    JoinLinks(cur, t, runMax);
    assert Flatten(groups) + (cur + [t]) == sorted[..i+1];
    assert SweepReach(cur + [t], Extend(runMax, t)) by { ReachExtends(cur, t, runMax); }
  }

  lemma GapBelow(sorted: seq<Table>, i: nat, cur: seq<Table>, runMax: Option<Bytes>)
    requires MinSorted(sorted) && i < |sorted|
    requires !Reaches(runMax, sorted[i])
    requires forall u :: u in cur ==> u.bounds.max.Some? && Le(u.bounds.max.value, runMax.value)
    ensures forall u, k :: u in cur && i <= k < |sorted| ==> Below(u, sorted[k])
  {
    OrderLaws();
    forall u, k | u in cur && i <= k < |sorted|
      ensures Below(u, sorted[k])
    {
      assert k > i ==> MinLe(sorted[i].bounds.min, sorted[k].bounds.min);
    }
  }

  lemma SweepCloses(sorted: seq<Table>, i: nat, groups: seq<seq<Table>>, cur: seq<Table>, runMax: Option<Bytes>)
    requires Sweep(sorted, i, groups, cur, runMax) && i < |sorted|
    requires MinSorted(sorted)
    requires !Reaches(runMax, sorted[i])
    ensures Sweep(sorted, i + 1, groups + [cur], [sorted[i]], sorted[i].bounds.max)
  {
    var t := sorted[i];
    assert sorted[..i+1] == sorted[..i] + [t];
    var gs := groups + [cur];
    assert gs[..|groups|] == groups;
    assert Flatten(gs) == sorted[..i];
    assert t in [t] && (t.bounds.max.Some? ==> Le(t.bounds.max.value, t.bounds.max.value)) by {
      OrderLaws();
    }
    GapBelow(sorted, i, cur, runMax);
    assert Linked([t]);
    assert Separated(gs);
    assert forall g, a, b :: 0 <= g < |gs| && a in gs[g] && b in [t] ==> Below(a, b);
  }

  /** Groups are exactly the connected components of Touch over `tables`. */
  method OverlapSets(tables: seq<Table>) returns (groups: seq<seq<Table>>)
    requires forall t :: t in tables ==> Sane(t.bounds)
    ensures multiset(Flatten(groups)) == multiset(tables)
    ensures Separated(groups)
    ensures forall i :: 0 <= i < |groups| ==> Linked(groups[i])
  {
    if |tables| == 0 {
      return [];
    }
    var sorted := SortByMin(tables);
    assert |sorted| == |tables| by {
      assert |multiset(sorted)| == |multiset(tables)|;
    }
    forall k | 0 <= k < |sorted| ensures Sane(sorted[k].bounds) {
      assert sorted[k] in multiset(sorted);
    }
    groups := [];
    var cur := [sorted[0]];
    var runMax := sorted[0].bounds.max;
    assert sorted[0] in cur && (runMax.Some? ==> Le(runMax.value, runMax.value)) by {
      OrderLaws();
    }
    for i := 1 to |sorted|
      invariant Sweep(sorted, i, groups, cur, runMax)
    {
      var t := sorted[i];
      if Reaches(runMax, t) {
        SweepJoins(sorted, i, groups, cur, runMax);
        cur := cur + [t];
        runMax := Extend(runMax, t);
      } else {
        SweepCloses(sorted, i, groups, cur, runMax);
        groups := groups + [cur];
        cur := [t];
        runMax := t.bounds.max;
      }
    }
    assert (groups + [cur])[..|groups|] == groups;
    assert sorted[..|sorted|] == sorted;
    groups := groups + [cur];
  }
}
