/** The storage core: memtables, tables, the point-read path, flush and compaction. */
module Engine {
  import opened Bytes
  import opened Versions
  import opened Tables
  import opened Collapse
  import opened Merge
  import opened Sink
  import opened MergeWriter
  import opened Compaction
  import opened CompactionTheorem
  import opened Tiers
  import opened LevelIndexes
  import opened Memtables
  import opened Scan
  import opened Extension

  /** versionPick: the newest visible version seen so far. */
  datatype Pick = Pick(sqn: nat, shown: Option<Visible>)

  /** Two results a reader would see as different: deleted against live, or different bytes. */
  predicate Differ(a: Option<Visible>, b: Option<Visible>) {
    a.None? != b.None? || (a.Some? && b.Some? && a.value.value != b.value.value)
  }

  /** versionPick.merge: a higher sequence wins; the same sequence must show the same. */
  function MergePick(best: Option<Pick>, c: Pick): Result<Pick> {
    if best.None? || c.sqn > best.value.sqn then Ok(c)
    else if c.sqn == best.value.sqn && Differ(c.shown, best.value.shown) then Err
    else Ok(best.value)
  }

  /** `best` is the pick over the versions in `points`. */
  ghost predicate BestOf(points: set<Entry>, key: Bytes, s: nat, now: int, best: Option<Pick>) {
    && (best.None? ==> forall f :: f in points && f.key == key ==> f.sqn > s)
    && (best.Some? ==>
        && (exists e :: e in points && e.key == key && e.sqn == best.value.sqn <= s && Outcome(e.payload, now) == best.value.shown)
        && (forall f :: f in points && f.key == key && f.sqn <= s ==> f.sqn <= best.value.sqn)
        && (forall f :: f in points && f.key == key && f.sqn == best.value.sqn ==> !Differ(Outcome(f.payload, now), best.value.shown)))
  }

  /** The two newest versions a reader may see, one of which it reads as deleted and the other not, or as other bytes. */
  ghost predicate Conflicting(points: set<Entry>, key: Bytes, s: nat, now: int, e: Entry, f: Entry) {
    && Newest(points, e, s) && Newest(points, f, s) && e.key == f.key == key
    && match (Outcome(e.payload, now), Outcome(f.payload, now))
       case (None, None) => false
       case (Some(a), Some(b)) => a.value != b.value
       case _ => true
  }

  /** A read that picks a version has met no such pair. */
  lemma PickedAgree(points: set<Entry>, key: Bytes, s: nat, now: int, best: Option<Pick>)
    requires BestOf(points, key, s, now, best)
    ensures forall e, f :: !Conflicting(points, key, s, now, e, f)
  {
    hide Outcome;
    forall e, f | Newest(points, e, s) && Newest(points, f, s) && e.key == f.key == key ensures !Conflicting(points, key, s, now, e, f) {
      assert e.sqn == f.sqn;
      assert !Differ(Outcome(e.payload, now), best.value.shown) && !Differ(Outcome(f.payload, now), best.value.shown);
    }
  }

  /** Two versions of one key at one sequence that read differently. */
  ghost predicate Incoherent(points: set<Entry>, now: int) {
    exists e, f :: e in points && f in points && e.key == f.key && e.sqn == f.sqn
                   && Differ(Outcome(e.payload, now), Outcome(f.payload, now))
  }

  /** One more source folded into the pick. */
  method FoldSource(best: Option<Pick>, points: seq<Entry>, key: Bytes, s: nat, now: int, ghost seen: set<Entry>)
    returns (r: Result<Option<Pick>>)
    requires Ascending(points)
    requires BestOf(seen, key, s, now, best)
    ensures r.Ok? ==> BestOf(seen + PointSet(points), key, s, now, r.value)
    ensures r.Err? ==> Incoherent(seen + PointSet(points), now)
  {
    LookupFindsNewest(points, key, s);
    var found := Lookup(points, key, s);
    if found.None? {
      return Ok(best);
    }
    var e := found.value;
    var c := Pick(e.sqn, Outcome(e.payload, now));
    assert forall f :: f in points && f.key == key && f.sqn == e.sqn ==> f == e by {
      OrderLaws();
    }
    match MergePick(best, c) {
      case Err => return Err;
      case Ok(p) => return Ok(Some(p));
    }
  }

  function OptContent(m: Option<Memtable>): View {
    if m.Some? then m.value.Content() else View({}, {})
  }

  function AllContents(ms: seq<Memtable>): View {
    if ms == [] then View({}, {}) else Join(AllContents(ms[..|ms|-1]), ms[|ms|-1].Content())
  }

  /** The tables a key's candidates leave out hold nothing of the key. */
  lemma UnvisitedHoldsNothing(tables: seq<Table>, visited: seq<Table>, key: Bytes)
    requires TablesOk(tables) && Visits(visited, tables, key)
    ensures forall t :: t in visited ==> t in tables
    ensures forall e :: e in PointsOf(tables) && e.key == key ==> e in PointsOf(visited)
  {
    forall t | t in visited ensures t in tables {
      assert multiset(visited)[t] > 0;
      assert multiset(tables)[t] > 0;
    }
    forall e | e in PointsOf(tables) && e.key == key ensures e in PointsOf(visited) {
      var t :| t in tables && e in t.points;
      if !t.bounds.MayContain(key) {
        BoundsExclude(t, key);
      }
      assert multiset(tables)[t] > 0;
      assert multiset(visited)[t] > 0;
    }
  }

  /** The pick over a set that holds every version of the key is the pick over all. */
  lemma BestOfAll(seen: set<Entry>, all: set<Entry>, key: Bytes, s: nat, now: int, best: Option<Pick>)
    requires BestOf(seen, key, s, now, best) && seen <= all
    requires forall e :: e in all && e.key == key ==> e in seen
    ensures BestOf(all, key, s, now, best)
  {
  }

  function RunPoints(runs: seq<seq<Entry>>): set<Entry> {
    set run, e | run in runs && e in run :: e
  }

  lemma RunsGrow(runs: seq<seq<Entry>>, i: nat)
    requires i < |runs|
    ensures RunPoints(runs[..i+1]) == RunPoints(runs[..i]) + PointSet(runs[i])
    ensures RunPoints(runs[..i+1]) <= RunPoints(runs)
  {
    assert runs[..i+1] == runs[..i] + [runs[i]];
  }

  lemma RunsJoin(a: seq<seq<Entry>>, b: seq<seq<Entry>>)
    ensures RunPoints(a + b) == RunPoints(a) + RunPoints(b)
  {
  }

  lemma NothingYet(key: Bytes, s: nat, now: int)
    ensures BestOf(RunPoints([]), key, s, now, None)
  {
  }

  lemma StillIncoherent(some: set<Entry>, all: set<Entry>, now: int)
    requires Incoherent(some, now) && some <= all
    ensures Incoherent(all, now)
  {
  }

  lemma TablesAreOk(tables: seq<Table>)
    requires TablesOk(tables)
    ensures forall t :: t in tables ==> TableOk(t) && Sane(t.bounds)
  {
  }

  method TableRuns(ts: seq<Table>) returns (runs: seq<seq<Entry>>)
    requires forall t :: t in ts ==> TableOk(t)
    ensures forall i :: 0 <= i < |runs| ==> Ascending(runs[i])
    ensures RunPoints(runs) == PointsOf(ts)
  {
    runs := [];
    for i := 0 to |ts|
      invariant |runs| == i && forall k :: 0 <= k < i ==> runs[k] == ts[k].points
    {
      runs := runs + [ts[i].points];
    }
    forall k | 0 <= k < |runs| ensures Ascending(runs[k]) {
      assert ts[k] in ts;
    }
    forall e | e in PointsOf(ts) ensures e in RunPoints(runs) {
      var t :| t in ts && e in t.points;
      var k :| 0 <= k < |ts| && ts[k] == t;
      assert runs[k] in runs;
    }
  }

  method MemRuns(ms: seq<Memtable>) returns (runs: seq<seq<Entry>>)
    requires forall i :: 0 <= i < |ms| ==> ms[i].Ok()
    ensures forall i :: 0 <= i < |runs| ==> Ascending(runs[i])
    ensures RunPoints(runs) == AllContents(ms).points
  {
    runs := [];
    for i := 0 to |ms|
      invariant forall k :: 0 <= k < |runs| ==> Ascending(runs[k])
      invariant RunPoints(runs) == AllContents(ms[..i]).points
    {
      assert ms[..i+1][..i] == ms[..i];
      RunsJoin(runs, [ms[i].points]);
      runs := runs + [ms[i].points];
    }
    assert ms[..|ms|] == ms;
  }

  lemma SameCover(a: set<RangeDel>, b: set<RangeDel>, key: Bytes, v: nat, s: nat)
    requires forall d :: d in a && d.Contains(key) <==> d in b && d.Contains(key)
    ensures RangeDeleted(a, key, v, s) <==> RangeDeleted(b, key, v, s)
  {
    if d :| d in a && d.Covers(key, v, s) {
      assert d in b;
    }
    if d :| d in b && d.Covers(key, v, s) {
      assert d in a;
    }
  }

  method MemDels(ms: seq<Memtable>) returns (dels: seq<RangeDel>)
    ensures DelSet(dels) == AllContents(ms).dels
  {
    dels := [];
    for i := 0 to |ms|
      invariant DelSet(dels) == AllContents(ms[..i]).dels
    {
      assert ms[..i+1][..i] == ms[..i];
      assert DelSet(dels + ms[i].dels) == DelSet(dels) + DelSet(ms[i].dels);
      dels := dels + ms[i].dels;
    }
    assert ms[..|ms|] == ms;
  }

  /** Every range tombstone over `key`, skipping the tables whose bounds exclude it. */
  method TableDels(ts: seq<Table>, key: Bytes) returns (dels: seq<RangeDel>)
    requires forall i :: 0 <= i < |ts| ==> TableOk(ts[i])
    ensures forall d :: d in dels ==> d in DelsOf(ts)
    ensures forall d :: d in DelsOf(ts) && d.Contains(key) ==> d in dels
  {
    dels := [];
    for i := 0 to |ts|
      invariant forall d :: d in dels ==> d in DelsOf(ts)
      invariant forall k, d :: 0 <= k < i && d in ts[k].dels && d.Contains(key) ==> d in dels
    {
      if ts[i].bounds.MayContain(key) {
        dels := dels + ts[i].dels;
      } else {
        BoundsExclude(ts[i], key);
      }
    }
  }

  /** A pick, checked against the newest covering range tombstone, is the read. */
  lemma PickIsRead(w: View, key: Bytes, s: nat, now: int, best: Option<Pick>)
    requires BestOf(w.points, key, s, now, best)
    ensures best.None? || best.value.shown.None? ==> forall v :: !Live(w, key, s, now, v)
    ensures best.Some? && best.value.shown.Some? ==>
              if RangeDeleted(w.dels, key, best.value.sqn, s)
              then forall v :: !Live(w, key, s, now, v)
              else Live(w, key, s, now, best.value.shown.value)
  {
    forall v | Live(w, key, s, now, v)
      ensures best.Some? && best.value.shown.Some? && !RangeDeleted(w.dels, key, best.value.sqn, s)
    {
      var e :| Deciding(w, key, s, e) && Outcome(e.payload, now) == Some(v);
    }
    if best.Some? && best.value.shown.Some? && !RangeDeleted(w.dels, key, best.value.sqn, s) {
      var e :| e in w.points && e.key == key && e.sqn == best.value.sqn <= s && Outcome(e.payload, now) == best.value.shown;
      assert Deciding(w, key, s, e);
    }
  }

  /** writeTable: all of a memtable's entries and range tombstones as one tier-0 table. */
  method WriteTable(num: nat, m: Memtable, sizes: Sizes) returns (t: Table)
    requires m.Ok() && !m.Empty()
    ensures TableOk(t) && t.num == num && t.depth == 0 && t.points == m.points && t.dels == m.dels
  {
    t := MakeTable(Open(num, m.points), 0, sizes, m.dels);
    HeldIsSane(t);
  }

  lemma SourcesCover(mem: Memtable, imm: Option<Memtable>, recovered: seq<Memtable>, tables: seq<Table>, visited: seq<Table>,
                     first: seq<seq<Entry>>, older: seq<seq<Entry>>, found: seq<seq<Entry>>, key: Bytes)
    requires first == [mem.points] + (if imm.Some? then [imm.value.points] else [])
    requires RunPoints(older) == AllContents(recovered).points && RunPoints(found) == PointsOf(visited)
    requires forall t :: t in visited ==> t in tables
    requires forall e :: e in PointsOf(tables) && e.key == key ==> e in PointsOf(visited)
    ensures var all := Join(ViewOf(tables), Join(Join(mem.Content(), OptContent(imm)), AllContents(recovered))).points;
            && RunPoints(first + older + found) <= all
            && forall e :: e in all && e.key == key ==> e in RunPoints(first + older + found)
  {
    RunsJoin(first, older);
    RunsJoin(first + older, found);
    assert RunPoints(first) == mem.Content().points + OptContent(imm).points;
    assert PointsOf(visited) <= PointsOf(tables);
  }

  /** `after` is `before` with the memtable's contents as one more tier-0 table. */
  predicate FlushedTo(before: seq<Table>, m: Memtable, after: seq<Table>) {
    && |after| == |before| + 1
    && after[..|before|] == before
    && after[|before|].points == m.points
    && after[|before|].dels == m.dels
    && after[|before|].depth == 0
  }

  lemma FlushedView(tables: seq<Table>, m: Memtable, t: Table)
    requires t.points == m.points && t.dels == m.dels
    ensures ViewOf(tables + [t]) == Join(ViewOf(tables), m.Content())
    ensures (tables + [t])[..|tables|] == tables
  {
    ViewAppends(tables, [t]);
    assert PointsOf([t]) == PointSet(t.points) && DelsOf([t]) == DelSet(t.dels);
  }

  lemma NewTableOk(tables: seq<Table>, t: Table, n: nat)
    requires TablesOk(tables) && TableOk(t)
    requires forall i :: 0 <= i < |tables| ==> tables[i].num <= n
    requires t.num == n + 1
    ensures TablesOk(tables + [t])
    ensures forall i :: 0 <= i < |tables + [t]| ==> (tables + [t])[i].num <= n + 1
  {
    hide TableOk;
  }

  lemma SealedMoves(tables: View, mem: View, imm: View, rest: View)
    ensures Join(Join(tables, imm), Join(Join(mem, View({}, {})), rest)) == Join(tables, Join(Join(mem, imm), rest))
  {
  }

  lemma InputsOk(tables: seq<Table>, inputs: seq<Table>)
    requires TablesOk(tables) && Subset(inputs, tables)
    ensures forall t :: t in inputs ==> TableOk(t)
  {
    forall t | t in inputs ensures TableOk(t) {
      MemberOfPart(inputs, tables, t);
    }
  }

  lemma NewerThanPart(extra: View, tables: seq<Table>, inputs: seq<Table>)
    requires Newer(extra, ViewOf(tables)) && Subset(inputs, tables)
    ensures Newer(extra, ViewOf(inputs))
  {
    forall t | t in inputs ensures t in tables {
      MemberOfPart(inputs, tables, t);
    }
    assert PointsOf(inputs) <= PointsOf(tables) && DelsOf(inputs) <= DelsOf(tables);
  }

  lemma CommitPreserves(tables: seq<Table>, inputs: seq<Table>, outs: seq<Table>,
                        rc: Reclaim, retain: nat, rw: Rewrite, extra: View)
    requires TablesOk(tables) && Subset(inputs, tables) && Guarded(tables, inputs, rc)
    requires Collapsed(ViewOf(inputs), ViewOf(outs), rc, retain, rw)
    ensures Compacted(tables, Without(tables, inputs) + outs, retain, rw)
    ensures rw.filter.None? && Newer(extra, ViewOf(tables)) ==>
              SameReads(Join(ViewOf(tables), extra), Join(ViewOf(Without(tables, inputs) + outs), extra), retain, rw.cutoff)
  {
    hide TablesOk, ViewOf, Subset, Guarded, Collapsed, Newer, SameReads, Without, Join;
    if rw.filter.None? && Newer(extra, ViewOf(tables)) {
      NewerThanPart(extra, tables, inputs);
      CompactionPreservesReads(tables, inputs, outs, rc, retain, rw, extra);
    }
  }

  lemma FreshFacts(outs: seq<Table>, depth: nat, lo: nat, hi: nat)
    requires FreshTables(outs, depth, lo, hi)
    ensures forall t :: t in outs ==> t.depth == depth && Size(t) > 0
  {
    hide TableOk;
  }

  lemma NothingChanged(w: View, floor: nat, cutoff: int)
    ensures SameReads(w, w, floor, cutoff)
  {
  }

  /** The tables whose recorded range meets the scan's. */
  method Overlapping(tables: seq<Table>, range: Range) returns (some: seq<Table>)
    requires TablesOk(tables)
    ensures forall t :: t in some ==> t in tables
    ensures forall e :: e in PointsOf(tables) && range.Contains(e.key) ==> e in PointsOf(some)
    ensures forall d, k :: d in DelsOf(tables) && d.Contains(k) && range.Contains(k) ==> d in DelsOf(some)
  {
    some := [];
    for i := 0 to |tables|
      invariant forall t :: t in some ==> t in tables
      invariant forall j :: 0 <= j < i && tables[j].bounds.OverlapsRange(range.start, range.end) ==> tables[j] in some
    {
      if tables[i].bounds.OverlapsRange(range.start, range.end) {
        some := some + [tables[i]];
      }
    }
    forall t, k | t in tables && range.Contains(k) && t.bounds.MayContain(k) ensures t in some {
      OrderLaws();
    }
    forall e | e in PointsOf(tables) && range.Contains(e.key) ensures e in PointsOf(some) {
      var t :| t in tables && e in t.points;
      HeldKeyInBounds(t, e.key);
    }
    forall d, k | d in DelsOf(tables) && d.Contains(k) && range.Contains(k) ensures d in DelsOf(some) {
      var t :| t in tables && d in t.dels;
      HeldKeyInBounds(t, k);
    }
  }

  method AllDels(ts: seq<Table>) returns (dels: seq<RangeDel>)
    ensures DelSet(dels) == DelsOf(ts)
  {
    dels := [];
    for i := 0 to |ts|
      invariant forall d :: d in dels <==> exists k :: 0 <= k < i && d in ts[k].dels
    {
      dels := dels + ts[i].dels;
    }
  }

  /** Two views that agree on a key's versions and covering range tombstones agree on its reads. */
  lemma SameOnKey(a: View, b: View, key: Bytes, s: nat, now: int, v: Visible)
    requires forall e: Entry :: e.key == key ==> (e in a.points <==> e in b.points)
    requires forall d: RangeDel :: d.Contains(key) ==> (d in a.dels <==> d in b.dels)
    ensures Live(a, key, s, now, v) <==> Live(b, key, s, now, v)
  {
    forall e ensures Deciding(a, key, s, e) <==> Deciding(b, key, s, e) {
      if e.key == key {
        SameCover(a.dels, b.dels, key, e.sqn, s);
      }
    }
  }

  lemma SubsetCoherent(some: set<Entry>, all: set<Entry>, now: int)
    requires some <= all && Coherent(all, now)
    ensures Coherent(some, now)
  {
  }

  lemma CaptureCovers(mem: Memtable, imm: Option<Memtable>, recovered: seq<Memtable>, tables: seq<Table>, some: seq<Table>,
                      first: seq<seq<Entry>>, older: seq<seq<Entry>>, found: seq<seq<Entry>>, stream: seq<Entry>,
                      olderDels: seq<RangeDel>, foundDels: seq<RangeDel>, range: Range)
    requires first == [mem.points] + (if imm.Some? then [imm.value.points] else [])
    requires RunPoints(older) == AllContents(recovered).points && RunPoints(found) == PointsOf(some)
    requires DelSet(olderDels) == AllContents(recovered).dels && DelSet(foundDels) == DelsOf(some)
    requires multiset(stream) == Merge.Contents(first + older + found)
    requires forall t :: t in some ==> t in tables
    requires forall e :: e in PointsOf(tables) && range.Contains(e.key) ==> e in PointsOf(some)
    requires forall d, k :: d in DelsOf(tables) && d.Contains(k) && range.Contains(k) ==> d in DelsOf(some)
    ensures var all := Join(ViewOf(tables), Join(Join(mem.Content(), OptContent(imm)), AllContents(recovered)));
            var dels := mem.dels + (if imm.Some? then imm.value.dels else []) + olderDels + foundDels;
            && PointSet(stream) <= all.points
            && (forall e: Entry :: range.Contains(e.key) ==> (e in PointSet(stream) <==> e in all.points))
            && (forall d: RangeDel, k :: range.Contains(k) && d.Contains(k) ==> (d in DelSet(dels) <==> d in all.dels))
  {
    hide RangeDel.Contains, Range.Contains, AllContents, Merge.Contents, RunPoints, DelSet, PointSet;
    assert PointsOf(some) <= PointsOf(tables) && DelsOf(some) <= DelsOf(tables);
    CapturedPoints(mem, imm, first, older, found, stream);
    CapturedDels(mem, imm, olderDels, foundDels);
  }

  lemma CapturedPoints(mem: Memtable, imm: Option<Memtable>, first: seq<seq<Entry>>, older: seq<seq<Entry>>, found: seq<seq<Entry>>,
                       stream: seq<Entry>)
    requires first == [mem.points] + (if imm.Some? then [imm.value.points] else [])
    requires multiset(stream) == Merge.Contents(first + older + found)
    ensures PointSet(stream) == mem.Content().points + OptContent(imm).points + RunPoints(older) + RunPoints(found)
  {
    hide Merge.Contents;
    var runs := first + older + found;
    RunsJoin(first, older);
    RunsJoin(first + older, found);
    forall e ensures e in PointSet(stream) <==> e in RunPoints(runs) {
      ContentsMember(runs, e);
      assert e in stream <==> e in multiset(stream);
    }
    assert RunPoints(first) == mem.Content().points + OptContent(imm).points;
  }

  lemma CapturedDels(mem: Memtable, imm: Option<Memtable>, olderDels: seq<RangeDel>, foundDels: seq<RangeDel>)
    ensures DelSet(mem.dels + (if imm.Some? then imm.value.dels else []) + olderDels + foundDels)
            == mem.Content().dels + OptContent(imm).dels + DelSet(olderDels) + DelSet(foundDels)
  {
  }

  lemma SubsetClash(inputs: seq<Table>, tables: seq<Table>, cutoff: int)
    requires Subset(inputs, tables)
    ensures Clashing(PointsOf(inputs), cutoff) ==> Clashing(PointsOf(tables), cutoff)
  {
    hide Clashing;
    SubsetPoints(inputs, tables);
    ClashingPart(PointsOf(inputs), PointsOf(tables), cutoff);
  }

  lemma SubsetPoints(inputs: seq<Table>, tables: seq<Table>)
    requires Subset(inputs, tables)
    ensures PointsOf(inputs) <= PointsOf(tables)
  {
    forall e | e in PointsOf(inputs) ensures e in PointsOf(tables) {
      var t :| t in inputs && e in t.points;
      assert t in multiset(inputs) && t in multiset(tables);
    }
  }

  lemma NothingCollapsed(retain: nat, rw: Rewrite)
    ensures Collapsed(ViewOf([]), ViewOf([]), Always, retain, rw)
  {
  }

  lemma {:induction false} WithoutAll(part: seq<Table>, inputs: seq<Table>)
    requires forall t :: t in part ==> t in inputs
    ensures Without(part, inputs) == []
    decreases |part|
  {
    if part != [] {
      var n := |part| - 1;
      WithoutAll(part[..n], inputs);
      assert part[n] in part && part[n] in inputs;
      var i :| 0 <= i < |inputs| && inputs[i] == part[n];
    }
  }

  lemma DeepestHeld(tables: seq<Table>)
    requires tables != []
    ensures (forall u :: u in tables ==> u.depth <= MaxDepth(tables)) && exists u :: u in tables && u.depth == MaxDepth(tables)
  {
    hide MaxDepth;
    assert tables[0] in tables;
    if MaxDepth(tables) != 0 {
      var i :| 0 <= i < |tables| && tables[i].depth == MaxDepth(tables);
      assert tables[i] in tables;
    }
  }

  class EngineT {
    const alloc: Allocator
    var mem: Memtable
    var imm: Option<Memtable>
    var recovered: seq<Memtable>
    var tables: seq<Table>
    var index: LevelIndex

    ghost predicate Valid()
      reads this, alloc
    {
      && (forall i :: 0 <= i < |tables| ==> tables[i].num <= alloc.n)
      && mem.Ok()
      && (imm.Some? ==> imm.value.Ok() && !imm.value.Empty())
      && (forall i :: 0 <= i < |recovered| ==> recovered[i].Ok())
      && TablesOk(tables)
      && IndexFor(index, tables)
    }

    /** What the memtables hold. */
    ghost function Buffered(): View
      reads this
    {
      Join(Join(mem.Content(), OptContent(imm)), AllContents(recovered))
    }

    ghost function All(): View
      reads this
    {
      Join(ViewOf(tables), Buffered())
    }

    constructor (alloc: Allocator)
      ensures Valid() && All() == View({}, {}) && this.alloc == alloc && recovered == []
    {
      var idx := BuildLevelIndex([]);
      this.alloc := alloc;
      mem, imm, recovered, tables, index := Memtable([], []), None, [], [], idx;
      new;
      assert PointsOf([]) == {} && DelsOf([]) == {};
      assert AllContents([]) == View({}, {});
    }

    /** The point runs a lookup consults, in order: memtables first, then candidate tables. */
    method PointSources(key: Bytes) returns (runs: seq<seq<Entry>>)
      requires Valid()
      ensures forall i :: 0 <= i < |runs| ==> Ascending(runs[i])
      ensures RunPoints(runs) <= All().points
      ensures forall e :: e in All().points && e.key == key ==> e in RunPoints(runs)
    {
      hide TableOk, TablesOk, Ascending, Visits, IndexFor, RunPoints, ViewOf, AllContents, OptContent, Memtable.Content, Join;
      TablesAreOk(tables);
      var visited := Candidates(index, key, tables);
      UnvisitedHoldsNothing(tables, visited, key);
      runs := [mem.points] + (if imm.Some? then [imm.value.points] else []);
      var older := MemRuns(recovered);
      var found := TableRuns(visited);
      SourcesCover(mem, imm, recovered, tables, visited, runs, older, found, key);
      runs := runs + older + found;
    }

    /** pickVersion: the newest visible version over the memtables and the candidate tables. */
    method PickVersion(s: nat, key: Bytes, now: int) returns (r: Result<Option<Pick>>)
      requires Valid()
      ensures r.Ok? ==> BestOf(All().points, key, s, now, r.value)
      ensures r.Err? ==> Incoherent(All().points, now)
    {
      var runs := PointSources(key);
      hide BestOf, Incoherent, Ascending, Valid, All;
      var best: Option<Pick> := None;
      NothingYet(key, s, now);
      for i := 0 to |runs|
        invariant BestOf(RunPoints(runs[..i]), key, s, now, best)
      {
        RunsGrow(runs, i);
        var next := FoldSource(best, runs[i], key, s, now, RunPoints(runs[..i]));
        if next.Err? {
          StillIncoherent(RunPoints(runs[..i+1]), All().points, now);
          return Err;
        }
        best := next.value;
      }
      assert runs[..|runs|] == runs;
      BestOfAll(RunPoints(runs), All().points, key, s, now, best);
      return Ok(best);
    }

    /** maxCoveringRangeDelSeq over the memtables and every table that may hold the key. */
    method MaxCoveringRangeDel(key: Bytes, s: nat) returns (best: nat)
      requires Valid()
      ensures forall v: nat :: best > v <==> RangeDeleted(All().dels, key, v, s)
    {
      var dels := mem.dels + (if imm.Some? then imm.value.dels else []);
      assert DelSet(dels) == mem.Content().dels + OptContent(imm).dels;
      var older := MemDels(recovered);
      var held := TableDels(tables, key);
      best := MaxCovering(dels + older + held, key, s);
      forall d ensures d in DelSet(dels + older + held) && d.Contains(key) <==> d in All().dels && d.Contains(key) {
        assert d in DelSet(dels + older + held) <==> d in DelSet(dels) || d in DelSet(older) || d in DelSet(held);
      }
      forall v: nat ensures RangeDeleted(DelSet(dels + older + held), key, v, s) <==> RangeDeleted(All().dels, key, v, s) {
        SameCover(DelSet(dels + older + held), All().dels, key, v, s);
      }
    }

    /** getWithExpiry: the live value at a sequence and an instant, or its absence. */
    method GetWithExpiry(s: nat, key: Bytes, now: int) returns (r: Result<Option<Visible>>)
      requires Valid()
      ensures r.Ok? ==> forall v :: r.value == Some(v) ==> Live(All(), key, s, now, v)
      ensures r.Ok? && r.value.None? ==> forall v :: !Live(All(), key, s, now, v)
      ensures r.Err? ==> Incoherent(All().points, now)
      ensures (exists e, f :: Conflicting(All().points, key, s, now, e, f)) ==> r.Err?
    {
      var best := PickVersion(s, key, now);
      if best.Ok? {
        PickedAgree(All().points, key, s, now, best.value);
      }
      if best.Err? {
        return Err;
      }
      var cover := 0;
      if best.value.Some? && best.value.value.shown.Some? {
        cover := MaxCoveringRangeDel(key, s);
      }
      PickIsRead(All(), key, s, now, best.value);
      if best.value.None? || best.value.value.shown.None? || cover > best.value.value.sqn {
        return Ok(None);
      }
      return Ok(best.value.value.shown);
    }

    /** Put, putTTL, del: buffers one version. Sequence numbers are unique. */
    method Add(e: Entry)
      requires Valid()
      requires forall f :: f in mem.points ==> f.key != e.key || f.sqn != e.sqn
      modifies this`mem
      ensures Valid()
      ensures mem == old(mem).(points := Insert(old(mem).points, e))
      ensures All() == Join(old(All()), View({e}, {}))
      ensures e.sqn > 0 && UpTo(old(All()), e.sqn - 1) ==> PutOver(old(All()), All(), e)
    {
      hide TableOk, TablesOk, IndexFor, Insert, ViewOf, AllContents, Ascending, UpTo, PutOver;
      InsertKeepsAscending(mem.points, e);
      InsertMembers(mem.points, e);
      mem := mem.(points := Insert(mem.points, e));
      assert mem.Content().points == old(mem).Content().points + {e};
      PutIsOver(old(All()), e);
    }

    /** delRange: buffers one range tombstone. */
    method AddRangeDel(d: RangeDel)
      requires Valid() && d.WellFormed()
      modifies this`mem
      ensures Valid()
      ensures mem == old(mem).(dels := old(mem).dels + [d])
      ensures All() == Join(old(All()), View({}, {d}))
      ensures d.sqn > 0 && UpTo(old(All()), d.sqn - 1) ==> RangeDeleteOver(old(All()), All(), d)
    {
      hide TableOk, TablesOk, IndexFor, ViewOf, AllContents, Ascending, UpTo, RangeDeleteOver;
      mem := mem.(dels := mem.dels + [d]);
      assert mem.Content().dels == old(mem).Content().dels + {d};
      RangeDeleteIsOver(old(All()), d);
    }

    /** rotate: seals the active memtable unless one is already sealed or there is nothing to seal. */
    method Rotate() returns (pending: bool)
      requires Valid()
      modifies this`mem, this`imm
      ensures Valid() && All() == old(All())
      ensures pending <==> imm.Some?
      ensures old(imm).Some? || old(mem).Empty() ==> imm == old(imm) && mem == old(mem)
      ensures old(imm).None? && !old(mem).Empty() ==> imm == Some(old(mem)) && mem == Memtable([], [])
    {
      if imm.Some? || mem.Empty() {
        return imm.Some?;
      }
      imm := Some(mem);
      mem := Memtable([], []);
      return true;
    }

    /** Installs a new table set together with its index. */
    method SetTables(ts: seq<Table>)
      requires TablesOk(ts)
      modifies this`tables, this`index
      ensures tables == ts && IndexFor(index, tables)
    {
      var idx := BuildLevelIndex(ts);
      tables, index := ts, idx;
    }

    /** Writes the sealed memtable to a fresh tier-0 table and installs it. */
    method FlushSealed(sizes: Sizes) returns (ok: bool)
      requires Valid() && imm.Some?
      modifies this`imm, this`tables, this`index, alloc
      ensures Valid() && All() == old(All())
      ensures ok ==> imm.None? && FlushedTo(old(tables), old(imm).value, tables)
      ensures !ok ==> alloc.n >= MAX_FILE_NUM && tables == old(tables) && imm == old(imm)
    {
      hide TableOk, TablesOk, ViewOf, AllContents, Memtable.Content, Memtable.Ok, Memtable.Empty, Join, IndexFor;
      var num := alloc.Next();
      if num == 0 {
        return false;
      }
      var t := WriteTable(num, imm.value, sizes);
      FlushedView(tables, imm.value, t);
      NewTableOk(tables, t, old(alloc.n));
      SealedMoves(ViewOf(tables), mem.Content(), imm.value.Content(), AllContents(recovered));
      SetTables(tables + [t]);
      imm := None;
      return true;
    }

    /** Flush: moves the buffered writes into a fresh tier-0 table; reads see no difference. */
    method Flush(sizes: Sizes) returns (ok: bool)
      requires Valid()
      modifies this, alloc
      ensures Valid() && All() == old(All()) && recovered == old(recovered)
      ensures ok ==> imm.None?
      ensures ok && old(imm).Some? ==> FlushedTo(old(tables), old(imm).value, tables) && mem == old(mem)
      ensures ok && old(imm).None? && !old(mem).Empty() ==> FlushedTo(old(tables), old(mem), tables) && mem.Empty()
      ensures ok && old(imm).None? && old(mem).Empty() ==> tables == old(tables)
      ensures !ok ==> alloc.n >= MAX_FILE_NUM && tables == old(tables)
    {
      hide TableOk, Ascending, IndexFor, Memtable.Ok, ViewOf, AllContents, FlushedTo;
      var pending := Rotate();
      if !pending {
        return true;
      }
      ok := FlushSealed(sizes);
    }

    /** What makes a merge fail: no file number is left, or two held versions clash. */
    ghost predicate CannotMerge(cutoff: int)
      reads this`tables, alloc
    {
      alloc.n >= MAX_FILE_NUM || Clashing(PointsOf(tables), cutoff)
    }

    /** Merges `inputs` and installs the result in their place. */
    method MergeAndCommit(inputs: seq<Table>, outDepth: nat, rc: Reclaim, retain: nat, cc: Config)
      returns (ok: bool, ghost made: seq<Table>)
      requires Valid() && Subset(inputs, tables) && Guarded(tables, inputs, rc)
      modifies this`tables, this`index, alloc
      ensures Valid()
      ensures !ok ==> tables == old(tables) && CannotMerge(cc.rewrite.cutoff)
      ensures ok ==> Compacted(old(tables), tables, retain, cc.rewrite)
      ensures ok ==> tables == Without(old(tables), inputs) + made && Records(made) <= Records(inputs)
      ensures ok ==> Collapsed(ViewOf(inputs), ViewOf(made), rc, retain, cc.rewrite)
      ensures ok ==> forall t :: t in made ==> t.depth == outDepth && Size(t) > 0
      ensures ok && cc.rewrite.filter.None? && old(Newer(Buffered(), ViewOf(tables))) ==>
                SameReads(old(All()), All(), retain, cc.rewrite.cutoff)
    {
      hide TableOk, TablesOk, ViewOf, Subset, Guarded, Collapsed, Memtable.Ok, Memtable.Empty, IndexFor,
           Newer, SameReads, Without, FreshTables, Compacted, Join, AllContents, OptContent, Memtable.Content, Clashing;
      InputsOk(tables, inputs);
      var outs := MergeTables(alloc, inputs, outDepth, rc, retain, cc);
      if outs.Err? {
        SubsetClash(inputs, tables, cc.rewrite.cutoff);
        return false, [];
      }
      FreshFacts(outs.value, outDepth, old(alloc.n), alloc.n);
      AboveIsApart(tables, outs.value, outDepth, old(alloc.n), alloc.n);
      CommittedOk(tables, inputs, outs.value, outDepth, old(alloc.n), alloc.n);
      CommitPreserves(tables, inputs, outs.value, rc, retain, cc.rewrite, Buffered());
      SetTables(Without(tables, inputs) + outs.value);
      return true, outs.value;
    }

    /** Compact: one compaction of the given tier. */
    method Compact(depth: nat, retain: nat, cc: Config) returns (r: Result<bool>, ghost plan: Plan, ghost made: seq<Table>)
      requires Valid()
      modifies this`tables, this`index, alloc
      ensures Valid()
      // It does what the selection rules allow for the tier, and nothing else.
      ensures Selects(old(tables), depth, cc, plan) && (plan.Idle? ==> r == Ok(false)) && (plan.Merge? ==> r != Ok(false))
      ensures r.Ok? && r.value ==> tables == Without(old(tables), plan.inputs) + made && (forall t :: t in made ==> t.depth == plan.outDepth)
                                   && Collapsed(ViewOf(plan.inputs), ViewOf(made), plan.rc, retain, cc.rewrite)
      ensures r.Err? || (r.Ok? && !r.value) ==> tables == old(tables)
      ensures r.Err? ==> CannotMerge(cc.rewrite.cutoff)
      ensures r.Ok? && r.value ==> Compacted(old(tables), tables, retain, cc.rewrite)
      ensures r.Ok? && r.value && ResolveOutDepth(depth, cc) == depth + 1 ==> Hopped(old(tables), tables, depth)
      ensures r.Ok? && r.value && ResolveOutDepth(depth, cc) == depth == MaxDepth(old(tables)) ==>
                Settled(old(tables), tables, depth, retain, cc.rewrite)
      ensures r.Ok? && !r.value && !cc.rewriteSingle ==> |TierOf(tables, depth)| < 2
      ensures r.Ok? && cc.rewrite.filter.None? && old(Newer(Buffered(), ViewOf(tables))) ==>
                SameReads(old(All()), All(), retain, cc.rewrite.cutoff)
    {
      hide Compacted, Newer, SameReads, IndexFor, Memtable.Ok, TablesOk, Guarded, Hopped, Settled, Without, Collapsed, ViewOf, Records,
           Size, MaxDepth, TierOf, Subset, CannotMerge, Selects;
      var chosen := SelectInputs(tables, depth, cc);
      plan, made := chosen, [];
      if chosen.Idle? {
        NothingChanged(All(), retain, cc.rewrite.cutoff);
        r := Ok(false);
        return;
      }
      var ok;
      ok, made := MergeAndCommit(chosen.inputs, chosen.outDepth, chosen.rc, retain, cc);
      if !ok {
        r := Err;
        return;
      }
      if plan.outDepth == depth + 1 {
        HopFrom(old(tables), tables, depth, plan.inputs, made);
      } else if plan.outDepth == depth == MaxDepth(old(tables)) {
        SettleFrom(old(tables), tables, depth, retain, cc.rewrite, plan.inputs, made);
      }
      r := Ok(true);
    }

    /** The scheduler's compaction loop with nothing to flush: pick a tier, compact it, again until
        none is due or the tier declines. It always stops: each turn either sinks records towards
        the deepest tier or clears that tier's tombstones. */
    method DrainTiers(retain: nat, cc: Config, tr: Triggers) returns (failed: bool)
      requires Valid() && !cc.collapseInPlace && !cc.rewriteSingle
      requires Drainable(tables, ResolveMaxDepth(cc.maxLevels), retain)
      modifies this`tables, this`index, alloc
      ensures Valid() && Drainable(tables, ResolveMaxDepth(cc.maxLevels), retain)
      ensures if failed then CannotMerge(cc.rewrite.cutoff) else Drained(tables, ResolveMaxDepth(cc.maxLevels), tr)
    {
      hide Valid, CannotMerge, Hopped, Settled, Compacted, Newer, SameReads, Drainable, Drained, Height, TombstonesAt, Sum, Ready, TablesOk, TierOf;
      var cap := ResolveMaxDepth(cc.maxLevels);
      while true
        invariant Valid() && Drainable(tables, cap, retain)
        decreases Sum(tables, Height(cap)), Sum(tables, TombstonesAt(cap))
      {
        ghost var before := tables;
        assert TablesOk(tables) by { TablesValid(); }
        var pick := PickCompaction(tables, cap, tr);
        if pick.None? {
          NoneDue(tables, cap, tr);
          return false;
        }
        PickShrinks(tables, cap, tr, retain, pick.value);
        var r, _, _ := Compact(pick.value, retain, cc);
        if r.Err? {
          return true;
        }
        if !r.value {
          TierDeclines(tables, cap, tr, pick.value);
          return false;
        }
        DrainTurn(before, tables, cap, retain, cc.rewrite, pick.value);
      }
    }

    lemma TablesValid()
      requires Valid()
      ensures TablesOk(tables)
    {
    }

    /** CompactAll: every table, whatever its tier, into the deepest populated one. */
    method CompactAll(retain: nat, cc: Config) returns (ok: bool)
      requires Valid()
      modifies this`tables, this`index, alloc
      ensures Valid()
      ensures !ok ==> tables == old(tables) && CannotMerge(cc.rewrite.cutoff)
      ensures ok ==> Collapsed(ViewOf(old(tables)), ViewOf(tables), Always, retain, cc.rewrite)
      ensures ok ==> forall t, u :: t in tables && u in old(tables) ==> u.depth <= t.depth
      ensures ok ==> forall t :: t in tables ==> exists u :: u in old(tables) && u.depth == t.depth
      ensures ok && cc.rewrite.filter.None? && old(Newer(Buffered(), ViewOf(tables))) ==>
                SameReads(old(All()), All(), retain, cc.rewrite.cutoff)
    {
      hide Newer, SameReads, IndexFor, Memtable.Ok, TablesOk, Clashing, Collapsed, Without, MaxDepth, ViewOf;
      if tables == [] {
        NothingChanged(All(), retain, cc.rewrite.cutoff);
        NothingCollapsed(retain, cc.rewrite);
        return true;
      }
      ghost var before := tables;
      ghost var made;
      ok, made := MergeAndCommit(tables, MaxDepth(tables), Always, retain, cc);
      if ok {
        WithoutAll(before, before);
        assert [] + made == made;
        DeepestHeld(before);
      }
    }

    /** newRangeIteratorAt: captures every source whose range meets [start, end). */
    method NewRangeIterator(s: nat, range: Range, now: int) returns (it: EngineIterator)
      requires Valid() && Coherent(All().points, now)
      ensures fresh(it) && it.Valid() && it.last == None && it.range == range && it.s == s && it.now == now
      ensures forall k, v :: range.Contains(k) ==> (Live(it.Captured(), k, s, now, v) <==> Live(All(), k, s, now, v))
    {
      hide TableOk, TablesOk, Ascending, IndexFor, Coherent, Live, RunPoints, ViewOf, AllContents, OptContent, Memtable.Content, Join, Sorted, PointSet, DelSet;
      var overlapping := Overlapping(tables, range);
      TablesAreOk(tables);
      var first := [mem.points] + (if imm.Some? then [imm.value.points] else []);
      var older := MemRuns(recovered);
      var found := TableRuns(overlapping);
      var stream := MergeAll(first + older + found);
      var olderDels := MemDels(recovered);
      var foundDels := AllDels(overlapping);
      var dels := mem.dels + (if imm.Some? then imm.value.dels else []) + olderDels + foundDels;
      CaptureCovers(mem, imm, recovered, tables, overlapping, first, older, found, stream, olderDels, foundDels, range);
      SubsetCoherent(PointSet(stream), All().points, now);
      it := new EngineIterator(stream, dels, range, s, now);
      forall k, v | range.Contains(k) ensures Live(it.Captured(), k, s, now, v) <==> Live(All(), k, s, now, v) {
        SameOnKey(it.Captured(), All(), k, s, now, v);
      }
    }
  }
}
