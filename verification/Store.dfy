/**
The live store as a state machine: writes, seals, flushes, ingests, pins and
compactions in any order, against the log of changes.
*/
module Store {
  import opened Bytes
  import opened Versions
  import opened Tables
  import opened Collapse
  import opened Compaction
  import opened CompactionTheorem
  import opened Memtables
  import opened Log
  import opened Extension
  import opened Scan

  /** A compaction between reading the table set and installing its result. */
  datatype Flight = Flight(seen: seq<Table>, inputs: seq<Table>, depth: nat, rc: Reclaim, retain: nat, cutoff: int)

  datatype State = State(
    mem: Memtable,
    imm: Option<Memtable>,
    tables: seq<Table>,
    fileNum: nat,
    applied: nat,
    readSeq: nat,
    pins: multiset<nat>,
    clock: int,
    // Instants scans have read off the clock, and those they have pinned.
    readings: multiset<int>,
    scanTimes: multiset<int>,
    flight: Option<Flight>,
    // History: the log, and the largest retain and cutoff any compaction was given.
    log: seq<Change>,
    floor: nat,
    cutoff: int)

  function ImmContent(imm: Option<Memtable>): View {
    if imm.Some? then imm.value.Content() else View({}, {})
  }

  function Buffered(s: State): View {
    Join(s.mem.Content(), ImmContent(s.imm))
  }

  function All(s: State): View {
    Join(ViewOf(s.tables), Buffered(s))
  }

  ghost predicate Init(s: State) {
    && s.mem == Memtable([], []) && s.imm == None && s.tables == [] && s.flight == None
    && s.log == [] && s.pins == multiset{} && s.readings == multiset{} && s.scanTimes == multiset{}
    && s.floor == 0 && s.cutoff == s.clock && s.readSeq == s.applied
  }

  /** applyCommitted, one entry: the next sequence goes into the active memtable. */
  predicate WritePoint(s: State, s': State, e: Entry) {
    && e.sqn == s.applied + 1
    && s' == s.(mem := s.mem.(points := Insert(s.mem.points, e)), applied := e.sqn, log := s.log + [PointChange(e)])
  }

  predicate WriteRange(s: State, s': State, d: RangeDel) {
    && d.sqn == s.applied + 1 && d.WellFormed()
    && s' == s.(mem := s.mem.(dels := s.mem.dels + [d]), applied := d.sqn, log := s.log + [RangeChange(d)])
  }

  /** publishSeq: readSeq moves forward over applied sequences only. */
  predicate Publish(s: State, s': State, n: nat) {
    s.readSeq <= n <= s.applied && s' == s.(readSeq := n)
  }

  /** rotate: flush and compaction exclude each other, so no compaction is in flight. */
  predicate Seal(s: State, s': State) {
    s.flight.None? && s.imm.None? && !s.mem.Empty() && s' == s.(imm := Some(s.mem), mem := Memtable([], []))
  }

  predicate FlushInstall(s: State, s': State, t: Table) {
    && s.flight.None? && s.imm.Some?
    && TableOk(t) && NumbersApart(s.tables, [t]) && t.points == s.imm.value.points && t.dels == s.imm.value.dels
    && s' == s.(imm := None, tables := s.tables + [t], fileNum := Max(s.fileNum, t.num))
  }

  /** IngestExternalFile: no writer is active, the file's key range meets no buffered point,
      and every entry takes the one fresh sequence. */
  predicate Ingest(s: State, s': State, t: Table) {
    && s.readSeq == s.applied
    && TableOk(t) && NumbersApart(s.tables, [t]) && t.dels == [] && t.points != []
    && (forall i :: 0 <= i < |t.points| ==> t.points[i].sqn == s.applied + 1)
    && (forall i :: 0 <= i < |s.mem.points| ==> !t.bounds.MayContain(s.mem.points[i].key))
    && (s.imm.Some? ==> forall i :: 0 <= i < |s.imm.value.points| ==> !t.bounds.MayContain(s.imm.value.points[i].key))
    && s' == s.(tables := s.tables + [t], fileNum := Max(s.fileNum, t.num), applied := s.applied + 1, readSeq := s.applied + 1,
                log := s.log + [IngestChange(s.applied + 1, t.points)])
  }

  /** acquireCurrent pins the published sequence; acquire re-pins one already held. */
  predicate Pin(s: State, s': State, n: nat) {
    (n == s.readSeq || n in s.pins) && s' == s.(pins := s.pins + multiset{n})
  }

  predicate Unpin(s: State, s': State, n: nat) {
    n in s.pins && s' == s.(pins := s.pins - multiset{n})
  }

  predicate Tick(s: State, s': State, now: int) {
    now >= s.clock && s' == s.(clock := now)
  }

  /** A scan reads the clock first, and pins what it read in a later step. */
  predicate ReadClock(s: State, s': State) {
    s' == s.(readings := s.readings + multiset{s.clock})
  }

  predicate PinScan(s: State, s': State, t: int) {
    t in s.readings && s' == s.(readings := s.readings - multiset{t}, scanTimes := s.scanTimes + multiset{t})
  }

  predicate EndScan(s: State, s': State, t: int) {
    t in s.scanTimes && s' == s.(scanTimes := s.scanTimes - multiset{t})
  }

  /** compactionConfig: a cutoff no pinned scan lies before. */
  predicate LoadCutoff(s: State, s': State, c: int) {
    && c <= s.clock && (forall t :: t in s.scanTimes ==> c <= t)
    && s' == s.(cutoff := MaxInt(s.cutoff, c))
  }

  /** compactionRunConfig: a retain no pin lies below. */
  predicate LoadRetain(s: State, s': State, n: nat) {
    && n <= s.readSeq && (forall m :: m in s.pins ==> n <= m)
    && s' == s.(floor := Max(s.floor, n))
  }

  /** A compaction given such bounds starts by reading the table set. */
  ghost predicate StartCompaction(s: State, s': State, f: Flight) {
    && s.flight.None? && f.seen == s.tables
    && Subset(f.inputs, f.seen) && Guarded(f.seen, f.inputs, f.rc)
    && f.retain <= s.floor && f.cutoff <= s.cutoff
    && s' == s.(flight := Some(f))
  }

  /** commitCompaction: the inputs' numbers leave the table set, the outputs join it. */
  ghost predicate CommitCompaction(s: State, s': State, outs: seq<Table>, last: nat) {
    && s.flight.Some?
    && s.fileNum <= last && FreshTables(outs, s.flight.value.depth, 0, last) && NumbersApart(s.tables, outs)
    && Collapsed(ViewOf(s.flight.value.inputs), ViewOf(outs), s.flight.value.rc, s.flight.value.retain, Unfiltered(s.flight.value.cutoff))
    && s' == s.(flight := None, tables := Without(s.tables, s.flight.value.inputs) + outs, fileNum := last)
  }

  predicate AbandonCompaction(s: State, s': State) {
    s.flight.Some? && s' == s.(flight := None)
  }

  ghost predicate Step(s: State, s': State) {
    || (exists e :: WritePoint(s, s', e))
    || (exists d :: WriteRange(s, s', d))
    || (exists n :: Publish(s, s', n))
    || Seal(s, s')
    || (exists t :: FlushInstall(s, s', t))
    || (exists t :: Ingest(s, s', t))
    || (exists n :: Pin(s, s', n))
    || (exists n :: Unpin(s, s', n))
    || (exists t :: Tick(s, s', t))
    || ReadClock(s, s')
    || (exists t :: PinScan(s, s', t))
    || (exists t :: EndScan(s, s', t))
    || (exists c :: LoadCutoff(s, s', c))
    || (exists n :: LoadRetain(s, s', n))
    || (exists f :: StartCompaction(s, s', f))
    || (exists outs, last :: CommitCompaction(s, s', outs, last))
    || AbandonCompaction(s, s')
  }

  ghost predicate Run(states: seq<State>) {
    && states != [] && Init(states[0])
    && forall i :: 0 <= i < |states| - 1 ==> Step(states[i], states[i+1])
  }

  function Sqns(w: View): set<nat> {
    (set e | e in w.points :: e.sqn) + (set d | d in w.dels :: d.sqn)
  }

  /** Every sequence number in `b` exceeds every one in `a`. */
  ghost predicate AllAfter(a: View, b: View) {
    forall m, n :: m in Sqns(a) && n in Sqns(b) ==> m < n
  }

  /** A compaction in flight: only ingests have added tables since it read them. */
  ghost predicate FlightOk(s: State, f: Flight) {
    && f.seen <= s.tables
    && Subset(f.inputs, f.seen) && Guarded(f.seen, f.inputs, f.rc)
    && f.retain <= s.floor && f.cutoff <= s.cutoff
    && Newer(ViewOf(s.tables[|f.seen|..]), ViewOf(f.seen))
  }

  /** The memtables and tables are well formed and their numbers allocated. */
  ghost predicate Shaped(s: State) {
    && s.mem.Ok() && (s.imm.Some? ==> s.imm.value.Ok())
    && TablesOk(s.tables) && (forall i :: 0 <= i < |s.tables| ==> s.tables[i].num <= s.fileNum)
  }

  /** Sequences ascend, and what is buffered is newer than what the tables hold over its keys. */
  ghost predicate Sequenced(s: State) {
    && LogOk(s.log) && (forall i :: 0 <= i < |s.log| ==> SqnOf(s.log[i]) <= s.applied)
    && UpTo(LogView(s.log), s.applied) && UpTo(All(s), s.applied)
    && Newer(Buffered(s), ViewOf(s.tables))
    && AllAfter(ImmContent(s.imm), s.mem.Content())
  }

  /** No sequence read, now or later, is below the floor, and no clock reading from now on is before the cutoff. */
  ghost predicate Pinned(s: State) {
    && s.readSeq <= s.applied && s.floor <= s.readSeq && (forall n :: n in s.pins ==> s.floor <= n)
    && s.cutoff <= s.clock
  }

  ghost predicate Refines(s: State) {
    && Justified(All(s), s.log, s.cutoff)
    && SameReads(All(s), LogView(s.log), s.floor, s.cutoff)
  }

  ghost predicate Inv(s: State) {
    && Shaped(s) && Sequenced(s) && Pinned(s) && Refines(s)
    && (s.flight.Some? ==> FlightOk(s, s.flight.value))
  }

  /** The view delta of a change. */
  function Delta(c: Change): View {
    View(PointsIn(c), DelsIn(c))
  }

  lemma LogGrows(log: seq<Change>, c: Change, n: nat)
    requires LogOk(log) && (forall i :: 0 <= i < |log| ==> SqnOf(log[i]) <= n)
    requires ChangeOk(c) && SqnOf(c) == n + 1
    ensures LogOk(log + [c]) && LogView(log + [c]) == Join(LogView(log), Delta(c))
    ensures forall i :: 0 <= i < |log + [c]| ==> SqnOf((log + [c])[i]) <= n + 1
    ensures OneSqn(Delta(c), n + 1)
  {
    hide LogView, ChangeOk, SqnOf, PointsIn, DelsIn;
    assert (log + [c])[..|log|] == log;
    LogViewOf(log + [c]);
    DeltaSqn(c);
  }

  lemma LogViewOf(log: seq<Change>)
    requires log != []
    ensures LogView(log) == Join(LogView(log[..|log|-1]), Delta(log[|log|-1]))
  {
  }

  lemma DeltaSqn(c: Change)
    requires ChangeOk(c)
    ensures OneSqn(Delta(c), SqnOf(c))
  {
  }

  /** Logging one more change and holding it keeps the refinement. */
  lemma RefinesMore(s: State, s': State, c: Change)
    requires Sequenced(s) && Refines(s)
    requires ChangeOk(c) && SqnOf(c) == s.applied + 1
    requires s'.log == s.log + [c] && All(s') == Join(All(s), Delta(c)) && s'.floor == s.floor && s'.cutoff == s.cutoff
    ensures Refines(s')
    ensures UpTo(LogView(s'.log), s.applied + 1) && UpTo(All(s'), s.applied + 1)
  {
    hide ChangeOk, LogOk, Newer, AllAfter, LogView, PointsIn, DelsIn, SameReads, ViewOf, Buffered;
    LogGrows(s.log, c, s.applied);
    ExtendSame(All(s), LogView(s.log), Delta(c), s.applied, s.applied + 1, s.floor, s.cutoff);
    JustifiedMore(All(s), s.log, c, s.cutoff, All(s'));
  }

  lemma JustifiedMore(w: View, log: seq<Change>, c: Change, cutoff: int, w': View)
    requires Justified(w, log, cutoff) && w' == Join(w, Delta(c))
    requires LogView(log + [c]) == Join(LogView(log), Delta(c))
    ensures Justified(w', log + [c], cutoff)
  {
    forall e | e in w'.points ensures exists f :: f in LogView(log + [c]).points && Stands(e, f, cutoff) {
      if e in w.points {
        var f :| f in LogView(log).points && Stands(e, f, cutoff);
        assert f in LogView(log + [c]).points;
      } else {
        assert Stands(e, e, cutoff);
      }
    }
  }

  lemma WritePointKeeps(s: State, s': State, e: Entry)
    requires Inv(s) && WritePoint(s, s', e)
    ensures Inv(s')
  {
    hide TablesOk, LogOk, LogView, SameReads, Justified, Insert, Ascending, ViewOf, RangeDel.WellFormed;
    assert All(s).points == ViewOf(s.tables).points + PointSet(s.mem.points) + ImmContent(s.imm).points;
    forall f | f in s.mem.points ensures f.sqn <= s.applied {
      assert f in All(s).points;
    }
    InsertKeepsAscending(s.mem.points, e);
    InsertMembers(s.mem.points, e);
    var c := PointChange(e);
    assert s'.mem.Content() == Join(s.mem.Content(), Delta(c)) by {
      assert PointSet(s'.mem.points) == PointSet(s.mem.points) + {e};
    }
    BufferGrows(s, s', c);
  }

  lemma WriteRangeKeeps(s: State, s': State, d: RangeDel)
    requires Inv(s) && WriteRange(s, s', d)
    ensures Inv(s')
  {
    hide TablesOk, LogOk, LogView, SameReads, Justified, Ascending, ViewOf, RangeDel.WellFormed;
    var c := RangeChange(d);
    assert s'.mem.Content() == Join(s.mem.Content(), Delta(c)) by {
      assert DelSet(s'.mem.dels) == DelSet(s.mem.dels) + {d};
    }
    BufferGrows(s, s', c);
  }

  /** One more change in the active memtable. */
  lemma BufferGrows(s: State, s': State, c: Change)
    requires Sequenced(s) && Refines(s)
    requires ChangeOk(c) && SqnOf(c) == s.applied + 1
    requires s'.mem.Content() == Join(s.mem.Content(), Delta(c)) && s'.imm == s.imm && s'.tables == s.tables
    requires s'.log == s.log + [c] && s'.applied == s.applied + 1 && s'.floor == s.floor && s'.cutoff == s.cutoff
    ensures Sequenced(s') && Refines(s')
  {
    hide LogOk, LogView, ChangeOk, SqnOf, PointsIn, DelsIn, Refines, ViewOf, ImmContent, Memtable.Content;
    LogGrows(s.log, c, s.applied);
    assert Buffered(s') == Join(Buffered(s), Delta(c));
    assert All(s') == Join(All(s), Delta(c));
    RefinesMore(s, s', c);
    forall m, n | m in Sqns(ImmContent(s.imm)) && n in Sqns(s'.mem.Content()) ensures m < n {
      if n in Sqns(s.mem.Content()) {
      } else {
        assert n == s.applied + 1;
        assert m in Sqns(All(s)) && m <= s.applied;
      }
    }
  }

  lemma NothingBetween(w: View)
    ensures AllAfter(View({}, {}), w) && AllAfter(w, View({}, {}))
  {
  }

  lemma EmptyMemtable()
    ensures Memtable([], []).Ok() && Memtable([], []).Content() == View({}, {})
  {
  }

  lemma SealKeeps(s: State, s': State)
    requires Inv(s) && Seal(s, s')
    ensures Inv(s')
  {
    hide TablesOk, LogOk, LogView, SameReads, Justified, Ascending, ViewOf, RangeDel.WellFormed, Newer, AllAfter, UpTo;
    EmptyMemtable();
    NothingBetween(s.mem.Content());
    assert Buffered(s') == Buffered(s);
  }

  lemma MemAfterImm(a: View, b: View, w: View)
    requires AllAfter(a, b) && Newer(Join(b, a), w)
    ensures Newer(b, Join(w, a))
  {
    hide RangeDel.Contains;
    forall f, e | f in b.points && e in a.points ensures f.sqn > e.sqn {
      assert e.sqn in Sqns(a) && f.sqn in Sqns(b);
    }
    forall f, d | f in b.points && d in a.dels ensures f.sqn > d.sqn {
      assert d.sqn in Sqns(a) && f.sqn in Sqns(b);
    }
  }

  lemma FlushKeeps(s: State, s': State, t: Table)
    requires Inv(s) && FlushInstall(s, s', t)
    ensures Inv(s')
  {
    hide LogOk, LogView, SameReads, Justified, TablesOk, TableOk, AllAfter, Newer, UpTo, ViewOf, PointSet, DelSet, Ascending;
    AppendOk(s.tables, t, s.fileNum);
    ViewAppends(s.tables, [t]);
    OneTable(t);
    MemAfterImm(s.imm.value.Content(), s.mem.Content(), ViewOf(s.tables));
    NothingBetween(s.mem.Content());
    assert Buffered(s') == s.mem.Content();
    assert All(s') == All(s);
  }

  lemma IngestKeeps(s: State, s': State, t: Table)
    requires Inv(s) && Ingest(s, s', t)
    ensures Inv(s')
  {
    hide LogOk, LogView, SameReads, Justified, TablesOk, TableOk, AllAfter, Newer, UpTo, ViewOf, PointSet, DelSet, Ascending,
         Refines, ChangeOk, Buffered, Bounds.MayContain, Memtable.Ok;
    AppendOk(s.tables, t, s.fileNum);
    ViewAppends(s.tables, [t]);
    OneTable(t);
    var c := IngestChange(s.applied + 1, t.points);
    IngestedOk(t, s.applied + 1);
    LogGrows(s.log, c, s.applied);
    assert Buffered(s') == Buffered(s) by { SameBuffer(s, s'); }
    assert All(s') == Join(All(s), Delta(c));
    RefinesMore(s, s', c);
    IngestApart(s, t);
    if s.flight.Some? {
      IngestDuringFlight(s, t, s.flight.value);
    }
  }

  lemma SameBuffer(s: State, s': State)
    requires s.mem == s'.mem && s.imm == s'.imm
    ensures Buffered(s) == Buffered(s')
  {
  }

  lemma IngestedOk(t: Table, n: nat)
    requires TableOk(t) && forall i :: 0 <= i < |t.points| ==> t.points[i].sqn == n
    requires t.dels == []
    ensures ChangeOk(IngestChange(n, t.points))
    ensures Delta(IngestChange(n, t.points)) == View(PointSet(t.points), DelSet(t.dels))
  {
    OrderLaws();
  }

  lemma IngestApart(s: State, t: Table)
    requires TableOk(t) && t.dels == []
    requires Newer(Buffered(s), ViewOf(s.tables))
    requires forall i :: 0 <= i < |s.mem.points| ==> !t.bounds.MayContain(s.mem.points[i].key)
    requires s.imm.Some? ==> forall i :: 0 <= i < |s.imm.value.points| ==> !t.bounds.MayContain(s.imm.value.points[i].key)
    ensures Newer(Buffered(s), Join(ViewOf(s.tables), View(PointSet(t.points), DelSet(t.dels))))
  {
    hide Bounds.MayContain, RangeDel.Contains, ViewOf, Ascending;
    forall f, e | f in Buffered(s).points && e in t.points ensures f.key != e.key {
      assert !t.bounds.MayContain(f.key);
      BoundsExclude(t, f.key);
    }
  }

  lemma IngestDuringFlight(s: State, t: Table, f: Flight)
    requires FlightOk(s, f) && UpTo(All(s), s.applied) && t.dels == []
    requires forall i :: 0 <= i < |t.points| ==> t.points[i].sqn == s.applied + 1
    ensures f.seen <= s.tables + [t]
    ensures Newer(ViewOf((s.tables + [t])[|f.seen|..]), ViewOf(f.seen))
  {
    hide Guarded, Subset, RangeDel.Contains, Buffered, ViewOf;
    var added := s.tables[|f.seen|..];
    assert (s.tables + [t])[|f.seen|..] == added + [t];
    assert s.tables == f.seen + added;
    ViewAppends(added, [t]);
    ViewAppends(f.seen, added);
    OneTable(t);
  }

  lemma PinKeeps(s: State, s': State, n: nat)
    requires Inv(s) && (Publish(s, s', n) || Pin(s, s', n) || Unpin(s, s', n))
    ensures Inv(s')
  {
    hide Shaped, Sequenced, Refines, FlightOk;
    SameFacts(s, s');
  }

  lemma ClockKeeps(s: State, s': State, t: int)
    requires Inv(s) && (Tick(s, s', t) || ReadClock(s, s') || PinScan(s, s', t) || EndScan(s, s', t))
    ensures Inv(s')
  {
    hide Shaped, Sequenced, Refines, FlightOk;
    SameFacts(s, s');
  }

  /** Steps that move only the published sequence, pins or clocks leave the data facts alone. */
  lemma SameFacts(s: State, s': State)
    requires s'.mem == s.mem && s'.imm == s.imm && s'.tables == s.tables && s'.fileNum == s.fileNum
    requires s'.applied == s.applied && s'.log == s.log && s'.floor == s.floor && s'.cutoff == s.cutoff
    ensures Shaped(s) ==> Shaped(s')
    ensures Sequenced(s) ==> Sequenced(s')
    ensures Refines(s) ==> Refines(s')
    ensures forall f :: FlightOk(s, f) ==> FlightOk(s', f)
  {
  }

  lemma JustifiedWiden(w: View, log: seq<Change>, cutoff: int, cutoff': int)
    requires Justified(w, log, cutoff) && cutoff <= cutoff'
    ensures Justified(w, log, cutoff')
  {
    forall e | e in w.points ensures exists f :: f in LogView(log).points && Stands(e, f, cutoff') {
      var f :| f in LogView(log).points && Stands(e, f, cutoff);
      assert Stands(e, f, cutoff');
    }
  }

  /** Higher bounds promise fewer reads. */
  lemma LoadKeeps(s: State, s': State)
    requires Inv(s) && ((exists c :: LoadCutoff(s, s', c)) || (exists n :: LoadRetain(s, s', n)))
    ensures Inv(s')
  {
    hide Justified, SameReads, LogView, TablesOk, LogOk, Newer, UpTo, AllAfter, Guarded, Subset, ViewOf, Memtable.Ok, Buffered;
    assert All(s') == All(s) && Buffered(s') == Buffered(s) by { SameBuffer(s, s'); }
    SameReadsWiden(All(s), LogView(s.log), s.floor, s.cutoff, s'.floor, s'.cutoff);
    JustifiedWiden(All(s), s.log, s.cutoff, s'.cutoff);
  }

  lemma StartKeeps(s: State, s': State, f: Flight)
    requires Inv(s) && StartCompaction(s, s', f)
    ensures Inv(s')
  {
    hide Shaped, Sequenced, Refines, Newer, Guarded, Subset, ViewOf;
    SameFacts(s, s');
    assert s.tables[|s.tables|..] == [];
    NothingNewer(ViewOf(s.tables));
  }

  lemma NothingNewer(w: View)
    ensures Newer(ViewOf([]), w)
  {
  }

  lemma {:induction false} WithoutAppends(seen: seq<Table>, added: seq<Table>, inputs: seq<Table>)
    requires TablesOk(seen + added) && Subset(inputs, seen)
    ensures Without(seen + added, inputs) == Without(seen, inputs) + added
  {
    hide TableOk;
    if added == [] {
      assert seen + added == seen;
    } else {
      var n := |added| - 1;
      var all := seen + added;
      assert all[..|all|-1] == seen + added[..n];
      WithoutAppends(seen, added[..n], inputs);
      forall i | 0 <= i < |inputs| ensures inputs[i].num != added[n].num {
        MemberOfPart(inputs, seen, inputs[i]);
        var j :| 0 <= j < |seen| && seen[j] == inputs[i];
        assert all[j].num != all[|all|-1].num;
      }
    }
  }

  /** Every point a merge writes has the key and sequence of an input's, and stands for the same logged version. */
  lemma CollapsedFrom(w: View, out: View, rc: Reclaim, retain: nat, cutoff: int, f: Entry) returns (e: Entry)
    requires Collapsed(w, out, rc, retain, Unfiltered(cutoff)) && f in out.points
    ensures e in w.points && e.key == f.key && e.sqn == f.sqn && Stands(f, e, cutoff)
  {
    e :| Survives(w, rc, retain, Unfiltered(cutoff), e) && f == Resolve(Unfiltered(cutoff), e);
  }

  lemma StandsTwice(e: Entry, f: Entry, g: Entry, c: int, cutoff: int)
    requires Stands(g, e, c) && Stands(e, f, cutoff) && c <= cutoff
    ensures Stands(g, f, cutoff)
  {
  }

  lemma JustifiedCollapse(w: View, out: View, rest: View, rc: Reclaim, retain: nat, c: int, log: seq<Change>, cutoff: int)
    requires Collapsed(w, out, rc, retain, Unfiltered(c)) && c <= cutoff
    requires Justified(Join(w, rest), log, cutoff)
    ensures Justified(Join(out, rest), log, cutoff)
  {
    hide LogView, Collapsed, Stands;
    forall g | g in out.points ensures exists f :: f in LogView(log).points && Stands(g, f, cutoff) {
      var e := CollapsedFrom(w, out, rc, retain, c, g);
      assert e in Join(w, rest).points;
      var f :| f in LogView(log).points && Stands(e, f, cutoff);
      StandsTwice(e, f, g, c, cutoff);
    }
    forall g | g in rest.points ensures exists f :: f in LogView(log).points && Stands(g, f, cutoff) {
      assert g in Join(w, rest).points;
    }
  }

  lemma CollapseBounds(w: View, out: View, rest: View, rc: Reclaim, retain: nat, c: int, n: nat, extra: View)
    requires Collapsed(w, out, rc, retain, Unfiltered(c))
    requires UpTo(Join(w, rest), n) && Newer(extra, Join(w, rest))
    ensures UpTo(Join(out, rest), n) && Newer(extra, Join(out, rest))
  {
    hide RangeDel.Contains, Survives, Stands;
    forall g | g in out.points ensures g.sqn <= n && forall f :: f in extra.points && f.key == g.key ==> f.sqn > g.sqn {
      var e := CollapsedFrom(w, out, rc, retain, c, g);
      assert e in Join(w, rest).points;
    }
  }

  lemma SubsetGrows(inputs: seq<Table>, seen: seq<Table>, tables: seq<Table>)
    requires Subset(inputs, seen) && seen <= tables
    ensures Subset(inputs, tables)
  {
    assert tables == seen + tables[|seen|..];
  }

  lemma NewerPart(a: View, b: View, w: View, part: View)
    requires Newer(a, w) && Newer(b, w) && part.points <= w.points && part.dels <= w.dels
    ensures Newer(Join(a, b), part)
  {
    hide RangeDel.Contains;
  }

  /** What a commit changes, as views. */
  lemma CommitViews(s: State, s': State, outs: seq<Table>, f: Flight)
    requires TablesOk(s.tables) && FlightOk(s, f) && Newer(Buffered(s), ViewOf(s.tables))
    requires s'.mem == s.mem && s'.imm == s.imm && s'.tables == Without(s.tables, f.inputs) + outs
    requires Collapsed(ViewOf(f.inputs), ViewOf(outs), f.rc, f.retain, Unfiltered(f.cutoff))
    ensures SameReads(All(s), All(s'), f.retain, f.cutoff)
    ensures ViewOf(s.tables) == Join(ViewOf(f.inputs), ViewOf(Without(s.tables, f.inputs)))
    ensures ViewOf(s'.tables) == Join(ViewOf(outs), ViewOf(Without(s.tables, f.inputs)))
  {
    hide SameReads, Collapsed, Guarded, Newer, Subset, ViewOf, Without, TableOk, Buffered;
    SameBuffer(s, s');
    var added := s.tables[|f.seen|..];
    assert s.tables == f.seen + added;
    ViewAppends(f.seen, added);
    WithoutAppends(f.seen, added, f.inputs);
    SubsetGrows(f.inputs, f.seen, s.tables);
    ViewSplits(s.tables, f.inputs);
    ViewSplits(f.seen, f.inputs);
    var extra := Join(ViewOf(added), Buffered(s));
    NewerPart(Buffered(s), View({}, {}), ViewOf(s.tables), ViewOf(f.seen)) by { EmptyNewer(ViewOf(s.tables)); }
    NewerPart(ViewOf(added), Join(Buffered(s), View({}, {})), ViewOf(f.seen), ViewOf(f.inputs));
    assert Join(Buffered(s), View({}, {})) == Buffered(s);
    var left := Without(f.seen, f.inputs);
    ViewAppends(left + added, outs);
    ViewAppends(left, added);
    ViewAppends(left, outs);
    CompactionPreservesReads(f.seen, f.inputs, outs, f.rc, f.retain, Unfiltered(f.cutoff), extra);
    assert All(s) == Join(ViewOf(f.seen), extra);
    assert All(s') == Join(ViewOf(left + outs), extra);
  }

  lemma CommitKeeps(s: State, s': State, outs: seq<Table>, last: nat)
    requires Inv(s) && CommitCompaction(s, s', outs, last)
    ensures Inv(s')
  {
    hide Justified, SameReads, LogView, TablesOk, LogOk, Newer, UpTo, AllAfter, Guarded, Subset, ViewOf, Memtable.Ok, Buffered,
         Collapsed, FreshTables, Without;
    var f := s.flight.value;
    SameBuffer(s, s');
    CommittedOk(s.tables, f.inputs, outs, f.depth, 0, last);
    CommitViews(s, s', outs, f);
    var w, out, left := ViewOf(f.inputs), ViewOf(outs), ViewOf(Without(s.tables, f.inputs));
    var rest := Join(left, Buffered(s));
    assert All(s) == Join(w, rest) && All(s') == Join(out, rest);
    SameReadsWiden(All(s), All(s'), f.retain, f.cutoff, s.floor, s.cutoff);
    SameReadsChain(All(s), All(s'), LogView(s.log), s.floor, s.cutoff);
    JustifiedCollapse(w, out, rest, f.rc, f.retain, f.cutoff, s.log, s.cutoff);
    CollapseBounds(w, out, rest, f.rc, f.retain, f.cutoff, s.applied, View({}, {})) by { EmptyNewer(Join(w, rest)); }
    CollapseBounds(w, out, left, f.rc, f.retain, f.cutoff, s.applied, Buffered(s)) by {
      UpToPart(Join(w, rest), Join(w, left), s.applied);
    }
  }

  lemma StepKeeps(s: State, s': State)
    requires Inv(s) && Step(s, s')
    ensures Inv(s')
  {
    hide Inv, WritePoint, WriteRange, Publish, Seal, FlushInstall, Ingest, Pin, Unpin, Tick, ReadClock, PinScan, EndScan,
         LoadCutoff, LoadRetain, StartCompaction, CommitCompaction;
    if {
      case exists e :: WritePoint(s, s', e) =>
        var e :| WritePoint(s, s', e);
        WritePointKeeps(s, s', e);
      case exists d :: WriteRange(s, s', d) =>
        var d :| WriteRange(s, s', d);
        WriteRangeKeeps(s, s', d);
      case exists n :: Publish(s, s', n) =>
        var n :| Publish(s, s', n);
        PinKeeps(s, s', n);
      case Seal(s, s') =>
        SealKeeps(s, s');
      case exists t :: FlushInstall(s, s', t) =>
        var t :| FlushInstall(s, s', t);
        FlushKeeps(s, s', t);
      case exists t :: Ingest(s, s', t) =>
        var t :| Ingest(s, s', t);
        IngestKeeps(s, s', t);
      case exists n :: Pin(s, s', n) =>
        var n :| Pin(s, s', n);
        PinKeeps(s, s', n);
      case exists n :: Unpin(s, s', n) =>
        var n :| Unpin(s, s', n);
        PinKeeps(s, s', n);
      case exists t :: Tick(s, s', t) =>
        var t :| Tick(s, s', t);
        ClockKeeps(s, s', t);
      case ReadClock(s, s') =>
        ClockKeeps(s, s', 0);
      case exists t :: PinScan(s, s', t) =>
        var t :| PinScan(s, s', t);
        ClockKeeps(s, s', t);
      case exists t :: EndScan(s, s', t) =>
        var t :| EndScan(s, s', t);
        ClockKeeps(s, s', t);
      case exists c :: LoadCutoff(s, s', c) =>
        LoadKeeps(s, s');
      case exists n :: LoadRetain(s, s', n) =>
        LoadKeeps(s, s');
      case exists f :: StartCompaction(s, s', f) =>
        var f :| StartCompaction(s, s', f);
        StartKeeps(s, s', f);
      case exists outs, last :: CommitCompaction(s, s', outs, last) =>
        var outs, last :| CommitCompaction(s, s', outs, last);
        CommitKeeps(s, s', outs, last);
      case AbandonCompaction(s, s') =>
        AbandonKeeps(s, s');
    }
  }

  lemma AbandonKeeps(s: State, s': State)
    requires Inv(s) && AbandonCompaction(s, s')
    ensures Inv(s')
  {
    hide Shaped, Sequenced, Refines, FlightOk;
    SameFacts(s, s');
  }

  lemma InitKeeps(s: State)
    requires Init(s)
    ensures Inv(s)
  {
    hide SameReads, Live;
    EmptyMemtable();
    NothingBetween(View({}, {}));
    assert All(s) == View({}, {}) == LogView([]);
    SameReadsRefl(View({}, {}), 0, s.cutoff);
  }

  lemma SameReadsRefl(w: View, floor: nat, cutoff: int)
    ensures SameReads(w, w, floor, cutoff)
  {
  }

  lemma {:induction false} RunKeeps(states: seq<State>, i: nat)
    requires Run(states) && i < |states|
    ensures Inv(states[i])
  {
    hide Inv, Init, Step;
    if i == 0 {
      InitKeeps(states[0]);
    } else {
      RunKeeps(states, i - 1);
      assert Step(states[i-1], states[i-1+1]);
      StepKeeps(states[i-1], states[i]);
    }
  }

  /** A reader: a pinned or the published sequence, at an instant no compaction's cutoff lies after.
      A point read takes the present, which is one. */
  ghost predicate Reader(s: State, n: nat, now: int) {
    (n in s.pins || n == s.readSeq) && now >= s.cutoff
  }

  /** A scan pinned in time stays a reader for as long as it holds its pin. */
  lemma {:induction false} TimelyScanStays(states: seq<State>, i: nat, j: nat, t: int)
    requires Run(states) && i <= j < |states| && states[i].cutoff <= t
    requires forall k :: i <= k < j ==> t in states[k].scanTimes
    ensures states[j].cutoff <= t
    decreases j
  {
    hide Init, Step;
    if i < j {
      TimelyScanStays(states, i, j - 1, t);
      assert Step(states[j-1], states[j-1+1]);
      CutoffMoves(states[j-1], states[j], t);
    }
  }

  lemma CutoffMoves(s: State, s': State, t: int)
    requires Step(s, s') && s.cutoff <= t && t in s.scanTimes
    ensures s'.cutoff <= t
  {
    hide Insert, ViewOf, Collapsed, FreshTables, TableOk, Guarded, Subset, Memtable.Empty;
  }

  /** Over every run, every reader sees exactly what the log says. */
  lemma ReadsRefineLog(states: seq<State>, i: nat, key: Bytes, n: nat, now: int, v: Visible)
    requires Run(states) && i < |states| && Reader(states[i], n, now)
    ensures Live(All(states[i]), key, n, now, v) <==> LogRead(states[i].log, key, n, now, v)
  {
    hide Run, Live, LogRead, LogView, Shaped, Justified, Newer, AllAfter, UpTo, LogOk, ViewOf;
    RunKeeps(states, i);
    ViewReadsAsLog(states[i].log, key, n, now, v);
  }

  /** Equal sequences of one key never disagree for such a reader, so no read fails. */
  lemma ReadsNeverConflict(states: seq<State>, i: nat, n: nat, now: int)
    requires Run(states) && i < |states| && Reader(states[i], n, now)
    ensures Coherent(All(states[i]).points, now)
  {
    hide Run, LogView, Shaped, Newer, AllAfter, UpTo, ViewOf, SameReads, ChangeOk;
    RunKeeps(states, i);
    var s := states[i];
    forall e, f | e in All(s).points && f in All(s).points && e.key == f.key && e.sqn == f.sqn
      ensures Outcome(e.payload, now) == Outcome(f.payload, now)
    {
      var e' :| e' in LogView(s.log).points && Stands(e, e', s.cutoff);
      var f' :| f' in LogView(s.log).points && Stands(f, f', s.cutoff);
      LoggedOnce(s.log, e', f');
    }
  }

  /** A compaction whose cutoff is not before an earlier one's meets no versions it cannot merge. */
  lemma MergesNeverClash(states: seq<State>, i: nat, cutoff: int)
    requires Run(states) && i < |states| && cutoff >= states[i].cutoff
    ensures !Clashing(All(states[i]).points, cutoff)
  {
    hide Run, LogView, Shaped, Newer, AllAfter, UpTo, ViewOf, SameReads, ChangeOk;
    RunKeeps(states, i);
    var s := states[i];
    forall e, f | e in All(s).points && f in All(s).points && e.key == f.key && e.sqn == f.sqn && Kind(f.payload) <= Kind(e.payload)
      ensures DroppableDuplicate(f, e, cutoff)
    {
      var e' :| e' in LogView(s.log).points && Stands(e, e', s.cutoff);
      var f' :| f' in LogView(s.log).points && Stands(f, f', s.cutoff);
      LoggedOnce(s.log, e', f');
    }
  }

  /** The log only grows, above every sequence applied. */
  ghost predicate Later(s: State, s': State) {
    && s.log <= s'.log && s.applied <= s'.applied
    && forall i :: |s.log| <= i < |s'.log| ==> SqnOf(s'.log[i]) > s.applied
  }

  lemma {:induction false} RunGrows(states: seq<State>, i: nat, j: nat)
    requires Run(states) && i <= j < |states|
    ensures Later(states[i], states[j])
    decreases j
  {
    hide Step, Init, Later;
    if i == j {
      LaterSelf(states[i]);
    } else {
      RunGrows(states, i, j - 1);
      assert Step(states[j-1], states[j-1+1]);
      StepGrows(states[j-1], states[j]);
      LaterChain(states[i], states[j-1], states[j]);
    }
  }

  lemma LaterSelf(s: State)
    ensures Later(s, s)
  {
  }

  lemma LaterChain(a: State, b: State, c: State)
    requires Later(a, b) && Later(b, c)
    ensures Later(a, c)
  {
    hide SqnOf;
  }

  lemma StepGrows(s: State, s': State)
    requires Step(s, s')
    ensures Later(s, s')
  {
    hide Insert, ViewOf, Collapsed, FreshTables, TableOk, Guarded, Subset, Memtable.Empty;
  }

  /** A pinned read never changes: whatever happens in between, the same pin shows the same value. */
  lemma PinnedReadsAreStable(states: seq<State>, i: nat, j: nat, key: Bytes, n: nat, now: int, v: Visible)
    requires Run(states) && i <= j < |states| && n <= states[i].readSeq
    requires Reader(states[i], n, now) && Reader(states[j], n, now)
    ensures Live(All(states[i]), key, n, now, v) <==> Live(All(states[j]), key, n, now, v)
  {
    hide Run, Live, LogRead, Later, Reader, Sequenced, Shaped, Refines;
    RunKeeps(states, i);
    RunGrows(states, i, j);
    ReadsRefineLog(states, i, key, n, now, v);
    ReadsRefineLog(states, j, key, n, now, v);
    LaterReadsSame(states[i], states[j], key, n, now, v);
  }

  lemma LaterReadsSame(s: State, s': State, key: Bytes, n: nat, now: int, v: Visible)
    requires Later(s, s') && n <= s.applied
    ensures LogRead(s.log, key, n, now, v) <==> LogRead(s'.log, key, n, now, v)
  {
    hide Touches, Shows, SqnOf;
    forall i: nat ensures Decides(s.log, key, n, i) <==> Decides(s'.log, key, n, i) {
    }
  }
}
