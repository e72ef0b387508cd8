/**
A scan reads the clock before it pins the instant it read. A compaction given a later
cutoff in between leaves it exposed: exactly the scans pinned in time are promised the log.
*/
module ScanRace {
  import opened Bytes
  import opened Versions
  import opened Tables
  import opened Collapse
  import opened Compaction
  import opened CompactionTheorem
  import opened Memtables
  import opened Log
  import opened Plans
  import opened Store
  import Extension

  /** From its pin on, a scan pinned in time reads the log. */
  lemma TimelyScanReadsLog(states: seq<State>, i: nat, j: nat, key: Bytes, n: nat, t: int, v: Visible)
    requires Run(states) && i < j < |states| && PinScan(states[i], states[i+1], t) && states[i].cutoff <= t
    requires forall k :: i < k <= j ==> t in states[k].scanTimes && n in states[k].pins
    ensures Live(All(states[j]), key, n, t, v) <==> LogRead(states[j].log, key, n, t, v)
  {
    hide Run, Live, LogRead, All;
    TimelyScanStays(states, i + 1, j, t);
    ReadsRefineLog(states, j, key, n, t, v);
  }

  /** No logged version's deadline falls after `t` and up to `c`. */
  ghost predicate NoDeadlineBetween(log: seq<Change>, t: int, c: int) {
    forall e :: e in LogView(log).points && e.payload.Expiring? ==> !(t < e.payload.expiresAt <= c)
  }

  lemma SameInstants(w: View, key: Bytes, n: nat, t: int, c: int, v: Visible)
    requires forall e :: e in w.points ==> Outcome(e.payload, t) == Outcome(e.payload, c)
    ensures Live(w, key, n, t, v) <==> Live(w, key, n, c, v)
  {
    hide Outcome, RangeDeleted;
  }

  /** A scan pinned late still reads the log when no deadline lies in the gap. */
  lemma LateScanReadsLog(states: seq<State>, i: nat, key: Bytes, n: nat, t: int, v: Visible)
    requires Run(states) && i < |states| && (n in states[i].pins || n == states[i].readSeq) && t <= states[i].cutoff
    requires NoDeadlineBetween(states[i].log, t, states[i].cutoff)
    ensures Live(All(states[i]), key, n, t, v) <==> LogRead(states[i].log, key, n, t, v)
  {
    hide Run, Live, LogRead, LogView, All, Shaped, FlightOk, Newer, AllAfter, Extension.UpTo, LogOk, SameReads;
    var s := states[i];
    RunKeeps(states, i);
    forall e | e in LogView(s.log).points ensures Outcome(e.payload, t) == Outcome(e.payload, s.cutoff) {
    }
    forall e | e in All(s).points ensures Outcome(e.payload, t) == Outcome(e.payload, s.cutoff) {
      var f :| f in LogView(s.log).points && Stands(e, f, s.cutoff);
    }
    SameInstants(All(s), key, n, t, s.cutoff, v);
    SameInstants(LogView(s.log), key, n, t, s.cutoff, v);
    ReadsRefineLog(states, i, key, n, s.cutoff, v);
    ViewReadsAsLog(s.log, key, n, t, v);
    ViewReadsAsLog(s.log, key, n, s.cutoff, v);
  }

  // ---------------------------------------------------------------------------
  // The failing run
  // ---------------------------------------------------------------------------

  /** A step in which a compaction that starts is the planned one, with the bounds last given out. */
  ghost predicate CodeStep(s: State, s': State) {
    && Step(s, s')
    && (s.flight.None? && s'.flight.Some? ==>
          var f := s'.flight.value;
          f.retain == s.floor && f.cutoff == s.cutoff && Planned(s.tables, f.inputs, f.rc, Unfiltered(f.cutoff), f.depth))
  }

  ghost predicate CodeRun(states: seq<State>) {
    && states != [] && Init(states[0])
    && forall i :: 0 <= i < |states| - 1 ==> CodeStep(states[i], states[i+1])
  }

  lemma CodeRunIsRun(states: seq<State>)
    requires CodeRun(states)
    ensures Run(states)
  {
    hide Init, Step;
    forall i | 0 <= i < |states| - 1 ensures Step(states[i], states[i+1]) {
      assert CodeStep(states[i], states[i+1]);
    }
  }

  lemma Extend(states: seq<State>, s': State) returns (longer: seq<State>)
    requires states != [] && CodeRun(states) && CodeStep(states[|states|-1], s')
    ensures longer == states + [s'] && CodeRun(longer)
  {
    hide CodeStep, Init;
    longer := states + [s'];
    forall i | 0 <= i < |longer| - 1 ensures CodeStep(longer[i], longer[i+1]) {
      if i < |states| - 1 {
        assert CodeStep(states[i], states[i+1]);
      }
    }
  }

  function Start(t: int): State {
    State(Memtable([], []), None, [], 0, 0, 0, multiset{}, t, multiset{}, multiset{}, None, [], 0, t)
  }

  /** A put written, published, sealed and flushed. */
  function Stored(s: State, e: Entry): State {
    s.(tables := s.tables + [One(s.fileNum + 1, e)], fileNum := s.fileNum + 1, applied := e.sqn, readSeq := e.sqn,
       log := s.log + [PointChange(e)])
  }

  lemma PutStored(states: seq<State>, e: Entry) returns (longer: seq<State>)
    requires states != [] && CodeRun(states)
    requires var s := states[|states|-1];
             && s.mem == Memtable([], []) && s.imm == None && s.flight == None
             && s.readSeq == s.applied && e.sqn == s.applied + 1
             && forall u :: u in s.tables ==> u.num <= s.fileNum
    ensures longer != [] && CodeRun(longer) && longer[|longer|-1] == Stored(states[|states|-1], e)
  {
    hide CodeRun, TableOk, Collapsed, Guarded, Subset, Planned;
    var s := states[|states|-1];
    var s1 := s.(mem := Memtable([e], []), applied := e.sqn, log := s.log + [PointChange(e)]);
    assert Insert([], e) == [e];
    assert WritePoint(s, s1, e);
    longer := Extend(states, s1);
    var s2 := s1.(readSeq := e.sqn);
    assert Publish(s1, s2, e.sqn);
    longer := Extend(longer, s2);
    var s3 := s2.(imm := Some(s2.mem), mem := Memtable([], []));
    assert Seal(s2, s3);
    longer := Extend(longer, s3);
    OneOk(s.fileNum + 1, e);
    assert FlushInstall(s3, Stored(s, e), One(s.fileNum + 1, e));
    longer := Extend(longer, Stored(s, e));
  }

  /** Both puts flushed; the first expires at `c`. */
  function BothStored(t: int, c: int): State {
    Start(t).(tables := Pair(c), fileNum := 2, applied := 2, readSeq := 2,
              log := [PointChange(First(Expiring([7], c))), PointChange(SECOND)])
  }

  /** The scan has pinned its sequence and read the clock; the clock has moved to the deadline,
      and a compaction has been given its bounds. */
  function Bounded(t: int, c: int): State {
    BothStored(t, c).(pins := multiset{2}, readings := multiset{t}, clock := c, cutoff := c, floor := 2)
  }

  /** That compaction has committed: the expired version is reclaimed. */
  function Merged(t: int, c: int): State {
    Bounded(t, c).(tables := [One(3, SECOND).(depth := 1)], fileNum := 3)
  }

  lemma StoresBoth(t: int, c: int) returns (states: seq<State>)
    ensures states != [] && CodeRun(states) && states[|states|-1] == BothStored(t, c)
  {
    hide CodeStep;
    states := [Start(t)];
    states := PutStored(states, First(Expiring([7], c)));
    states := PutStored(states, SECOND);
    assert [] + [One(1, First(Expiring([7], c)))] + [One(2, SECOND)] == [One(1, First(Expiring([7], c))), One(2, SECOND)];
  }

  lemma GivesBounds(t: int, c: int) returns (states: seq<State>)
    requires t < c
    ensures states != [] && CodeRun(states) && states[|states|-1] == Bounded(t, c)
  {
    hide CodeRun, Collapsed, Guarded, Subset, Planned;
    states := StoresBoth(t, c);
    var s := BothStored(t, c);
    var s1 := s.(pins := multiset{2});
    assert Pin(s, s1, 2);
    states := Extend(states, s1);
    var s2 := s1.(readings := multiset{t});
    assert ReadClock(s1, s2);
    states := Extend(states, s2);
    var s3 := s2.(clock := c);
    assert Tick(s2, s3, c);
    states := Extend(states, s3);
    var s4 := s3.(cutoff := c);
    assert LoadCutoff(s3, s4, c);
    states := Extend(states, s4);
    assert LoadRetain(s4, Bounded(t, c), 2);
    states := Extend(states, Bounded(t, c));
  }

  /** Of the two versions, the expired one is reclaimed and the other kept. */
  lemma ReclaimsExpired(c: int)
    ensures Collapsed(View({First(Expiring([7], c)), SECOND}, {}), View({SECOND}, {}), Always, 2, Unfiltered(c))
  {
    var w := View({First(Expiring([7], c)), SECOND}, {});
    assert Resolve(Unfiltered(c), SECOND) == SECOND;
    assert Survives(w, Always, 2, Unfiltered(c), SECOND);
    assert !Survives(w, Always, 2, Unfiltered(c), First(Expiring([7], c)));
  }

  lemma MergedOk()
    ensures FreshTables([One(3, SECOND).(depth := 1)], 1, 0, 3) && ViewOf([One(3, SECOND).(depth := 1)]) == View({SECOND}, {})
  {
    OrderLaws();
    OneTable(One(3, SECOND).(depth := 1));
    assert PointSet([SECOND]) == {SECOND} && DelSet([]) == {};
  }

  function Pair(c: int): seq<Table> {
    [One(1, First(Expiring([7], c))), One(2, SECOND)]
  }

  function Planning(c: int): Flight {
    Flight(Pair(c), Pair(c), 1, Always, 2, c)
  }

  lemma Starts(t: int, c: int)
    ensures CodeStep(Bounded(t, c), Bounded(t, c).(flight := Some(Planning(c))))
  {
    hide Guarded, Subset, Planned, Collapsed;
    WholePair(One(1, First(Expiring([7], c))), One(2, SECOND), Unfiltered(c));
    assert StartCompaction(Bounded(t, c), Bounded(t, c).(flight := Some(Planning(c))), Planning(c));
  }

  lemma Commits(t: int, c: int)
    ensures CodeStep(Bounded(t, c).(flight := Some(Planning(c))), Merged(t, c))
  {
    hide Guarded, Subset, Planned, Collapsed, ViewOf, FreshTables, Without, TableOk;
    var m := One(3, SECOND).(depth := 1);
    PairView(1, 2, First(Expiring([7], c)), SECOND);
    ReclaimsExpired(c);
    MergedOk();
    WithoutBoth(One(1, First(Expiring([7], c))), One(2, SECOND));
    assert [] + [m] == [m];
    assert CommitCompaction(Bounded(t, c).(flight := Some(Planning(c))), Merged(t, c), [m], 3);
  }

  lemma Merges(t: int, c: int) returns (states: seq<State>)
    requires t < c
    ensures states != [] && CodeRun(states) && states[|states|-1] == Merged(t, c)
  {
    hide CodeRun, CodeStep, Bounded, Merged, Planning;
    states := GivesBounds(t, c);
    Starts(t, c);
    states := Extend(states, Bounded(t, c).(flight := Some(Planning(c))));
    Commits(t, c);
    states := Extend(states, Merged(t, c));
  }

  /** A reader of sequence `n` at `t` sees exactly what the log says. */
  ghost predicate ReadsAsLogged(s: State, n: nat, t: int) {
    forall key, v :: Live(All(s), key, n, t, v) <==> LogRead(s.log, key, n, t, v)
  }

  lemma Misses(t: int, c: int)
    requires t < c
    ensures !ReadsAsLogged(Merged(t, c), 2, t)
  {
    var s := Merged(t, c);
    MergedOk();
    EmptyMemtable();
    assert All(s) == View({SECOND}, {});
    assert !Live(All(s), K1, 2, t, Visible([7], c));
    assert Decides(s.log, K1, 2, 0);
    assert Shows(s.log[0], K1, t, Visible([7], c));
    assert LogRead(s.log, K1, 2, t, Visible([7], c));
  }

  /** A scan that pins `t` only after a compaction was given a later cutoff can miss a value the log
      shows at `t`: every such pair of instants has a run. */
  lemma LateScanMisreads(t: nat, c: nat) returns (states: seq<State>)
    requires t < c
    ensures |states| >= 2 && CodeRun(states) && Run(states)
    ensures var i := |states| - 2;
            && PinScan(states[i], states[i+1], t) && states[i].cutoff == c && 2 in states[i+1].pins
            && !ReadsAsLogged(states[i+1], 2, t)
  {
    hide CodeRun, Run, ReadsAsLogged, Planned, All, Live, LogRead;
    states := Merges(t, c);
    var s := Merged(t, c);
    var s' := s.(readings := multiset{}, scanTimes := multiset{t});
    assert PinScan(s, s', t);
    states := Extend(states, s');
    CodeRunIsRun(states);
    Misses(t, c);
    assert ReadsAsLogged(s', 2, t) == ReadsAsLogged(s, 2, t) by { SameStore(s, s', t); }
  }

  lemma SameStore(s: State, s': State, t: int)
    requires s'.mem == s.mem && s'.imm == s.imm && s'.tables == s.tables && s'.log == s.log
    ensures ReadsAsLogged(s', 2, t) == ReadsAsLogged(s, 2, t)
  {
    assert All(s') == All(s);
  }

  /** A run in which a scan holding sequence `n` pins `t` when the latest cutoff given out is `c`. */
  ghost predicate PinsAt(states: seq<State>, i: nat, n: nat, t: int, c: int) {
    i + 1 < |states| && Run(states) && PinScan(states[i], states[i+1], t) && states[i].cutoff == c && n in states[i+1].pins
  }

  /** Every such scan reads the log. */
  ghost predicate PinIsSafe(t: int, c: int) {
    forall states: seq<State>, i: nat, n: nat :: PinsAt(states, i, n, t, c) ==> ReadsAsLogged(states[i+1], n, t)
  }

  /** Pinning in time is exactly what a scan's reads need. */
  lemma PinIsSafeIff(t: nat, c: nat)
    ensures PinIsSafe(t, c) <==> t >= c
  {
    hide Run, ReadsAsLogged, CodeRun;
    if t >= c {
      forall states: seq<State>, i: nat, n: nat | PinsAt(states, i, n, t, c) ensures ReadsAsLogged(states[i+1], n, t) {
        TimelyPin(states, i, n, t, c);
      }
    } else {
      var states := LateScanMisreads(t, c);
      var i: nat := |states| - 2;
      assert PinsAt(states, i, 2, t, c) && !ReadsAsLogged(states[i+1], 2, t);
    }
  }

  lemma TimelyPin(states: seq<State>, i: nat, n: nat, t: int, c: int)
    requires PinsAt(states, i, n, t, c) && t >= c
    ensures ReadsAsLogged(states[i+1], n, t)
  {
    hide Run, Live, LogRead, All;
    var s := states[i+1];
    forall key, v ensures Live(All(s), key, n, t, v) <==> LogRead(s.log, key, n, t, v) {
      TimelyScanReadsLog(states, i, i + 1, key, n, t, v);
    }
  }
}
