/**
Runs of the durable store that its code can take: every compaction in them merges what
pickCompaction and Compact choose. Two puts, flushed apart and merged one tier down, are
replayed after a crash into two tables beside that one.
*/
module ReplayRuns {
  import opened Bytes
  import opened Versions
  import opened Tables
  import opened Collapse
  import opened Compaction
  import opened CompactionTheorem
  import opened Plans
  import opened Log
  import opened WriteAhead
  import opened Recovery

  // ---------------------------------------------------------------------------
  // Steps the code can take
  // ---------------------------------------------------------------------------

  /** A step in which a merge, if it is one, is the planned one. */
  ghost predicate CodeStep(s: State, s': State) {
    || CommitStep(s, s')
    || (exists ck :: FlushBegin(s, s', ck)) || (exists t :: FlushEnd(s, s', t))
    || (exists inputs, outs, rc, retain, c, depth, last ::
          Compacts(s, s', inputs, outs, rc, retain, c, depth, last) && Planned(s.d.tables, inputs, rc, Unfiltered(c), depth))
    || (exists inputs, outs, rc, retain, rw, depth, last ::
          Filters(s, s', inputs, outs, rc, retain, rw, depth, last) && Planned(s.d.tables, inputs, rc, rw, depth))
    || (exists keep :: Crash(s, s', keep))
    || (exists outs, lo, num :: Recover(s, s', outs, lo, num))
  }

  lemma CodeStepIsStep(s: State, s': State)
    requires CodeStep(s, s')
    ensures Step(s, s')
  {
    hide CommitStep, FlushBegin, FlushEnd, Compacts, Filters, Crash, Recover, Planned;
  }

  ghost predicate CodeRun(states: seq<State>) {
    && states != [] && Init(states[0])
    && forall i :: 0 <= i < |states| - 1 ==> CodeStep(states[i], states[i+1])
  }

  lemma CodeRunIsRun(states: seq<State>)
    requires CodeRun(states)
    ensures Run(states)
  {
    hide Init, CodeStep, Step;
    forall i | 0 <= i < |states| - 1 ensures Step(states[i], states[i+1]) {
      CodeStepIsStep(states[i], states[i+1]);
    }
  }

  lemma RunExtends(states: seq<State>, s': State)
    requires CodeRun(states) && CodeStep(states[|states|-1], s')
    ensures CodeRun(states + [s'])
  {
    hide CodeStep, Init;
    var longer := states + [s'];
    forall i | 0 <= i < |longer| - 1 ensures CodeStep(longer[i], longer[i+1]) {
      if i < |states| - 1 {
        assert CodeStep(states[i], states[i+1]);
      }
    }
  }

  // ---------------------------------------------------------------------------
  // One put
  // ---------------------------------------------------------------------------

  /** Up, idle and all published. */
  ghost predicate Idle(s: State) {
    && s.up && s.c.pending == [] && s.c.phase == Quiescent && !s.c.poisoned
    && s.c.readSeq == s.c.walSeq && s.c.synced == |s.c.written| && s.c.applied == |Hist(s)|
    && s.d.flusher == None && s.d.flushed == s.d.sealed == s.c.applied
  }

  /** The state after a batch of one change has gone all the way. */
  function Committed(s: State, ch: Change): State {
    s.(c := s.c.(walSeq := s.c.walSeq + 1, readSeq := s.c.walSeq + 1, written := s.c.written + [[ch]],
                 synced := |s.c.written| + 1, applied := s.c.applied + 1, acked := s.c.acked + {ch}))
  }

  ghost predicate NextChange(s: State, ch: Change) {
    BatchOk([ch]) && SqnOf(ch) == s.c.walSeq + 1 <= MAX_SEQ
  }

  lemma FlatNext(bs: seq<Batch>, ch: Change)
    ensures Flat(bs + [[ch]]) == Flat(bs) + [ch] && Flat((bs + [[ch]])[..|bs| + 1]) == Flat(bs) + [ch]
  {
    hide Flat;
    FlatConcat(bs, [[ch]]);
    FlatOne([ch]);
    assert (bs + [[ch]])[..|bs| + 1] == bs + [[ch]];
  }

  /** From the queue to the acknowledgement. */
  lemma PutCommits(states: seq<State>, ch: Change) returns (longer: seq<State>)
    requires states != [] && CodeRun(states) && Idle(states[|states|-1]) && NextChange(states[|states|-1], ch)
    ensures longer != [] && CodeRun(longer) && longer[|longer|-1] == Committed(states[|states|-1], ch)
  {
    hide CodeRun, Flat, BatchOk, LogView, ViewOf, TableStep, Planned;
    var s := states[|states|-1];
    var b := [ch];
    FlatNext(s.c.written, ch);
    longer := states;
    var s1 := s.(c := s.c.(walSeq := s.c.walSeq + 1, pending := [b], phase := Top));
    assert [] + [b] == [b];
    assert Enqueue(s, s1, b);
    longer := Extend(longer, s1);
    var s2 := s1.(c := s1.c.(pending := [], phase := Writing([b], 0)));
    assert Take(s1, s2);
    longer := Extend(longer, s2);
    var s3 := s2.(c := s2.c.(written := s.c.written + [b], phase := Writing([b], 1)));
    assert WriteBatch(s2, s3);
    longer := Extend(longer, s3);
    var s4 := s3.(c := s3.c.(synced := |s.c.written| + 1, phase := Applying([b])));
    assert SyncGroup(s3, s4);
    longer := Extend(longer, s4);
    longer := PutApplies(longer, s, ch);
  }

  lemma PutApplies(states: seq<State>, s: State, ch: Change) returns (longer: seq<State>)
    requires states != [] && CodeRun(states) && Idle(s) && NextChange(s, ch)
    requires states[|states|-1] == s.(c := s.c.(walSeq := s.c.walSeq + 1, written := s.c.written + [[ch]],
                                               synced := |s.c.written| + 1, phase := Applying([[ch]])))
    ensures longer != [] && CodeRun(longer) && longer[|longer|-1] == Committed(s, ch)
  {
    hide CodeRun, Flat, BatchOk, LogView, ViewOf, TableStep, Planned;
    FlatNext(s.c.written, ch);
    longer := states;
    var b, s4 := [ch], states[|states|-1];
    var s5 := s4.(c := s4.c.(applied := s.c.applied + 1));
    assert ApplyOne(s4, s5);
    longer := Extend(longer, s5);
    var s6 := s5.(c := s5.c.(readSeq := s.c.walSeq + 1));
    assert Publish(s5, s6, |s.c.written| + 1);
    longer := Extend(longer, s6);
    var s7 := s6.(c := s6.c.(phase := Acking([b], 0)));
    assert FinishApply(s6, s7);
    longer := Extend(longer, s7);
    var s8 := s7.(c := s7.c.(phase := Acking([b], 1), acked := s.c.acked + {ch}));
    assert (set c | c in b) == {ch};
    assert Ack(s7, s8, true);
    longer := Extend(longer, s8);
    var s9 := s8.(c := s8.c.(phase := Top));
    assert Ack(s8, s9, true);
    longer := Extend(longer, s9);
    var s10 := s9.(c := s9.c.(phase := Quiescent));
    assert Take(s9, s10);
    longer := Extend(longer, s10);
  }

  lemma Extend(states: seq<State>, s': State) returns (longer: seq<State>)
    requires CodeRun(states) && CodeStep(states[|states|-1], s')
    ensures longer != [] && CodeRun(longer) && longer[|longer|-1] == s'
  {
    hide CodeStep;
    RunExtends(states, s');
    longer := states + [s'];
  }

  // ---------------------------------------------------------------------------
  // Flushed to a table of its own
  // ---------------------------------------------------------------------------

  lemma OneLogged(e: Entry)
    ensures LogView([PointChange(e)]) == View({e}, {})
  {
    assert [PointChange(e)][..0] == [] && LogView([]) == View({}, {});
  }

  lemma PointIsBatch(e: Entry)
    ensures BatchOk([PointChange(e)])
  {
  }

  /** A put committed and flushed. */
  function Stored(s: State, e: Entry): State {
    var t := Committed(s, PointChange(e));
    t.(d := t.d.(sealed := t.c.applied, flushed := t.c.applied, tables := t.d.tables + [One(t.d.fileNum + 1, e)],
                 fileNum := t.d.fileNum + 1, lastSeq := t.c.walSeq))
  }

  lemma PutStored(states: seq<State>, e: Entry) returns (longer: seq<State>)
    requires states != [] && CodeRun(states) && Idle(states[|states|-1]) && e.sqn == states[|states|-1].c.walSeq + 1 <= MAX_SEQ
    requires forall t :: t in states[|states|-1].d.tables ==> t.num <= states[|states|-1].d.fileNum
    ensures longer != [] && CodeRun(longer) && longer[|longer|-1] == Stored(states[|states|-1], e) && Idle(longer[|longer|-1])
  {
    hide CodeRun, Flat, BatchOk, LogView, ViewOf, CommitStep, TableOk, Planned;
    var s := states[|states|-1];
    var ch := PointChange(e);
    PointIsBatch(e);
    longer := PutCommits(states, ch);
    FlatNext(s.c.written, ch);
    var s0 := longer[|longer|-1];
    var s1 := s0.(d := s0.d.(flusher := Some(false), sealed := s0.c.applied));
    assert FlushBegin(s0, s1, false);
    longer := Extend(longer, s1);
    var t := One(s.d.fileNum + 1, e);
    OneOk(t.num, e);
    OneLogged(e);
    assert Hist(s1)[s1.d.flushed..s1.d.sealed] == [ch];
    var s2 := Stored(s, e);
    assert FlushEnd(s1, s2, t);
    longer := Extend(longer, s2);
  }

  // ---------------------------------------------------------------------------
  // Two puts merged one tier down, crashed and replayed
  // ---------------------------------------------------------------------------

  const START: State := State(true,
    Commit(0, 0, [], Quiescent, false, [], 0, 0, {}, 0, 0),
    Data(0, 0, None, NoCkpt, 0, [Segment(1, 0)], [], 0, 1, 1),
    Past(0, 0, {}, false, false, false))

  lemma StartIsInitial()
    ensures CodeRun([START]) && Idle(START)
  {
    hide CodeStep;
  }

  /** Both puts in a table of the second tier, after a merge with the given bounds. */
  function MergedDown(p: Payload, retain: nat, c: int): State {
    var q := Resolve(Unfiltered(c), First(p)).payload;
    State(true,
      Commit(2, 2, [], Quiescent, false, [[PointChange(First(p))], [PointChange(SECOND)]], 2, 2,
             {PointChange(First(p)), PointChange(SECOND)}, 0, 0),
      Data(2, 2, None, NoCkpt, 0, [Segment(1, 0)], [Two(4, q, Plain([8]))], 2, 1, 4),
      Past(retain, MaxInt(0, c), {}, false, false, false))
  }

  /** Both puts committed and flushed, each to its own table. */
  function BothStored(p: Payload): State {
    State(true,
      Commit(2, 2, [], Quiescent, false, [[PointChange(First(p))], [PointChange(SECOND)]], 2, 2,
             {PointChange(First(p)), PointChange(SECOND)}, 0, 0),
      Data(2, 2, None, NoCkpt, 0, [Segment(1, 0)], [One(2, First(p)), One(3, SECOND)], 2, 1, 3),
      Past(0, 0, {}, false, false, false))
  }

  lemma StoresBoth(p: Payload) returns (states: seq<State>)
    ensures states != [] && CodeRun(states) && states[|states|-1] == BothStored(p)
  {
    hide CodeRun, Idle;
    StartIsInitial();
    states := [START];
    states := PutStored(states, First(p));
    states := PutStored(states, SECOND);
    assert [] + [[PointChange(First(p))]] + [[PointChange(SECOND)]] == [[PointChange(First(p))], [PointChange(SECOND)]];
    assert [] + [One(2, First(p))] + [One(3, SECOND)] == [One(2, First(p)), One(3, SECOND)];
    assert {} + {PointChange(First(p))} + {PointChange(SECOND)} == {PointChange(First(p)), PointChange(SECOND)};
  }

  lemma MovesDown(p: Payload, retain: nat, c: int) returns (states: seq<State>)
    requires retain <= 2 && (retain == 0 || Resolve(Unfiltered(c), First(p)) == First(p) != First(Tombstone))
    ensures states != [] && CodeRun(states) && states[|states|-1] == MergedDown(p, retain, c)
  {
    hide CodeRun, Flat, BatchOk, LogView, ViewOf, CommitStep, TableOk, Collapsed, FreshTables, Without, Planned, Guarded, Subset;
    states := StoresBoth(p);
    var t, u := One(2, First(p)), One(3, SECOND);
    var rw, q := Unfiltered(c), Resolve(Unfiltered(c), First(p)).payload;
    var m := Two(4, q, Plain([8]));
    TwoOk(4, q, Plain([8]));
    PairView(2, 3, First(p), SECOND);
    CollapsesTwo(p, Always, retain, rw);
    assert Resolve(rw, SECOND) == SECOND && Resolve(rw, First(p)) == First(q);
    WithoutBoth(t, u);
    WholePair(t, u, rw);
    assert [] + [m] == [m];
    assert Compacts(BothStored(p), MergedDown(p, retain, c), [t, u], [m], Always, retain, c, 1, 4);
    states := Extend(states, MergedDown(p, retain, c));
  }

  /** The crash after that, and the recovery that replays both puts into tables of their own. */
  function Replayed(p: Payload, retain: nat, c: int): State {
    var s := MergedDown(p, retain, c);
    State(true, s.c.(head := 2, base := 2),
      Data(2, 2, None, NoCkpt, 2, [Segment(1, 0), Segment(7, 2)], s.d.tables + [One(5, First(p)), One(6, SECOND)], 2, 7, 7),
      s.h.(replayed := true))
  }

  lemma BothLogged(p: Payload)
    ensures var bs := [[PointChange(First(p))], [PointChange(SECOND)]];
            && Flat(bs) == [PointChange(First(p)), PointChange(SECOND)] && Flat(bs[..0]) == []
            && LogView(Flat(bs)) == View({First(p), SECOND}, {})
  {
    var bs := [[PointChange(First(p))], [PointChange(SECOND)]];
    assert bs == [[PointChange(First(p))]] + [[PointChange(SECOND)]];
    FlatConcat([[PointChange(First(p))]], [[PointChange(SECOND)]]);
    FlatOne([PointChange(First(p))]);
    FlatOne([PointChange(SECOND)]);
    EmptyFlat();
    assert bs[..0] == [];
    var log := [PointChange(First(p)), PointChange(SECOND)];
    OneLogged(First(p));
    assert log[..1] == [PointChange(First(p))];
    assert PointsIn(log[1]) == {SECOND} && DelsIn(log[1]) == {};
    assert LogView(log) == Join(LogView(log[..1]), View(PointsIn(log[1]), DelsIn(log[1])));
  }

  lemma ApartOnes(a: Entry, b: Entry)
    requires a.key != b.key
    ensures Distinct([One(5, a), One(6, b)])
  {
  }

  lemma RecoverStep(p: Payload, retain: nat, c: int)
    ensures Recover(MergedDown(p, retain, c).(up := false), Replayed(p, retain, c), [One(5, First(p)), One(6, SECOND)], 4, 7)
  {
    hide Flat, LogView, ViewOf, TableOk, Distinct, Resolve, Two;
    BothLogged(p);
    var down := MergedDown(p, retain, c).(up := false);
    assert down.c.written[..0] == [] && Skipped(down) == 0;
    OneOk(5, First(p));
    OneOk(6, SECOND);
    PairView(5, 6, First(p), SECOND);
    ApartOnes(First(p), SECOND);
    assert Hist(down)[0..] == Hist(down);
    assert [Segment(1, 0)] + [Segment(7, 2)] == [Segment(1, 0), Segment(7, 2)];
  }

  lemma CrashReplays(p: Payload, retain: nat, c: int) returns (states: seq<State>)
    requires retain <= 2 && (retain == 0 || Resolve(Unfiltered(c), First(p)) == First(p) != First(Tombstone))
    ensures states != [] && CodeRun(states) && states[|states|-1] == Replayed(p, retain, c)
  {
    hide CodeRun, CommitStep, Recover, Planned, Two, One, Flat, Replayed, Compacts, Filters, FlushBegin, FlushEnd;
    states := MovesDown(p, retain, c);
    var s := MergedDown(p, retain, c);
    var down := s.(up := false);
    assert s.c.written[..2] == s.c.written;
    assert Crash(s, down, 2);
    states := Extend(states, down);
    RecoverStep(p, retain, c);
    states := Extend(states, Replayed(p, retain, c));
  }
}
