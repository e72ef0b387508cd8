/** Crash safety: where every acknowledged change lives, and what recovery shows. */
module Recovery {
  import opened Bytes
  import opened Versions
  import opened Tables
  import opened Collapse
  import opened Sink
  import opened Compaction
  import opened CompactionTheorem
  import opened Log
  import opened Extension
  import opened Replay
  import opened WriteAhead
  import opened GroupCommit

  /** Everything but the commit protocol's own variables. */
  ghost predicate DataOk(s: State) {
    SegsOk(s) && TablesHold(s) && FilterOk(s) && (s.up ==> CkptOk(s))
  }

  ghost predicate OnlyCommits(s: State, s': State) {
    && s.up && s'.up && s'.d == s.d && s'.h == s.h && s'.c.written == s.c.written
    && s.c.synced <= s'.c.synced <= |s.c.written|
    && s'.c.walSeq >= s.c.walSeq && s'.c.readSeq >= s.c.readSeq && s'.c.applied >= s.c.applied
  }

  /** Steps that only move the commit protocol forward leave the rest alone. */
  lemma DataFrame(s: State, s': State)
    requires DataOk(s) && OnlyCommits(s, s')
    ensures DataOk(s')
  {
    hide Flat, LogView, HeldOk, SameReads, TablesOk, ViewOf, Distinct, NoCopy, SqnOf, ReplayLo;
    assert Skipped(s') == Skipped(s);
  }

  /** The prefix of the journal below an earlier batch does not change as it grows. */
  lemma PrefixStays(s: State, s': State, k: nat)
    requires s.c.written <= s'.c.written && k <= |s.c.written|
    ensures OpsBelow(s', k) == OpsBelow(s, k) <= |Hist(s)|
  {
    hide Flat;
    assert s'.c.written[..k] == s.c.written[..k];
    FlatPrefix(s.c.written, k);
  }

  lemma {:induction false} ReplayLoIsSegment(segs: seq<Segment>, boundary: nat, end: nat)
    requires exists i :: 0 <= i < |segs| && segs[i].num == boundary
    ensures exists i :: 0 <= i < |segs| && segs[i].num >= boundary && ReplayLo(segs, boundary, end) == segs[i].lo
  {
    if segs[0].num < boundary {
      var i :| 0 <= i < |segs| && segs[i].num == boundary;
      assert segs[1..][i-1] == segs[i];
      ReplayLoIsSegment(segs[1..], boundary, end);
      var j :| 0 <= j < |segs[1..]| && segs[1..][j].num >= boundary && ReplayLo(segs[1..], boundary, end) == segs[1..][j].lo;
      assert segs[j+1] == segs[1..][j];
    }
  }

  lemma {:induction false} ReplayLoAnyEnd(segs: seq<Segment>, boundary: nat, a: nat, b: nat)
    requires exists i :: 0 <= i < |segs| && segs[i].num == boundary
    ensures ReplayLo(segs, boundary, a) == ReplayLo(segs, boundary, b)
  {
    if segs[0].num < boundary {
      var i :| 0 <= i < |segs| && segs[i].num == boundary;
      assert segs[1..][i-1] == segs[i];
      ReplayLoAnyEnd(segs[1..], boundary, a, b);
    }
  }

  lemma SkippedStays(s: State, s': State)
    requires SegsOk(s) && s.c.written <= s'.c.written && s'.d.segs == s.d.segs && s'.d.boundary == s.d.boundary
    ensures Skipped(s') == Skipped(s) <= |Hist(s)|
  {
    hide Flat, ReplayLo;
    ReplayLoIsSegment(s.d.segs, s.d.boundary, |s.c.written|);
    ReplayLoAnyEnd(s.d.segs, s.d.boundary, |s.c.written|, |s'.c.written|);
    PrefixStays(s, s', ReplayLo(s.d.segs, s.d.boundary, |s.c.written|));
  }

  lemma WriteBatchData(s: State, s': State)
    requires Inv(s) && WriteBatch(s, s')
    ensures DataOk(s')
  {
    hide Flat, LogView, HeldOk, SameReads, TablesOk, ViewOf, Distinct, NoCopy, SqnOf, ReplayLo, Chain, BatchOk, LogOk, PhaseOk, AckedOk;
    var b := s.c.phase.group[s.c.phase.done];
    WriteMoves(s, s', b);
    ChainPositive(b, s.c.base + |Hist(s)| - s.c.head);
    SkippedStays(s, s');
    assert Hist(s')[..s.d.flushed] == Hist(s)[..s.d.flushed];
    forall i | |Hist(s)| <= i < |Hist(s')| ensures SqnOf(Hist(s')[i]) > s.c.readSeq {
      assert Hist(s')[i] == b[i - |Hist(s)|];
    }
    if s.d.ckpt.Ckpt? {
      PrefixStays(s, s', s.d.ckpt.start);
    }
  }

  lemma CommitStepFrame(s: State, s': State)
    requires CommitStep(s, s') && !WriteBatch(s, s') && s.c.synced <= |s.c.written|
    ensures OnlyCommits(s, s')
  {
    hide Flat, BatchOk, Chain;
  }

  lemma CommitStepData(s: State, s': State)
    requires Inv(s) && CommitStep(s, s')
    ensures DataOk(s')
  {
    hide CommitStep, WriteBatch, TablesHold, FilterOk, CkptOk, AckedOk, DataOk, OnlyCommits, PhaseOk, ReadOk, SessionOk;
    if WriteBatch(s, s') {
      WriteBatchData(s, s');
    } else {
      CommitStepFrame(s, s');
      DataFromInv(s);
      DataFrame(s, s');
    }
  }

  lemma DataFromInv(s: State)
    requires Inv(s)
    ensures DataOk(s)
  {
  }

  /** The commit protocol only sees the flush indices of the rest. */
  lemma CommitFrame(s: State, s': State)
    requires CommitOk(s) && s.up && s'.up && s'.c == s.c && s'.d.flushed <= s'.d.sealed <= s.c.applied
    ensures CommitOk(s')
  {
    hide Flat, LogOk, SqnOf, BatchOk, Chain, Tail;
    assert Unwritten(s') == Unwritten(s);
  }

  lemma FlushBeginKeeps(s: State, s': State, ck: bool)
    requires Inv(s) && FlushBegin(s, s', ck)
    ensures Inv(s')
  {
    hide Flat, LogView, HeldOk, SameReads, TablesOk, ViewOf, Distinct, NoCopy, SqnOf, ReplayLo, JournalOk, AckedOk, PhaseOk, SessionOk;
    CommitFrame(s, s');
  }

  lemma FlushFailsKeeps(s: State, s': State)
    requires Inv(s) && FlushFails(s, s')
    ensures Inv(s')
  {
    hide Flat, LogView, HeldOk, SameReads, TablesOk, ViewOf, Distinct, NoCopy, SqnOf, ReplayLo, JournalOk, AckedOk, PhaseOk, SessionOk;
    CommitFrame(s, s');
  }

  lemma CheckpointFailsKeeps(s: State, s': State)
    requires Inv(s) && CheckpointFails(s, s')
    ensures Inv(s')
  {
    hide Flat, LogView, HeldOk, SameReads, TablesOk, ViewOf, Distinct, NoCopy, SqnOf, ReplayLo, JournalOk, AckedOk, PhaseOk, SessionOk;
    CommitFrame(s, s');
  }

  lemma RotateManifestKeeps(s: State, s': State)
    requires Inv(s) && RotateManifest(s, s')
    ensures Inv(s')
  {
    hide Flat, LogView, HeldOk, SameReads, TablesOk, ViewOf, Distinct, NoCopy, SqnOf, ReplayLo, JournalOk, AckedOk, PhaseOk, SessionOk;
    CommitFrame(s, s');
  }

  lemma RotateKeeps(s: State, s': State)
    requires Inv(s) && Rotate(s, s')
    ensures Inv(s')
  {
    hide Flat, LogView, HeldOk, SameReads, TablesOk, ViewOf, Distinct, NoCopy, SqnOf, ReplayLo, JournalOk, AckedOk, SessionOk, BatchOk;
    assert s'.c == s.c;
    CommitFrame(s, s');
    AppendSegment(s.d.segs, Segment(s.d.fileNum + 1, |s.c.written|), s.d.boundary, |s.c.written|);
    assert s.c.written[..|s.c.written|] == s.c.written;
    var i :| 0 <= i < |s.d.segs| && s.d.segs[i].num == s.d.boundary;
    assert s'.d.segs[i].num == s'.d.boundary;
    assert Skipped(s') == Skipped(s);
  }

  lemma {:induction false} AppendSegment(segs: seq<Segment>, g: Segment, boundary: nat, end: nat)
    requires exists i :: 0 <= i < |segs| && segs[i].num == boundary
    ensures ReplayLo(segs + [g], boundary, end) == ReplayLo(segs, boundary, end)
  {
    assert (segs + [g])[0] == segs[0];
    if segs[0].num < boundary {
      var i :| 0 <= i < |segs| && segs[i].num == boundary;
      assert segs[1..][i-1] == segs[i];
      assert (segs + [g])[1..] == segs[1..] + [g];
      AppendSegment(segs[1..], g, boundary, end);
    }
  }

  lemma RotateFailsKeeps(s: State, s': State)
    requires Inv(s) && RotateFails(s, s')
    ensures Inv(s')
  {
    hide Flat, LogView, HeldOk, SameReads, TablesOk, ViewOf, Distinct, NoCopy, SqnOf, ReplayLo, JournalOk, BatchOk, Chain;
    assert Unwritten(s') == Unwritten(s);
    JournalFrame(s, s');
  }

  lemma JournalFrame(s: State, s': State)
    requires JournalOk(s) && s'.c.written == s.c.written && s'.c.synced == s.c.synced
    ensures JournalOk(s')
  {
  }

  /** Moving the boundary to the last segment. */
  lemma {:induction false} LastSegment(segs: seq<Segment>, end: nat)
    requires segs != [] && forall i, j :: 0 <= i < j < |segs| ==> segs[i].num < segs[j].num
    ensures ReplayLo(segs, segs[|segs|-1].num, end) == segs[|segs|-1].lo
  {
    if |segs| > 1 {
      LastSegment(segs[1..], end);
    }
  }

  lemma RecordBoundaryKeeps(s: State, s': State)
    requires Inv(s) && RecordBoundary(s, s')
    ensures Inv(s')
  {
    hide Flat, LogView, HeldOk, SameReads, TablesOk, ViewOf, Distinct, NoCopy, SqnOf, ReplayLo, JournalOk, AckedOk, PhaseOk, SessionOk;
    CommitFrame(s, s');
    LastSegment(s.d.segs, |s.c.written|);
    var n := |s.d.segs| - 1;
    assert s'.d.segs[n].num == s'.d.boundary;
    assert Skipped(s') == OpsBelow(s, s.d.ckpt.start);
    SkippedGrows(s, n);
  }

  /** Every segment at or above the boundary starts at or after the replay start. */
  lemma SkippedGrows(s: State, n: nat)
    requires SegsOk(s) && n == |s.d.segs| - 1
    ensures Skipped(s) <= OpsBelow(s, s.d.segs[n].lo) <= |Hist(s)|
  {
    hide Flat, ReplayLo;
    ReplayLoIsSegment(s.d.segs, s.d.boundary, |s.c.written|);
    var i :| 0 <= i < |s.d.segs| && s.d.segs[i].num >= s.d.boundary && ReplayLo(s.d.segs, s.d.boundary, |s.c.written|) == s.d.segs[i].lo;
    var a, b := s.d.segs[i].lo, s.d.segs[n].lo;
    assert a <= b <= |s.c.written|;
    assert s.c.written[..b][..a] == s.c.written[..a];
    FlatPrefix(s.c.written[..b], a);
    FlatPrefix(s.c.written, b);
  }

  lemma FinishCheckpointKeeps(s: State, s': State)
    requires Inv(s) && FinishCheckpoint(s, s')
    ensures Inv(s')
  {
    hide Flat, LogView, HeldOk, SameReads, TablesOk, ViewOf, Distinct, NoCopy, SqnOf, ReplayLo, JournalOk, AckedOk, PhaseOk, SessionOk;
    CommitFrame(s, s');
    LastSegment(s.d.segs, |s.c.written|);
    assert Skipped(s') == Skipped(s) == OpsBelow(s, s.d.ckpt.start);
  }

  lemma RemoveSegmentKeeps(s: State, s': State)
    requires Inv(s) && RemoveSegment(s, s')
    ensures Inv(s')
  {
    hide Flat, LogView, HeldOk, SameReads, TablesOk, ViewOf, Distinct, NoCopy, SqnOf, JournalOk, AckedOk, PhaseOk, SessionOk;
    CommitFrame(s, s');
    var i :| 0 <= i < |s.d.segs| && s.d.segs[i].num == s.d.boundary;
    assert s'.d.segs[i-1] == s.d.segs[i];
    assert Skipped(s') == Skipped(s);
    assert s'.d.segs[|s'.d.segs|-1] == s.d.segs[|s.d.segs|-1];
  }

  /** Nothing held is newer than the last logged change. */
  lemma HeldUpTo(w: View, log: seq<Change>, cutoff: int, rejected: set<(Bytes, nat)>)
    requires LogOk(log) && HeldOk(w, log, cutoff, rejected)
    ensures UpTo(w, LastSqn(log, 0)) && UpTo(LogView(log), LastSqn(log, 0))
  {
    hide LogView, ChangeOk;
    LogViewMember(log);
    forall f | f in LogView(log).points ensures f.sqn <= LastSqn(log, 0) {
      var i :| 0 <= i < |log| && f in PointsIn(log[i]);
      assert ChangeOk(log[i]);
      PointTouches(log[i], f);
    }
    forall e | e in w.points ensures e.sqn <= LastSqn(log, 0) {
      var f :| f in LogView(log).points && Replaces(e, f, cutoff, rejected);
    }
    forall d | d in LogView(log).dels ensures d.sqn <= LastSqn(log, 0) {
      var i :| 0 <= i < |log| && d in DelsIn(log[i]);
    }
  }

  /** Holding more of the log, exactly, keeps what is held accounted for. */
  lemma HeldGrows(w: View, log: seq<Change>, from: nat, cutoff: int, rejected: set<(Bytes, nat)>, had: nat)
    requires had <= |log| && from <= |log| && HeldOk(w, log[..had], cutoff, rejected)
    ensures HeldOk(Join(w, LogView(log[from..])), log, cutoff, rejected)
  {
    hide LogView;
    assert log == log[..had] + log[had..] && log == log[..from] + log[from..];
    LogViewConcat(log[..had], log[had..]);
    LogViewConcat(log[..from], log[from..]);
    var x := Join(w, LogView(log[from..]));
    forall e | e in x.points ensures exists f :: f in LogView(log).points && Replaces(e, f, cutoff, rejected) {
      if e in w.points {
        var f :| f in LogView(log[..had]).points && Replaces(e, f, cutoff, rejected);
        assert f in LogView(log).points;
      } else {
        assert e in LogView(log).points && Replaces(e, e, cutoff, rejected);
      }
    }
  }

  /** A part of an ascending log is one. */
  lemma PartOk(log: seq<Change>, lo: nat, hi: nat)
    requires LogOk(log) && lo <= hi <= |log|
    ensures LogOk(log[lo..hi])
  {
    hide SqnOf, ChangeOk;
    assert forall i :: 0 <= i < hi - lo ==> log[lo..hi][i] == log[lo + i];
  }

  /** What the log holds from `lo` on lies above `n`. */
  lemma ViewAbove(log: seq<Change>, n: nat)
    requires LogOk(log) && forall i :: 0 <= i < |log| ==> SqnOf(log[i]) > n
    ensures forall e :: e in LogView(log).points ==> e.sqn > n
  {
    hide LogView, ChangeOk;
    LogViewMember(log);
    forall e | e in LogView(log).points ensures e.sqn > n {
      var i :| 0 <= i < |log| && e in PointsIn(log[i]);
      PointTouches(log[i], e);
    }
  }

  /** The tables, one more table of newer changes added. */
  lemma FlushedHolds(log: seq<Change>, f: nat, m: nat, w: View, floor: nat, cutoff: int, rejected: set<(Bytes, nat)>)
    requires LogOk(log) && f <= m <= |log| && HeldOk(w, log[..f], cutoff, rejected)
    requires forall i :: 0 <= i < |log| ==> SqnOf(log[i]) > 0
    ensures HeldOk(Join(w, LogView(log[f..m])), log[..m], cutoff, rejected)
    ensures SameReads(w, LogView(log[..f]), floor, cutoff) ==>
              SameReads(Join(w, LogView(log[f..m])), LogView(log[..m]), floor, cutoff)
    ensures UpTo(w, LastSqn(log[..f], 0)) && forall e :: e in LogView(log[f..m]).points ==> e.sqn > LastSqn(log[..f], 0)
  {
    hide LogView, SameReads, ChangeOk, HeldOk, SqnOf, UpTo;
    var whole, done, more := log[..m], log[..f], log[f..m];
    assert whole[..f] == done && whole[f..] == more && done + more == whole;
    PartOk(log, 0, m);
    PartOk(log, 0, f);
    PartOk(log, f, m);
    HeldGrows(w, whole, f, cutoff, rejected, f);
    HeldUpTo(w, done, cutoff, rejected);
    var n := LastSqn(done, 0);
    assert forall i :: 0 <= i < |more| ==> SqnOf(more[i]) > n by { LogAscends(log); }
    ViewAbove(more, n);
    if SameReads(w, LogView(done), floor, cutoff) {
      ExtendMany(w, done, more, n, floor, cutoff);
    }
  }

  lemma FlushEndKeeps(s: State, s': State, t: Table)
    requires Inv(s) && FlushEnd(s, s', t)
    ensures Inv(s')
  {
    hide Flat, LogView, HeldOk, SameReads, TablesOk, ViewOf, Distinct, NoCopy, SqnOf, ReplayLo, AckedOk, PhaseOk, SessionOk, TableOk, UpTo, LogOk, BatchOk;
    CommitFrame(s, s');
    assert Skipped(s') == Skipped(s);
    if s.d.flushed < s.d.sealed {
      AppendOk(s.d.tables, t, s.d.fileNum);
      ViewAppends(s.d.tables, [t]);
      FlushedHolds(Hist(s), s.d.flushed, s.d.sealed, ViewOf(s.d.tables), s.h.floor, s.h.cutoff, s.h.rejected);
      forall i | 0 <= i < s.d.sealed ensures SqnOf(Hist(s)[i]) <= s.c.walSeq { HistBelow(s, i); }
      FlushFilter(s, t);
    }
  }

  /** A freshly flushed table holds nothing the filters have rejected, and no version held before. */
  lemma FlushFilter(s: State, t: Table)
    requires JournalOk(s) && TablesHold(s) && FilterOk(s) && s.d.flushed <= s.d.sealed <= |Hist(s)|
    requires ViewOf([t]) == LogView(Hist(s)[s.d.flushed..s.d.sealed])
    requires UpTo(ViewOf(s.d.tables), LastSqn(Hist(s)[..s.d.flushed], 0))
    requires forall e :: e in ViewOf([t]).points ==> e.sqn > LastSqn(Hist(s)[..s.d.flushed], 0)
    ensures !s.h.copied ==> NoCopy(s.h.rejected, Join(ViewOf(s.d.tables), ViewOf([t])))
    ensures !s.h.replayed ==> Distinct(s.d.tables + [t])
  {
    hide Flat, LogView, HeldOk, SameReads, TablesOk, ReplayLo, ViewOf, UpTo, Distinct, Skipped, LogOk, SqnOf;
    forall g | g in ViewOf([t]).points ensures (g.key, g.sqn) !in s.h.rejected {
      var i := LoggedAt(Hist(s), s.d.flushed, s.d.sealed, g);
    }
    if !s.h.replayed {
      OneTable(t);
      assert forall e :: e in t.points ==> e in PointSet(t.points);
      AppendDistinct(s.d.tables, t, LastSqn(Hist(s)[..s.d.flushed], 0));
    }
  }

  /** A version in the view of part of the log comes from a change in that part. */
  lemma LoggedAt(log: seq<Change>, lo: nat, hi: nat, g: Entry) returns (i: nat)
    requires LogOk(log) && lo <= hi <= |log| && g in LogView(log[lo..hi]).points
    ensures lo <= i < hi && g.sqn == SqnOf(log[i])
  {
    hide LogView, SqnOf, ChangeOk;
    LogViewMember(log[lo..hi]);
    var k :| 0 <= k < |log[lo..hi]| && g in PointsIn(log[lo..hi][k]);
    i := lo + k;
    PointTouches(log[i], g);
  }

  /** A table of newer versions only shares none with the others. */
  lemma AppendDistinct(ts: seq<Table>, t: Table, n: nat)
    requires Distinct(ts) && UpTo(ViewOf(ts), n) && forall e :: e in t.points ==> e.sqn > n
    ensures Distinct(ts + [t])
  {
    forall u, e | u in ts && e in u.points ensures e.sqn <= n {
      assert e in ViewOf(ts).points;
    }
  }

  lemma ReplacesWiden(e: Entry, f: Entry, c: int, r: set<(Bytes, nat)>, c': int, r': set<(Bytes, nat)>)
    requires Replaces(e, f, c, r) && c <= c' && r <= r'
    ensures Replaces(e, f, c', r')
  {
  }

  /** What a merge writes still stands for what was logged. */
  lemma MergeReplaces(w: View, rc: Reclaim, retain: nat, rw: Rewrite, e: Entry, f: Entry, cutoff: int, rejected: set<(Bytes, nat)>)
    requires Survives(w, rc, retain, rw, e) && Replaces(e, f, cutoff, rejected)
    ensures Replaces(Resolve(rw, e), f, MaxInt(cutoff, rw.cutoff), rejected + RejectedIn(w, retain, rw))
  {
    var g := Resolve(rw, e);
    if g != e && Resolve(Unfiltered(rw.cutoff), e) == e {
      assert (e.key, e.sqn) in RejectedIn(w, retain, rw);
    }
  }

  lemma MergeHeld(w: View, out: View, left: View, rc: Reclaim, retain: nat, rw: Rewrite,
                  log: seq<Change>, cutoff: int, rejected: set<(Bytes, nat)>)
    requires Collapsed(w, out, rc, retain, rw) && HeldOk(Join(w, left), log, cutoff, rejected)
    ensures HeldOk(Join(out, left), log, MaxInt(cutoff, rw.cutoff), rejected + RejectedIn(w, retain, rw))
  {
    hide LogView, Survives, Resolve, Replaces, RejectedIn;
    var c', r' := MaxInt(cutoff, rw.cutoff), rejected + RejectedIn(w, retain, rw);
    forall g | g in Join(out, left).points ensures exists f :: f in LogView(log).points && Replaces(g, f, c', r') {
      if g in out.points {
        var e :| Survives(w, rc, retain, rw, e) && g == Resolve(rw, e);
        assert e in w.points by { SurvivorHeld(w, rc, retain, rw, e); }
        assert e in Join(w, left).points;
        var f :| f in LogView(log).points && Replaces(e, f, cutoff, rejected);
        MergeReplaces(w, rc, retain, rw, e, f, cutoff, rejected);
      } else {
        assert g in Join(w, left).points;
        var f :| f in LogView(log).points && Replaces(g, f, cutoff, rejected);
        ReplacesWiden(g, f, cutoff, rejected, c', r');
      }
    }
  }

  lemma SurvivorHeld(w: View, rc: Reclaim, retain: nat, rw: Rewrite, e: Entry)
    requires Survives(w, rc, retain, rw, e)
    ensures e in w.points && Resolve(rw, e).key == e.key && Resolve(rw, e).sqn == e.sqn
    ensures e.payload.Tombstone? ==> Resolve(rw, e) == e
  {
  }

  lemma UnfilteredRejectsNothing(w: View, retain: nat, c: int)
    ensures RejectedIn(w, retain, Unfiltered(c)) == {}
  {
  }

  /** A copy of a rejected version meets the same fate as the version. */
  lemma CopyRejected(w: View, rw: Rewrite, log: seq<Change>, cutoff: int, rejected: set<(Bytes, nat)>, e: Entry, e0: Entry)
    requires LogOk(log) && HeldOk(w, log, cutoff, rejected) && e in w.points && e0 in w.points
    requires e.key == e0.key && e.sqn == e0.sqn && Rejects(rw, e0)
    ensures Resolve(rw, e).payload.Tombstone?
  {
    hide LogView, LogOk;
    var f :| f in LogView(log).points && Replaces(e, f, cutoff, rejected);
    var f0 :| f0 in LogView(log).points && Replaces(e0, f0, cutoff, rejected);
    LoggedOnce(log, f, f0);
  }

  lemma MergeNoCopy(w: View, out: View, left: View, rc: Reclaim, retain: nat, rw: Rewrite,
                    log: seq<Change>, cutoff: int, rejected: set<(Bytes, nat)>)
    requires Collapsed(w, out, rc, retain, rw) && LogOk(log) && HeldOk(Join(w, left), log, cutoff, rejected)
    requires NoCopy(rejected, Join(w, left)) && NoCopy(RejectedIn(w, retain, rw), left)
    ensures NoCopy(rejected + RejectedIn(w, retain, rw), Join(out, left))
  {
    hide LogView, LogOk, HeldOk, Survives, Resolve;
    forall g | g in out.points && (g.key, g.sqn) in rejected + RejectedIn(w, retain, rw) ensures g.payload.Tombstone? {
      var e :| Survives(w, rc, retain, rw, e) && g == Resolve(rw, e);
      SurvivorHeld(w, rc, retain, rw, e);
      assert e in Join(w, left).points;
      if (g.key, g.sqn) !in rejected {
        var e0 :| e0 in w.points && Rejects(rw, e0) && (e0.key, e0.sqn) == (g.key, g.sqn);
        assert e0 in Join(w, left).points;
        CopyRejected(Join(w, left), rw, log, cutoff, rejected, e, e0);
      }
    }
    forall g | g in left.points && (g.key, g.sqn) in rejected + RejectedIn(w, retain, rw) ensures g.payload.Tombstone? {
      assert g in Join(w, left).points;
    }
  }

  /** Tables with no version in common merge into tables with none. */
  lemma MergeDistinct(tables: seq<Table>, inputs: seq<Table>, outs: seq<Table>, rc: Reclaim, retain: nat, rw: Rewrite,
                      depth: nat, lo: nat, hi: nat)
    requires TablesOk(tables) && Subset(inputs, tables) && Distinct(tables)
    requires FreshTables(outs, depth, lo, hi) && Collapsed(ViewOf(inputs), ViewOf(outs), rc, retain, rw)
    ensures Distinct(Without(tables, inputs) + outs)
  {
    hide TablesOk, TableOk, Subset, Survives, Resolve, Without, Lt, Guarded;
    var left := Without(tables, inputs);
    forall t, u, e, g | t in left + outs && u in left + outs && t.num != u.num && e in t.points && g in u.points
      ensures e.key != g.key || e.sqn != g.sqn
    {
      if t in left && u in left {
        WithoutIsRest(tables, inputs, t);
        WithoutIsRest(tables, inputs, u);
      } else if t in left {
        MergedApart(tables, inputs, outs, rc, retain, rw, t, e, g);
      } else if u in left {
        MergedApart(tables, inputs, outs, rc, retain, rw, u, g, e);
      } else {
        OutsApart(outs, t, u, e, g);
      }
    }
  }

  lemma MergedApart(tables: seq<Table>, inputs: seq<Table>, outs: seq<Table>, rc: Reclaim, retain: nat, rw: Rewrite, t: Table, e: Entry, g: Entry)
    requires TablesOk(tables) && Subset(inputs, tables) && Distinct(tables) && t in Without(tables, inputs) && e in t.points
    requires Collapsed(ViewOf(inputs), ViewOf(outs), rc, retain, rw) && g in PointsOf(outs)
    ensures e.key != g.key || e.sqn != g.sqn
  {
    hide TablesOk, TableOk, Subset, Survives, Resolve, Without, Guarded;
    WithoutMember(tables, inputs, t);
    assert g in ViewOf(outs).points;
    var e' :| Survives(ViewOf(inputs), rc, retain, rw, e') && g == Resolve(rw, e');
    SurvivorHeld(ViewOf(inputs), rc, retain, rw, e');
    var u :| u in inputs && e' in u.points;
    MemberOfPart(inputs, tables, u);
  }

  lemma OutsApart(outs: seq<Table>, t: Table, u: Table, e: Entry, g: Entry)
    requires KeysApart(outs) && t in outs && u in outs && t.num != u.num && e in t.points && g in u.points
    ensures e.key != g.key
  {
    var i :| 0 <= i < |outs| && outs[i] == t;
    var j :| 0 <= j < |outs| && outs[j] == u;
    OrderLaws();
  }

  /** Any merge, filtered or not: the table set stays accounted for. */
  lemma MergeKeeps(s: State, s': State, inputs: seq<Table>, outs: seq<Table>, rc: Reclaim, retain: nat, rw: Rewrite, depth: nat, last: nat)
    requires JournalOk(s) && TablesHold(s) && FilterOk(s) && Merges(s, inputs, outs, rc, retain, rw, depth, last)
    requires s'.c == s.c && s'.d == s.d.(tables := Without(s.d.tables, inputs) + outs, fileNum := last, lastSeq := s.c.walSeq)
    requires s'.h.cutoff == MaxInt(s.h.cutoff, rw.cutoff) && s'.h.rejected == s.h.rejected + RejectedIn(ViewOf(inputs), retain, rw)
    requires s'.h.copied == (s.h.copied || !NoCopy(RejectedIn(ViewOf(inputs), retain, rw), ViewOf(Without(s.d.tables, inputs))))
    requires s'.h.replayed == s.h.replayed
    ensures TablesOk(s'.d.tables) && (forall i :: 0 <= i < |s'.d.tables| ==> s'.d.tables[i].num <= last)
    ensures HeldOk(ViewOf(s'.d.tables), Hist(s)[..s.d.flushed], s'.h.cutoff, s'.h.rejected)
    ensures !s'.h.copied ==> NoCopy(s'.h.rejected, ViewOf(s'.d.tables))
    ensures !s'.h.replayed ==> Distinct(s'.d.tables)
  {
    hide Flat, LogView, HeldOk, SameReads, TablesOk, ViewOf, Distinct, NoCopy, SqnOf, ReplayLo, TableOk, LogOk, Subset, Guarded, Collapsed,
         FreshTables, Without, RejectedIn, BatchOk;
    CommittedOk(s.d.tables, inputs, outs, depth, 0, last);
    var left := Without(s.d.tables, inputs);
    ViewSplits(s.d.tables, inputs);
    ViewAppends(left, outs);
    assert ViewOf(s'.d.tables) == Join(ViewOf(outs), ViewOf(left));
    var log := Hist(s)[..s.d.flushed];
    PartOk(Hist(s), 0, s.d.flushed);
    assert log == Hist(s)[0..s.d.flushed];
    MergeHeld(ViewOf(inputs), ViewOf(outs), ViewOf(left), rc, retain, rw, log, s.h.cutoff, s.h.rejected);
    if !s'.h.copied {
      MergeNoCopy(ViewOf(inputs), ViewOf(outs), ViewOf(left), rc, retain, rw, log, s.h.cutoff, s.h.rejected);
    }
    if !s'.h.replayed {
      MergeDistinct(s.d.tables, inputs, outs, rc, retain, rw, depth, 0, last);
    }
  }

  lemma CompactsReads(s: State, s': State, inputs: seq<Table>, outs: seq<Table>, rc: Reclaim, retain: nat, c: int, depth: nat, last: nat)
    requires TablesHold(s) && Compacts(s, s', inputs, outs, rc, retain, c, depth, last) && !s.h.filtered
    ensures SameReads(ViewOf(s'.d.tables), LogView(Hist(s)[..s.d.flushed]), s'.h.floor, s'.h.cutoff)
  {
    hide Flat, LogView, HeldOk, SameReads, TablesOk, ViewOf, Subset, Guarded, Collapsed, FreshTables, Without;
    var a, b := ViewOf(s.d.tables), ViewOf(s'.d.tables);
    var none := View({}, {});
    EmptyNewer(ViewOf(inputs));
    CompactionPreservesReads(s.d.tables, inputs, outs, rc, retain, Unfiltered(c), none);
    assert Join(a, none) == a && Join(b, none) == b;
    SameReadsWiden(a, b, retain, c, s'.h.floor, s'.h.cutoff);
    SameReadsWiden(a, LogView(Hist(s)[..s.d.flushed]), s.h.floor, s.h.cutoff, s'.h.floor, s'.h.cutoff);
    SameReadsChain(a, b, LogView(Hist(s)[..s.d.flushed]), s'.h.floor, s'.h.cutoff);
  }

  lemma CompactsKeeps(s: State, s': State, inputs: seq<Table>, outs: seq<Table>, rc: Reclaim, retain: nat, c: int, depth: nat, last: nat)
    requires Inv(s) && Compacts(s, s', inputs, outs, rc, retain, c, depth, last)
    ensures Inv(s')
  {
    hide Flat, LogView, HeldOk, SameReads, TablesOk, ViewOf, Distinct, NoCopy, SqnOf, ReplayLo, AckedOk, PhaseOk, SessionOk, JournalOk,
         TableOk, Subset, Guarded, Collapsed, FreshTables, Without, RejectedIn;
    CommitFrame(s, s');
    UnfilteredRejectsNothing(ViewOf(inputs), retain, c);
    assert NoCopy({}, ViewOf(Without(s.d.tables, inputs))) by { NothingRejected(ViewOf(Without(s.d.tables, inputs))); }
    MergeKeeps(s, s', inputs, outs, rc, retain, Unfiltered(c), depth, last);
    assert Skipped(s') == Skipped(s);
    if !s.h.filtered {
      CompactsReads(s, s', inputs, outs, rc, retain, c, depth, last);
    }
  }

  lemma NothingRejected(w: View)
    ensures NoCopy({}, w)
  {
  }

  /** A filter sees only what is at or below its bound. */
  lemma RejectedBound(w: View, retain: nat, rw: Rewrite)
    requires rw.through > 0
    ensures forall r :: r in RejectedIn(w, retain, rw) ==> r.1 <= rw.through
  {
  }

  lemma FiltersKeeps(s: State, s': State, inputs: seq<Table>, outs: seq<Table>, rc: Reclaim, retain: nat, rw: Rewrite, depth: nat, last: nat)
    requires Inv(s) && Filters(s, s', inputs, outs, rc, retain, rw, depth, last)
    ensures Inv(s')
  {
    hide Flat, LogView, HeldOk, SameReads, TablesOk, ViewOf, Distinct, NoCopy, SqnOf, ReplayLo, AckedOk, PhaseOk, SessionOk, JournalOk,
         TableOk, Subset, Guarded, Collapsed, FreshTables, Without, RejectedIn;
    CommitFrame(s, s');
    MergeKeeps(s, s', inputs, outs, rc, retain, rw, depth, last);
    RejectedBound(ViewOf(inputs), retain, rw);
    assert Skipped(s') == Skipped(s);
  }

  lemma CrashKeeps(s: State, s': State, keep: nat)
    requires Inv(s) && Crash(s, s', keep)
    ensures Inv(s')
  {
    hide Flat, LogView, HeldOk, SameReads, TablesOk, ViewOf, Distinct, NoCopy, SqnOf, ReplayLo, SessionOk, BatchOk, LogOk;
    FlatPrefix(s.c.written, keep);
    FlatPrefix(s.c.written[..keep], s.c.synced);
    assert s.c.written[..keep][..s.c.synced] == s.c.written[..s.c.synced];
    PartOk(Hist(s), 0, |Hist(s')|);
    assert Hist(s)[0..|Hist(s')|] == Hist(s');
    SkippedStays(s', s) by { assert SegsOk(s'); }
    assert !s.up ==> s'.c.written == s.c.written;
    assert s.d.flushed <= |Hist(s')|;
    assert Hist(s')[..s.d.flushed] == Hist(s)[..s.d.flushed];
    assert s.up ==> Hist(s')[..s.c.applied] == Hist(s)[..s.c.applied];
    forall c | c in s.c.acked ensures c in Hist(s') {
      if s.up {
        assert c in Hist(s')[..s.c.applied];
      }
    }
  }

  lemma TablesAppend(ts: seq<Table>, outs: seq<Table>, lo: nat, hi: nat)
    requires TablesOk(ts) && lo < hi && forall i :: 0 <= i < |ts| ==> ts[i].num <= lo
    requires forall i :: 0 <= i < |outs| ==> TableOk(outs[i]) && lo < outs[i].num < hi
    requires forall i, j :: 0 <= i < j < |outs| ==> outs[i].num != outs[j].num
    ensures TablesOk(ts + outs) && forall i :: 0 <= i < |ts + outs| ==> (ts + outs)[i].num <= hi
  {
    hide TableOk;
  }

  /** After recovery the sequence counter is past everything on record. */
  lemma StartCovers(s: State, i: nat)
    requires JournalOk(s) && TablesHold(s) && i < |Hist(s)|
    ensures SqnOf(Hist(s)[i]) <= LastSqn(Hist(s)[Skipped(s)..], s.d.lastSeq)
  {
    hide Flat, LogView, HeldOk, SameReads, TablesOk, ViewOf, SqnOf, ReplayLo;
    LogAscends(Hist(s));
    var b := Skipped(s);
    if i >= b {
      var rest := Hist(s)[b..];
      assert rest[|rest|-1] == Hist(s)[|Hist(s)|-1];
    }
  }

  lemma RecoverCommits(s: State, s': State, outs: seq<Table>, lo: nat, num: nat)
    requires Inv(s) && Recover(s, s', outs, lo, num)
    ensures CommitOk(s')
  {
    hide Flat, LogView, HeldOk, SameReads, TablesOk, ViewOf, Distinct, NoCopy, SqnOf, ReplayLo, BatchOk, LogOk, SegsOk, FilterOk;
    forall i | 0 <= i < |Hist(s)| ensures SqnOf(Hist(s)[i]) <= s'.c.base { StartCovers(s, i); }
    assert s.c.written[..|s.c.written|] == s.c.written;
    assert Unwritten(s') == [];
    assert Flat([]) == [] by { FlatPrefix([], 0); EmptyFlat(); }
    assert Hist(s')[|Hist(s')|..] == [];
    assert Hist(s')[..|Hist(s')|] == Hist(s);
  }

  lemma EmptyFlat()
    ensures Flat([]) == []
  {
  }

  lemma HeldFromLog(w: View, log: seq<Change>, cutoff: int)
    requires HeldOk(w, log, cutoff, {})
    ensures FromLog(w, log, cutoff)
  {
    hide LogView;
    forall e | e in w.points ensures exists f :: f in LogView(log).points && Stands(e, f, cutoff) {
      var f :| f in LogView(log).points && Replaces(e, f, cutoff, {});
    }
  }

  /** The recovered tables hold the whole journal, and read as it does. */
  lemma RecoverReads(s: State)
    requires JournalOk(s) && TablesHold(s)
    ensures HeldOk(Join(ViewOf(s.d.tables), LogView(Hist(s)[Skipped(s)..])), Hist(s), s.h.cutoff, s.h.rejected)
    ensures !s.h.filtered ==>
              SameReads(Join(ViewOf(s.d.tables), LogView(Hist(s)[Skipped(s)..])), LogView(Hist(s)), s.h.floor, s.h.cutoff)
  {
    hide Flat, LogView, HeldOk, SameReads, TablesOk, ViewOf, SqnOf, ReplayLo, LogOk, UpTo, FromLog, BatchOk, Skipped;
    var w, b, f, log := ViewOf(s.d.tables), Skipped(s), s.d.flushed, Hist(s);
    HeldGrows(w, log, b, s.h.cutoff, s.h.rejected, f);
    if !s.h.filtered {
      HeldFromLog(w, log[..f], s.h.cutoff);
      PartOk(log, 0, f);
      assert log[0..f] == log[..f];
      HeldUpTo(w, log[..f], s.h.cutoff, s.h.rejected);
      LogAscends(log);
      RecoveryReads(w, log, b, f, LastSqn(log[..f], 0), s.h.floor, s.h.cutoff);
    }
  }

  /** Replay brings back nothing a filter rejected. */
  lemma RecoverFilters(s: State, outs: seq<Table>)
    requires JournalOk(s) && TablesHold(s) && FilterOk(s)
    requires ViewOf(outs) == LogView(Hist(s)[Skipped(s)..]) && Distinct(outs)
    ensures !s.h.copied ==> NoCopy(s.h.rejected, Join(ViewOf(s.d.tables), ViewOf(outs)))
    ensures !s.h.replayed && Skipped(s) >= s.d.flushed ==> Distinct(s.d.tables + outs)
  {
    hide Flat, LogView, HeldOk, SameReads, TablesOk, ReplayLo, LogOk, BatchOk, Skipped;
    var b := Skipped(s);
    var log := Hist(s)[b..];
    forall g | g in ViewOf(outs).points ensures (g.key, g.sqn) !in s.h.rejected {
      var i := ReplayedAt(s, g);
    }
    if !s.h.replayed && b >= s.d.flushed {
      PartOk(Hist(s), 0, b);
      assert Hist(s)[0..b] == Hist(s)[..b];
      HeldUpTo(ViewOf(s.d.tables), Hist(s)[..b], s.h.cutoff, s.h.rejected);
      var n := LastSqn(Hist(s)[..b], 0);
      forall g | g in ViewOf(outs).points ensures g.sqn > n {
        var i := ReplayedAt(s, g);
        LogAscends(Hist(s));
      }
      ConcatDistinct(s.d.tables, outs, n);
    }
  }

  lemma ReplayedAt(s: State, g: Entry) returns (i: nat)
    requires JournalOk(s) && Skipped(s) <= |Hist(s)| && g in LogView(Hist(s)[Skipped(s)..]).points
    ensures Skipped(s) <= i < |Hist(s)| && g.sqn == SqnOf(Hist(s)[i])
  {
    hide Flat, LogView, ReplayLo, Skipped, LogOk, SqnOf;
    assert Hist(s)[Skipped(s)..] == Hist(s)[Skipped(s)..|Hist(s)|];
    i := LoggedAt(Hist(s), Skipped(s), |Hist(s)|, g);
  }

  lemma ConcatDistinct(ts: seq<Table>, outs: seq<Table>, n: nat)
    requires Distinct(ts) && Distinct(outs) && UpTo(ViewOf(ts), n) && forall g :: g in ViewOf(outs).points ==> g.sqn > n
    ensures Distinct(ts + outs)
  {
    forall u, e | u in ts && e in u.points ensures e.sqn <= n {
      assert e in ViewOf(ts).points;
    }
    forall u, e | u in outs && e in u.points ensures e.sqn > n {
      assert e in ViewOf(outs).points;
    }
  }

  lemma RecoverKeeps(s: State, s': State, outs: seq<Table>, lo: nat, num: nat)
    requires Inv(s) && Recover(s, s', outs, lo, num)
    ensures Inv(s')
  {
    hide Flat, LogView, HeldOk, SameReads, TablesOk, TableOk, ViewOf, Distinct, NoCopy, SqnOf, ReplayLo, BatchOk, LogOk, PhaseOk, SessionOk, ReadOk, AckedOk, JournalOk;
    RecoverCommits(s, s', outs, lo, num);
    assert JournalOk(s) && JournalOk(s');
    ViewAppends(s.d.tables, outs);
    TablesAppend(s.d.tables, outs, lo, num);
    RecoverReads(s);
    RecoverFilters(s, outs);
    assert Hist(s')[..|Hist(s')|] == Hist(s);
    forall i | 0 <= i < |Hist(s)| ensures SqnOf(Hist(s)[i]) <= s'.d.lastSeq { StartCovers(s, i); }
    RecoverSegs(s, s');
  }

  lemma RecoverSegs(s: State, s': State)
    requires SegsOk(s) && s'.c.written == s.c.written && s'.c.synced == |s.c.written|
    requires s'.d.boundary == s'.d.fileNum > s.d.fileNum && s'.d.segs == s.d.segs + [Segment(s'.d.boundary, |s.c.written|)]
    ensures SegsOk(s') && Skipped(s') == |Hist(s)|
  {
    hide Flat, ReplayLo;
    var n := |s'.d.segs| - 1;
    assert s'.d.segs[n].num == s'.d.boundary;
    LastSegment(s'.d.segs, |s'.c.written|);
    assert s.c.written[..|s.c.written|] == s.c.written;
  }

  lemma InitInv(s: State)
    requires Init(s)
    ensures Inv(s)
  {
    hide SameReads;
    EmptyFlat();
    assert s.c.written[..0] == [];
    assert Hist(s) == [] && Unwritten(s) == [];
    LogViewEmpty();
    assert ViewOf([]) == View({}, {});
    SameReadsSelf(View({}, {}), s.h.floor, s.h.cutoff);
    assert s.d.segs[0].num == s.d.boundary;
  }

  lemma SameReadsSelf(w: View, floor: nat, cutoff: int)
    ensures SameReads(w, w, floor, cutoff)
  {
  }

  lemma CommitStepInv(s: State, s': State)
    requires Inv(s) && CommitStep(s, s')
    ensures Inv(s')
  {
    hide CommitOk, TablesHold, FilterOk, CkptOk, SegsOk, CommitStep;
    CommitStepKeeps(s, s');
    CommitStepData(s, s');
    CommitStepUp(s, s');
  }

  lemma CommitStepUp(s: State, s': State)
    requires CommitStep(s, s')
    ensures s.up && s'.up
  {
    hide Flat, BatchOk, Chain;
  }

  lemma TableStepInv(s: State, s': State)
    requires Inv(s) && TableStep(s, s')
    ensures Inv(s')
  {
    hide Inv, FlushBegin, FlushEnd, FlushFails, Rotate, RotateFails, RecordBoundary, FinishCheckpoint, CheckpointFails, RemoveSegment,
         RotateManifest, Compacts, Filters;
    if ck :| FlushBegin(s, s', ck) {
      FlushBeginKeeps(s, s', ck);
    } else if t :| FlushEnd(s, s', t) {
      FlushEndKeeps(s, s', t);
    } else if FlushFails(s, s') {
      FlushFailsKeeps(s, s');
    } else if Rotate(s, s') {
      RotateKeeps(s, s');
    } else if RotateFails(s, s') {
      RotateFailsKeeps(s, s');
    } else if RecordBoundary(s, s') {
      RecordBoundaryKeeps(s, s');
    } else if FinishCheckpoint(s, s') {
      FinishCheckpointKeeps(s, s');
    } else if CheckpointFails(s, s') {
      CheckpointFailsKeeps(s, s');
    } else if RemoveSegment(s, s') {
      RemoveSegmentKeeps(s, s');
    } else if RotateManifest(s, s') {
      RotateManifestKeeps(s, s');
    } else if inputs, outs, rc, retain, c, depth, last :| Compacts(s, s', inputs, outs, rc, retain, c, depth, last) {
      CompactsKeeps(s, s', inputs, outs, rc, retain, c, depth, last);
    } else {
      var inputs, outs, rc, retain, rw, depth, last :| Filters(s, s', inputs, outs, rc, retain, rw, depth, last);
      FiltersKeeps(s, s', inputs, outs, rc, retain, rw, depth, last);
    }
  }

  lemma {:induction false} RunInv(states: seq<State>, i: nat)
    requires Run(states) && i < |states|
    ensures Inv(states[i])
  {
    hide Inv, Init, CommitStep, TableStep, Crash, Recover;
    if i == 0 {
      InitInv(states[0]);
    } else {
      RunInv(states, i - 1);
      var s, s' := states[i-1], states[i-1+1];
      assert Step(s, s');
      if CommitStep(s, s') {
        CommitStepInv(s, s');
      } else if TableStep(s, s') {
        TableStepInv(s, s');
      } else if keep :| Crash(s, s', keep) {
        CrashKeeps(s, s', keep);
      } else {
        var outs, lo, num :| Recover(s, s', outs, lo, num);
        RecoverKeeps(s, s', outs, lo, num);
      }
    }
  }
}
