/** The promises of the durable store, over every run. */
module CrashSafety {
  import opened Bytes
  import opened Versions
  import opened Tables
  import opened Collapse
  import opened Compaction
  import opened CompactionTheorem
  import opened Log
  import opened Extension
  import opened Replay
  import opened WriteAhead
  import opened GroupCommit
  import opened Recovery
  import opened Scan

  /** Everything a reader of a running store sees: the tables and both memtables. */
  function Visibly(s: State): View
    requires s.d.flushed <= s.c.applied <= |Hist(s)|
  {
    Join(ViewOf(s.d.tables), LogView(Hist(s)[s.d.flushed..s.c.applied]))
  }

  /** While the store runs, reads agree with the log of everything applied. */
  lemma RunningReads(states: seq<State>, i: nat, key: Bytes, n: nat, now: int, v: Visible)
    requires Run(states) && i < |states|
    ensures Inv(states[i])
    ensures states[i].up && !states[i].h.filtered && n >= states[i].h.floor && now >= states[i].h.cutoff ==>
              (Live(Visibly(states[i]), key, n, now, v) <==> LogRead(Hist(states[i])[..states[i].c.applied], key, n, now, v))
  {
    hide Flat, LogView, HeldOk, Live, LogRead, LogOk, ViewOf, Run, CkptOk, SessionOk, PhaseOk, FilterOk, SegsOk, TablesOk;
    RunInv(states, i);
    var s := states[i];
    if s.up && !s.h.filtered && n >= s.h.floor && now >= s.h.cutoff {
      var log := Hist(s);
      FlushedHolds(log, s.d.flushed, s.c.applied, ViewOf(s.d.tables), s.h.floor, s.h.cutoff, s.h.rejected);
      PartOk(log, 0, s.c.applied);
      assert log[0..s.c.applied] == log[..s.c.applied];
      ViewReadsAsLog(log[..s.c.applied], key, n, now, v);
    }
  }

  /** Held versions of one key at one sequence stand for one logged version. */
  ghost predicate Accounted(w: View, log: seq<Change>, cutoff: int, rejected: set<(Bytes, nat)>) {
    LogOk(log) && HeldOk(w, log, cutoff, rejected) && NoCopy(rejected, w)
  }

  /** So at or after the cutoff they show the same, and a merge folds them into one. */
  lemma CopiesAgree(w: View, log: seq<Change>, cutoff: int, rejected: set<(Bytes, nat)>, now: int, e: Entry, f: Entry)
    requires Accounted(w, log, cutoff, rejected) && now >= cutoff && e in w.points && f in w.points && e.key == f.key && e.sqn == f.sqn
    ensures Outcome(e.payload, now) == Outcome(f.payload, now)
    ensures Kind(f.payload) <= Kind(e.payload) ==> DroppableDuplicate(f, e, now)
  {
    hide LogView, LogOk;
    var g :| g in LogView(log).points && Replaces(e, g, cutoff, rejected);
    var h :| h in LogView(log).points && Replaces(f, h, cutoff, rejected);
    LoggedOnce(log, g, h);
  }

  lemma AccountedAgrees(w: View, log: seq<Change>, cutoff: int, rejected: set<(Bytes, nat)>, now: int)
    requires Accounted(w, log, cutoff, rejected) && now >= cutoff
    ensures Coherent(w.points, now) && !Clashing(w.points, now)
  {
    hide Accounted, Outcome, DroppableDuplicate, Kind;
    forall e, f | e in w.points && f in w.points && e.key == f.key && e.sqn == f.sqn
      ensures Outcome(e.payload, now) == Outcome(f.payload, now) && (Kind(f.payload) <= Kind(e.payload) ==> DroppableDuplicate(f, e, now))
    {
      CopiesAgree(w, log, cutoff, rejected, now, e, f);
    }
  }

  /** Replay leaves copies of one version in several tables, beside tombstones that expiry made of it
      and versions still in the memtables. No read at or after the cutoff fails on them, and no
      merge refuses them, in any run in which no filter ran beside a copy. */
  lemma ReplayedCopiesAgree(states: seq<State>, i: nat, now: int)
    requires Run(states) && i < |states| && now >= states[i].h.cutoff && (!states[i].h.filtered || !states[i].h.copied)
    ensures Coherent(ViewOf(states[i].d.tables).points, now) && !Clashing(ViewOf(states[i].d.tables).points, now)
    ensures states[i].up ==> && states[i].d.flushed <= states[i].c.applied <= |Hist(states[i])|
                             && Coherent(Visibly(states[i]).points, now) && !Clashing(Visibly(states[i]).points, now)
  {
    hide Flat, LogView, HeldOk, SameReads, LogOk, ViewOf, Run, CkptOk, SessionOk, PhaseOk, SegsOk, TablesOk, Distinct, ReplayLo, Coherent, Clashing,
         NoCopy, AckedOk, SqnOf, BatchOk;
    RunInv(states, i);
    var s := states[i];
    var log, w := Hist(s), ViewOf(s.d.tables);
    if s.h.rejected == {} {
      NothingRejected(w);
    }
    PartOk(log, 0, s.d.flushed);
    assert log[0..s.d.flushed] == log[..s.d.flushed];
    AccountedAgrees(w, log[..s.d.flushed], s.h.cutoff, s.h.rejected, now);
    if s.up {
      PartOk(log, 0, s.c.applied);
      assert log[0..s.c.applied] == log[..s.c.applied];
      FlushedHolds(log, s.d.flushed, s.c.applied, w, s.h.floor, s.h.cutoff, s.h.rejected);
      BufferedNoCopy(s);
      AccountedAgrees(Visibly(s), log[..s.c.applied], s.h.cutoff, s.h.rejected, now);
    }
  }

  /** Nothing in the memtables has been rejected. */
  lemma BufferedNoCopy(s: State)
    requires JournalOk(s) && FilterOk(s) && Skipped(s) <= s.d.flushed <= s.c.applied <= |Hist(s)| && NoCopy(s.h.rejected, ViewOf(s.d.tables))
    ensures NoCopy(s.h.rejected, Visibly(s))
  {
    hide Flat, LogView, LogOk, ViewOf, Skipped, SqnOf, BatchOk, Distinct;
    forall g | g in LogView(Hist(s)[s.d.flushed..s.c.applied]).points ensures (g.key, g.sqn) !in s.h.rejected {
      var k := LoggedAt(Hist(s), s.d.flushed, s.c.applied, g);
    }
  }

  /** `c` sits in a log file that the next recovery replays. */
  ghost predicate InReplayedSegment(s: State, c: Change) {
    exists q :: ReplayLo(s.d.segs, s.d.boundary, |s.c.written|) <= q < |s.c.written| && c in s.c.written[q]
  }

  lemma {:induction false} FlatHas(bs: seq<Batch>, c: Change)
    requires c in Flat(bs)
    ensures exists q :: 0 <= q < |bs| && c in bs[q]
  {
    if c !in bs[|bs|-1] {
      FlatHas(bs[..|bs|-1], c);
    }
  }

  lemma AtOrAboveBoundary(s: State, k: nat)
    requires SegsOk(s) && Skipped(s) <= k < |Hist(s)|
    ensures InReplayedSegment(s, Hist(s)[k])
  {
    hide Flat, ReplayLo;
    ReplayLoIsSegment(s.d.segs, s.d.boundary, |s.c.written|);
    var lo := ReplayLo(s.d.segs, s.d.boundary, |s.c.written|);
    FlatPrefix(s.c.written, lo);
    FlatHas(s.c.written[lo..], Hist(s)[k]);
    var q :| 0 <= q < |s.c.written[lo..]| && Hist(s)[k] in s.c.written[lo..][q];
    assert s.c.written[lo + q] == s.c.written[lo..][q];
  }

  /** Where an acknowledged change lives: among the flushed changes, which the manifest's tables
      read as, or in a log file the next recovery replays. */
  lemma AcknowledgedIsSafe(states: seq<State>, i: nat, c: Change) returns (k: nat)
    requires Run(states) && i < |states| && c in states[i].c.acked
    ensures k < |Hist(states[i])| && Hist(states[i])[k] == c
    ensures k < states[i].d.flushed || InReplayedSegment(states[i], c)
    ensures states[i].d.flushed <= |Hist(states[i])|
    ensures !states[i].h.filtered ==>
              SameReads(ViewOf(states[i].d.tables), LogView(Hist(states[i])[..states[i].d.flushed]), states[i].h.floor, states[i].h.cutoff)
    ensures states[i].up ==> states[i].c.synced <= |states[i].c.written| && k < states[i].c.applied <= |Durable(states[i])|
  {
    hide Flat, LogView, HeldOk, SameReads, LogOk, ViewOf, Run, CkptOk, SessionOk, PhaseOk, FilterOk, SegsOk, TablesOk, ReplayLo, InReplayedSegment;
    RunInv(states, i);
    var s := states[i];
    if s.up {
      k :| 0 <= k < |Hist(s)[..s.c.applied]| && Hist(s)[..s.c.applied][k] == c;
    } else {
      k :| 0 <= k < |Hist(s)| && Hist(s)[k] == c;
    }
    if k >= s.d.flushed {
      AtOrAboveBoundary(s, k);
    }
  }

  /** Crash at any point, keep any prefix of what was not synced, recover: whole batches survive,
      every acknowledged change among them, and reads show exactly their effect. */
  lemma CrashAndRecover(states: seq<State>, i: nat, down: State, keep: nat, up: State, outs: seq<Table>, lo: nat, num: nat)
    requires Run(states) && i < |states| && Crash(states[i], down, keep) && Recover(down, up, outs, lo, num)
    ensures up.c.written == states[i].c.written[..keep]
    ensures forall c :: c in states[i].c.acked ==> c in Hist(up)
    ensures up.c.readSeq >= up.h.floor && up.h.floor == states[i].h.floor && up.h.cutoff == states[i].h.cutoff
    ensures !states[i].h.filtered ==> forall key, n: nat, now: int, v :: n >= up.h.floor && now >= up.h.cutoff ==>
              (Live(ViewOf(up.d.tables), key, n, now, v) <==> LogRead(Hist(up), key, n, now, v))
  {
    hide Flat, LogView, HeldOk, Live, LogRead, LogOk, ViewOf, Run, CkptOk, SessionOk, PhaseOk, FilterOk, SegsOk, TablesOk, ReplayLo, TableOk, Distinct;
    RunInv(states, i);
    CrashKeeps(states[i], down, keep);
    RecoverKeeps(down, up, outs, lo, num);
    assert Hist(up)[..|Hist(up)|] == Hist(up);
    if !states[i].h.filtered {
      forall key, n: nat, now: int, v | n >= up.h.floor && now >= up.h.cutoff
        ensures Live(ViewOf(up.d.tables), key, n, now, v) <==> LogRead(Hist(up), key, n, now, v)
      {
        ViewReadsAsLog(Hist(up), key, n, now, v);
      }
    }
  }

  /** The commit protocol's promises in every state of every run. */
  lemma CommitPromises(states: seq<State>, i: nat)
    requires Run(states) && i < |states| && states[i].up
    ensures var s := states[i];
            // Logged sequences ascend; this session's have no gap.
            && (forall j, k :: 0 <= j < k < |Hist(s)| ==> SqnOf(Hist(s)[j]) < SqnOf(Hist(s)[k]))
            && (forall k :: s.c.head <= k < |Hist(s)| ==> SqnOf(Hist(s)[k]) == s.c.base + 1 + k - s.c.head)
            // Everything published is applied; everything applied is synced.
            && (forall k :: 0 <= k < |Hist(s)| && SqnOf(Hist(s)[k]) <= s.c.readSeq ==> k < s.c.applied)
            && s.c.synced <= |s.c.written| && s.c.applied <= |Durable(s)|
            // An open checkpoint's cutoff splits the journal exactly where its segment starts.
            && (s.d.ckpt.Ckpt? ==> forall k :: 0 <= k < |Hist(s)| ==>
                  (SqnOf(Hist(s)[k]) <= s.d.ckpt.cutoff <==> k < OpsBelow(s, s.d.ckpt.start)))
  {
    hide Flat, LogView, HeldOk, SameReads, ViewOf, Run, FilterOk, TablesOk, ReplayLo, SqnOf, PhaseOk, ChangeOk, OpsBelow;
    RunInv(states, i);
    var s := states[i];
    LogAscends(Hist(s));
    forall k | s.c.head <= k < |Hist(s)| ensures SqnOf(Hist(s)[k]) == s.c.base + 1 + k - s.c.head {
      HistBelow(s, k);
    }
  }

  /** After a poisoning error nothing more is logged, applied, published or acknowledged until a restart. */
  lemma {:induction false} PoisonIsFinal(states: seq<State>, i: nat, j: nat)
    requires Run(states) && i <= j < |states| && states[i].c.poisoned && forall k :: i <= k <= j ==> states[k].up
    ensures var c, c' := states[i].c, states[j].c;
            c'.poisoned && c'.written == c.written && c'.applied == c.applied && c'.acked == c.acked && c'.readSeq == c.readSeq
    decreases j
  {
    hide Step, Init, CommitOk;
    if i < j {
      PoisonIsFinal(states, i, j - 1);
      RunInv(states, j - 1);
      assert Step(states[j-1], states[j-1+1]);
      PoisonStays(states[j-1], states[j]);
    }
  }

  lemma PoisonStays(s: State, s': State)
    requires CommitOk(s) && s.up && s.c.poisoned && Step(s, s') && s'.up
    ensures s'.c.poisoned && s'.c.written == s.c.written && s'.c.applied == s.c.applied && s'.c.acked == s.c.acked && s'.c.readSeq == s.c.readSeq
  {
    hide Flat, LogView, ViewOf, Collapsed, FreshTables, TableOk, Guarded, Subset, BatchOk, Chain, Without, NoCopy, RejectedIn, Recover, Crash,
         JournalOk, AckedOk, SessionOk, ReadOk;
    assert !exists keep :: Crash(s, s', keep) by { NotCrash(s, s'); }
    assert !exists outs, lo, num :: Recover(s, s', outs, lo, num) by { NotRecover(s, s'); }
  }

  lemma NotCrash(s: State, s': State)
    requires s'.up
    ensures !exists keep :: Crash(s, s', keep)
  {
  }

  lemma NotRecover(s: State, s': State)
    requires s.up
    ensures !exists outs, lo, num :: Recover(s, s', outs, lo, num)
  {
  }

  /** A sequence handed out is above every one in a live table, in the journal, or in the queue. */
  lemma SequencesAreFresh(states: seq<State>, i: nat, s': State, b: Batch)
    requires Run(states) && i < |states| && Enqueue(states[i], s', b)
    ensures forall k :: 0 <= k < |b| ==> SqnOf(b[k]) > states[i].c.walSeq
    ensures UpTo(ViewOf(states[i].d.tables), states[i].c.walSeq)
    ensures forall k :: 0 <= k < |Hist(states[i])| ==> SqnOf(Hist(states[i])[k]) <= states[i].c.walSeq
    ensures !states[i].c.poisoned ==> forall k :: 0 <= k < |Flat(Unwritten(states[i]))| ==> SqnOf(Flat(Unwritten(states[i]))[k]) <= states[i].c.walSeq
  {
    hide Flat, LogView, HeldOk, SameReads, ViewOf, Run, FilterOk, TablesOk, ReplayLo, SqnOf, PhaseOk, LogOk, CkptOk, SegsOk;
    RunInv(states, i);
    var s := states[i];
    ChainPositive(b, s.c.walSeq);
    forall k | 0 <= k < |Hist(s)| ensures SqnOf(Hist(s)[k]) <= s.c.walSeq { HistBelow(s, k); }
    PartOk(Hist(s), 0, s.d.flushed);
    assert Hist(s)[0..s.d.flushed] == Hist(s)[..s.d.flushed];
    HeldUpTo(ViewOf(s.d.tables), Hist(s)[..s.d.flushed], s.h.cutoff, s.h.rejected);
    UpToWeaken(ViewOf(s.d.tables), LastSqn(Hist(s)[..s.d.flushed], 0), s.c.walSeq);
  }

  /** What a filter rejected stays gone: no table holds it live, nor can replay bring it back,
      as long as no filter ran beside a live copy of what it rejected. */
  lemma RejectedStaysGone(states: seq<State>, i: nat, e: Entry)
    requires Run(states) && i < |states| && !states[i].h.copied && (e.key, e.sqn) in states[i].h.rejected
    requires Skipped(states[i]) <= |Hist(states[i])|
    requires e in ViewOf(states[i].d.tables).points || e in LogView(Hist(states[i])[Skipped(states[i])..]).points
    ensures e.payload.Tombstone?
  {
    hide Flat, LogView, HeldOk, SameReads, ViewOf, Run, TablesOk, ReplayLo, SqnOf, LogOk, CkptOk, SegsOk, CommitOk, Skipped;
    RunInv(states, i);
    var s := states[i];
    if e in LogView(Hist(s)[Skipped(s)..]).points {
      assert JournalOk(s) by { JournalFromCommit(s); }
      var k := ReplayedAt(s, e);
    }
  }

  lemma JournalFromCommit(s: State)
    requires CommitOk(s)
    ensures JournalOk(s)
  {
  }

  /** As long as no recovery has replayed what the tables already held, every filter run is safe. */
  lemma FiltersAreSafeUntilReplay(states: seq<State>, i: nat, s': State, inputs: seq<Table>, outs: seq<Table>, rc: Reclaim,
                                  retain: nat, rw: Rewrite, depth: nat, last: nat)
    requires Run(states) && i < |states| && Filters(states[i], s', inputs, outs, rc, retain, rw, depth, last)
    requires !states[i].h.replayed
    ensures s'.h.copied == states[i].h.copied
  {
    hide Flat, LogView, HeldOk, SameReads, Run, ReplayLo, SqnOf, LogOk, CkptOk, SegsOk, CommitOk, Skipped, Without, Subset, Guarded,
         Collapsed, FreshTables, TableOk, Rejects, Newest, TablesOk;
    RunInv(states, i);
    var s := states[i];
    var left := Without(s.d.tables, inputs);
    var gone := RejectedIn(ViewOf(inputs), retain, rw);
    forall g | g in ViewOf(left).points ensures (g.key, g.sqn) !in gone {
      var t :| t in left && g in t.points;
      WithoutMember(s.d.tables, inputs, t);
      forall e | e in ViewOf(inputs).points ensures e.key != g.key || e.sqn != g.sqn {
        var u :| u in inputs && e in u.points;
        MemberOfPart(inputs, s.d.tables, u);
      }
    }
  }
}
