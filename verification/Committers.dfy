/**
Who commits: any number of callers contend for the log's `writing` flag, and whoever sets it
drives the group commit until the queue is empty. Every run of that machine has at most one
such caller and is, seen from the log, a run of the commit protocol.
*/
module Committers {
  import opened Tables
  import opened Collapse
  import opened Compaction
  import opened CompactionTheorem
  import opened Log
  import opened WriteAhead
  import opened Recovery

  /** A rotation: called and waiting, holding the log's lock, and past its sync. */
  datatype Rotator = NoRotator | Asleep | Holding | Flushed

  /** The shared state, of which `w.c.phase` is no part; the flag; the callers inside commit, each at
      its own point of the loop; and the rotation under way. */
  datatype Team = Team(w: State, writing: bool, inside: map<nat, Phase>, rot: Rotator)

  function Seen(w: State, p: Phase): State {
    w.(c := w.c.(phase := p))
  }

  /** The rotation holds the log's lock. */
  predicate Locked(g: Team) {
    g.rot.Holding? || g.rot.Flushed?
  }

  ghost predicate TeamInit(g: Team) {
    Init(g.w) && !g.writing && g.inside == map[] && g.rot.NoRotator?
  }

  /** enqueue: the batch joins the queue, and a caller that finds the flag down raises it and must commit. */
  ghost predicate Arrive(g: Team, g': Team, id: nat, b: Batch) {
    && g.w.up && !Locked(g) && id !in g.inside && BatchOk(b) && Chain(b, g.w.c.walSeq) && g.w.c.walSeq + |b| <= MAX_SEQ
    && var w := g.w.(c := g.w.c.(walSeq := g.w.c.walSeq + |b|));
    g' == if g.w.c.poisoned then g.(w := w)
          else
            var queued := w.(c := w.c.(pending := w.c.pending + [b]));
            if g.writing then g.(w := queued) else g.(w := queued, writing := true, inside := g.inside[id := Top])
  }

  /** One step of commit's loop. */
  ghost predicate LoopStep(s: State, s': State) {
    || Take(s, s') || WriteBatch(s, s') || WriteFails(s, s') || SyncGroup(s, s')
    || ApplyOne(s, s') || (exists k :: Publish(s, s', k)) || ApplyFails(s, s') || FinishApply(s, s')
    || (exists ok :: Ack(s, s', ok))
  }

  /** The head of the loop and the poisoning of the log take the lock. */
  predicate TakesLock(s: State, s': State) {
    Take(s, s') || WriteFails(s, s') || ApplyFails(s, s')
  }

  /** A caller inside commit moves on, whoever else is inside; leaving the loop lowers the flag. */
  ghost predicate Drive(g: Team, g': Team, id: nat, s': State) {
    && id in g.inside && LoopStep(Seen(g.w, g.inside[id]), s')
    && (Locked(g) ==> !TakesLock(Seen(g.w, g.inside[id]), s'))
    && g' == if s'.c.phase.Quiescent? then g.(w := s', writing := false, inside := g.inside - {id})
             else g.(w := Seen(s', Quiescent), inside := g.inside[id := s'.c.phase])
  }

  predicate RotateCall(g: Team, g': Team) {
    g.w.up && g.rot.NoRotator? && g.w.d.ckpt.NoCkpt? && g' == g.(rot := Asleep)
  }

  /** The wait ends, with the lock, once the flag is down. */
  predicate RotateWake(g: Team, g': Team) {
    g.w.up && g.rot.Asleep? && !g.writing && g' == g.(rot := Holding)
  }

  predicate RotateFlush(g: Team, g': Team) {
    g.w.up && g.rot.Holding? && !g.w.c.poisoned && g' == g.(rot := Flushed)
  }

  /** It gives up on a poisoned log, and poisons a log it cannot sync. */
  predicate RotateError(g: Team, g': Team) {
    g.w.up && Locked(g) && g' == g.(w := g.w.(c := g.w.c.(poisoned := true)), rot := NoRotator)
  }

  predicate RotateSwap(g: Team, g': Team) {
    g.rot.Flushed? && Rotate(g.w, g'.w) && g' == g.(w := g'.w, rot := NoRotator)
  }

  /** Flushes, checkpoints after their rotation, and compactions. */
  ghost predicate OtherStep(s: State, s': State) {
    || (exists ck :: FlushBegin(s, s', ck)) || (exists t :: FlushEnd(s, s', t)) || FlushFails(s, s')
    || RecordBoundary(s, s') || FinishCheckpoint(s, s') || CheckpointFails(s, s')
    || RemoveSegment(s, s') || RotateManifest(s, s')
    || (exists inputs, outs, rc, retain, c, depth, last :: Compacts(s, s', inputs, outs, rc, retain, c, depth, last))
    || (exists inputs, outs, rc, retain, rw, depth, last :: Filters(s, s', inputs, outs, rc, retain, rw, depth, last))
  }

  ghost predicate Background(g: Team, g': Team) {
    OtherStep(g.w, g'.w) && g' == g.(w := g'.w)
  }

  ghost predicate TeamCrash(g: Team, g': Team, keep: nat) {
    Crash(g.w, g'.w, keep) && g' == Team(g'.w, false, map[], NoRotator)
  }

  ghost predicate TeamRecover(g: Team, g': Team, outs: seq<Table>, lo: nat, num: nat) {
    Recover(g.w, g'.w, outs, lo, num) && g' == g.(w := g'.w)
  }

  ghost predicate RotateStep(g: Team, g': Team) {
    RotateCall(g, g') || RotateWake(g, g') || RotateFlush(g, g') || RotateError(g, g') || RotateSwap(g, g')
  }

  ghost predicate TeamStep(g: Team, g': Team) {
    || (exists id, b :: Arrive(g, g', id, b)) || (exists id, s' :: Drive(g, g', id, s'))
    || RotateStep(g, g') || Background(g, g')
    || (exists keep :: TeamCrash(g, g', keep)) || (exists outs, lo, num :: TeamRecover(g, g', outs, lo, num))
  }

  ghost predicate TeamRun(gs: seq<Team>) {
    && gs != [] && TeamInit(gs[0])
    && forall i :: 0 <= i < |gs| - 1 ==> TeamStep(gs[i], gs[i+1])
  }

  // ---------------------------------------------------------------------------
  // At most one
  // ---------------------------------------------------------------------------

  /** At most one caller is inside commit, and one is exactly when the flag is up; a queue that is not
      empty has one, and a rotation that holds the lock has none beside it. */
  ghost predicate OneInside(g: Team) {
    && (forall i, j :: i in g.inside && j in g.inside ==> i == j)
    && (g.writing <==> g.inside != map[])
    && (g.w.c.pending != [] ==> g.writing)
    && (Locked(g) ==> !g.writing)
  }

  ghost predicate TeamOk(g: Team) {
    && OneInside(g) && g.w.c.phase.Quiescent?
    && (forall id :: id in g.inside ==> !g.inside[id].Quiescent?)
    && (!g.w.up ==> g.inside == map[] && g.rot.NoRotator?)
    && (!g.rot.NoRotator? ==> g.w.d.ckpt.NoCkpt?)
  }

  /** The commit protocol's state: the phase is that of the caller inside. */
  ghost function Abs(g: Team): State {
    if id :| id in g.inside then Seen(g.w, g.inside[id]) else g.w
  }

  lemma AbsInside(g: Team, id: nat)
    requires TeamOk(g) && id in g.inside
    ensures Abs(g) == Seen(g.w, g.inside[id])
  {
  }

  lemma AbsOutside(g: Team)
    requires g.inside == map[]
    ensures Abs(g) == g.w
  {
  }

  lemma ArriveMaps(g: Team, g': Team, id: nat, b: Batch)
    requires TeamOk(g) && Arrive(g, g', id, b)
    ensures TeamOk(g') && Enqueue(Abs(g), Abs(g'), b)
  {
    hide BatchOk, Chain;
    if g.inside == map[] {
      AbsOutside(g);
      if g.w.c.poisoned {
        AbsOutside(g');
      } else {
        assert g'.inside == map[id := Top];
        AbsInside(g', id);
      }
    } else {
      var j :| j in g.inside;
      AbsInside(g, j);
      AbsInside(g', j);
    }
  }

  lemma DriveMaps(g: Team, g': Team, id: nat, s': State)
    requires TeamOk(g) && Drive(g, g', id, s')
    ensures TeamOk(g') && Abs(g') == s' && CommitStep(Abs(g), s')
  {
    hide LoopStep;
    var s := Seen(g.w, g.inside[id]);
    AbsInside(g, id);
    assert g.inside == map[id := g.inside[id]];
    LoopKeeps(s, s');
    if s'.c.phase.Quiescent? {
      assert g.inside - {id} == map[];
      AbsOutside(g');
    } else {
      AbsInside(g', id);
    }
  }

  lemma LoopKeeps(s: State, s': State)
    requires LoopStep(s, s')
    ensures CommitStep(s, s') && s'.d == s.d && s.up && s'.up && (s'.c.pending != [] ==> s.c.pending != [])
    ensures s'.c.phase.Quiescent? ==> s'.c.pending == []
  {
    hide Flat;
  }

  lemma FlushPhaseFree(w: State, w': State, p: Phase, t: Table)
    requires FlushEnd(w, w', t)
    ensures FlushEnd(Seen(w, p), Seen(w', p), t) && w'.c == w.c && w.up && w'.up && (w.d.ckpt.NoCkpt? ==> w'.d.ckpt.NoCkpt?)
  {
    hide Flat, LogView, ViewOf, TableOk;
    assert Hist(Seen(w, p)) == Hist(w);
  }

  lemma CompactsPhaseFree(w: State, w': State, p: Phase, inputs: seq<Table>, outs: seq<Table>, rc: Reclaim, retain: nat, c: int, depth: nat, last: nat)
    requires Compacts(w, w', inputs, outs, rc, retain, c, depth, last)
    ensures Compacts(Seen(w, p), Seen(w', p), inputs, outs, rc, retain, c, depth, last)
    ensures w'.c == w.c && w.up && w'.up && w'.d.ckpt == w.d.ckpt
  {
    hide ViewOf, Collapsed, FreshTables, Guarded, Subset, Without, NumbersApart;
  }

  lemma FiltersPhaseFree(w: State, w': State, p: Phase, inputs: seq<Table>, outs: seq<Table>, rc: Reclaim, retain: nat, rw: Rewrite, depth: nat, last: nat)
    requires Filters(w, w', inputs, outs, rc, retain, rw, depth, last)
    ensures Filters(Seen(w, p), Seen(w', p), inputs, outs, rc, retain, rw, depth, last)
    ensures w'.c == w.c && w.up && w'.up && w'.d.ckpt == w.d.ckpt
  {
    hide ViewOf, Collapsed, FreshTables, Guarded, Subset, Without, NumbersApart, NoCopy, RejectedIn;
  }

  /** What else the store does takes no notice of the committer. */
  lemma PhaseFree(w: State, w': State, p: Phase)
    requires OtherStep(w, w')
    ensures TableStep(Seen(w, p), Seen(w', p))
    ensures w'.c == w.c && w.up && w'.up && (w.d.ckpt.NoCkpt? ==> w'.d.ckpt.NoCkpt?)
  {
    hide FlushEnd, Compacts, Filters, Hist;
    if t :| FlushEnd(w, w', t) {
      FlushPhaseFree(w, w', p, t);
    } else if inputs, outs, rc, retain, c, depth, last :| Compacts(w, w', inputs, outs, rc, retain, c, depth, last) {
      CompactsPhaseFree(w, w', p, inputs, outs, rc, retain, c, depth, last);
    } else if inputs, outs, rc, retain, rw, depth, last :| Filters(w, w', inputs, outs, rc, retain, rw, depth, last) {
      FiltersPhaseFree(w, w', p, inputs, outs, rc, retain, rw, depth, last);
    } else if ck :| FlushBegin(w, w', ck) {
      assert FlushBegin(Seen(w, p), Seen(w', p), ck);
    }
  }

  lemma BackgroundMaps(g: Team, g': Team)
    requires TeamOk(g) && Background(g, g')
    ensures TeamOk(g') && TableStep(Abs(g), Abs(g'))
  {
    hide OtherStep, TableStep;
    if id :| id in g.inside {
      PhaseFree(g.w, g'.w, g.inside[id]);
      AbsInside(g, id);
      AbsInside(g', id);
    } else {
      PhaseFree(g.w, g'.w, Quiescent);
      AbsOutside(g);
      AbsOutside(g');
    }
  }

  lemma RotateMaps(g: Team, g': Team)
    requires TeamOk(g) && RotateStep(g, g')
    ensures TeamOk(g') && (Abs(g') == Abs(g) || Rotate(Abs(g), Abs(g')) || RotateFails(Abs(g), Abs(g')))
  {
    if id :| id in g.inside {
      AbsInside(g, id);
      AbsInside(g', id);
    } else {
      AbsOutside(g);
      AbsOutside(g');
    }
  }

  lemma CrashMaps(g: Team, g': Team, keep: nat)
    requires TeamOk(g) && TeamCrash(g, g', keep)
    ensures TeamOk(g') && Crash(Abs(g), Abs(g'), keep)
  {
    AbsOutside(g');
  }

  lemma RecoverMaps(g: Team, g': Team, outs: seq<Table>, lo: nat, num: nat)
    requires TeamOk(g) && TeamRecover(g, g', outs, lo, num)
    ensures TeamOk(g') && Recover(Abs(g), Abs(g'), outs, lo, num)
  {
    hide ViewOf, LogView, Flat, Distinct, TableOk;
    AbsOutside(g);
    AbsOutside(g');
  }

  /** Every step keeps at most one caller inside, and is a step of the commit protocol or invisible to it. */
  lemma TeamStepMaps(g: Team, g': Team)
    requires TeamOk(g) && TeamStep(g, g')
    ensures TeamOk(g') && (Abs(g') == Abs(g) || Step(Abs(g), Abs(g')))
  {
    hide TeamOk, Abs, Arrive, Drive, RotateStep, Background, TeamCrash, TeamRecover, Enqueue, LoopStep, Crash, Recover, Rotate, RotateFails;
    if id, b :| Arrive(g, g', id, b) {
      ArriveMaps(g, g', id, b);
    } else if id, s' :| Drive(g, g', id, s') {
      DriveMaps(g, g', id, s');
    } else if RotateStep(g, g') {
      RotateMaps(g, g');
    } else if Background(g, g') {
      BackgroundMaps(g, g');
    } else if keep :| TeamCrash(g, g', keep) {
      CrashMaps(g, g', keep);
    } else {
      var outs, lo, num :| TeamRecover(g, g', outs, lo, num);
      RecoverMaps(g, g', outs, lo, num);
    }
  }

  /** Every run of the callers is a run of the commit protocol. */
  lemma {:induction false} TeamRefines(gs: seq<Team>, i: nat) returns (states: seq<State>)
    requires TeamRun(gs) && i < |gs|
    ensures TeamOk(gs[i]) && states != [] && Run(states) && states[|states|-1] == Abs(gs[i])
    decreases i
  {
    hide TeamStep, TeamOk, Step, Abs, Init;
    if i == 0 {
      StartsAlone(gs[0]);
      states := [Abs(gs[0])];
    } else {
      states := TeamRefines(gs, i - 1);
      assert TeamStep(gs[i-1], gs[i-1+1]);
      TeamStepMaps(gs[i-1], gs[i]);
      if Abs(gs[i]) != Abs(gs[i-1]) {
        states := Longer(states, Abs(gs[i]));
      }
    }
  }

  lemma StartsAlone(g: Team)
    requires TeamInit(g)
    ensures TeamOk(g) && Init(Abs(g))
  {
    AbsOutside(g);
  }

  lemma Longer(states: seq<State>, s': State) returns (longer: seq<State>)
    requires Run(states) && Step(states[|states|-1], s')
    ensures Run(longer) && longer[|longer|-1] == s'
  {
    hide Step, Init;
    longer := states + [s'];
    forall i | 0 <= i < |longer| - 1 ensures Step(longer[i], longer[i+1]) {
      if i < |states| - 1 {
        assert Step(states[i], states[i+1]);
      }
    }
  }

  /** In every state of every run at most one caller is inside commit, exactly while the flag is up; and no
      caller is while a rotation holds the lock. What the one inside has done is the commit protocol's. */
  lemma AtMostOneCommitter(gs: seq<Team>, i: nat)
    requires TeamRun(gs) && i < |gs|
    ensures OneInside(gs[i])
    ensures forall id :: id in gs[i].inside ==> Seen(gs[i].w, gs[i].inside[id]) == Abs(gs[i])
    ensures gs[i].w.up ==> CommitOk(Abs(gs[i]))
  {
    hide Run, TeamRun, CommitOk;
    var states := TeamRefines(gs, i);
    RunInv(states, |states| - 1);
    forall id | id in gs[i].inside ensures Seen(gs[i].w, gs[i].inside[id]) == Abs(gs[i]) {
      AbsInside(gs[i], id);
    }
  }

  /** From the end of its wait to the switch of segments, a rotation sees the journal, the queue and the
      published sequence stand still: what it syncs is all that is written, and its cutoff is all that is applied. */
  lemma {:induction false} RotationIsAlone(gs: seq<Team>, i: nat, j: nat)
    requires TeamRun(gs) && i <= j < |gs| && forall k :: i <= k <= j ==> Locked(gs[k])
    ensures gs[j].w.c == gs[i].w.c && gs[j].inside == map[] && gs[j].w.c.pending == []
    ensures !gs[j].w.c.poisoned ==> gs[j].w.c.applied == |Hist(gs[j].w)|
    decreases j
  {
    hide TeamStep, Hist, JournalOk, AckedOk, SessionOk, ReadOk, Run;
    var states := TeamRefines(gs, j);
    RunInv(states, |states| - 1);
    AbsOutside(gs[j]);
    if i < j {
      RotationIsAlone(gs, i, j - 1);
      var _ := TeamRefines(gs, j - 1);
      assert TeamStep(gs[j-1], gs[j-1+1]);
      LockedStep(gs[j-1], gs[j]);
    }
  }

  lemma LockedStep(g: Team, g': Team)
    requires TeamStep(g, g') && Locked(g) && Locked(g') && g.inside == map[] && g.w.up
    ensures g'.w.c == g.w.c
  {
    hide OtherStep, LoopStep, Flat, ViewOf, LogView, Distinct, TableOk;
    if Background(g, g') {
      PhaseFree(g.w, g'.w, Quiescent);
    }
  }
}
