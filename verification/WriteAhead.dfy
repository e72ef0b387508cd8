/**
The durable store as a state machine: group commit into a segmented write-ahead
log, flushes and compactions recorded in the manifest, checkpoints that move the
replay boundary, compaction filters, crashes at any point, and recovery.
*/
module WriteAhead {
  import opened Bytes
  import opened Versions
  import opened Tables
  import opened Collapse
  import opened Compaction
  import opened CompactionTheorem
  import opened Log

  type Batch = seq<Change>

  const MAX_SEQ: nat := 0xFF_FFFF_FFFF_FFFF

  function {:tailrecursion false} Flat(bs: seq<Batch>): seq<Change> {
    if bs == [] then [] else Flat(bs[..|bs|-1]) + bs[|bs|-1]
  }

  /** Where the one committer stands. Quiescent is `writing == false`; Top is the head of its loop. */
  datatype Phase =
    | Quiescent
    | Top
    | Writing(group: seq<Batch>, done: nat)
    | Applying(group: seq<Batch>)
    | Acking(group: seq<Batch>, done: nat)

  /** A checkpoint under way: the segment it opened, where that starts, the cutoff it
      captured, and how many of its two flush passes are over. */
  datatype Ckpt = NoCkpt | Ckpt(num: nat, start: nat, cutoff: nat, passes: nat)

  /** One log file; it ends where the next one starts. `lo` counts batches. */
  datatype Segment = Segment(num: nat, lo: nat)

  /** The commit protocol: counters, queue and committer, and the journal itself, every batch
      written since the database was created, of which the first `synced` are safe. The active
      and sealed memtables hold its changes up to `applied`. */
  datatype Commit = Commit(
    walSeq: nat,
    readSeq: nat,
    pending: seq<Batch>,
    phase: Phase,
    poisoned: bool,
    written: seq<Batch>,
    synced: nat,
    applied: nat,
    // History: changes acknowledged, and where this session began.
    acked: set<Change>,
    head: nat,
    base: nat)

  /** Tables and files: [flushed, sealed) of the journal is the sealed memtable. Segment files,
      tables, lastSeq and boundary are on disk, the last three in the manifest. */
  datatype Data = Data(
    sealed: nat,
    flushed: nat,
    flusher: Option<bool>,
    ckpt: Ckpt,
    filterSafe: nat,
    segs: seq<Segment>,
    tables: seq<Table>,
    lastSeq: nat,
    boundary: nat,
    fileNum: nat)

  /** History no step reads: the largest retain and cutoff compactions used, the versions
      filters rejected, and whether any filter ran, ran beside a live copy, or any recovery
      replayed a change the tables already held. */
  datatype Past = Past(
    floor: nat,
    cutoff: int,
    rejected: set<(Bytes, nat)>,
    filtered: bool,
    copied: bool,
    replayed: bool)

  datatype State = State(up: bool, c: Commit, d: Data, h: Past)

  function Hist(s: State): seq<Change> {
    Flat(s.c.written)
  }

  /** The changes enqueued and not yet written, in order. */
  function Unwritten(s: State): seq<Batch> {
    (if s.c.phase.Writing? && s.c.phase.done <= |s.c.phase.group| then s.c.phase.group[s.c.phase.done..] else []) + s.c.pending
  }

  /** The batch index recovery replays from: the first segment at or above the boundary. */
  function ReplayLo(segs: seq<Segment>, boundary: nat, end: nat): nat {
    if segs == [] then end
    else if segs[0].num >= boundary then segs[0].lo
    else ReplayLo(segs[1..], boundary, end)
  }

  /** The changes below batch `k`. */
  function OpsBelow(s: State, k: nat): nat {
    |Flat(s.c.written[..Min(k, |s.c.written|)])|
  }

  /** How many changes recovery skips. */
  function Skipped(s: State): nat {
    OpsBelow(s, ReplayLo(s.d.segs, s.d.boundary, |s.c.written|))
  }

  /** Sequences lo+1, lo+2, … */
  ghost predicate Chain(ops: seq<Change>, lo: nat) {
    forall i :: 0 <= i < |ops| ==> SqnOf(ops[i]) == lo + 1 + i
  }

  ghost predicate BatchOk(b: Batch) {
    b != [] && forall i :: 0 <= i < |b| ==> ChangeOk(b[i]) && !b[i].IngestChange?
  }

  function LastSqn(ops: seq<Change>, fallback: nat): nat {
    if ops == [] then fallback else Max(SqnOf(ops[|ops|-1]), fallback)
  }

  ghost predicate Init(s: State) {
    && s.up && s.c.walSeq == s.c.readSeq == s.d.lastSeq == s.c.base == s.d.filterSafe == 0
    && s.c.pending == [] && s.c.phase == Quiescent && !s.c.poisoned && s.c.written == [] && s.c.synced == 0
    && s.c.applied == s.d.sealed == s.d.flushed == s.c.head == 0 && s.d.flusher == None && s.d.ckpt == NoCkpt
    && s.d.segs == [Segment(s.d.boundary, 0)] && s.d.boundary <= s.d.fileNum && s.d.tables == []
    && s.c.acked == {} && s.h.floor == 0 && s.h.rejected == {} && !s.h.filtered && !s.h.copied && !s.h.replayed
  }

  // ---------------------------------------------------------------------------
  // Group commit
  // ---------------------------------------------------------------------------

  /** appendWAL under seqMu: the batch takes the next sequences and joins the queue; the first
      writer in becomes the committer. On a poisoned log the sequences are spent for nothing. */
  ghost predicate Enqueue(s: State, s': State, b: Batch) {
    && s.up && BatchOk(b) && Chain(b, s.c.walSeq) && s.c.walSeq + |b| <= MAX_SEQ
    && s' == if s.c.poisoned then s.(c := s.c.(walSeq := s.c.walSeq + |b|))
             else s.(c := s.c.(walSeq := s.c.walSeq + |b|, pending := s.c.pending + [b], phase := if s.c.phase.Quiescent? then Top else s.c.phase))
  }

  /** The head of commit's loop: stop when there is nothing, fail everything when poisoned,
      otherwise take the whole queue as one group. */
  predicate Take(s: State, s': State) {
    && s.up && s.c.phase.Top?
    && s' == if s.c.pending == [] then s.(c := s.c.(phase := Quiescent))
             else if s.c.poisoned then s.(c := s.c.(pending := []))
             else s.(c := s.c.(pending := [], phase := Writing(s.c.pending, 0)))
  }

  predicate WriteBatch(s: State, s': State) {
    && s.up && s.c.phase.Writing? && s.c.phase.done < |s.c.phase.group|
    && s' == s.(c := s.c.(written := s.c.written + [s.c.phase.group[s.c.phase.done]], phase := Writing(s.c.phase.group, s.c.phase.done + 1)))
  }

  /** A failed write or sync poisons the log and fails the group. */
  predicate WriteFails(s: State, s': State) {
    s.up && s.c.phase.Writing? && s' == s.(c := s.c.(poisoned := true, phase := Top))
  }

  predicate SyncGroup(s: State, s': State) {
    && s.up && s.c.phase.Writing? && s.c.phase.done == |s.c.phase.group|
    && s' == s.(c := s.c.(synced := |s.c.written|, phase := Applying(s.c.phase.group)))
  }

  predicate ApplyOne(s: State, s': State) {
    s.up && s.c.phase.Applying? && s.c.applied < |Hist(s)| && s' == s.(c := s.c.(applied := s.c.applied + 1))
  }

  /** publishSeq at the end of a batch. */
  predicate Publish(s: State, s': State, k: nat) {
    && s.up && s.c.phase.Applying? && 0 < k <= |s.c.written| && s.c.applied == |Flat(s.c.written[..k])| && s.c.written[k-1] != []
    && s' == s.(c := s.c.(readSeq := Max(s.c.readSeq, SqnOf(s.c.written[k-1][|s.c.written[k-1]|-1]))))
  }

  predicate ApplyFails(s: State, s': State) {
    s.up && s.c.phase.Applying? && s' == s.(c := s.c.(poisoned := true, phase := Top))
  }

  predicate FinishApply(s: State, s': State) {
    && s.up && s.c.phase.Applying? && s.c.applied == |Hist(s)|
    && (Hist(s) != [] ==> s.c.readSeq >= SqnOf(Hist(s)[|Hist(s)|-1]))
    && s' == s.(c := s.c.(phase := Acking(s.c.phase.group, 0)))
  }

  /** The waiter is released, with an error if its observer failed. */
  predicate Ack(s: State, s': State, observed: bool) {
    && s.up && s.c.phase.Acking?
    && s' == if s.c.phase.done < |s.c.phase.group| then
               s.(c := s.c.(phase := Acking(s.c.phase.group, s.c.phase.done + 1),
                            acked := if observed then s.c.acked + (set c | c in s.c.phase.group[s.c.phase.done]) else s.c.acked))
             else s.(c := s.c.(phase := Top))
  }

  // ---------------------------------------------------------------------------
  // Flush, checkpoint, compaction
  // ---------------------------------------------------------------------------

  /** Flush takes flushMu and seals the active memtable unless one is sealed already. */
  predicate FlushBegin(s: State, s': State, ck: bool) {
    && s.up && s.d.flusher.None? && (ck ==> s.d.ckpt.Ckpt? && s.d.ckpt.passes < 2)
    && s' == s.(d := s.d.(flusher := Some(ck), sealed := if s.d.flushed == s.d.sealed then s.c.applied else s.d.sealed))
  }

  /** The sealed changes become one table, recorded in the manifest with the reserved watermark. Its
      number may have been taken before others that are in use by now. */
  ghost predicate FlushEnd(s: State, s': State, t: Table) {
    && s.up && s.d.flusher.Some?
    && var ck := if s.d.flusher.value && s.d.ckpt.Ckpt? then s.d.ckpt.(passes := s.d.ckpt.passes + 1) else s.d.ckpt;
    if s.d.flushed == s.d.sealed then s' == s.(d := s.d.(flusher := None, ckpt := ck))
    else
      && s.d.sealed <= |Hist(s)| && s.d.flushed <= s.d.sealed
      && TableOk(t) && NumbersApart(s.d.tables, [t]) && ViewOf([t]) == LogView(Hist(s)[s.d.flushed..s.d.sealed])
      && s' == s.(d := s.d.(flusher := None, ckpt := ck, tables := s.d.tables + [t], fileNum := Max(s.d.fileNum, t.num),
                            flushed := s.d.sealed, lastSeq := s.c.walSeq))
  }

  /** A failed flush leaves the sealed memtable; the checkpoint it belonged to gives up. */
  predicate FlushFails(s: State, s': State) {
    && s.up && s.d.flusher.Some?
    && s' == s.(d := s.d.(flusher := None, ckpt := if s.d.flusher.value then NoCkpt else s.d.ckpt))
  }

  /** rotate: with no committer active, sync the segment, capture the cutoff, open the next. */
  predicate Rotate(s: State, s': State) {
    && s.up && s.d.ckpt.NoCkpt? && s.c.phase.Quiescent? && !s.c.poisoned
    && s' == s.(c := s.c.(synced := |s.c.written|),
                d := s.d.(fileNum := s.d.fileNum + 1, segs := s.d.segs + [Segment(s.d.fileNum + 1, |s.c.written|)],
                          ckpt := Ckpt(s.d.fileNum + 1, |s.c.written|, s.c.readSeq, 0)))
  }

  predicate RotateFails(s: State, s': State) {
    s.up && s.d.ckpt.NoCkpt? && s.c.phase.Quiescent? && s' == s.(c := s.c.(poisoned := true))
  }

  /** After both passes, the manifest durably moves the replay boundary to the new segment. */
  predicate RecordBoundary(s: State, s': State) {
    && s.up && s.d.ckpt.Ckpt? && s.d.ckpt.passes == 2 && s.d.flusher != Some(true)
    && s' == s.(d := s.d.(boundary := s.d.ckpt.num, ckpt := s.d.ckpt.(passes := 3)))
  }

  predicate FinishCheckpoint(s: State, s': State) {
    && s.up && s.d.ckpt.Ckpt? && s.d.ckpt.passes == 3
    && s' == s.(d := s.d.(filterSafe := Max(s.d.filterSafe, s.d.ckpt.cutoff), ckpt := NoCkpt))
  }

  /** An error at any later point ends the checkpoint without moving the safe sequence. */
  predicate CheckpointFails(s: State, s': State) {
    s.up && s.d.ckpt.Ckpt? && s.d.flusher != Some(true) && s' == s.(d := s.d.(ckpt := NoCkpt))
  }

  /** Log files below the boundary are deleted, or kept for readers of the change stream. */
  predicate RemoveSegment(s: State, s': State) {
    && s.up && |s.d.segs| > 1 && s.d.segs[0].num < s.d.boundary
    && s' == s.(d := s.d.(segs := s.d.segs[1..]))
  }

  /** maybeRotateManifest: a fresh baseline carries the same tables and boundary, and the
      reserved watermark. */
  predicate RotateManifest(s: State, s': State) {
    s.up && s' == s.(d := s.d.(fileNum := s.d.fileNum + 1, lastSeq := s.c.walSeq))
  }

  ghost predicate Merges(s: State, inputs: seq<Table>, outs: seq<Table>, rc: Reclaim, retain: nat, rw: Rewrite, depth: nat, last: nat) {
    && s.up && s.d.flusher.None? && retain <= s.c.readSeq
    && Subset(inputs, s.d.tables) && Guarded(s.d.tables, inputs, rc)
    && s.d.fileNum <= last && FreshTables(outs, depth, 0, last) && NumbersApart(s.d.tables, outs)
    && Collapsed(ViewOf(inputs), ViewOf(outs), rc, retain, rw)
  }

  /** An unfiltered compaction; it excludes flushes, so the tables do not move under it. */
  ghost predicate Compacts(s: State, s': State, inputs: seq<Table>, outs: seq<Table>, rc: Reclaim, retain: nat, c: int, depth: nat, last: nat) {
    && Merges(s, inputs, outs, rc, retain, Unfiltered(c), depth, last)
    && s' == s.(d := s.d.(tables := Without(s.d.tables, inputs) + outs, fileNum := last, lastSeq := s.c.walSeq),
                h := s.h.(floor := Max(s.h.floor, retain), cutoff := MaxInt(s.h.cutoff, c)))
  }

  /** The filter, and not expiry, turns `e` into a tombstone. */
  predicate Rejects(rw: Rewrite, e: Entry) {
    Resolve(rw, e) != e && Resolve(Unfiltered(rw.cutoff), e) == e
  }

  /** The versions a filtered merge shows its filter and the filter rejects. */
  ghost function RejectedIn(w: View, retain: nat, rw: Rewrite): set<(Bytes, nat)> {
    set e | e in w.points && (e.sqn > retain || Newest(w.points, e, retain)) && Rejects(rw, e) :: (e.key, e.sqn)
  }

  /** No table outside the inputs holds a live copy of a version the filter rejects. */
  ghost predicate NoCopy(gone: set<(Bytes, nat)>, rest: View) {
    forall g :: g in rest.points && (g.key, g.sqn) in gone ==> g.payload.Tombstone?
  }

  /** A filtered compaction: no pin is held, so it retains the published sequence, and the filter
      sees only versions at or below the safe sequence, both as they were when it was set up. */
  ghost predicate Filters(s: State, s': State, inputs: seq<Table>, outs: seq<Table>, rc: Reclaim, retain: nat, rw: Rewrite,
                          depth: nat, last: nat) {
    var gone := RejectedIn(ViewOf(inputs), retain, rw);
    && rw.filter.Some? && 0 < rw.through <= s.d.filterSafe
    && Merges(s, inputs, outs, rc, retain, rw, depth, last)
    && s' == s.(d := s.d.(tables := Without(s.d.tables, inputs) + outs, fileNum := last, lastSeq := s.c.walSeq),
                h := s.h.(floor := Max(s.h.floor, retain), cutoff := MaxInt(s.h.cutoff, rw.cutoff), filtered := true,
                          rejected := s.h.rejected + gone,
                          copied := s.h.copied || !NoCopy(gone, ViewOf(Without(s.d.tables, inputs)))))
  }

  // ---------------------------------------------------------------------------
  // Crash and recovery
  // ---------------------------------------------------------------------------

  /** Everything volatile is lost; of the unsynced batches any prefix may be on disk. */
  predicate Crash(s: State, s': State, keep: nat) {
    && s.c.synced <= keep <= |s.c.written|
    && s' == s.(up := false,
                c := s.c.(written := s.c.written[..keep], synced := keep, pending := [], phase := Quiescent,
                          poisoned := false, applied := s.d.flushed),
                d := s.d.(sealed := s.d.flushed, flusher := None, ckpt := NoCkpt))
  }

  /** load: replay the segments from the boundary on into tables, open a segment, and swap
      CURRENT to a baseline with those tables and the new boundary. Until the swap nothing
      durable has changed, so an interrupted recovery is a crash with nothing lost. */
  ghost predicate Recover(s: State, s': State, outs: seq<Table>, lo: nat, num: nat) {
    var b := Skipped(s);
    && !s.up && b <= |Hist(s)|
    && s.d.fileNum <= lo < num
    && (forall i :: 0 <= i < |outs| ==> TableOk(outs[i]) && lo < outs[i].num < num)
    && (forall i, j :: 0 <= i < j < |outs| ==> outs[i].num != outs[j].num)
    && ViewOf(outs) == LogView(Hist(s)[b..]) && Distinct(outs)
    && var start := LastSqn(Hist(s)[b..], s.d.lastSeq);
    s' == s.(up := true,
             c := s.c.(applied := |Hist(s)|, walSeq := start, readSeq := start, head := |Hist(s)|, base := start),
             d := s.d.(tables := s.d.tables + outs, fileNum := num, segs := s.d.segs + [Segment(num, |s.c.written|)],
                       boundary := num, sealed := |Hist(s)|, flushed := |Hist(s)|, lastSeq := start, filterSafe := start),
             h := s.h.(replayed := s.h.replayed || b < s.d.flushed))
  }

  ghost predicate CommitStep(s: State, s': State) {
    || (exists b :: Enqueue(s, s', b))
    || Take(s, s') || WriteBatch(s, s') || WriteFails(s, s') || SyncGroup(s, s')
    || ApplyOne(s, s') || (exists k :: Publish(s, s', k)) || ApplyFails(s, s') || FinishApply(s, s')
    || (exists ok :: Ack(s, s', ok))
  }

  ghost predicate TableStep(s: State, s': State) {
    || (exists ck :: FlushBegin(s, s', ck)) || (exists t :: FlushEnd(s, s', t)) || FlushFails(s, s')
    || Rotate(s, s') || RotateFails(s, s') || RecordBoundary(s, s') || FinishCheckpoint(s, s') || CheckpointFails(s, s')
    || RemoveSegment(s, s') || RotateManifest(s, s')
    || (exists inputs, outs, rc, retain, c, depth, last :: Compacts(s, s', inputs, outs, rc, retain, c, depth, last))
    || (exists inputs, outs, rc, retain, rw, depth, last :: Filters(s, s', inputs, outs, rc, retain, rw, depth, last))
  }

  ghost predicate Step(s: State, s': State) {
    || CommitStep(s, s') || TableStep(s, s')
    || (exists keep :: Crash(s, s', keep))
    || (exists outs, lo, num :: Recover(s, s', outs, lo, num))
  }

  ghost predicate Run(states: seq<State>) {
    && states != [] && Init(states[0])
    && forall i :: 0 <= i < |states| - 1 ==> Step(states[i], states[i+1])
  }

  // ---------------------------------------------------------------------------
  // Invariants
  // ---------------------------------------------------------------------------

  /** The changes known to be synced. */
  function Durable(s: State): seq<Change>
    requires s.c.synced <= |s.c.written|
  {
    Flat(s.c.written[..s.c.synced])
  }

  /** The journal is a log of whole batches with ascending sequences. */
  ghost predicate JournalOk(s: State) {
    && (forall i :: 0 <= i < |s.c.written| ==> BatchOk(s.c.written[i]))
    && LogOk(Hist(s))
    && (forall i :: 0 <= i < |Hist(s)| ==> 0 < SqnOf(Hist(s)[i]))
    && s.c.synced <= |s.c.written|
  }

  /** What this session has reserved is what it has written and queued, in order and without a gap. */
  ghost predicate SessionOk(s: State) {
    && s.c.synced <= |s.c.written| && s.c.head <= |Durable(s)| && s.c.head <= |Hist(s)| && s.c.base <= s.c.walSeq
    && (forall i :: 0 <= i < s.c.head ==> SqnOf(Hist(s)[i]) <= s.c.base)
    && Chain(Hist(s)[s.c.head..], s.c.base)
    && s.c.base + |Hist(s)| - s.c.head <= s.c.walSeq
    && (forall i :: 0 <= i < |Unwritten(s)| ==> BatchOk(Unwritten(s)[i]))
    && (!s.c.poisoned ==> Chain(Flat(Unwritten(s)), s.c.base + |Hist(s)| - s.c.head))
    && (!s.c.poisoned ==> s.c.base + |Hist(s)| - s.c.head + |Flat(Unwritten(s))| == s.c.walSeq)
  }

  /** The batches of `group` are the last ones written. */
  ghost predicate Tail(written: seq<Batch>, group: seq<Batch>) {
    |group| <= |written| && written[|written| - |group|..] == group
  }

  /** One committer at a time, and what it has done so far. */
  ghost predicate PhaseOk(s: State) {
    && (s.c.phase.Quiescent? ==> s.c.pending == [])
    && (s.c.phase.Writing? || s.c.phase.Applying? || s.c.phase.Acking? ==> !s.c.poisoned)
    && match s.c.phase
       case Writing(g, done) => done <= |g| && Tail(s.c.written, g[..done]) && s.c.synced == |s.c.written| - done && s.c.applied == |Durable(s)|
       case Applying(g) => s.c.synced == |s.c.written| && Tail(s.c.written, g)
       case Acking(g, done) => s.c.synced == |s.c.written| && Tail(s.c.written, g) && done <= |g| && s.c.applied == |Hist(s)|
       case _ => s.c.synced <= |s.c.written| && (!s.c.poisoned ==> s.c.synced == |s.c.written| && s.c.applied == |Hist(s)|)
  }

  /** Everything at or below the published sequence is applied; between groups everything applied is published. */
  ghost predicate ReadOk(s: State) {
    && s.c.synced <= |s.c.written|
    && s.d.flushed <= s.d.sealed <= s.c.applied <= |Durable(s)| <= |Hist(s)|
    && s.c.head <= |Hist(s)| && s.c.base <= s.c.readSeq <= s.c.base + |Hist(s)| - s.c.head <= s.c.walSeq
    && (forall i :: 0 <= i < |Hist(s)| && SqnOf(Hist(s)[i]) <= s.c.readSeq ==> i < s.c.applied)
    && (s.c.poisoned || s.c.phase.Applying? || forall i :: 0 <= i < s.c.applied ==> SqnOf(Hist(s)[i]) <= s.c.readSeq)
  }

  /** A change acknowledged with success is logged and applied, and logged for good. */
  ghost predicate AckedOk(s: State) {
    if s.up then s.c.applied <= |Hist(s)| && forall c :: c in s.c.acked ==> c in Hist(s)[..s.c.applied]
    else forall c :: c in s.c.acked ==> c in Hist(s)
  }

  ghost predicate CommitOk(s: State) {
    && JournalOk(s) && AckedOk(s)
    && (if s.up then SessionOk(s) && PhaseOk(s) && ReadOk(s) else s.c.synced == |s.c.written| && s.c.pending == [] && s.c.phase == Quiescent && !s.c.poisoned)
  }

  /** Segment files ascend, cover the journal to its end, and include the boundary's; all but
      the current one are synced. */
  ghost predicate SegsOk(s: State) {
    && s.d.segs != [] && s.c.synced <= |s.c.written|
    && (forall i, j :: 0 <= i < j < |s.d.segs| ==> s.d.segs[i].num < s.d.segs[j].num && s.d.segs[i].lo <= s.d.segs[j].lo)
    && s.d.segs[|s.d.segs|-1].lo <= s.c.synced && s.d.segs[|s.d.segs|-1].num <= s.d.fileNum
    && (exists i :: 0 <= i < |s.d.segs| && s.d.segs[i].num == s.d.boundary)
  }

  /** The cutoff separates the old segments from the new one, and two passes are enough. */
  ghost predicate CkptOk(s: State) {
    && (s.d.flusher == Some(true) ==> s.d.ckpt.Ckpt? && s.d.ckpt.passes < 2)
    && (s.d.ckpt.Ckpt? && s.d.segs != [] ==>
          var cut := OpsBelow(s, s.d.ckpt.start);
          && s.d.segs[|s.d.segs|-1] == Segment(s.d.ckpt.num, s.d.ckpt.start)
          && s.d.ckpt.cutoff <= s.c.readSeq && cut <= s.c.applied
          && (forall i :: 0 <= i < |Hist(s)| ==> (SqnOf(Hist(s)[i]) <= s.d.ckpt.cutoff <==> i < cut))
          && (s.d.ckpt.passes >= 1 ==> (s.d.flusher.None? && s.d.flushed == s.d.sealed) || s.d.sealed >= cut)
          && (s.d.ckpt.passes >= 2 ==> s.d.flushed >= cut)
          && (s.d.ckpt.passes == 3 ==> s.d.boundary == s.d.ckpt.num))
  }

  /** A held version stands for a logged one, or is the tombstone of one a filter rejected. */
  ghost predicate Replaces(e: Entry, f: Entry, cutoff: int, rejected: set<(Bytes, nat)>) {
    Stands(e, f, cutoff) || (e == f.(payload := Tombstone) && (e.key, e.sqn) in rejected)
  }

  ghost predicate HeldOk(w: View, log: seq<Change>, cutoff: int, rejected: set<(Bytes, nat)>) {
    && (forall e :: e in w.points ==> exists f :: f in LogView(log).points && Replaces(e, f, cutoff, rejected))
    && w.dels <= LogView(log).dels
  }

  /** The tables hold the journal up to `flushed`, and nothing recovery needs is missing. */
  ghost predicate TablesHold(s: State) {
    && TablesOk(s.d.tables) && (forall i :: 0 <= i < |s.d.tables| ==> s.d.tables[i].num <= s.d.fileNum)
    && Skipped(s) <= s.d.flushed <= |Hist(s)|
    && (forall i :: 0 <= i < s.d.flushed ==> SqnOf(Hist(s)[i]) <= s.d.lastSeq)
    && s.h.floor <= s.d.lastSeq && (s.up ==> s.d.lastSeq <= s.c.walSeq && s.h.floor <= s.c.readSeq)
    && HeldOk(ViewOf(s.d.tables), Hist(s)[..s.d.flushed], s.h.cutoff, s.h.rejected)
    && (!s.h.filtered ==> s.h.rejected == {} && SameReads(ViewOf(s.d.tables), LogView(Hist(s)[..s.d.flushed]), s.h.floor, s.h.cutoff))
  }

  /** What replay can bring back is newer than all that filters may touch or have touched. */
  ghost predicate FilterOk(s: State) {
    && (forall r :: r in s.h.rejected ==> r.1 <= s.d.lastSeq && (s.up ==> r.1 <= s.c.readSeq))
    && (forall r, i :: r in s.h.rejected && Skipped(s) <= i < |Hist(s)| ==> r.1 < SqnOf(Hist(s)[i]))
    && (s.up ==> s.d.filterSafe <= s.c.readSeq && forall i :: Skipped(s) <= i < |Hist(s)| ==> s.d.filterSafe < SqnOf(Hist(s)[i]))
    && (!s.h.copied ==> NoCopy(s.h.rejected, ViewOf(s.d.tables)))
    && (!s.h.replayed ==> Distinct(s.d.tables))
  }

  /** No version is held by two tables. */
  ghost predicate Distinct(ts: seq<Table>) {
    forall t, u, e, g :: t in ts && u in ts && t.num != u.num && e in t.points && g in u.points ==> e.key != g.key || e.sqn != g.sqn
  }

  ghost predicate Inv(s: State) {
    && CommitOk(s) && SegsOk(s) && TablesHold(s) && FilterOk(s)
    && (if s.up then CkptOk(s) else s.d.ckpt == NoCkpt && s.d.flusher == None)
  }

  // ---------------------------------------------------------------------------
  // Flattening
  // ---------------------------------------------------------------------------

  lemma {:induction false} FlatConcat(a: seq<Batch>, b: seq<Batch>)
    ensures Flat(a + b) == Flat(a) + Flat(b)
  {
    if b == [] {
      assert a + b == a;
    } else {
      var n := |b| - 1;
      assert (a + b)[..|a + b| - 1] == a + b[..n];
      FlatConcat(a, b[..n]);
    }
  }

  lemma FlatOne(b: Batch)
    ensures Flat([b]) == b
  {
    assert [b][..0] == [];
  }

  lemma FlatPrefix(bs: seq<Batch>, k: nat)
    requires k <= |bs|
    ensures Flat(bs) == Flat(bs[..k]) + Flat(bs[k..])
  {
    hide Flat;
    FlatConcat(bs[..k], bs[k..]);
    assert bs[..k] + bs[k..] == bs;
  }

  lemma {:induction false} FlatMember(bs: seq<Batch>, k: nat, c: Change)
    requires k < |bs| && c in bs[k]
    ensures c in Flat(bs)
  {
    hide Flat;
    FlatPrefix(bs, k);
    FlatPrefix(bs[k..], 1);
    assert bs[k..][..1] == [bs[k]];
    FlatOne(bs[k]);
  }
}
