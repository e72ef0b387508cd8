/** Sequence numbers over whole runs: writes, partial flushes, ingestion and its roll-back,
    manifest edits and rotation, crash and recovery. */
module Sequences {
  import opened Bytes
  import Ikey

  /** A table change between reading the allocated watermark and being appended to the manifest:
      `part` joins the tables, `gone` leaves them. */
  datatype Edit = Edit(mark: nat, part: set<nat>, gone: set<nat>, ingested: bool)

  /** Who holds the manifest: nobody, the call that has just appended, or that call rotating
      with the watermark it read. */
  datatype Lock = Free | Appended | Rotating(mark: nat)

  /**
  What the allocator depends on. `lastSeq` is the manifest's watermark and `count` its edits; `logged` the
  records in segments a replay would read, `durable` those of them synced; `flushed` what some committed
  flush took; `acked` what a caller was told is safe. History: `recorded` holds the watermarks of the
  manifest's edits, and `returned` says that the number above `walSeq` was given back and not taken since.
  */
  datatype State = State(
    up: bool,
    walSeq: nat,
    ingest: Option<nat>,
    lastSeq: nat,
    count: nat,
    lock: Lock,
    edits: multiset<Edit>,
    pending: set<nat>,
    logged: set<nat>,
    durable: set<nat>,
    mem: set<nat>,
    tables: set<nat>,
    flushed: set<nat>,
    acked: set<nat>,
    recorded: set<nat>,
    returned: bool)

  /** The edits after which a manifest is rotated, and those a new one starts with. */
  const ROTATE_EDITS: nat := 4096
  const FRESH_EDITS: nat := 2

  ghost predicate AtMost(qs: set<nat>, n: nat) {
    forall q :: q in qs ==> q <= n
  }

  ghost predicate Init(s: State) {
    s == State(true, 0, None, 0, FRESH_EDITS, Free, multiset{}, {}, {}, {}, {}, {}, {}, {}, {0}, false)
  }

  /** reserveSeq by a writer: the next n numbers, or none past the 56-bit limit. */
  ghost predicate Reserve(s: State, t: State, n: nat) {
    && s.up && s.ingest.None? && n > 0 && s.walSeq + n <= Ikey.MAX_SEQ
    && t == s.(walSeq := s.walSeq + n, pending := s.pending + Range(s.walSeq + 1, n), returned := false)
  }

  /** The n numbers from `from`. */
  function Range(from: nat, n: nat): (r: set<nat>)
    ensures forall q :: q in r <==> from <= q < from + n
  {
    if n == 0 then {} else Range(from, n - 1) + {from + n - 1}
  }

  /** A batch's records reach the log, and then the memtable. */
  ghost predicate Write(s: State, t: State, q: nat) {
    s.up && q in s.pending && t == s.(logged := s.logged + {q})
  }

  ghost predicate Sync(s: State, t: State) {
    s.up && t == s.(durable := s.logged)
  }

  ghost predicate Apply(s: State, t: State, q: nat) {
    s.up && q in s.pending && q in s.logged && t == s.(pending := s.pending - {q}, mem := s.mem + {q})
  }

  ghost predicate Ack(s: State, t: State, q: nat) {
    s.up && q in s.durable && t == s.(acked := s.acked + {q})
  }

  /** commitTableChange, up to the lock: a flush of some buffered numbers, or a merge, reads the watermark. */
  ghost predicate EditLoad(s: State, t: State, part: set<nat>, gone: set<nat>) {
    && s.up && part <= s.mem && gone <= s.tables && (part != {} || gone != {})
    && t == s.(edits := s.edits + multiset{Edit(s.walSeq, part, gone, false)})
  }

  /** Its append, and the installation. */
  ghost predicate EditAppend(s: State, t: State, e: Edit) {
    && s.up && s.lock == Free && e in s.edits
    && t == s.(edits := s.edits - multiset{e}, lock := Appended, count := s.count + 1,
               lastSeq := Max(s.lastSeq, e.mark), recorded := s.recorded + {e.mark},
               mem := s.mem - e.part, tables := s.tables - e.gone + e.part,
               flushed := s.flushed + if e.ingested then {} else e.part,
               acked := s.acked + if e.ingested then e.part else {})
  }

  /** A failed append may have left the edit readable; nothing is installed or acknowledged. */
  ghost predicate EditUnsure(s: State, t: State, e: Edit, survived: bool) {
    && s.up && s.lock == Free && e in s.edits
    && t == if survived then
              s.(edits := s.edits - multiset{e}, lastSeq := Max(s.lastSeq, e.mark), recorded := s.recorded + {e.mark},
                 tables := s.tables - e.gone + e.part)
            else
              s.(edits := s.edits - multiset{e})
  }

  /** IngestExternalFile takes one number; no other writer runs until it is done. */
  ghost predicate IngestBegin(s: State, t: State) {
    && s.up && s.ingest.None? && s.walSeq + 1 <= Ikey.MAX_SEQ
    && t == s.(walSeq := s.walSeq + 1, ingest := Some(s.walSeq + 1), returned := false)
  }

  /** A build that failed gives its number back. */
  ghost predicate IngestAbandon(s: State, t: State) {
    && s.up && s.ingest.Some? && s.ingest.value > 0
    && t == s.(walSeq := s.ingest.value - 1, ingest := None, returned := true)
  }

  /** Once published the number is spent, and a table change adds the file. */
  ghost predicate IngestLoad(s: State, t: State) {
    && s.up && s.ingest.Some?
    && t == s.(ingest := None, edits := s.edits + multiset{Edit(s.walSeq, {s.ingest.value}, {}, true)})
  }

  /** An edit that carries no watermark: new value files, or a replay boundary past records all flushed. */
  ghost predicate Retire(s: State, t: State, rs: set<nat>) {
    && s.up && s.lock == Free && rs <= s.flushed
    && t == s.(lock := Appended, count := s.count + 1, logged := s.logged - rs, durable := s.durable - rs)
  }

  /** The call that appended lets go: the manifest is short, or a rotation failed. */
  ghost predicate Release(s: State, t: State) {
    s.up && s.lock != Free && t == s.(lock := Free)
  }

  /** maybeRotateManifest: past the threshold it reads the watermark for a fresh baseline, */
  ghost predicate RotateLoad(s: State, t: State) {
    s.up && s.lock == Appended && s.count >= ROTATE_EDITS && t == s.(lock := Rotating(s.walSeq))
  }

  /** which then replaces everything older. */
  ghost predicate RotateInstall(s: State, t: State) {
    && s.up && s.lock.Rotating?
    && t == s.(lock := Free, count := FRESH_EDITS, lastSeq := s.lock.mark, recorded := {s.lock.mark})
  }

  /** Memory is lost; of the log, the synced records and any others survive. */
  ghost predicate Crash(s: State, t: State, kept: set<nat>) {
    && s.up && s.durable <= kept <= s.logged
    && t == s.(up := false, ingest := None, lock := Free, edits := multiset{}, pending := {}, logged := kept, durable := kept,
               mem := {}, returned := false)
  }

  /** load: the watermark and every replayed record bound the new start; the records become tables
      in a fresh baseline, and the old segments go. */
  ghost predicate Recover(s: State, t: State, start: nat) {
    && !s.up && start >= s.lastSeq && AtMost(s.logged, start) && (start == s.lastSeq || start in s.logged)
    && t == s.(up := true, walSeq := start, lastSeq := start, count := FRESH_EDITS, recorded := {start}, logged := {}, durable := {},
               tables := s.tables + s.logged, flushed := s.flushed + s.logged)
  }

  ghost predicate WriterStep(s: State, t: State) {
    || (exists n: nat :: Reserve(s, t, n))
    || (exists q: nat :: Write(s, t, q)) || Sync(s, t) || (exists q: nat :: Apply(s, t, q)) || (exists q: nat :: Ack(s, t, q))
  }

  ghost predicate EditStep(s: State, t: State) {
    || (exists part: set<nat>, gone: set<nat> :: EditLoad(s, t, part, gone))
    || (exists e :: EditAppend(s, t, e)) || (exists e, v: bool :: EditUnsure(s, t, e, v))
  }

  ghost predicate IngestStep(s: State, t: State) {
    IngestBegin(s, t) || IngestAbandon(s, t) || IngestLoad(s, t)
  }

  ghost predicate ManifestStep(s: State, t: State) {
    (exists rs: set<nat> :: Retire(s, t, rs)) || Release(s, t) || RotateLoad(s, t) || RotateInstall(s, t)
  }

  ghost predicate RestartStep(s: State, t: State) {
    (exists kept: set<nat> :: Crash(s, t, kept)) || (exists n: nat :: Recover(s, t, n))
  }

  ghost predicate Next(s: State, t: State) {
    WriterStep(s, t) || EditStep(s, t) || IngestStep(s, t) || ManifestStep(s, t) || RestartStep(s, t)
  }

  ghost predicate Run(trace: seq<State>) {
    && |trace| > 0 && Init(trace[0])
    && forall i :: 0 <= i < |trace| - 1 ==> Next(trace[i], trace[i + 1])
  }

  // ---------------------------------------------------------------------------
  // The invariant
  // ---------------------------------------------------------------------------

  /** The highest number anything but the ingestion under way carries. */
  function Spent(s: State): int {
    if s.ingest.Some? then s.ingest.value - 1 else s.walSeq
  }

  /** A watermark read at some moment is never more than one number ahead, and then only of one given back. */
  ghost predicate Marks(s: State, m: nat) {
    m <= s.walSeq || (s.returned && m == s.walSeq + 1)
  }

  /** A manifest with watermark `m` is safe to recover from. */
  ghost predicate Covers(s: State, m: nat) {
    AtMost(s.tables, m) && AtMost(s.flushed, m) && forall q :: q in s.acked ==> q <= m || q in s.durable
  }

  ghost predicate Inv(s: State) {
    && Covers(s, s.lastSeq) && s.durable <= s.logged
    && s.lastSeq in s.recorded && AtMost(s.recorded, s.lastSeq)
    && (s.ingest.Some? ==> s.ingest.value == s.walSeq)
    && (s.up ==> Below(s) && InFlight(s))
    && (!s.up ==> s.ingest.None? && s.edits == multiset{} && s.lock == Free && s.pending == {} && s.mem == {} && !s.returned)
  }

  /** While the store is up: what its numbers may reach. */
  ghost predicate Below(s: State) {
    && (forall q :: q in s.pending || q in s.logged || q in s.mem || q in s.tables || q in s.flushed || q in s.acked ==> q <= Spent(s))
    && Marks(s, s.lastSeq) && (s.returned ==> s.ingest.None?)
  }

  ghost predicate InFlight(s: State) {
    && (forall e :: e in s.edits ==> Marks(s, e.mark) && AtMost(e.part, e.mark) && forall q :: q in e.part ==> q <= Spent(s))
    && (s.lock.Rotating? ==> Marks(s, s.lock.mark) && Covers(s, s.lock.mark))
  }

  lemma ReserveKeeps(s: State, t: State, n: nat)
    requires Inv(s) && Reserve(s, t, n)
    ensures Inv(t)
  {
    hide AtMost;
  }

  lemma WriteKeeps(s: State, t: State, q: nat)
    requires Inv(s) && (Write(s, t, q) || Sync(s, t) || Apply(s, t, q) || Ack(s, t, q))
    ensures Inv(t)
  {
    hide AtMost;
  }

  lemma WriterKeeps(s: State, t: State)
    requires Inv(s) && WriterStep(s, t)
    ensures Inv(t)
  {
    hide Inv, Reserve, Write, Sync, Apply, Ack;
    if n: nat :| Reserve(s, t, n) {
      ReserveKeeps(s, t, n);
    } else if Sync(s, t) {
      WriteKeeps(s, t, 0);
    } else {
      var q: nat :| Write(s, t, q) || Apply(s, t, q) || Ack(s, t, q);
      WriteKeeps(s, t, q);
    }
  }

  lemma LoadKeeps(s: State, t: State, part: set<nat>, gone: set<nat>)
    requires Inv(s) && EditLoad(s, t, part, gone)
    ensures Inv(t)
  {
  }

  lemma AppendKeeps(s: State, t: State, e: Edit)
    requires Inv(s) && EditAppend(s, t, e)
    ensures Inv(t)
  {
    assert forall f :: f in t.edits ==> f in s.edits;
  }

  lemma UnsureKeeps(s: State, t: State, e: Edit, survived: bool)
    requires Inv(s) && EditUnsure(s, t, e, survived)
    ensures Inv(t)
  {
    assert forall f :: f in t.edits ==> f in s.edits;
  }

  lemma EditKeeps(s: State, t: State)
    requires Inv(s) && EditStep(s, t)
    ensures Inv(t)
  {
    hide Inv, EditLoad, EditAppend, EditUnsure;
    if part: set<nat>, gone: set<nat> :| EditLoad(s, t, part, gone) {
      LoadKeeps(s, t, part, gone);
    } else if e :| EditAppend(s, t, e) {
      AppendKeeps(s, t, e);
    } else {
      var e, v: bool :| EditUnsure(s, t, e, v);
      UnsureKeeps(s, t, e, v);
    }
  }

  lemma IngestKeeps(s: State, t: State)
    requires Inv(s) && IngestStep(s, t)
    ensures Inv(t)
  {
  }

  lemma ManifestKeeps(s: State, t: State)
    requires Inv(s) && ManifestStep(s, t)
    ensures Inv(t)
  {
  }

  lemma RestartKeeps(s: State, t: State)
    requires Inv(s) && RestartStep(s, t)
    ensures Inv(t)
  {
  }

  lemma NextKeeps(s: State, t: State)
    requires Inv(s) && Next(s, t)
    ensures Inv(t)
  {
    hide Inv, WriterStep, EditStep, IngestStep, ManifestStep, RestartStep;
    if WriterStep(s, t) {
      WriterKeeps(s, t);
    } else if EditStep(s, t) {
      EditKeeps(s, t);
    } else if IngestStep(s, t) {
      IngestKeeps(s, t);
    } else if ManifestStep(s, t) {
      ManifestKeeps(s, t);
    } else {
      RestartKeeps(s, t);
    }
  }

  lemma {:induction false} RunKeeps(trace: seq<State>, i: nat)
    requires Run(trace) && i < |trace|
    ensures Inv(trace[i])
    decreases i
  {
    hide Next;
    if i > 0 {
      RunKeeps(trace, i - 1);
      assert Next(trace[i - 1], trace[i - 1 + 1]);
      NextKeeps(trace[i - 1], trace[i]);
    }
  }

  // ---------------------------------------------------------------------------
  // What follows
  // ---------------------------------------------------------------------------

  /** A number taken by a write or an ingestion is above every number the store holds or has
      acknowledged, in any run. */
  lemma NumbersAreFresh(trace: seq<State>, i: nat, n: nat)
    requires Run(trace) && i < |trace| - 1
    requires Reserve(trace[i], trace[i + 1], n) || (n == 1 && IngestBegin(trace[i], trace[i + 1]))
    ensures var s := trace[i];
            var held := s.tables + s.mem + s.logged + s.pending + s.acked;
            AtMost(held, s.walSeq) && held !! Range(s.walSeq + 1, n)
  {
    hide Run;
    RunKeeps(trace, i);
  }

  /** Recovery resumes at or above every acknowledged number and every number in a table or a record. */
  lemma RecoveryResumesAbove(trace: seq<State>, i: nat, start: nat)
    requires Run(trace) && i < |trace| - 1 && Recover(trace[i], trace[i + 1], start)
    ensures AtMost(trace[i].acked, start) && AtMost(trace[i + 1].tables, start)
  {
    hide Run;
    RunKeeps(trace, i);
  }

  /** The number last given back is one the manifest has recorded. */
  ghost predicate Lost(s: State) {
    s.returned && s.walSeq + 1 in s.recorded
  }

  /** A rotation that reads the watermark at `i` and is installed at `j`. */
  ghost predicate Rotates(trace: seq<State>, i: nat, j: nat) {
    && i < j < |trace| - 1 && RotateLoad(trace[i], trace[i + 1]) && RotateInstall(trace[j], trace[j + 1])
    && forall k :: i < k <= j ==> trace[k].lock == trace[i + 1].lock
  }

  lemma {:induction false} LockedMark(trace: seq<State>, i: nat, j: nat)
    requires Run(trace) && i <= j < |trace|
    requires forall k :: i <= k <= j ==> trace[k].lock == trace[i].lock && trace[k].lock.Rotating?
    ensures trace[j].lastSeq == trace[i].lastSeq
    decreases j
  {
    hide Next, Init;
    if i < j {
      LockedMark(trace, i, j - 1);
      assert Next(trace[j - 1], trace[j - 1 + 1]);
      RunKeeps(trace, j - 1);
      LockedStep(trace[j - 1], trace[j]);
    }
  }

  lemma LockedStep(s: State, t: State)
    requires Next(s, t) && s.up && s.lock.Rotating? && t.lock == s.lock
    ensures t.lastSeq == s.lastSeq
  {
  }

  /** Rotation writes a watermark below the one it replaces exactly when, as it reads its own, the number last
      given back is one the manifest recorded; then it is one lower, and still covers everything. */
  lemma RotationLowersIff(trace: seq<State>, i: nat, j: nat)
    requires Run(trace) && Rotates(trace, i, j)
    ensures var old', new' := trace[j].lastSeq, trace[j + 1].lastSeq;
            && (new' < old' <==> Lost(trace[i]))
            && (new' < old' ==> old' == new' + 1)
            && Covers(trace[j + 1], new')
  {
    hide Run, Next, Covers;
    RunKeeps(trace, i);
    RunKeeps(trace, j + 1);
    LockedMark(trace, i + 1, j);
  }

  /** How a recorded number comes to be given back: the ingestion gives it back after an edit took it as its
      watermark, or an edit or a baseline that took it before lands afterwards. Nothing else does it. */
  ghost predicate Loses(s: State, t: State) {
    || (IngestAbandon(s, t) && s.ingest.value in s.recorded)
    || (s.returned && exists e: Edit :: e.mark == s.walSeq + 1 && (EditAppend(s, t, e) || EditUnsure(s, t, e, true)))
    || (s.returned && s.lock == Rotating(s.walSeq + 1) && RotateInstall(s, t))
  }

  lemma LostBy(s: State, t: State)
    requires Next(s, t) && !Lost(s)
    ensures Lost(t) <==> Loses(s, t)
  {
    hide EditStep, Loses, Lost, WriterStep;
    if Loses(s, t) {
      LosesLoses(s, t);
    } else if EditStep(s, t) {
      LostByEdit(s, t);
    } else {
      LostByOthers(s, t);
    }
  }

  lemma LosesLoses(s: State, t: State)
    requires Loses(s, t)
    ensures Lost(t)
  {
  }

  lemma LostByLanding(s: State, t: State, e: Edit)
    requires (EditAppend(s, t, e) || EditUnsure(s, t, e, true)) && !Lost(s) && Lost(t)
    ensures Loses(s, t)
  {
  }

  lemma LostByEdit(s: State, t: State)
    requires EditStep(s, t) && !Lost(s)
    ensures Lost(t) ==> Loses(s, t)
  {
    hide Loses;
    if e :| EditAppend(s, t, e) || EditUnsure(s, t, e, true) {
      if Lost(t) {
        LostByLanding(s, t, e);
      }
    }
  }

  lemma LostByOthers(s: State, t: State)
    requires (WriterStep(s, t) || IngestStep(s, t) || ManifestStep(s, t) || RestartStep(s, t)) && !Lost(s)
    ensures Lost(t) ==> Loses(s, t)
  {
    hide Range;
  }

  // ---------------------------------------------------------------------------
  // Runs in which it happens
  // ---------------------------------------------------------------------------

  lemma Extend(trace: seq<State>, t: State) returns (longer: seq<State>)
    requires Run(trace) && Next(trace[|trace| - 1], t)
    ensures longer == trace + [t] && Run(longer)
  {
    hide Next, Init;
    longer := trace + [t];
    forall i | 0 <= i < |longer| - 1 ensures Next(longer[i], longer[i + 1]) {
      if i < |trace| - 1 {
        assert Next(trace[i], trace[i + 1]);
      }
    }
  }

  /** After k puts, each logged, synced, applied, acknowledged and flushed. */
  function After(k: nat): State {
    State(true, k, None, k, FRESH_EDITS + k, Free, multiset{}, {}, Range(1, k), Range(1, k), {}, Range(1, k), Range(1, k), Range(1, k),
          Range(0, k + 1), false)
  }

  /** The next put, up to its acknowledgement. */
  function Applied(k: nat): State {
    After(k).(walSeq := k + 1, logged := Range(1, k + 1), durable := Range(1, k + 1), mem := {k + 1}, acked := Range(1, k + 1))
  }

  lemma Puts(trace: seq<State>, k: nat) returns (longer: seq<State>)
    requires Run(trace) && trace[|trace| - 1] == After(k) && k < Ikey.MAX_SEQ
    ensures Run(longer) && longer[|longer| - 1] == Applied(k)
  {
    hide Run, EditStep, IngestStep, ManifestStep, RestartStep, Range;
    Grows(k);
    var q := k + 1;
    var s1 := After(k).(walSeq := q, pending := {q});
    assert Reserve(After(k), s1, 1);
    longer := Extend(trace, s1);
    var s2 := s1.(logged := Range(1, q));
    assert Write(s1, s2, q);
    longer := Extend(longer, s2);
    var s3 := s2.(durable := Range(1, q));
    assert Sync(s2, s3);
    longer := Extend(longer, s3);
    var s4 := s3.(pending := {}, mem := {q});
    assert {q} - {q} == {} && {} + {q} == {q};
    assert Apply(s3, s4, q);
    longer := Extend(longer, s4);
    assert Ack(s4, Applied(k), q);
    longer := Extend(longer, Applied(k));
  }

  lemma Grows(k: nat)
    ensures Range(1, k + 1) == Range(1, k) + {k + 1} && Range(k + 1, 1) == {k + 1} && {} + Range(k + 1, 1) == {k + 1}
    ensures Range(0, k + 2) == Range(0, k + 1) + {k + 1}
  {
    assert Range(k + 1, 0) == {};
  }

  lemma {:induction false} Rounds(k: nat) returns (trace: seq<State>)
    requires k <= Ikey.MAX_SEQ
    ensures Run(trace) && trace[|trace| - 1] == After(k)
  {
    hide Run, WriterStep, IngestStep, RestartStep, Range;
    if k == 0 {
      trace := [After(0)];
      StartsEmpty();
    } else {
      trace := Rounds(k - 1);
      trace := Puts(trace, k - 1);
      Grows(k - 1);
      var s, e := Applied(k - 1), Edit(k, {k}, {}, false);
      var s1 := s.(edits := multiset{e});
      assert EditLoad(s, s1, {k}, {});
      trace := Extend(trace, s1);
      var s2 := After(k).(lock := Appended);
      assert {k} - {k} == {};
      assert EditAppend(s1, s2, e);
      trace := Extend(trace, s2);
      assert Release(s2, After(k));
      trace := Extend(trace, After(k));
    }
  }

  lemma StartsEmpty()
    ensures Run([After(0)])
  {
    assert Range(1, 0) == {} && Range(0, 1) == {0};
  }

  /** The flush of a put has read its watermark while an ingestion holds the next number. */
  function Flushing(k: nat): State {
    Applied(k).(walSeq := k + 2, ingest := Some(k + 2), edits := multiset{Edit(k + 2, {k + 1}, {}, false)})
  }

  lemma FlushReads(k: nat) returns (trace: seq<State>)
    requires k + 2 <= Ikey.MAX_SEQ
    ensures Run(trace) && trace[|trace| - 1] == Flushing(k)
  {
    hide Run, WriterStep, ManifestStep, RestartStep, Range;
    trace := Rounds(k);
    trace := Puts(trace, k);
    var s := Applied(k);
    var s1 := s.(walSeq := k + 2, ingest := Some(k + 2));
    assert IngestBegin(s, s1);
    trace := Extend(trace, s1);
    assert EditLoad(s1, Flushing(k), {k + 1}, {});
    trace := Extend(trace, Flushing(k));
  }

  /** That flush has landed and the ingestion has given its number back. */
  function GivenBack(k: nat): State {
    Applied(k).(returned := true, lock := Appended, count := FRESH_EDITS + k + 1, lastSeq := k + 2, recorded := Range(0, k + 1) + {k + 2},
                mem := {}, tables := Range(1, k + 1), flushed := Range(1, k + 1))
  }

  ghost predicate Lands(s: State, t: State) {
    exists e :: EditAppend(s, t, e)
  }

  /** In either order. */
  lemma GivesBack(k: nat, late: bool) returns (trace: seq<State>)
    requires k + 2 <= Ikey.MAX_SEQ
    ensures Run(trace) && |trace| >= 2 && trace[|trace| - 1] == GivenBack(k)
    ensures late ==> Lands(trace[|trace| - 2], trace[|trace| - 1])
    ensures !late ==> IngestAbandon(trace[|trace| - 2], trace[|trace| - 1])
  {
    hide Run, WriterStep, ManifestStep, RestartStep, Range;
    trace := FlushReads(k);
    Grows(k);
    var s, e, t := Flushing(k), Edit(k + 2, {k + 1}, {}, false), GivenBack(k);
    assert {k + 1} - {k + 1} == {};
    if late {
      var s1 := s.(walSeq := k + 1, ingest := None, returned := true);
      assert IngestAbandon(s, s1);
      trace := Extend(trace, s1);
      assert EditAppend(s1, t, e);
    } else {
      var s1 := t.(walSeq := k + 2, ingest := Some(k + 2), returned := false);
      assert EditAppend(s, s1, e);
      trace := Extend(trace, s1);
      assert IngestAbandon(s1, t);
    }
    trace := Extend(trace, t);
  }

  /** It happens, whether the flush of a put lands before an ingestion gives back the number above it or after:
      the rotation that flush brings about writes the lower watermark. */
  lemma RotationCanLower(late: bool) returns (trace: seq<State>, i: nat)
    ensures Run(trace) && i > 0 && Rotates(trace, i, i + 1) && trace[i + 2].lastSeq < trace[i + 1].lastSeq
    ensures late ==> Lands(trace[i - 1], trace[i])
    ensures !late ==> IngestAbandon(trace[i - 1], trace[i])
  {
    hide Run, WriterStep, EditStep, IngestStep, RestartStep, Range, Lands, IngestAbandon;
    var k := ROTATE_EDITS - FRESH_EDITS - 1;
    trace := GivesBack(k, late);
    i := |trace| - 1;
    var s := GivenBack(k);
    var s1 := s.(lock := Rotating(k + 1));
    assert RotateLoad(s, s1);
    trace := Extend(trace, s1);
    var s2 := s.(lock := Free, count := FRESH_EDITS, lastSeq := k + 1, recorded := {k + 1});
    assert RotateInstall(s1, s2);
    trace := Extend(trace, s2);
  }
}
