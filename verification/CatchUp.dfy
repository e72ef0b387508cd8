/** GetUpdatesSince: the change stream a replica reads back from the retained log files. */
module CatchUp {
  import opened Log
  import opened Journal
  import opened RecoverLog
  import R = WalRecord
  import S = WalSegment
  import W = WriteAhead

  /** One emitted entry. */
  datatype Update = Update(sqn: nat, op: R.Mutation)

  /** A log file as replay decodes it. */
  datatype Segment = Segment(batches: seq<R.Batch>, end: S.Outcome)

  /** Every file but the live one is read strictly: a record cut short there is damage, not a tail in the making. */
  function Decoding(sum: Checksum, f: S.LogFile, live: nat): Segment {
    var r := S.Replay(sum, f.bytes, 0, false, f.num != live, 0);
    Segment(r.0, r.1)
  }

  function Segments(sum: Checksum, files: seq<S.LogFile>, live: nat): (segs: seq<Segment>)
    ensures |segs| == |files| && forall g :: 0 <= g < |files| ==> segs[g] == Decoding(sum, files[g], live)
  {
    seq(|files|, g requires 0 <= g < |files| => Decoding(sum, files[g], live))
  }

  datatype Failure = RetentionExpired | Unreadable | MissingUpdates

  datatype Reply = Updates(batches: seq<seq<Update>>) | Refused(why: Failure)

  function Join(out: seq<seq<Update>>): seq<Update> {
    if out == [] then [] else Join(out[..|out|-1]) + out[|out|-1]
  }

  /** The stream so far: every sequence from since+1 to `seen`, ascending, once each. */
  ghost predicate Exact(stream: seq<Update>, since: nat, seen: nat) {
    && since <= seen && |stream| == seen - since
    && forall i :: 0 <= i < |stream| ==> stream[i].sqn == since + 1 + i
  }

  /** Every emitted entry is one some log file holds at that sequence. */
  ghost predicate FromLogs(stream: seq<Update>, segs: seq<Segment>) {
    forall i :: 0 <= i < |stream| ==> InLogs(stream[i], segs)
  }

  ghost predicate InLogs(u: Update, segs: seq<Segment>) {
    exists g, b :: 0 <= g < |segs| && 0 <= b < |segs[g].batches| && InBatch(u, segs[g].batches[b])
  }

  ghost predicate InBatch(u: Update, b: R.Batch) {
    b.base <= u.sqn < b.base + |b.ops| && u.op == b.ops[u.sqn - b.base]
  }

  /** convertWALBatch: the entries above what has been emitted. */
  method ConvertBatch(b: R.Batch, since: nat, seen: nat) returns (out: seq<Update>, seen': nat)
    requires b.ops != [] && b.base <= seen + 1 && since <= seen
    ensures seen' == if b.base + |b.ops| - 1 > seen then b.base + |b.ops| - 1 else seen
    ensures Exact(out, seen, seen')
    ensures forall i :: 0 <= i < |out| ==> InBatch(out[i], b)
  {
    out, seen' := [], seen;
    for i := 0 to |b.ops|
      invariant seen' == if b.base + i - 1 > seen then b.base + i - 1 else seen
      invariant Exact(out, seen, seen')
      invariant forall k :: 0 <= k < |out| ==> InBatch(out[k], b)
    {
      if b.base + i <= since || b.base + i <= seen' {
        continue;
      }
      seen' := b.base + i;
      out := out + [Update(b.base + i, b.ops[i])];
    }
  }

  lemma JoinGrows(out: seq<seq<Update>>, more: seq<Update>)
    ensures Join(out + [more]) == Join(out) + more
  {
    assert (out + [more])[..|out|] == out;
  }

  lemma ExactGrows(a: seq<Update>, b: seq<Update>, since: nat, mid: nat, end: nat)
    requires Exact(a, since, mid) && Exact(b, mid, end)
    ensures Exact(a + b, since, end)
  {
    forall i | 0 <= i < |a + b| ensures (a + b)[i].sqn == since + 1 + i {
      if i >= |a| {
        assert (a + b)[i] == b[i - |a|];
      }
    }
  }

  datatype Progress = More | Enough | Gap

  /** The visitor of one decoded batch. */
  method Visit(b: R.Batch, since: nat, cutoff: nat, out: seq<seq<Update>>, seen: nat)
    returns (v: Progress, out': seq<seq<Update>>, seen': nat)
    requires b.ops != [] && since <= seen <= cutoff && Exact(Join(out), since, seen)
    ensures v.Gap? <==> b.base + |b.ops| - 1 <= cutoff && b.base > seen + 1
    ensures v.Enough? <==> b.base + |b.ops| - 1 > cutoff || (b.base + |b.ops| - 1 == cutoff && b.base <= seen + 1)
    ensures seen' <= cutoff && Exact(Join(out'), since, seen')
    ensures v.More? || (v.Enough? && b.base + |b.ops| - 1 == cutoff) ==>
              seen' == if b.base + |b.ops| - 1 > seen then b.base + |b.ops| - 1 else seen
    ensures v.Gap? || (v.Enough? && b.base + |b.ops| - 1 > cutoff) ==> seen' == seen
    ensures forall u :: u in Join(out') ==> u in Join(out) || InBatch(u, b)
  {
    hide Join;
    out', seen' := out, seen;
    var last := b.base + |b.ops| - 1;
    if last > cutoff {
      return Enough, out', seen';
    }
    if b.base > seen + 1 {
      return Gap, out', seen';
    }
    var batch, top := ConvertBatch(b, since, seen);
    ExactGrows(Join(out), batch, since, seen, top);
    seen' := top;
    if |batch| > 0 {
      JoinGrows(out, batch);
      out' := out + [batch];
    } else {
      assert Join(out) + batch == Join(out);
    }
    v := if last == cutoff then Enough else More;
  }

  /** Every decoded batch holds something; replay rejects empty records. */
  ghost predicate Nonempty(segs: seq<Segment>) {
    forall g, b :: 0 <= g < |segs| && 0 <= b < |segs[g].batches| ==> segs[g].batches[b].ops != []
  }

  function End(b: R.Batch): int {
    b.base + |b.ops| - 1
  }

  /** The batches of the log files, in order. */
  function Batches(segs: seq<Segment>): seq<R.Batch> {
    if segs == [] then [] else Batches(segs[..|segs|-1]) + segs[|segs|-1].batches
  }

  /** The files are readable and hold, without a gap, everything after `since`, and `cutoff` ends a batch. */
  ghost predicate Complete(segs: seq<Segment>, since: nat, cutoff: nat) {
    var bs := Batches(segs);
    && (forall g :: 0 <= g < |segs| ==> segs[g].end == S.Clean)
    && bs != [] && bs[0].base <= since + 1
    && (forall i :: 0 <= i < |bs| - 1 ==> bs[i+1].base == End(bs[i]) + 1)
    && (exists i :: 0 <= i < |bs| && End(bs[i]) == cutoff)
  }

  /** Where a run over complete files stands after `k` batches. */
  ghost predicate Reached(bs: seq<R.Batch>, k: nat, since: nat, seen: nat, cutoff: nat, done: bool) {
    if done then seen == cutoff
    else
      && k <= |bs| && (forall i :: 0 <= i < k ==> End(bs[i]) < cutoff)
      && seen == (if k > 0 && End(bs[k-1]) > since then End(bs[k-1]) else since)
  }

  lemma {:induction false} BatchAt(segs: seq<Segment>, g: nat, b: nat)
    requires g < |segs| && b < |segs[g].batches|
    ensures |Batches(segs[..g])| + b < |Batches(segs)| && Batches(segs)[|Batches(segs[..g])| + b] == segs[g].batches[b]
    decreases |segs|
  {
    var n := |segs| - 1;
    if g < n {
      BatchAt(segs[..n], g, b);
      assert segs[..n][..g] == segs[..g];
    }
  }

  lemma SegmentDone(segs: seq<Segment>, g: nat)
    requires g < |segs|
    ensures |Batches(segs[..g+1])| == |Batches(segs[..g])| + |segs[g].batches|
  {
    assert segs[..g+1][..g] == segs[..g];
  }

  lemma {:induction false} EndsAscend(bs: seq<R.Batch>, i: nat, j: nat)
    requires i <= j < |bs| && forall k :: 0 <= k < |bs| ==> bs[k].ops != []
    requires forall k :: 0 <= k < |bs| - 1 ==> bs[k+1].base == End(bs[k]) + 1
    ensures End(bs[i]) <= End(bs[j])
    decreases j - i
  {
    if i < j {
      EndsAscend(bs, i, j - 1);
      assert bs[j-1+1].base == End(bs[j-1]) + 1;
    }
  }

  /** Complete files never show a gap, and never overshoot. */
  lemma NextFits(segs: seq<Segment>, since: nat, cutoff: nat, k: nat, seen: nat)
    requires Complete(segs, since, cutoff) && Reached(Batches(segs), k, since, seen, cutoff, false) && k < |Batches(segs)|
    requires forall i :: 0 <= i < |Batches(segs)| ==> Batches(segs)[i].ops != []
    ensures var b := Batches(segs)[k]; b.base <= seen + 1 && End(b) <= cutoff && (k > 0 ==> End(b) >= End(Batches(segs)[k-1]))
  {
    var bs := Batches(segs);
    var i :| 0 <= i < |bs| && End(bs[i]) == cutoff;
    EndsAscend(bs, k, i);
    if k > 0 {
      assert bs[k-1+1].base == End(bs[k-1]) + 1;
    }
  }

  /** A run over complete files does not end early. */
  lemma NotShort(segs: seq<Segment>, since: nat, cutoff: nat, seen: nat, done: bool)
    requires Complete(segs, since, cutoff) && Reached(Batches(segs), |Batches(segs)|, since, seen, cutoff, done)
    ensures done
  {
  }

  lemma {:induction false} AllNonempty(segs: seq<Segment>)
    requires Nonempty(segs)
    ensures forall i :: 0 <= i < |Batches(segs)| ==> Batches(segs)[i].ops != []
  {
    if segs != [] {
      AllNonempty(segs[..|segs|-1]);
    }
  }

  /** File `d` is damaged, and nothing up to it reaches the cutoff. */
  ghost predicate DamagedAt(segs: seq<Segment>, cutoff: nat, d: int) {
    && 0 <= d < |segs| && segs[d].end != S.Clean
    && forall g, b :: 0 <= g <= d && 0 <= b < |segs[g].batches| ==> End(segs[g].batches[b]) < cutoff
  }

  /** Where the stream stands: exact, from the files, on course over complete ones and short of the cutoff over damaged ones. */
  ghost predicate Standing(segs: seq<Segment>, since: nat, cutoff: nat, out: seq<seq<Update>>, seen: nat, done: bool, k: nat, d: int, g: int) {
    && since <= seen <= cutoff && Exact(Join(out), since, seen) && FromLogs(Join(out), segs)
    && (Complete(segs, since, cutoff) ==> Reached(Batches(segs), k, since, seen, cutoff, done))
    && (DamagedAt(segs, cutoff, d) ==> g <= d && !done)
  }

  /** One file's batches. */
  method VisitAll(batches: seq<R.Batch>, since: nat, cutoff: nat, out: seq<seq<Update>>, seen: nat, ghost segs: seq<Segment>, ghost g: nat, ghost d: int)
    returns (v: Progress, out': seq<seq<Update>>, seen': nat)
    requires g < |segs| && segs[g].batches == batches && Nonempty(segs)
    requires Standing(segs, since, cutoff, out, seen, false, |Batches(segs[..g])|, d, g)
    ensures Complete(segs, since, cutoff) ==> !v.Gap?
    ensures !v.Gap? ==> Standing(segs, since, cutoff, out', seen', v.Enough?, |Batches(segs[..g + 1])|, d, g)
  {
    hide Join, Batches, Complete, Reached, Exact, FromLogs, Nonempty, DamagedAt;
    out', seen', v := out, seen, More;
    AllNonempty(segs);
    SegmentDone(segs, g);
    var b := 0;
    while b < |batches|
      invariant 0 <= b <= |batches| && v.More?
      invariant Standing(segs, since, cutoff, out', seen', false, |Batches(segs[..g])| + b, d, g)
    {
      BatchAt(segs, g, b);
      HasOps(segs, g, b);
      ghost var before, at := out', seen';
      v, out', seen' := Visit(batches[b], since, cutoff, out', seen');
      StillFromLogs(Join(before), Join(out'), segs, g, b);
      VisitStands(segs, since, cutoff, at, seen', v, d, g, b);
      b := b + 1;
      if v.Gap? {
        return;
      }
      if v.Enough? {
        EnoughStands(segs, since, cutoff, seen', |Batches(segs[..g])| + b, |Batches(segs[..g + 1])|);
        return;
      }
    }
  }

  lemma VisitStands(segs: seq<Segment>, since: nat, cutoff: nat, seen: nat, seen': nat, v: Progress, d: int, g: nat, b: nat)
    requires g < |segs| && b < |segs[g].batches| && Nonempty(segs)
    requires |Batches(segs[..g])| + b < |Batches(segs)| && Batches(segs)[|Batches(segs[..g])| + b] == segs[g].batches[b]
    requires forall i :: 0 <= i < |Batches(segs)| ==> Batches(segs)[i].ops != []
    requires since <= seen <= cutoff && seen' <= cutoff
    requires Complete(segs, since, cutoff) ==> Reached(Batches(segs), |Batches(segs[..g])| + b, since, seen, cutoff, false)
    requires DamagedAt(segs, cutoff, d) ==> g <= d
    requires var last := End(segs[g].batches[b]);
             && (v.Gap? <==> last <= cutoff && segs[g].batches[b].base > seen + 1)
             && (v.Enough? <==> last > cutoff || (last == cutoff && segs[g].batches[b].base <= seen + 1))
             && (v.More? || (v.Enough? && last == cutoff) ==> seen' == if last > seen then last else seen)
    ensures Complete(segs, since, cutoff) ==>
              !v.Gap? && Reached(Batches(segs), |Batches(segs[..g])| + b + 1, since, seen', cutoff, v.Enough?)
    ensures DamagedAt(segs, cutoff, d) ==> !v.Enough?
  {
    hide Batches, Complete, Reached, Nonempty, End;
    if Complete(segs, since, cutoff) {
      NextFits(segs, since, cutoff, |Batches(segs[..g])| + b, seen);
      NextReached(Batches(segs), |Batches(segs[..g])| + b, since, seen, cutoff, v.Enough?, seen');
    }
  }

  lemma EnoughStands(segs: seq<Segment>, since: nat, cutoff: nat, seen: nat, k: nat, k': nat)
    ensures Reached(Batches(segs), k, since, seen, cutoff, true) ==> Reached(Batches(segs), k', since, seen, cutoff, true)
  {
  }

  /** Whenever it succeeds, the stream is exactly since+1 through the cutoff, from the log files. */
  method GetUpdatesSince(sum: Checksum, files: seq<S.LogFile>, live: nat, since: nat, horizon: nat, cutoff: nat) returns (r: Reply)
    ensures since < horizon <==> r == Refused(RetentionExpired)
    ensures r.Updates? ==> Exact(Join(r.batches), since, if since < cutoff then cutoff else since)
    ensures r.Updates? ==> FromLogs(Join(r.batches), Segments(sum, files, live))
    ensures horizon <= since < cutoff && Complete(Segments(sum, files, live), since, cutoff) ==> r.Updates?
    ensures horizon <= since < cutoff && (exists d :: DamagedAt(Segments(sum, files, live), cutoff, d)) ==> r.Refused?
  {
    hide Join, Batches, Complete, Reached, Exact, FromLogs, Nonempty, DamagedAt, Decoding;
    ghost var segs := Segments(sum, files, live);
    NothingJoined();
    DecodedNonempty(sum, files, live);
    StartReached(segs, since, cutoff);
    if since < horizon {
      return Refused(RetentionExpired);
    }
    if since >= cutoff {
      return Updates([]);
    }
    var out: seq<seq<Update>>, seen, done := [], since, false;
    ghost var d := if d :| DamagedAt(segs, cutoff, d) then d else |segs|;
    NotPast(segs, cutoff, d);
    var g := 0;
    while g < |files| && !done
      invariant 0 <= g <= |files|
      invariant Standing(segs, since, cutoff, out, seen, done, |Batches(segs[..g])|, d, g)
      decreases |files| - g
    {
      var batches, end := S.ReplayFile(sum, files[g].bytes, false, files[g].num != live);
      ReadHere(sum, files, live, g, batches, end);
      var v;
      v, out, seen := VisitAll(batches, since, cutoff, out, seen, segs, g, d);
      if v.Gap? {
        return Refused(MissingUpdates);
      }
      done := v.Enough?;
      if !done && end != S.Clean {
        AllClean(segs, since, cutoff, g);
        return Refused(Unreadable);
      }
      NotPast(segs, cutoff, d);
      g := g + 1;
    }
    NotPast(segs, cutoff, d);
    if Complete(segs, since, cutoff) {
      Finishes(segs, since, cutoff, g, seen, done);
    }
    if seen != cutoff {
      return Refused(MissingUpdates);
    }
    r := Updates(out);
  }

  lemma ReadHere(sum: Checksum, files: seq<S.LogFile>, live: nat, g: nat, batches: seq<R.Batch>, end: S.Outcome)
    requires g < |files| && (batches, end) == S.Replay(sum, files[g].bytes, 0, false, files[g].num != live, 0)
    ensures Segments(sum, files, live)[g] == Segment(batches, end)
  {
    hide S.Replay;
  }

  lemma DecodedNonempty(sum: Checksum, files: seq<S.LogFile>, live: nat)
    ensures Nonempty(Segments(sum, files, live))
  {
    hide S.Replay;
    var segs := Segments(sum, files, live);
    forall g, b | 0 <= g < |segs| && 0 <= b < |segs[g].batches| ensures segs[g].batches[b].ops != [] {
      S.ReplayNonempty(sum, files[g].bytes, 0, false, files[g].num != live, 0);
    }
  }

  lemma HasOps(segs: seq<Segment>, g: nat, b: nat)
    requires Nonempty(segs) && g < |segs| && b < |segs[g].batches|
    ensures segs[g].batches[b].ops != []
  {
  }

  lemma NotPast(segs: seq<Segment>, cutoff: nat, d: int)
    ensures DamagedAt(segs, cutoff, d) ==> 0 <= d < |segs| && segs[d].end != S.Clean
  {
  }

  lemma StartReached(segs: seq<Segment>, since: nat, cutoff: nat)
    ensures Batches(segs[..0]) == [] && Exact([], since, since) && FromLogs([], segs)
    ensures Reached(Batches(segs), 0, since, since, cutoff, false)
  {
  }

  lemma NextReached(bs: seq<R.Batch>, k: nat, since: nat, seen: nat, cutoff: nat, enough: bool, seen': nat)
    requires Reached(bs, k, since, seen, cutoff, false) && k < |bs| && since <= seen && End(bs[k]) <= cutoff
    requires enough <==> End(bs[k]) == cutoff
    requires seen' == if End(bs[k]) > seen then End(bs[k]) else seen
    requires seen' <= cutoff && (k > 0 ==> End(bs[k]) >= End(bs[k-1]))
    ensures Reached(bs, k + 1, since, seen', cutoff, enough)
  {
  }

  lemma AllClean(segs: seq<Segment>, since: nat, cutoff: nat, g: nat)
    requires g < |segs| && segs[g].end != S.Clean
    ensures !Complete(segs, since, cutoff)
  {
  }

  lemma Finishes(segs: seq<Segment>, since: nat, cutoff: nat, g: nat, seen: nat, done: bool)
    requires Complete(segs, since, cutoff) && g <= |segs| && (g == |segs| || done)
    requires Reached(Batches(segs), |Batches(segs[..g])|, since, seen, cutoff, done)
    ensures seen == cutoff
  {
    if g == |segs| {
      assert segs[..g] == segs;
      NotShort(segs, since, cutoff, seen, done);
    }
  }

  lemma NothingJoined()
    ensures Join([]) == []
  {
  }

  lemma StillFromLogs(had: seq<Update>, has: seq<Update>, segs: seq<Segment>, g: nat, b: nat)
    requires FromLogs(had, segs) && g < |segs| && b < |segs[g].batches|
    requires forall u :: u in has ==> u in had || InBatch(u, segs[g].batches[b])
    ensures FromLogs(has, segs)
  {
    forall i | 0 <= i < |has| ensures InLogs(has[i], segs) {
      assert has[i] in has;
      if has[i] in had {
        var j :| 0 <= j < |had| && had[j] == has[i];
      }
    }
  }

  // ---------------------------------------------------------------------------
  // The files of a store
  // ---------------------------------------------------------------------------

  /** Whole batches that hold, without a gap, everything after `since`, one of them ending at `cutoff`. */
  ghost predicate Retains(bs: seq<W.Batch>, since: nat, cutoff: nat) {
    && (forall i :: 0 <= i < |bs| ==> S.Loggable(bs[i]))
    && bs != [] && SqnOf(bs[0][0]) <= since + 1
    && (forall i :: 0 <= i < |bs| - 1 ==> SqnOf(bs[i + 1][0]) == SqnOf(bs[i][0]) + |bs[i]|)
    && (exists i :: 0 <= i < |bs| && SqnOf(bs[i][0]) + |bs[i]| - 1 == cutoff)
  }

  /** The whole batches of the files, in order. */
  ghost function AllWhole(sum: Checksum, files: seq<S.LogFile>, held: seq<seq<W.Batch>>): (bs: seq<W.Batch>)
    requires AllTorn(sum, files, held)
  {
    if files == [] then []
    else
      var n := |files| - 1;
      AllWhole(sum, files[..n], held[..n]) + WholeBatches(sum, files[n].bytes, held[n])
  }

  /** Files that were never cut short inside a record, but for the live one. */
  ghost predicate SealedWell(sum: Checksum, files: seq<S.LogFile>, held: seq<seq<W.Batch>>, live: nat) {
    AllTorn(sum, files, held)
    && forall i :: 0 <= i < |files| && files[i].num != live ==> CleanCut(sum, 0, S.Records(held[i]), |files[i].bytes|)
  }

  lemma FileDecodes(sum: Checksum, f: S.LogFile, bs: seq<W.Batch>, live: nat)
    requires TornLog(sum, f.bytes, bs)
    ensures (forall i :: 0 <= i < |bs| ==> S.Loggable(bs[i])) && forall i :: 0 <= i < |WholeBatches(sum, f.bytes, bs)| ==> S.Loggable(WholeBatches(sum, f.bytes, bs)[i])
    ensures Decoding(sum, f, live).batches == S.Decoded(WholeBatches(sum, f.bytes, bs))
    ensures Decoding(sum, f, live).end
            == if f.num != live && !CleanCut(sum, 0, S.Records(bs), |f.bytes|) then S.Failed else S.Clean
  {
    hide S.Replay, S.Follows, FrameAll, Agrees, S.Loggable, S.Decoded, WholeIn, CleanCut;
    S.TornSegmentReplays(sum, f.bytes, 0, bs, false, f.num != live, 0);
  }

  lemma {:induction false} DecodedJoins(a: seq<W.Batch>, b: seq<W.Batch>)
    requires (forall i :: 0 <= i < |a| ==> S.Loggable(a[i])) && forall i :: 0 <= i < |b| ==> S.Loggable(b[i])
    ensures (forall i :: 0 <= i < |a + b| ==> S.Loggable((a + b)[i])) && S.Decoded(a + b) == S.Decoded(a) + S.Decoded(b)
    decreases |a|
  {
    hide S.Loggable;
    if a == [] {
      assert a + b == b;
    } else {
      DecodedJoins(a[1..], b);
      assert (a + b)[1..] == a[1..] + b;
    }
  }

  lemma {:induction false} AllDecode(sum: Checksum, files: seq<S.LogFile>, held: seq<seq<W.Batch>>, live: nat)
    requires AllTorn(sum, files, held)
    ensures var bs := AllWhole(sum, files, held);
            (forall i :: 0 <= i < |bs| ==> S.Loggable(bs[i])) && Batches(Segments(sum, files, live)) == S.Decoded(bs)
    decreases |files|
  {
    hide TornLog, WholeBatches, S.Loggable, Decoding;
    var segs := Segments(sum, files, live);
    if files != [] {
      var n := |files| - 1;
      AllDecode(sum, files[..n], held[..n], live);
      FileDecodes(sum, files[n], held[n], live);
      assert segs[..n] == Segments(sum, files[..n], live);
      DecodedJoins(AllWhole(sum, files[..n], held[..n]), WholeBatches(sum, files[n].bytes, held[n]));
    }
  }

  lemma {:induction false} DecodedBounds(bs: seq<W.Batch>, i: nat)
    requires (forall k :: 0 <= k < |bs| ==> S.Loggable(bs[k])) && i < |bs|
    ensures S.Decoded(bs)[i].base == SqnOf(bs[i][0]) && |S.Decoded(bs)[i].ops| == |bs[i]|
    decreases |bs|
  {
    hide SqnOf, S.ToMutation;
    assert S.Loggable(bs[0]);
    if i > 0 {
      DecodedBounds(bs[1..], i - 1);
    }
  }

  lemma RetainsDecoded(bs: seq<W.Batch>, since: nat, cutoff: nat)
    requires Retains(bs, since, cutoff)
    ensures var ds := S.Decoded(bs);
            && ds != [] && ds[0].base <= since + 1
            && (forall i :: 0 <= i < |ds| - 1 ==> ds[i + 1].base == End(ds[i]) + 1)
            && (exists i :: 0 <= i < |ds| && End(ds[i]) == cutoff)
  {
    hide S.Decoded, SqnOf, S.ToMutation;
    var ds := S.Decoded(bs);
    forall i | 0 <= i < |bs| ensures ds[i].base == SqnOf(bs[i][0]) && End(ds[i]) == SqnOf(bs[i][0]) + |bs[i]| - 1 {
      DecodedBounds(bs, i);
    }
    var i :| 0 <= i < |bs| && SqnOf(bs[i][0]) + |bs[i]| - 1 == cutoff;
    assert End(ds[i]) == cutoff;
  }

  /** A store whose files hold everything after `since` serves it. */
  lemma RetainedIsServed(sum: Checksum, files: seq<S.LogFile>, held: seq<seq<W.Batch>>, live: nat, since: nat, cutoff: nat)
    requires SealedWell(sum, files, held, live) && Retains(AllWhole(sum, files, held), since, cutoff)
    ensures Complete(Segments(sum, files, live), since, cutoff)
  {
    hide TornLog, WholeBatches, S.Loggable, S.Decoded, Decoding, CleanCut, AllWhole, SqnOf, Batches, Retains, End;
    AllDecode(sum, files, held, live);
    RetainsDecoded(AllWhole(sum, files, held), since, cutoff);
    var segs := Segments(sum, files, live);
    forall g | 0 <= g < |segs| ensures segs[g].end == S.Clean {
      FileDecodes(sum, files[g], held[g], live);
    }
  }
}
