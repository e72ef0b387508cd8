/** Recovery's pass over the log files: which changes reach the memtable, and the sequence it resumes from. */
module RecoverLog {
  import opened Bytes
  import opened Versions
  import opened Log
  import opened Journal
  import opened WalSegment
  import opened JournalDamage
  import SV = StoredValues
  import Ikey
  import R = WalRecord
  import W = WriteAhead
  import Recovery

  /** The checks that fail recovery in every mode: a key, a proper range, a sequence and a size in bounds. */
  predicate Sound(c: Change, maxEntry: nat) {
    match c
    case PointChange(e) =>
      && e.key != [] && e.sqn <= Ikey.MAX_SEQ
      && (match e.payload
          case Tombstone => |e.key|
          case Plain(v) => |e.key| + |v|
          case Expiring(v, _) => |e.key| + |v| + SV.EXPIRY_PREFIX) <= maxEntry
    case RangeChange(d) => d.start != [] && d.end != [] && Lt(d.start, d.end) && d.sqn <= Ikey.MAX_SEQ && |d.start| + |d.end| <= maxEntry
    case IngestChange(_, _) => false
  }

  ghost predicate AllSound(cs: seq<Change>, maxEntry: nat) {
    forall i :: 0 <= i < |cs| ==> Sound(cs[i], maxEntry)
  }

  /** What the store can hold: a point with a key or a range that is not empty, its sequence fitting the key trailer. */
  ghost predicate Storable(c: Change, maxEntry: nat) {
    && SqnOf(c) <= Ikey.MAX_SEQ
    && (c.PointChange? ==> 0 < |c.entry.key| <= maxEntry)
    && (c.PointChange? && c.entry.payload.Plain? ==> |c.entry.key| + |c.entry.payload.value| <= maxEntry)
    && (c.PointChange? && c.entry.payload.Expiring? ==> |c.entry.key| + |c.entry.payload.value| + 8 <= maxEntry)
    && (c.RangeChange? ==> c.del.WellFormed() && 0 < |c.del.start| && 0 < |c.del.end| && |c.del.start| + |c.del.end| <= maxEntry)
    && !c.IngestChange?
  }

  /** The checks pass exactly what the store can hold. */
  lemma SoundIffStorable(c: Change, maxEntry: nat)
    ensures Sound(c, maxEntry) <==> Storable(c, maxEntry)
  {
  }

  lemma SoundAreStorable(cs: seq<Change>, maxEntry: nat)
    requires AllSound(cs, maxEntry)
    ensures forall c :: c in cs ==> Storable(c, maxEntry)
  {
    hide Storable, Sound;
    forall c | c in cs ensures Storable(c, maxEntry) {
      SoundIffStorable(c, maxEntry);
    }
  }

  /** Positive, strictly ascending sequences. */
  ghost predicate Ascends(cs: seq<Change>) {
    && (forall i :: 0 <= i < |cs| ==> SqnOf(cs[i]) > 0)
    && forall i, j :: 0 <= i < j < |cs| ==> SqnOf(cs[i]) < SqnOf(cs[j])
  }

  function LastSqn(cs: seq<Change>): nat {
    if cs == [] then 0 else SqnOf(cs[|cs|-1])
  }

  lemma AscendsNext(cs: seq<Change>, c: Change)
    requires Ascends(cs)
    ensures Ascends(cs + [c]) <==> SqnOf(c) > LastSqn(cs)
  {
    hide SqnOf;
    var more := cs + [c];
    assert more[|cs|] == c && forall i :: 0 <= i < |cs| ==> more[i] == cs[i];
    if SqnOf(c) > LastSqn(cs) {
      forall i, j | 0 <= i < j < |more| ensures SqnOf(more[i]) < SqnOf(more[j]) {
        assert i < |cs| - 1 ==> SqnOf(cs[i]) < SqnOf(cs[|cs|-1]);
      }
    }
  }

  /** The visitor of one batch: every entry in turn, until one is out of order or unsound. */
  method Visit(cs: seq<Change>, had: seq<Change>, lenient: bool, maxEntry: nat) returns (v: Outcome, applied: seq<Change>)
    requires Ascends(had) && AllSound(had, maxEntry)
    ensures Ascends(applied) && AllSound(applied, maxEntry) && had <= applied <= had + cs
    ensures v == Clean <==> Ascends(had + cs) && AllSound(cs, maxEntry)
    ensures v == Clean ==> applied == had + cs
    ensures v == Stopped ==> lenient
  {
    hide Sound, SqnOf, Ascends;
    applied := had;
    for i := 0 to |cs|
      invariant applied == had + cs[..i] && Ascends(applied) && AllSound(applied, maxEntry) && AllSound(cs[..i], maxEntry)
    {
      AscendsNext(applied, cs[i]);
      assert applied + [cs[i]] == had + cs[..i + 1];
      if SqnOf(cs[i]) <= LastSqn(applied) {
        AscendsFront(had, cs, i + 1);
        return Bad(lenient), applied;
      }
      if !Sound(cs[i], maxEntry) {
        return Failed, applied;
      }
      applied := applied + [cs[i]];
    }
    assert had + cs[..|cs|] == had + cs;
    return Clean, applied;
  }

  lemma AscendsFront(had: seq<Change>, cs: seq<Change>, n: nat)
    requires n <= |cs|
    ensures Ascends(had + cs) ==> Ascends(had + cs[..n])
  {
    hide SqnOf;
    assert (had + cs)[..|had| + n] == had + cs[..n];
  }

  // ---------------------------------------------------------------------------
  // What the files hold
  // ---------------------------------------------------------------------------

  /** A file that is the first bytes of a log of `bs`, cut anywhere. */
  ghost predicate TornLog(sum: Checksum, bytes: Bytes, bs: seq<W.Batch>) {
    && (forall i :: 0 <= i < |bs| ==> Loggable(bs[i])) && Follows(bs, 0)
    && |bytes| <= |FrameAll(sum, 0, Records(bs))| && Agrees(bytes, 0, FrameAll(sum, 0, Records(bs)))
  }

  /** The batches wholly inside such a file. */
  ghost function WholeBatches(sum: Checksum, bytes: Bytes, bs: seq<W.Batch>): (r: seq<W.Batch>)
    requires forall i :: 0 <= i < |bs| ==> Loggable(bs[i])
    ensures |r| <= |bs| && forall i :: 0 <= i < |r| ==> r[i] == bs[i]
  {
    var m := WholeIn(sum, 0, Records(bs), |bytes|);
    if m <= |bs| then bs[..m] else bs
  }

  ghost predicate AllTorn(sum: Checksum, logs: seq<LogFile>, held: seq<seq<W.Batch>>) {
    |held| == |logs| && forall i :: 0 <= i < |logs| ==> TornLog(sum, logs[i].bytes, held[i])
  }

  /** The changes in the whole batches of the first `n` files, but for files below the boundary. */
  ghost function Kept(sum: Checksum, logs: seq<LogFile>, held: seq<seq<W.Batch>>, boundary: nat, n: nat): seq<Change>
    requires AllTorn(sum, logs, held) && n <= |logs|
  {
    if n == 0 then []
    else Kept(sum, logs, held, boundary, n - 1)
         + if logs[n-1].num < boundary then [] else W.Flat(WholeBatches(sum, logs[n-1].bytes, held[n-1]))
  }

  lemma FileReplays(sum: Checksum, bytes: Bytes, bs: seq<W.Batch>, lenient: bool)
    requires TornLog(sum, bytes, bs)
    ensures Replay(sum, bytes, 0, lenient, false, 0) == (Decoded(WholeBatches(sum, bytes, bs)), Clean)
  {
    hide Replay, Follows, FrameAll, Agrees, Loggable, Decoded, WholeIn;
    TornSegmentReplays(sum, bytes, 0, bs, lenient, false, 0);
  }

  lemma {:induction false} DecodedAt(bs: seq<W.Batch>, i: nat)
    requires (forall k :: 0 <= k < |bs| ==> Loggable(bs[k])) && i < |bs|
    ensures Changes(Decoded(bs)[i]) == bs[i]
    decreases |bs|
  {
    hide Loggable, Changes, Mutations, SqnOf;
    if i == 0 {
      BatchReadsBack(bs[0]);
    } else {
      DecodedAt(bs[1..], i - 1);
    }
  }

  lemma FlatNext(bs: seq<W.Batch>, n: nat)
    requires n < |bs|
    ensures W.Flat(bs[..n + 1]) == W.Flat(bs[..n]) + bs[n]
  {
    hide W.Flat;
    assert bs[..n + 1] == bs[..n] + [bs[n]];
    W.FlatConcat(bs[..n], [bs[n]]);
    W.FlatOne(bs[n]);
  }

  lemma {:induction false} KeptGrows(sum: Checksum, logs: seq<LogFile>, held: seq<seq<W.Batch>>, boundary: nat, i: nat, n: nat)
    requires AllTorn(sum, logs, held) && i <= n <= |logs|
    ensures Kept(sum, logs, held, boundary, i) <= Kept(sum, logs, held, boundary, n)
    decreases n
  {
    hide AllTorn, WholeBatches;
    if i < n {
      KeptGrows(sum, logs, held, boundary, i, n - 1);
    }
  }

  /** What one file adds: sound, in order, and read to its end. */
  ghost predicate Adds(sum: Checksum, bytes: Bytes, bs: seq<W.Batch>, had: seq<Change>, maxEntry: nat) {
    && TornLog(sum, bytes, bs)
    && Ascends(had + W.Flat(WholeBatches(sum, bytes, bs)))
    && AllSound(W.Flat(WholeBatches(sum, bytes, bs)), maxEntry)
  }

  /** Replaying the file gives these batches and this end, and they go on from what was had, sound and in order. */
  ghost predicate Yields(sum: Checksum, bytes: Bytes, lenient: bool, bs: seq<W.Batch>, end: Outcome, had: seq<Change>, maxEntry: nat) {
    && (forall i :: 0 <= i < |bs| ==> Loggable(bs[i]))
    && Replay(sum, bytes, 0, lenient, false, 0) == (Decoded(bs), end)
    && Ascends(had + W.Flat(bs)) && AllSound(W.Flat(bs), maxEntry)
  }

  lemma AddsYields(sum: Checksum, bytes: Bytes, bs: seq<W.Batch>, had: seq<Change>, maxEntry: nat, lenient: bool)
    requires Adds(sum, bytes, bs, had, maxEntry)
    ensures (forall i :: 0 <= i < |bs| ==> Loggable(bs[i])) && Yields(sum, bytes, lenient, WholeBatches(sum, bytes, bs), Clean, had, maxEntry)
  {
    hide TornLog, WholeBatches, Ascends, Sound, Decoded, W.Flat, Loggable, Replay;
    TornLoggable(sum, bytes, bs);
    FileReplays(sum, bytes, bs, lenient);
  }

  /** Batch `k` of such a file is accepted whole. */
  lemma BatchAdds(sum: Checksum, bytes: Bytes, lenient: bool, bs: seq<W.Batch>, end: Outcome, had: seq<Change>, maxEntry: nat, k: nat)
    requires Yields(sum, bytes, lenient, bs, end, had, maxEntry)
    ensures k < |bs| ==>
              && |Decoded(bs)| == |bs| && Changes(Decoded(bs)[k]) == bs[k]
              && had + W.Flat(bs[..k + 1]) == had + W.Flat(bs[..k]) + bs[k]
              && Ascends(had + W.Flat(bs[..k]) + bs[k]) && AllSound(bs[k], maxEntry)
  {
    hide Ascends, Sound, Decoded, Changes, W.Flat, Loggable, Replay;
    if k < |bs| {
      DecodedAt(bs, k);
      FlatNext(bs, k);
      W.FlatPrefix(bs, k + 1);
      var all, upTo := W.Flat(bs), W.Flat(bs[..k + 1]);
      assert all[..|upTo|] == upTo;
      AscendsFront(had, all, |upTo|);
      assert had + W.Flat(bs[..k]) + bs[k] == had + upTo;
      assert forall i :: 0 <= i < |bs[k]| ==> bs[k][i] == all[|W.Flat(bs[..k])| + i];
    }
  }

  lemma TornLoggable(sum: Checksum, bytes: Bytes, bs: seq<W.Batch>)
    requires TornLog(sum, bytes, bs)
    ensures forall i :: 0 <= i < |bs| ==> Loggable(bs[i])
  {
  }

  /** The highest sequence seen once batch `b` has been. */
  function Top(b: R.Batch, top: nat): nat {
    if b.ops == [] then top else Max(top, b.base + |b.ops| - 1)
  }

  lemma BatchTop(b: R.Batch, had: seq<Change>, applied: seq<Change>, top: nat)
    requires had <= applied <= had + Changes(b) && LastSqn(had) <= top
    ensures LastSqn(applied) <= Top(b, top)
    ensures applied == had + Changes(b) ==> Top(b, top) == Max(top, LastSqn(applied))
  {
    if |applied| > |had| {
      var i := |applied| - 1 - |had|;
      assert applied[|applied|-1] == (had + Changes(b))[|applied|-1] == Changes(b)[i];
      assert SqnOf(Changes(b)[i]) == b.base + i;
    }
  }

  /** One log file, batch by batch. */
  method ReplayInto(sum: Checksum, bytes: Bytes, had: seq<Change>, top: nat, lenient: bool, maxEntry: nat, ghost bs: seq<W.Batch>, ghost end: Outcome)
    returns (v: Outcome, applied: seq<Change>, top': nat)
    requires Ascends(had) && AllSound(had, maxEntry) && LastSqn(had) <= top
    ensures Ascends(applied) && AllSound(applied, maxEntry) && had <= applied && LastSqn(applied) <= top' && top <= top'
    ensures Yields(sum, bytes, lenient, bs, end, had, maxEntry) ==>
              v == end && applied == had + W.Flat(bs) && top' == Max(top, LastSqn(applied))
  {
    hide Yields, Ascends, AllSound, Decoded, Changes, W.Flat, Loggable, Replay, Top, LastSqn;
    ghost var good := Yields(sum, bytes, lenient, bs, end, had, maxEntry);
    var batches, stop := ReplayFile(sum, bytes, lenient, false);
    if good {
      YieldsRead(sum, bytes, lenient, bs, end, had, maxEntry);
    }
    applied, top' := had, top;
    NoneYet(had, bs);
    for k := 0 to |batches|
      invariant Ascends(applied) && AllSound(applied, maxEntry) && had <= applied && LastSqn(applied) <= top' && top <= top'
      invariant good ==> applied == had + W.Flat(bs[..k]) && top' == Max(top, LastSqn(applied))
    {
      if good {
        BatchAdds(sum, bytes, lenient, bs, end, had, maxEntry, k);
      }
      ghost var was := applied;
      v, applied := Visit(Changes(batches[k]), applied, lenient, maxEntry);
      BatchTop(batches[k], was, applied, top');
      LastGrows(was, applied);
      TopGrows(batches[k], top', was, applied, top);
      top' := Top(batches[k], top');
      if v != Clean {
        return;
      }
    }
    if good {
      assert bs[..|bs|] == bs;
    }
    v := stop;
  }

  lemma YieldsRead(sum: Checksum, bytes: Bytes, lenient: bool, bs: seq<W.Batch>, end: Outcome, had: seq<Change>, maxEntry: nat)
    requires Yields(sum, bytes, lenient, bs, end, had, maxEntry)
    ensures (forall i :: 0 <= i < |bs| ==> Loggable(bs[i])) && |Decoded(bs)| == |bs|
    ensures Replay(sum, bytes, 0, lenient, false, 0) == (Decoded(bs), end)
  {
    hide Ascends, AllSound, Replay, Loggable;
  }

  lemma LastGrows(was: seq<Change>, applied: seq<Change>)
    requires Ascends(applied) && was <= applied
    ensures LastSqn(was) <= LastSqn(applied)
  {
    hide SqnOf;
    if was != [] && |was| < |applied| {
      assert SqnOf(applied[|was|-1]) < SqnOf(applied[|applied|-1]);
    }
  }

  lemma TopGrows(b: R.Batch, top: nat, was: seq<Change>, applied: seq<Change>, first: nat)
    requires LastSqn(was) <= top
    ensures top <= Top(b, top)
    ensures top == Max(first, LastSqn(was)) && LastSqn(was) <= LastSqn(applied) && Top(b, top) == Max(top, LastSqn(applied)) ==>
              Top(b, top) == Max(first, LastSqn(applied))
  {
  }

  lemma NoneYet(had: seq<Change>, whole: seq<W.Batch>)
    ensures had + W.Flat(whole[..0]) == had
  {
    assert whole[..0] == [];
  }

  /** Sound files, in order: every whole batch at or above the boundary may be applied. */
  ghost predicate Recoverable(sum: Checksum, logs: seq<LogFile>, held: seq<seq<W.Batch>>, boundary: nat, maxEntry: nat) {
    && AllTorn(sum, logs, held)
    && Ascends(Kept(sum, logs, held, boundary, |logs|)) && AllSound(Kept(sum, logs, held, boundary, |logs|), maxEntry)
  }

  lemma FileAdds(sum: Checksum, logs: seq<LogFile>, held: seq<seq<W.Batch>>, boundary: nat, maxEntry: nat, i: nat)
    requires Recoverable(sum, logs, held, boundary, maxEntry) && i < |logs|
    ensures logs[i].num < boundary ==> Kept(sum, logs, held, boundary, i + 1) == Kept(sum, logs, held, boundary, i)
    ensures logs[i].num >= boundary ==>
              && Adds(sum, logs[i].bytes, held[i], Kept(sum, logs, held, boundary, i), maxEntry)
              && Kept(sum, logs, held, boundary, i + 1)
                 == Kept(sum, logs, held, boundary, i) + W.Flat(WholeBatches(sum, logs[i].bytes, held[i]))
  {
    hide TornLog, WholeBatches, AllSound, Ascends, W.Flat;
    KeptGrows(sum, logs, held, boundary, i + 1, |logs|);
    if logs[i].num >= boundary {
      TornLoggable(sum, logs[i].bytes, held[i]);
      FrontOk(Kept(sum, logs, held, boundary, |logs|), Kept(sum, logs, held, boundary, i),
              W.Flat(WholeBatches(sum, logs[i].bytes, held[i])), maxEntry);
    }
  }

  lemma FrontOk(all: seq<Change>, had: seq<Change>, more: seq<Change>, maxEntry: nat)
    requires Ascends(all) && AllSound(all, maxEntry) && had + more <= all
    ensures Ascends(had + more) && AllSound(more, maxEntry)
  {
    hide Sound, SqnOf;
    assert forall k :: 0 <= k < |more| ==> more[k] == (had + more)[|had| + k];
  }

  /** Files that are sound and in order up to file `d`, which is damaged after the batches `bs`. */
  ghost predicate Damaged(sum: Checksum, logs: seq<LogFile>, held: seq<seq<W.Batch>>, boundary: nat, maxEntry: nat, d: nat, bs: seq<W.Batch>) {
    && d < |logs| && d <= |held| && logs[d].num >= boundary
    && Recoverable(sum, logs[..d], held[..d], boundary, maxEntry)
    && (forall i :: 0 <= i < |bs| ==> Loggable(bs[i])) && Follows(bs, 0)
    && Breaks(sum, logs[d].bytes, Records(bs))
    && Ascends(Kept(sum, logs[..d], held[..d], boundary, d) + W.Flat(bs)) && AllSound(W.Flat(bs), maxEntry)
  }

  /** The bytes are these records, whole, and then one that fails its sum. */
  ghost predicate Breaks(sum: Checksum, bytes: Bytes, recs: seq<Bytes>) {
    && |FrameAll(sum, 0, recs)| <= |bytes| && Agrees(bytes, 0, FrameAll(sum, 0, recs))
    && exists rec :: BreaksIn(sum, bytes, |FrameAll(sum, 0, recs)|, rec, true)
  }

  lemma DamageYields(sum: Checksum, logs: seq<LogFile>, held: seq<seq<W.Batch>>, boundary: nat, maxEntry: nat, d: nat, bs: seq<W.Batch>, lenient: bool)
    requires Damaged(sum, logs, held, boundary, maxEntry, d, bs)
    ensures AllTorn(sum, logs[..d], held[..d])
    ensures Yields(sum, logs[d].bytes, lenient, bs, if lenient then Stopped else Failed, Kept(sum, logs[..d], held[..d], boundary, d), maxEntry)
  {
    hide Replay, Follows, FrameAll, Agrees, Loggable, Decoded, BreaksIn, Kept, Ascends, AllSound, TornLog, W.Flat;
    var bytes := logs[d].bytes;
    var rec :| BreaksIn(sum, bytes, |FrameAll(sum, 0, Records(bs))|, rec, true);
    DamagedSegmentReplays(sum, bytes, 0, bs, rec, lenient, false, 0);
  }

  /** recoverWALMode: the files at or above the boundary, in order, until one is damaged. */
  method RecoverWal(sum: Checksum, logs: seq<LogFile>, boundary: nat, startSeq: nat, lenient: bool, maxEntry: nat,
                    ghost held: seq<seq<W.Batch>>, ghost d: nat, ghost bs: seq<W.Batch>)
    returns (r: Result<seq<Change>>, maxSeq: nat)
    ensures r.Ok? ==> Ascends(r.value) && AllSound(r.value, maxEntry) && startSeq <= maxSeq && LastSqn(r.value) <= maxSeq
    ensures r.Ok? ==> forall c :: c in r.value ==> Storable(c, maxEntry)
    ensures Recoverable(sum, logs, held, boundary, maxEntry) ==>
              r == Ok(Kept(sum, logs, held, boundary, |logs|)) && maxSeq == Max(startSeq, LastSqn(r.value))
    ensures Damaged(sum, logs, held, boundary, maxEntry, d, bs) ==>
              && AllTorn(sum, logs[..d], held[..d])
              && r == (if lenient then Ok(Kept(sum, logs[..d], held[..d], boundary, d) + W.Flat(bs)) else Err)
  {
    hide Recoverable, AllTorn, Adds, Ascends, AllSound, Kept, WholeBatches, LastSqn, Storable, Damaged, Yields, W.Flat;
    ghost var good := Recoverable(sum, logs, held, boundary, maxEntry);
    ghost var bad := Damaged(sum, logs, held, boundary, maxEntry, d, bs);
    if bad {
      DamageYields(sum, logs, held, boundary, maxEntry, d, bs, lenient);
      DamagedParts(sum, logs, held, boundary, maxEntry, d, bs);
    }
    var applied: seq<Change> := [];
    maxSeq := startSeq;
    NothingApplied(sum, logs, held, boundary, maxEntry);
    if bad {
      NothingApplied(sum, logs[..d], held[..d], boundary, maxEntry);
    }
    for i := 0 to |logs|
      invariant Ascends(applied) && AllSound(applied, maxEntry) && LastSqn(applied) <= maxSeq && startSeq <= maxSeq
      invariant good ==> AllTorn(sum, logs, held) && applied == Kept(sum, logs, held, boundary, i) && maxSeq == Max(startSeq, LastSqn(applied))
      invariant bad ==> i <= d && applied == Kept(sum, logs[..d], held[..d], boundary, i)
    {
      ghost var here: (seq<W.Batch>, Outcome) := ([], Clean);
      if good {
        here := NextYields(sum, logs, held, boundary, maxEntry, i, lenient);
      } else if bad && i < d {
        here := NextYields(sum, logs[..d], held[..d], boundary, maxEntry, i, lenient);
      } else if bad {
        here := (bs, if lenient then Stopped else Failed);
      }
      if logs[i].num >= boundary {
        ghost var was := applied;
        var v;
        v, applied, maxSeq := ReplayInto(sum, logs[i].bytes, applied, maxSeq, lenient, maxEntry, here.0, here.1);
        LastGrows(was, applied);
        if v == Stopped {
          break;
        }
        if v == Failed {
          return Err, maxSeq;
        }
      }
    }
    SoundAreStorable(applied, maxEntry);
    r := Ok(applied);
  }

  lemma DamagedParts(sum: Checksum, logs: seq<LogFile>, held: seq<seq<W.Batch>>, boundary: nat, maxEntry: nat, d: nat, bs: seq<W.Batch>)
    requires Damaged(sum, logs, held, boundary, maxEntry, d, bs)
    ensures d < |logs| && d <= |held| && logs[d].num >= boundary && Recoverable(sum, logs[..d], held[..d], boundary, maxEntry)
    ensures !Recoverable(sum, logs, held, boundary, maxEntry)
  {
    hide Ascends, AllSound, Kept, W.Flat, Breaks, Replay, TornLog;
    DamageYields(sum, logs, held, boundary, maxEntry, d, bs, true);
    assert Replay(sum, logs[d].bytes, 0, true, false, 0).1 == Stopped;
    if |held| == |logs| && TornLog(sum, logs[d].bytes, held[d]) {
      FileReplays(sum, logs[d].bytes, held[d], true);
    }
  }

  /** What the next of such files gives, if it is read. */
  lemma NextYields(sum: Checksum, logs: seq<LogFile>, held: seq<seq<W.Batch>>, boundary: nat, maxEntry: nat, i: nat, lenient: bool)
    returns (here: (seq<W.Batch>, Outcome))
    requires Recoverable(sum, logs, held, boundary, maxEntry) && i < |logs|
    ensures AllTorn(sum, logs, held) && here.1 == Clean
    ensures logs[i].num < boundary ==> Kept(sum, logs, held, boundary, i + 1) == Kept(sum, logs, held, boundary, i)
    ensures logs[i].num >= boundary ==>
              && Yields(sum, logs[i].bytes, lenient, here.0, Clean, Kept(sum, logs, held, boundary, i), maxEntry)
              && Kept(sum, logs, held, boundary, i + 1) == Kept(sum, logs, held, boundary, i) + W.Flat(here.0)
  {
    hide TornLog, WholeBatches, AllSound, Ascends, W.Flat, Kept, Yields, Adds;
    here := ([], Clean);
    FileAdds(sum, logs, held, boundary, maxEntry, i);
    if logs[i].num >= boundary {
      AddsYields(sum, logs[i].bytes, held[i], Kept(sum, logs, held, boundary, i), maxEntry, lenient);
      here := (WholeBatches(sum, logs[i].bytes, held[i]), Clean);
    }
  }

  lemma NothingApplied(sum: Checksum, logs: seq<LogFile>, held: seq<seq<W.Batch>>, boundary: nat, maxEntry: nat)
    ensures Ascends([]) && AllSound([], maxEntry) && LastSqn([]) == 0
    ensures Recoverable(sum, logs, held, boundary, maxEntry) ==> AllTorn(sum, logs, held) && |held| == |logs| && Kept(sum, logs, held, boundary, 0) == []
  {
    hide TornLog, WholeBatches, Sound;
  }

  // ---------------------------------------------------------------------------
  // The files of a stopped store
  // ---------------------------------------------------------------------------

  /** Where segment `n`'s batches end. */
  function SegmentEnd(s: W.State, n: nat): nat {
    if n < |s.d.segs| then s.d.segs[n].lo else |s.c.written|
  }

  /** A file's whole batches are its segment's part of the journal. */
  ghost predicate FileOf(sum: Checksum, log: LogFile, bs: seq<W.Batch>, s: W.State, i: nat) {
    && TornLog(sum, log.bytes, bs) && i < |s.d.segs| && s.d.segs[i].lo <= SegmentEnd(s, i + 1) <= |s.c.written|
    && log.num == s.d.segs[i].num
    && WholeBatches(sum, log.bytes, bs) == s.c.written[s.d.segs[i].lo..SegmentEnd(s, i + 1)]
  }

  ghost predicate FilesOf(sum: Checksum, logs: seq<LogFile>, held: seq<seq<W.Batch>>, s: W.State) {
    && AllTorn(sum, logs, held) && |logs| == |s.d.segs|
    && forall i :: 0 <= i < |logs| ==> FileOf(sum, logs[i], held[i], s, i)
  }

  lemma KeptStep(sum: Checksum, logs: seq<LogFile>, held: seq<seq<W.Batch>>, s: W.State, n: nat)
    requires FilesOf(sum, logs, held, s) && 0 < n <= |logs|
    ensures AllTorn(sum, logs, held) && n <= |s.d.segs| && s.d.segs[n-1].lo <= SegmentEnd(s, n) <= |s.c.written|
    ensures Kept(sum, logs, held, s.d.boundary, n) == Kept(sum, logs, held, s.d.boundary, n - 1)
            + if s.d.segs[n-1].num < s.d.boundary then [] else W.Flat(s.c.written[s.d.segs[n-1].lo..SegmentEnd(s, n)])
  {
    hide TornLog, WholeBatches, W.Flat;
    assert FileOf(sum, logs[n-1], held[n-1], s, n - 1);
  }

  lemma {:induction false} ReplayLoLast(segs: seq<W.Segment>, seg: W.Segment, boundary: nat, end: nat)
    ensures W.ReplayLo(segs + [seg], boundary, end) == W.ReplayLo(segs, boundary, if seg.num >= boundary then seg.lo else end)
    decreases |segs|
  {
    if segs == [] {
      assert (segs + [seg])[1..] == [];
    } else {
      ReplayLoLast(segs[1..], seg, boundary, end);
      assert (segs + [seg])[1..] == segs[1..] + [seg];
    }
  }

  lemma {:induction false} AllSkipped(segs: seq<W.Segment>, boundary: nat, end: nat)
    requires forall i :: 0 <= i < |segs| ==> segs[i].num < boundary
    ensures W.ReplayLo(segs, boundary, end) == end
    decreases |segs|
  {
    if segs != [] {
      AllSkipped(segs[1..], boundary, end);
    }
  }

  lemma {:induction false} ReplayLoBelow(segs: seq<W.Segment>, boundary: nat, end: nat)
    requires forall i :: 0 <= i < |segs| ==> segs[i].lo <= end
    ensures W.ReplayLo(segs, boundary, end) <= end
    decreases |segs|
  {
    if segs != [] {
      ReplayLoBelow(segs[1..], boundary, end);
    }
  }

  /** The segments in order: their starts ascend, and the last ends with the journal. */
  lemma SegmentsOrdered(s: W.State, n: nat)
    requires W.SegsOk(s) && n <= |s.d.segs|
    ensures SegmentEnd(s, n) <= |s.c.written| && forall i :: 0 <= i < n ==> s.d.segs[i].lo <= SegmentEnd(s, n)
    ensures n > 0 ==> forall i :: 0 <= i < n - 1 ==> s.d.segs[i].num < s.d.segs[n-1].num
  {
    assert n < |s.d.segs| ==> s.d.segs[n].lo <= s.d.segs[|s.d.segs|-1].lo;
  }

  lemma {:induction false} KeptIsPart(sum: Checksum, logs: seq<LogFile>, held: seq<seq<W.Batch>>, s: W.State, n: nat)
    requires FilesOf(sum, logs, held, s) && W.SegsOk(s) && 0 < n <= |logs| && AllTorn(sum, logs, held)
    ensures var lo := W.ReplayLo(s.d.segs[..n], s.d.boundary, SegmentEnd(s, n));
            lo <= SegmentEnd(s, n) <= |s.c.written|
            && Kept(sum, logs, held, s.d.boundary, n) == W.Flat(s.c.written[lo..SegmentEnd(s, n)])
    decreases n
  {
    hide FilesOf, AllTorn, Kept, W.SegsOk, W.Flat, W.ReplayLo, SegmentEnd;
    KeptStep(sum, logs, held, s, n);
    SegmentsOrdered(s, n);
    var segs, end := s.d.segs, SegmentEnd(s, n);
    var front, seg := segs[..n-1], segs[n-1];
    assert segs[..n] == front + [seg];
    ReplayLoBelow(segs[..n], s.d.boundary, end);
    ReplayLoLast(front, seg, s.d.boundary, end);
    var lo := W.ReplayLo(segs[..n], s.d.boundary, end);
    if seg.num < s.d.boundary {
      AllSkipped(front, s.d.boundary, end);
      NoBatches(s.c.written, end);
      NoneKept(sum, logs, held, s, n - 1);
    } else if n == 1 {
      AllSkipped(front, s.d.boundary, seg.lo);
      NoneKept(sum, logs, held, s, 0);
    } else {
      KeptIsPart(sum, logs, held, s, n - 1);
      EndsWhereNextStarts(s, n - 1);
      FlatJoins(s.c.written, lo, seg.lo, end);
    }
  }

  lemma EndsWhereNextStarts(s: W.State, n: nat)
    requires n < |s.d.segs|
    ensures SegmentEnd(s, n) == s.d.segs[n].lo
  {
  }

  /** Nothing is kept of files below the boundary. */
  lemma {:induction false} NoneKept(sum: Checksum, logs: seq<LogFile>, held: seq<seq<W.Batch>>, s: W.State, n: nat)
    requires FilesOf(sum, logs, held, s) && AllTorn(sum, logs, held) && n <= |logs| && n <= |s.d.segs|
    requires forall i :: 0 <= i < n ==> s.d.segs[i].num < s.d.boundary
    ensures Kept(sum, logs, held, s.d.boundary, n) == []
    decreases n
  {
    hide FilesOf, AllTorn, W.Flat, WholeBatches;
    if n > 0 {
      KeptStep(sum, logs, held, s, n);
      NoneKept(sum, logs, held, s, n - 1);
    }
  }

  lemma NoBatches(bs: seq<W.Batch>, a: nat)
    requires a <= |bs|
    ensures W.Flat(bs[a..a]) == []
  {
    assert bs[a..a] == [];
  }

  lemma FlatJoins(bs: seq<W.Batch>, a: nat, b: nat, c: nat)
    requires a <= b <= c <= |bs|
    ensures W.Flat(bs[a..c]) == W.Flat(bs[a..b]) + W.Flat(bs[b..c])
  {
    assert bs[a..c] == bs[a..b] + bs[b..c];
    W.FlatConcat(bs[a..b], bs[b..c]);
  }

  /** What recovery applies from a stopped store's files is the journal from its boundary on. */
  lemma RecoversSuffix(sum: Checksum, logs: seq<LogFile>, held: seq<seq<W.Batch>>, s: W.State)
    requires FilesOf(sum, logs, held, s) && W.SegsOk(s) && W.Skipped(s) <= |W.Hist(s)|
    ensures Kept(sum, logs, held, s.d.boundary, |logs|) == W.Hist(s)[W.Skipped(s)..]
  {
    hide AllTorn, FileOf, W.Flat, W.ReplayLo, Kept;
    var end := |s.c.written|;
    KeptIsPart(sum, logs, held, s, |logs|);
    assert s.d.segs[..|logs|] == s.d.segs;
    var lo := W.ReplayLo(s.d.segs, s.d.boundary, end);
    assert s.c.written[lo..end] == s.c.written[lo..];
    W.FlatPrefix(s.c.written, lo);
  }

  /** Over every run: from the files of a store that stopped, whose entries are within bounds, recovery takes exactly
      the changes and the start sequence of the recovery step. */
  lemma StoppedStoreRecovers(states: seq<W.State>, i: nat, sum: Checksum, logs: seq<LogFile>, held: seq<seq<W.Batch>>, maxEntry: nat)
    requires W.Run(states) && i < |states| && !states[i].up && FilesOf(sum, logs, held, states[i])
    requires forall j :: W.Skipped(states[i]) <= j < |W.Hist(states[i])| ==> Sound(W.Hist(states[i])[j], maxEntry)
    ensures var s := states[i];
            && W.Skipped(s) <= |W.Hist(s)| && Recoverable(sum, logs, held, s.d.boundary, maxEntry)
            && Kept(sum, logs, held, s.d.boundary, |logs|) == W.Hist(s)[W.Skipped(s)..]
            && Max(s.d.lastSeq, LastSqn(Kept(sum, logs, held, s.d.boundary, |logs|))) == W.LastSqn(W.Hist(s)[W.Skipped(s)..], s.d.lastSeq)
  {
    hide W.Run, W.Flat, Kept, Sound, FileOf, AllTorn, SqnOf;
    var s := states[i];
    Recovery.RunInv(states, i);
    SkippedInside(s);
    RecoversSuffix(sum, logs, held, s);
    JournalAscends(W.Hist(s), W.Skipped(s));
  }

  lemma SkippedInside(s: W.State)
    ensures W.Skipped(s) <= |W.Hist(s)|
  {
    hide W.Flat, W.ReplayLo;
    var k := Min(W.ReplayLo(s.d.segs, s.d.boundary, |s.c.written|), |s.c.written|);
    W.FlatPrefix(s.c.written, k);
  }

  lemma JournalAscends(log: seq<Change>, n: nat)
    requires LogOk(log) && n <= |log| && forall i :: 0 <= i < |log| ==> 0 < SqnOf(log[i])
    ensures Ascends(log[n..])
  {
    hide SqnOf, ChangeOk;
  }
}
