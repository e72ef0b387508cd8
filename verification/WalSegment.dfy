/** A log file: batches as journal records, and what replaying any prefix of its bytes gives. */
module WalSegment {
  import opened Bytes
  import opened Versions
  import opened Log
  import opened Varint
  import opened Journal
  import opened JournalFile
  import R = WalRecord
  import W = WriteAhead

  datatype LogFile = LogFile(num: nat, bytes: Bytes)

  // ---------------------------------------------------------------------------
  // Changes as mutations
  // ---------------------------------------------------------------------------

  function ToMutation(c: Change): R.Mutation
    requires !c.IngestChange?
  {
    match c
    case RangeChange(d) => R.RangeDelete(d.start, d.end)
    case PointChange(e) =>
      match e.payload
      case Tombstone => R.Delete(e.key)
      case Plain(v) => R.Put(e.key, v)
      case Expiring(v, x) => R.PutTtl(e.key, v, x)
  }

  function FromMutation(sqn: nat, m: R.Mutation): Change {
    match m
    case RangeDelete(a, b) => RangeChange(RangeDel(a, b, sqn))
    case Delete(k) => PointChange(Entry(k, sqn, Tombstone))
    case Put(k, v) => PointChange(Entry(k, sqn, Plain(v)))
    case PutTtl(k, v, x) => PointChange(Entry(k, sqn, Expiring(v, x)))
  }

  lemma ChangeRoundTrip(c: Change)
    requires !c.IngestChange?
    ensures FromMutation(SqnOf(c), ToMutation(c)) == c
  {
  }

  /** A batch that the log format can carry: consecutive sequences, sizes and deadlines in range. */
  ghost predicate Loggable(b: W.Batch) {
    && W.BatchOk(b) && |b| <= MAX_UINT64 && 0 < SqnOf(b[0]) && SqnOf(b[0]) + |b| <= MAX_UINT64 + 1
    && (forall i :: 0 <= i < |b| ==> SqnOf(b[i]) == SqnOf(b[0]) + i && R.InRange(ToMutation(b[i])))
  }

  function Mutations(b: W.Batch): (ms: seq<R.Mutation>)
    requires forall i :: 0 <= i < |b| ==> !b[i].IngestChange?
    ensures |ms| == |b|
  {
    seq(|b|, i requires 0 <= i < |b| => ToMutation(b[i]))
  }

  function Changes(b: R.Batch): (cs: W.Batch)
    ensures |cs| == |b.ops|
  {
    seq(|b.ops|, i requires 0 <= i < |b.ops| => FromMutation(b.base + i, b.ops[i]))
  }

  ghost function Logged(b: W.Batch): Bytes
    requires Loggable(b)
  {
    R.Encode(SqnOf(b[0]), Mutations(b))
  }

  /** A logged batch decodes to itself. */
  lemma BatchReadsBack(b: W.Batch)
    requires Loggable(b)
    ensures R.Decode(Logged(b)) == Some(R.Batch(SqnOf(b[0]), Mutations(b)))
    ensures Changes(R.Batch(SqnOf(b[0]), Mutations(b))) == b
  {
    hide R.Decode, R.Encode, R.InRange, ToMutation, FromMutation, ChangeOk;
    R.BatchRoundTrip(SqnOf(b[0]), Mutations(b));
    forall i | 0 <= i < |b| ensures Changes(R.Batch(SqnOf(b[0]), Mutations(b)))[i] == b[i] {
      ChangeRoundTrip(b[i]);
    }
  }

  // ---------------------------------------------------------------------------
  // Replay
  // ---------------------------------------------------------------------------

  /** How replay of a segment ends: at its end, at corruption it tolerates, or in failure. */
  datatype Outcome = Clean | Stopped | Failed

  function Bad(lenient: bool): Outcome {
    if lenient then Stopped else Failed
  }

  /** replayWALFileVisit from `pos` on, the last record's sequence being `last`. */
  function Replay(sum: Checksum, s: Bytes, pos: nat, lenient: bool, strict: bool, last: nat): (seq<R.Batch>, Outcome)
    requires pos <= |s|
    decreases |s| - pos
  {
    match ReadRecord(sum, s, pos, strict, None)
    case End => ([], Clean)
    case Broken => ([], Bad(lenient))
    case Rec(data, next) =>
      var d := R.Decode(data);
      if d.None? || d.value.ops == [] || d.value.base <= last then ([], Bad(lenient))
      else
        var rest := Replay(sum, s, next, lenient, strict, d.value.base + |d.value.ops| - 1);
        ([d.value] + rest.0, rest.1)
  }

  lemma ReplayUnfolds(sum: Checksum, s: Bytes, pos: nat, lenient: bool, strict: bool, last: nat)
    requires pos <= |s|
    ensures Replay(sum, s, pos, lenient, strict, last) ==
              match ReadRecord(sum, s, pos, strict, None)
              case End => ([], Clean)
              case Broken => ([], Bad(lenient))
              case Rec(data, next) =>
                var d := R.Decode(data);
                if d.None? || d.value.ops == [] || d.value.base <= last then ([], Bad(lenient))
                else
                  var rest := Replay(sum, s, next, lenient, strict, d.value.base + |d.value.ops| - 1);
                  ([d.value] + rest.0, rest.1)
  {
    hide ReadRecord, R.Decode;
  }

  /** The loop itself, over the buffered reader; `visit` sees each batch as it is decoded. */
  method ReplayFile(sum: Checksum, s: Bytes, lenient: bool, strict: bool) returns (batches: seq<R.Batch>, end: Outcome)
    ensures (batches, end) == Replay(sum, s, 0, lenient, strict, 0)
  {
    hide R.Decode, ReadRecord, Replay;
    var reader := new JournalReader(sum, s, strict);
    batches := [];
    var last: nat := 0;
    ghost var goal := Replay(sum, s, 0, lenient, strict, 0);
    assert [] + goal.0 == goal.0;
    while true
      invariant reader.Valid() && fresh(reader) && reader.sum == sum && reader.stream == s && reader.strictTail == strict
      invariant reader.Pos() <= |s|
      invariant var rest := Replay(sum, s, reader.Pos(), lenient, strict, last); goal == (batches + rest.0, rest.1)
      decreases |s| - reader.Pos()
    {
      ghost var before := batches;
      ReplayUnfolds(sum, s, reader.Pos(), lenient, strict, last);
      var r := reader.Next();
      match r {
        case End =>
          assert batches + [] == batches;
          return batches, Clean;
        case Broken =>
          assert batches + [] == batches;
          return batches, Bad(lenient);
        case Rec(data, next) =>
          var d := R.DecodeBatch(data);
          if d.None? || d.value.ops == [] || d.value.base <= last {
            assert batches + [] == batches;
            return batches, Bad(lenient);
          }
          last := d.value.base + |d.value.ops| - 1;
          batches := batches + [d.value];
          ghost var rest := Replay(sum, s, next, lenient, strict, last);
          assert before + ([d.value] + rest.0) == batches + rest.0;
      }
    }
  }

  ghost function Records(bs: seq<W.Batch>): (recs: seq<Bytes>)
    requires forall i :: 0 <= i < |bs| ==> Loggable(bs[i])
    ensures |recs| == |bs|
  {
    if bs == [] then [] else [Logged(bs[0])] + Records(bs[1..])
  }

  /** Consecutive batches of one log: each starts above where the one before it ended. */
  ghost predicate Follows(bs: seq<W.Batch>, last: nat) {
    bs == [] || (bs[0] != [] && SqnOf(bs[0][0]) > last && Follows(bs[1..], SqnOf(bs[0][0]) + |bs[0]| - 1))
  }

  ghost function Decoded(bs: seq<W.Batch>): (ds: seq<R.Batch>)
    requires forall i :: 0 <= i < |bs| ==> Loggable(bs[i])
    ensures |ds| == |bs|
  {
    if bs == [] then []
    else
      assert Loggable(bs[0]);
      [R.Batch(SqnOf(bs[0][0]), Mutations(bs[0]))] + Decoded(bs[1..])
  }

  lemma ReplayEnds(sum: Checksum, s: Bytes, pos: nat, lenient: bool, strict: bool, last: nat)
    requires pos <= |s| && (ReadRecord(sum, s, pos, strict, None) == End || ReadRecord(sum, s, pos, strict, None) == Broken)
    ensures Replay(sum, s, pos, lenient, strict, last)
            == ([], if ReadRecord(sum, s, pos, strict, None) == Broken then Bad(lenient) else Clean)
  {
  }

  lemma ReplayNext(sum: Checksum, s: Bytes, pos: nat, next: nat, lenient: bool, strict: bool, last: nat, b: W.Batch)
    requires Loggable(b) && SqnOf(b[0]) > last && pos <= |s| && ReadRecord(sum, s, pos, strict, None) == Rec(Logged(b), next)
    ensures var rest := Replay(sum, s, next, lenient, strict, SqnOf(b[0]) + |b| - 1);
            Replay(sum, s, pos, lenient, strict, last) == ([R.Batch(SqnOf(b[0]), Mutations(b))] + rest.0, rest.1)
  {
    hide R.Decode, Logged, ReadRecord;
    BatchReadsBack(b);
  }

  /** Replaying the first bytes of a log file, cut anywhere, gives exactly the whole batches in them: a torn tail
      loses only what was not yet wholly written. The end is clean, unless a strict reader meets a record cut short. */
  lemma {:induction false} TornSegmentReplays(sum: Checksum, s: Bytes, pos: nat, bs: seq<W.Batch>, lenient: bool, strict: bool, last: nat)
    requires forall i :: 0 <= i < |bs| ==> Loggable(bs[i])
    requires Follows(bs, last)
    requires pos <= |s| <= pos + |FrameAll(sum, pos, Records(bs))| && Agrees(s, pos, FrameAll(sum, pos, Records(bs)))
    ensures var m := WholeIn(sum, pos, Records(bs), |s| - pos);
            Replay(sum, s, pos, lenient, strict, last)
            == (Decoded(bs[..m]), if strict && !CleanCut(sum, pos, Records(bs), |s| - pos) then Bad(lenient) else Clean)
    decreases |bs|
  {
    hide Frame, Agrees, ReadRecord, R.Decode, Logged, Loggable, Mutations, SqnOf, Replay;
    if bs == [] {
      ReplayEnds(sum, s, |s|, lenient, strict, last) by { AtEnd(sum, s, strict); }
      AtEnd(sum, s, strict);
    } else {
      var recs := Records(bs);
      var f := Frame(sum, pos, recs[0], true);
      assert recs[1..] == Records(bs[1..]);
      AgreesSplit(s, pos, f, FrameAll(sum, pos + |f|, recs[1..]));
      if |s| < pos + |f| {
        RecordCut(sum, s, pos, strict, recs[0], None);
        ReplayEnds(sum, s, pos, lenient, strict, last);
      } else {
        RecordWhole(sum, s, pos, strict, recs[0], None);
        assert Begun(None) + recs[0] == recs[0];
        var next := SqnOf(bs[0][0]) + |bs[0]| - 1;
        ReplayNext(sum, s, pos, pos + |f|, lenient, strict, last, bs[0]);
        TornSegmentReplays(sum, s, pos + |f|, bs[1..], lenient, strict, next);
        var m := WholeIn(sum, pos + |f|, recs[1..], |s| - pos - |f|);
        assert bs[..m + 1][1..] == bs[1..][..m];
      }
    }
  }

  /** From any bytes, replay hands on batches whose sequences ascend, each above the one before it. */
  lemma {:induction false} ReplayAscends(sum: Checksum, s: Bytes, pos: nat, lenient: bool, strict: bool, last: nat)
    requires pos <= |s|
    ensures var bs := Replay(sum, s, pos, lenient, strict, last).0;
            && (bs != [] ==> bs[0].base > last)
            && forall i, j :: 0 <= i < j < |bs| ==> bs[i].base + |bs[i].ops| - 1 < bs[j].base
    decreases |s| - pos
  {
    hide ReadRecord, R.Decode, Replay;
    ReplayUnfolds(sum, s, pos, lenient, strict, last);
    match ReadRecord(sum, s, pos, strict, None)
    case End =>
    case Broken =>
    case Rec(data, next) =>
      var d := R.Decode(data);
      if d.Some? && d.value.ops != [] && d.value.base > last {
        var end := d.value.base + |d.value.ops| - 1;
        ReplayAscends(sum, s, next, lenient, strict, end);
        ReplayNonempty(sum, s, next, lenient, strict, end);
        var bs, rest := Replay(sum, s, pos, lenient, strict, last).0, Replay(sum, s, next, lenient, strict, end).0;
        FrontAscends(d.value, rest, end);
      }
  }

  lemma FrontAscends(d: R.Batch, rest: seq<R.Batch>, end: int)
    requires end == d.base + |d.ops| - 1 && (rest != [] ==> rest[0].base > end)
    requires forall i :: 0 <= i < |rest| ==> rest[i].ops != []
    requires forall i, j :: 0 <= i < j < |rest| ==> rest[i].base + |rest[i].ops| - 1 < rest[j].base
    ensures var bs := [d] + rest; forall i, j :: 0 <= i < j < |bs| ==> bs[i].base + |bs[i].ops| - 1 < bs[j].base
  {
    var bs := [d] + rest;
    forall i, j | 0 <= i < j < |bs| ensures bs[i].base + |bs[i].ops| - 1 < bs[j].base {
      if i == 0 {
        assert j > 1 ==> rest[0].base + |rest[0].ops| - 1 < rest[j - 1].base;
      } else {
        assert bs[i] == rest[i - 1] && bs[j] == rest[j - 1];
      }
    }
  }

  /** Replay hands on no empty batch. */
  lemma {:induction false} ReplayNonempty(sum: Checksum, s: Bytes, pos: nat, lenient: bool, strict: bool, last: nat)
    requires pos <= |s|
    ensures forall i :: 0 <= i < |Replay(sum, s, pos, lenient, strict, last).0| ==>
              Replay(sum, s, pos, lenient, strict, last).0[i].ops != []
    decreases |s| - pos
  {
    hide ReadRecord, R.Decode, Replay;
    ReplayUnfolds(sum, s, pos, lenient, strict, last);
    match ReadRecord(sum, s, pos, strict, None)
    case End =>
    case Broken =>
    case Rec(data, next) =>
      var d := R.Decode(data);
      if d.Some? && d.value.ops != [] && d.value.base > last {
        ReplayNonempty(sum, s, next, lenient, strict, d.value.base + |d.value.ops| - 1);
      }
  }

  /** The batches of an ascending journal follow one another. */
  lemma {:induction false} JournalFollows(bs: seq<W.Batch>, last: nat)
    requires forall i :: 0 <= i < |bs| ==> Loggable(bs[i])
    requires LogOk(W.Flat(bs)) && (bs != [] ==> bs[0] != [] && SqnOf(bs[0][0]) > last)
    ensures Follows(bs, last)
    decreases |bs|
  {
    hide W.Flat, ChangeOk, SqnOf, R.InRange, ToMutation;
    if bs != [] {
      var b, rest := bs[0], bs[1..];
      W.FlatPrefix(bs, 1);
      assert bs[..1] == [b];
      W.FlatOne(b);
      assert W.Flat(bs) == b + W.Flat(rest);
      assert forall i :: 0 <= i < |W.Flat(rest)| ==> W.Flat(rest)[i] == W.Flat(bs)[|b| + i];
      if rest != [] {
        W.FlatPrefix(rest, 1);
        assert rest[..1] == [rest[0]];
        W.FlatOne(rest[0]);
        assert Loggable(rest[0]) && Loggable(b);
        assert W.Flat(bs)[|b| - 1] == b[|b| - 1] && W.Flat(bs)[|b|] == rest[0][0];
      }
      JournalFollows(rest, SqnOf(b[0]) + |b| - 1);
    }
  }
}
