/** The specification of the store: a log of changes, where the newest one decides. */
module Log {
  import opened Bytes
  import opened Versions

  /** One logged change: a point write, a range delete, or a file ingested at one sequence. */
  datatype Change =
    | PointChange(entry: Entry)
    | RangeChange(del: RangeDel)
    | IngestChange(sqn: nat, entries: seq<Entry>)

  function SqnOf(c: Change): nat {
    match c
    case PointChange(e) => e.sqn
    case RangeChange(d) => d.sqn
    case IngestChange(n, _) => n
  }

  function PointsIn(c: Change): set<Entry> {
    match c
    case PointChange(e) => {e}
    case RangeChange(_) => {}
    case IngestChange(_, es) => PointSet(es)
  }

  function DelsIn(c: Change): set<RangeDel> {
    if c.RangeChange? then {c.del} else {}
  }

  /** All entries of a change carry its sequence; an ingested file names each key once. */
  ghost predicate ChangeOk(c: Change) {
    && (forall e :: e in PointsIn(c) ==> e.sqn == SqnOf(c))
    && (forall e, f :: e in PointsIn(c) && f in PointsIn(c) && e.key == f.key ==> e == f)
  }

  predicate Touches(c: Change, key: Bytes) {
    match c
    case PointChange(e) => e.key == key
    case RangeChange(d) => d.Contains(key)
    case IngestChange(_, es) => exists i :: 0 <= i < |es| && es[i].key == key
  }

  /** What a change shows for a key it touches. */
  ghost predicate Shows(c: Change, key: Bytes, now: int, v: Visible) {
    exists e :: e in PointsIn(c) && e.key == key && Outcome(e.payload, now) == Some(v)
  }

  /** Strictly ascending sequences. */
  ghost predicate LogOk(log: seq<Change>) {
    && (forall i :: 0 <= i < |log| ==> ChangeOk(log[i]))
    && (forall i, j :: 0 <= i < j < |log| ==> SqnOf(log[i]) < SqnOf(log[j]))
  }

  /** The newest change at or below `s` that touches `key` is log[i]. */
  ghost predicate Decides(log: seq<Change>, key: Bytes, s: nat, i: nat) {
    && i < |log| && Touches(log[i], key) && SqnOf(log[i]) <= s
    && forall j :: i < j < |log| && Touches(log[j], key) ==> SqnOf(log[j]) > s
  }

  /** The specification of a read: the newest change at or below `s` decides the key. */
  ghost predicate LogRead(log: seq<Change>, key: Bytes, s: nat, now: int, v: Visible) {
    exists i: nat :: Decides(log, key, s, i) && Shows(log[i], key, now, v)
  }

  function LogView(log: seq<Change>): View {
    if log == [] then View({}, {})
    else
      var n := |log| - 1;
      Join(LogView(log[..n]), View(PointsIn(log[n]), DelsIn(log[n])))
  }

  /** A held version is the logged one, or the tombstone its expiry left. */
  ghost predicate Stands(e: Entry, f: Entry, cutoff: int) {
    e == f || (f.payload.Expiring? && f.payload.expiresAt <= cutoff && e == f.(payload := Tombstone))
  }

  /** Every held version stands for a logged one. */
  ghost predicate Justified(w: View, log: seq<Change>, cutoff: int) {
    forall e :: e in w.points ==> exists f :: f in LogView(log).points && Stands(e, f, cutoff)
  }

  lemma {:induction false} LogViewMember(log: seq<Change>)
    ensures forall e :: e in LogView(log).points <==> exists i :: 0 <= i < |log| && e in PointsIn(log[i])
    ensures forall d :: d in LogView(log).dels <==> exists i :: 0 <= i < |log| && d in DelsIn(log[i])
  {
    if log != [] {
      var n := |log| - 1;
      LogViewMember(log[..n]);
      assert forall i :: 0 <= i < n ==> log[..n][i] == log[i];
    }
  }

  /** At one sequence the log holds one version of a key. */
  lemma LoggedOnce(log: seq<Change>, e: Entry, f: Entry)
    requires LogOk(log) && e in LogView(log).points && f in LogView(log).points && e.key == f.key && e.sqn == f.sqn
    ensures e == f
  {
    hide LogView;
    LogViewMember(log);
    var i :| 0 <= i < |log| && e in PointsIn(log[i]);
    var j :| 0 <= j < |log| && f in PointsIn(log[j]);
    assert ChangeOk(log[i]) && ChangeOk(log[j]);
  }

  lemma DecidingIsDecided(log: seq<Change>, key: Bytes, s: nat, e: Entry) returns (i: nat)
    requires LogOk(log) && Deciding(LogView(log), key, s, e)
    ensures Decides(log, key, s, i) && e in PointsIn(log[i])
  {
    hide LogView, ChangeOk, RangeDel.Contains, Touches;
    LogViewMember(log);
    var w := LogView(log);
    i :| 0 <= i < |log| && e in PointsIn(log[i]);
    PointTouches(log[i], e);
    forall j | i < j < |log| && Touches(log[j], key) ensures SqnOf(log[j]) > s {
      if log[j].RangeChange? {
        RangeTouches(log[j], key);
        assert log[j].del in DelsIn(log[j]) && log[j].del in w.dels;
        assert !log[j].del.Covers(key, e.sqn, s);
      } else {
        var f := TouchedPoint(log[j], key);
        assert f in w.points;
      }
    }
  }

  lemma DecidedIsDeciding(log: seq<Change>, key: Bytes, s: nat, i: nat, e: Entry)
    requires LogOk(log) && Decides(log, key, s, i)
    requires e in PointsIn(log[i]) && e.key == key
    ensures Deciding(LogView(log), key, s, e)
  {
    hide LogView, ChangeOk, RangeDel.Contains, Touches;
    LogViewMember(log);
    var w := LogView(log);
    PointTouches(log[i], e);
    forall f | f in w.points && f.key == key && f.sqn <= s ensures f.sqn <= e.sqn {
      var j :| 0 <= j < |log| && f in PointsIn(log[j]);
      PointTouches(log[j], f);
    }
    forall d | d in w.dels ensures !d.Covers(key, e.sqn, s) {
      var j :| 0 <= j < |log| && d in DelsIn(log[j]);
      RangeTouches(log[j], key);
    }
  }

  /** The versioned view of a log reads exactly as the log does. */
  lemma ViewReadsAsLog(log: seq<Change>, key: Bytes, s: nat, now: int, v: Visible)
    requires LogOk(log)
    ensures Live(LogView(log), key, s, now, v) <==> LogRead(log, key, s, now, v)
  {
    hide LogView, LogOk, Touches, Newest, RangeDeleted;
    if Live(LogView(log), key, s, now, v) {
      var e :| Deciding(LogView(log), key, s, e) && Outcome(e.payload, now) == Some(v);
      var i := DecidingIsDecided(log, key, s, e);
      assert Shows(log[i], key, now, v);
    }
    if LogRead(log, key, s, now, v) {
      var i: nat :| Decides(log, key, s, i) && Shows(log[i], key, now, v);
      var e :| e in PointsIn(log[i]) && e.key == key && Outcome(e.payload, now) == Some(v);
      DecidedIsDeciding(log, key, s, i, e);
    }
  }

  lemma RangeTouches(c: Change, key: Bytes)
    requires c.RangeChange?
    ensures Touches(c, key) <==> c.del.Contains(key)
    ensures DelsIn(c) == {c.del} && SqnOf(c) == c.del.sqn
  {
  }

  lemma PointTouches(c: Change, e: Entry)
    requires ChangeOk(c) && e in PointsIn(c)
    ensures Touches(c, e.key) && SqnOf(c) == e.sqn
  {
  }

  lemma TouchedPoint(c: Change, key: Bytes) returns (f: Entry)
    requires ChangeOk(c) && Touches(c, key) && !c.RangeChange?
    ensures f in PointsIn(c) && f.key == key && f.sqn == SqnOf(c)
  {
    if c.PointChange? {
      f := c.entry;
    } else {
      var i :| 0 <= i < |c.entries| && c.entries[i].key == key;
      f := c.entries[i];
    }
  }

  // ---------------------------------------------------------------------------
  // What a read of the log finds, change by change
  // ---------------------------------------------------------------------------

  lemma NothingLogged(key: Bytes, s: nat, now: int, v: Visible)
    ensures !LogRead([], key, s, now, v)
  {
  }

  /** A change that leaves the key alone, or is above the reader, changes nothing; any other one decides. */
  lemma LastDecides(log: seq<Change>, c: Change, key: Bytes, s: nat, now: int, v: Visible)
    ensures LogRead(log + [c], key, s, now, v)
            <==> if Touches(c, key) && SqnOf(c) <= s then Shows(c, key, now, v) else LogRead(log, key, s, now, v)
  {
    hide Touches, Shows, SqnOf;
    var more, n := log + [c], |log|;
    assert more[n] == c && forall i :: 0 <= i < n ==> more[i] == log[i];
    forall i: nat | i < n ensures Decides(more, key, s, i) <==> Decides(log, key, s, i) && !(Touches(c, key) && SqnOf(c) <= s) {
    }
    assert Decides(more, key, s, n) <==> Touches(c, key) && SqnOf(c) <= s;
  }

  /** A put is read back by its own key, until its deadline if it has one, and by no other. */
  lemma PutReads(log: seq<Change>, k: Bytes, n: nat, value: Bytes, deadline: Option<int>, key: Bytes, s: nat, now: int, v: Visible)
    requires s >= n
    ensures var p := if deadline.Some? then Expiring(value, deadline.value) else Plain(value);
            LogRead(log + [PointChange(Entry(k, n, p))], key, s, now, v)
            <==> if key != k then LogRead(log, key, s, now, v)
                 else if deadline.Some? then now < deadline.value && v == Visible(value, deadline.value)
                 else v == Visible(value, 0)
  {
    hide LogRead;
    var p := if deadline.Some? then Expiring(value, deadline.value) else Plain(value);
    LastDecides(log, PointChange(Entry(k, n, p)), key, s, now, v);
  }

  lemma DeleteReads(log: seq<Change>, k: Bytes, n: nat, key: Bytes, s: nat, now: int, v: Visible)
    requires s >= n
    ensures LogRead(log + [PointChange(Entry(k, n, Tombstone))], key, s, now, v) <==> key != k && LogRead(log, key, s, now, v)
  {
    hide LogRead;
    LastDecides(log, PointChange(Entry(k, n, Tombstone)), key, s, now, v);
  }

  /** A range delete hides exactly the keys from its start up to, and not including, its end. */
  lemma RangeDeleteReads(log: seq<Change>, a: Bytes, b: Bytes, n: nat, key: Bytes, s: nat, now: int, v: Visible)
    requires s >= n
    ensures LogRead(log + [RangeChange(RangeDel(a, b, n))], key, s, now, v)
            <==> (Lt(key, a) || !Lt(key, b)) && LogRead(log, key, s, now, v)
  {
    hide LogRead;
    CompareSign(a, key);
    LastDecides(log, RangeChange(RangeDel(a, b, n)), key, s, now, v);
  }

  /** An ingested file is read back by its keys, and by no other. */
  lemma IngestReads(log: seq<Change>, n: nat, es: seq<Entry>, i: nat, key: Bytes, s: nat, now: int, v: Visible)
    requires s >= n && ChangeOk(IngestChange(n, es)) && i <= |es|
    requires if i < |es| then es[i].key == key else forall j :: 0 <= j < |es| ==> es[j].key != key
    ensures LogRead(log + [IngestChange(n, es)], key, s, now, v)
            <==> if i < |es| then Outcome(es[i].payload, now) == Some(v) else LogRead(log, key, s, now, v)
  {
    hide LogRead, Outcome;
    var c := IngestChange(n, es);
    LastDecides(log, c, key, s, now, v);
    if i < |es| {
      assert es[i] in PointsIn(c);
    }
  }

  /** A reader below a change does not see it. */
  lemma LaterUnread(log: seq<Change>, c: Change, key: Bytes, s: nat, now: int, v: Visible)
    requires s < SqnOf(c)
    ensures LogRead(log + [c], key, s, now, v) <==> LogRead(log, key, s, now, v)
  {
    LastDecides(log, c, key, s, now, v);
  }
}
