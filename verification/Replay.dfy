/** Replaying a suffix of the log over tables that already hold part of it. */
module Replay {
  import opened Bytes
  import opened Versions
  import opened Log
  import opened Extension

  lemma {:induction false} LogViewConcat(a: seq<Change>, b: seq<Change>)
    ensures LogView(a + b) == Join(LogView(a), LogView(b))
  {
    if b == [] {
      assert a + b == a;
    } else {
      var n := |b| - 1;
      assert (a + b)[..|a + b| - 1] == a + b[..n];
      LogViewConcat(a, b[..n]);
    }
  }

  /** Everything held was logged, up to values that have expired. */
  ghost predicate FromLog(w: View, log: seq<Change>, cutoff: int) {
    Justified(w, log, cutoff) && w.dels <= LogView(log).dels
  }

  lemma FromLogPoint(w: View, log: seq<Change>, cutoff: int, e: Entry) returns (i: nat, f: Entry)
    requires FromLog(w, log, cutoff) && e in w.points
    ensures i < |log| && f in PointsIn(log[i]) && Stands(e, f, cutoff)
  {
    LogViewMember(log);
    f :| f in LogView(log).points && Stands(e, f, cutoff);
    i :| 0 <= i < |log| && f in PointsIn(log[i]);
  }

  lemma FromLogDel(w: View, log: seq<Change>, cutoff: int, d: RangeDel) returns (i: nat)
    requires FromLog(w, log, cutoff) && d in w.dels
    ensures i < |log| && d in DelsIn(log[i])
  {
    LogViewMember(log);
    i :| 0 <= i < |log| && d in DelsIn(log[i]);
  }

  /** Nothing in log[b..] touches `key` at or below `s`. */
  ghost predicate Quiet(log: seq<Change>, b: nat, key: Bytes, s: nat) {
    forall i :: b <= i < |log| && Touches(log[i], key) ==> SqnOf(log[i]) > s
  }

  lemma {:induction false} QuietOrDecided(log: seq<Change>, b: nat, key: Bytes, s: nat) returns (i: nat)
    requires LogOk(log) && b <= |log| && !Quiet(log, b, key, s)
    ensures b <= i < |log| && Decides(log, key, s, i)
    decreases |log| - b
  {
    hide Touches, SqnOf, ChangeOk;
    if Quiet(log, b + 1, key, s) {
      i := b;
    } else {
      i := QuietOrDecided(log, b + 1, key, s);
    }
  }

  /** Where the suffix is quiet it changes nothing. */
  lemma QuietSuffix(w: View, log: seq<Change>, b: nat, key: Bytes, s: nat, e: Entry)
    requires LogOk(log) && b <= |log| && Quiet(log, b, key, s)
    ensures Deciding(Join(w, LogView(log[b..])), key, s, e) <==> Deciding(w, key, s, e)
  {
    hide LogView, LogOk, Touches, RangeDel.Contains, Quiet;
    var x := LogView(log[b..]);
    forall p | p in x.points && p.key == key ensures p.sqn > s {
      SuffixPoint(log, b, key, s, p);
    }
    forall d | d in x.dels && d.Contains(key) ensures d.sqn > s {
      SuffixDel(log, b, key, s, d);
    }
    if Deciding(Join(w, x), key, s, e) {
      forall d | d in w.dels ensures !d.Covers(key, e.sqn, s) {
        assert d in Join(w, x).dels;
      }
    }
    if Deciding(w, key, s, e) {
      forall d | d in Join(w, x).dels ensures !d.Covers(key, e.sqn, s) {
        assert d in w.dels || d in x.dels;
      }
    }
  }

  lemma SuffixPoint(log: seq<Change>, b: nat, key: Bytes, s: nat, p: Entry)
    requires LogOk(log) && b <= |log| && Quiet(log, b, key, s)
    requires p in LogView(log[b..]).points && p.key == key
    ensures p.sqn > s
  {
    hide LogView, Touches;
    LogViewMember(log[b..]);
    var i :| 0 <= i < |log[b..]| && p in PointsIn(log[b..][i]);
    PointTouches(log[b + i], p);
  }

  lemma SuffixDel(log: seq<Change>, b: nat, key: Bytes, s: nat, d: RangeDel)
    requires LogOk(log) && b <= |log| && Quiet(log, b, key, s)
    requires d in LogView(log[b..]).dels && d.Contains(key)
    ensures d.sqn > s
  {
    hide LogView, Touches;
    LogViewMember(log[b..]);
    var i :| 0 <= i < |log[b..]| && d in DelsIn(log[b..][i]);
    RangeTouches(log[b + i], key);
  }

  /** What the tables and the whole suffix hold of a key lies at or below the change that decides it. */
  lemma NothingAboveDecider(w: View, log: seq<Change>, cutoff: int, key: Bytes, s: nat, i: nat)
    requires LogOk(log) && FromLog(w, log, cutoff) && Decides(log, key, s, i)
    ensures forall e :: e in w.points && e.key == key && e.sqn <= s ==> e.sqn <= SqnOf(log[i])
    ensures forall d :: d in w.dels && d.Contains(key) && d.sqn <= s ==> d.sqn <= SqnOf(log[i])
  {
    hide LogView, Touches, FromLog, RangeDel.Contains;
    forall e | e in w.points && e.key == key && e.sqn <= s ensures e.sqn <= SqnOf(log[i]) {
      var j, f := FromLogPoint(w, log, cutoff, e);
      PointTouches(log[j], f);
    }
    forall d | d in w.dels && d.Contains(key) && d.sqn <= s ensures d.sqn <= SqnOf(log[i]) {
      var j := FromLogDel(w, log, cutoff, d);
      RangeTouches(log[j], key);
    }
  }

  /** A held version at the deciding sequence stands for the deciding change. */
  lemma SameSqnStands(w: View, log: seq<Change>, cutoff: int, i: nat, e: Entry, g: Entry)
    requires LogOk(log) && FromLog(w, log, cutoff) && i < |log|
    requires e in w.points && g in PointsIn(log[i]) && e.key == g.key && e.sqn == g.sqn
    ensures Stands(e, g, cutoff)
  {
    hide LogView, FromLog;
    var j, f := FromLogPoint(w, log, cutoff, e);
    assert ChangeOk(log[i]) && ChangeOk(log[j]);
    assert SqnOf(log[i]) == SqnOf(log[j]);
    assert i == j;
  }

  lemma JoinFromLog(w: View, log: seq<Change>, b: nat, cutoff: int)
    requires FromLog(w, log, cutoff) && b <= |log|
    ensures FromLog(Join(w, LogView(log[b..])), log, cutoff)
  {
    assert log == log[..b] + log[b..];
    LogViewConcat(log[..b], log[b..]);
    forall e | e in LogView(log[b..]).points ensures exists f :: f in LogView(log).points && Stands(e, f, cutoff) {
      assert e in LogView(log).points && Stands(e, e, cutoff);
    }
  }

  /** If the newest change is a range delete, nothing older shows. */
  lemma RangeDecides(w: View, log: seq<Change>, cutoff: int, key: Bytes, s: nat, i: nat, e: Entry)
    requires LogOk(log) && FromLog(w, log, cutoff) && Decides(log, key, s, i) && log[i].RangeChange?
    requires log[i].del in w.dels
    ensures !Deciding(w, key, s, e)
  {
    hide LogView, Touches, FromLog, RangeDel.Contains, LogOk;
    if e in w.points && e.key == key && e.sqn <= s {
      var d := log[i].del;
      RangeTouches(log[i], key);
      NothingAboveDecider(w, log, cutoff, key, s, i);
      NotAtRange(w, log, cutoff, i, e);
      assert d.Covers(key, e.sqn, s);
    }
  }

  lemma NotAtRange(w: View, log: seq<Change>, cutoff: int, i: nat, e: Entry)
    requires LogOk(log) && FromLog(w, log, cutoff) && i < |log| && log[i].RangeChange? && e in w.points
    ensures e.sqn != SqnOf(log[i])
  {
    hide LogView, FromLog;
    var j, f := FromLogPoint(w, log, cutoff, e);
    assert ChangeOk(log[j]);
  }

  /** If the newest change is a point, it (or its expiry) is what shows. */
  lemma PointDecides(w: View, log: seq<Change>, cutoff: int, key: Bytes, s: nat, now: int, i: nat, g: Entry, v: Visible)
    requires LogOk(log) && FromLog(w, log, cutoff) && Decides(log, key, s, i) && now >= cutoff
    requires g in PointsIn(log[i]) && g.key == key && g in w.points
    ensures Live(w, key, s, now, v) <==> Outcome(g.payload, now) == Some(v)
  {
    hide LogView, Touches, FromLog, RangeDel.Contains, LogOk;
    GSqn(log, i, g);
    NothingAboveDecider(w, log, cutoff, key, s, i);
    assert Deciding(w, key, s, g);
    forall e | Deciding(w, key, s, e) ensures Outcome(e.payload, now) == Outcome(g.payload, now) {
      SameSqnStands(w, log, cutoff, i, e, g);
    }
  }

  lemma GSqn(log: seq<Change>, i: nat, g: Entry)
    requires LogOk(log) && i < |log| && g in PointsIn(log[i])
    ensures g.sqn == SqnOf(log[i])
  {
    assert ChangeOk(log[i]);
  }

  /** The log's own view is from the log. */
  lemma LogFromLog(log: seq<Change>, cutoff: int)
    ensures FromLog(LogView(log), log, cutoff)
  {
    forall e | e in LogView(log).points ensures exists f :: f in LogView(log).points && Stands(e, f, cutoff) {
      assert Stands(e, e, cutoff);
    }
  }

  lemma SuffixHolds(log: seq<Change>, b: nat, i: nat)
    requires b <= i < |log|
    ensures PointsIn(log[i]) <= LogView(log[b..]).points && DelsIn(log[i]) <= LogView(log[b..]).dels
  {
    hide LogView;
    LogViewMember(log[b..]);
    assert log[b..][i - b] == log[i];
  }

  /** Replaying any suffix of the log over tables that read as the log changes no read. */
  lemma ReplayIsHarmless(w: View, log: seq<Change>, b: nat, floor: nat, cutoff: int)
    requires LogOk(log) && FromLog(w, log, cutoff) && b <= |log|
    requires SameReads(w, LogView(log), floor, cutoff)
    ensures SameReads(Join(w, LogView(log[b..])), LogView(log), floor, cutoff)
  {
    hide LogView, LogOk, FromLog, Deciding, Join, Quiet, Decides;
    var x := Join(w, LogView(log[b..]));
    forall key, s: nat, now: int, v | s >= floor && now >= cutoff
      ensures Live(x, key, s, now, v) <==> Live(LogView(log), key, s, now, v)
    {
      if Quiet(log, b, key, s) {
        forall e ensures Deciding(x, key, s, e) <==> Deciding(w, key, s, e) { QuietSuffix(w, log, b, key, s, e); }
        assert Live(w, key, s, now, v) <==> Live(LogView(log), key, s, now, v);
      } else {
        var i := QuietOrDecided(log, b, key, s);
        ReplayDecides(w, log, b, cutoff, key, s, now, i, v);
      }
    }
  }

  lemma ReplayDecides(w: View, log: seq<Change>, b: nat, cutoff: int, key: Bytes, s: nat, now: int, i: nat, v: Visible)
    requires LogOk(log) && FromLog(w, log, cutoff) && b <= i < |log| && Decides(log, key, s, i) && now >= cutoff
    ensures Live(Join(w, LogView(log[b..])), key, s, now, v) <==> Live(LogView(log), key, s, now, v)
  {
    hide LogView, LogOk, FromLog, Deciding, ChangeOk;
    var x := Join(w, LogView(log[b..]));
    JoinFromLog(w, log, b, cutoff);
    LogFromLog(log, cutoff);
    SuffixHolds(log, b, i);
    LogHolds(log, i);
    if log[i].RangeChange? {
      forall e ensures !Deciding(x, key, s, e) { RangeDecides(x, log, cutoff, key, s, i, e); }
      forall e ensures !Deciding(LogView(log), key, s, e) { RangeDecides(LogView(log), log, cutoff, key, s, i, e); }
    } else {
      assert ChangeOk(log[i]) by { OkAt(log, i); }
      var g := TouchedPoint(log[i], key);
      PointDecides(x, log, cutoff, key, s, now, i, g, v);
      PointDecides(LogView(log), log, cutoff, key, s, now, i, g, v);
    }
  }

  lemma OkAt(log: seq<Change>, i: nat)
    requires LogOk(log) && i < |log|
    ensures ChangeOk(log[i])
  {
  }

  lemma LogHolds(log: seq<Change>, i: nat)
    requires i < |log|
    ensures PointsIn(log[i]) <= LogView(log).points && DelsIn(log[i]) <= LogView(log).dels
  {
    SuffixHolds(log, 0, i);
    assert log[0..] == log;
  }

  /** Adding newer changes, any number of them, to both sides keeps reads alike. */
  lemma {:induction false} ExtendMany(w: View, log: seq<Change>, more: seq<Change>, n: nat, floor: nat, cutoff: int)
    requires LogOk(log + more) && SameReads(w, LogView(log), floor, cutoff)
    requires UpTo(w, n) && UpTo(LogView(log), n) && forall i :: 0 <= i < |more| ==> SqnOf(more[i]) > n
    ensures SameReads(Join(w, LogView(more)), LogView(log + more), floor, cutoff)
    decreases |more|
  {
    hide LogView, SameReads, SqnOf, ChangeOk;
    if more == [] {
      assert log + more == log;
      LogViewEmpty();
      assert Join(w, LogView(more)) == w;
    } else {
      var k := |more| - 1;
      var c, front := more[k], more[..k];
      assert (log + more)[|log| + k] == c;
      assert log + more == log + front + [c];
      PrefixOk(log + front, c);
      ExtendMany(w, log, front, n, floor, cutoff);
      LogUpTo(log + front, log + more);
      LogViewConcat(log, front);
      UpToWeaken(w, n, SqnOf(c) - 1);
      UpToJoin(w, LogView(front), LogView(log + front), SqnOf(c) - 1);
      ExtendOne(Join(w, LogView(front)), log + front, c, floor, cutoff);
      LogViewLast(more);
      assert Join(w, LogView(more)) == Join(Join(w, LogView(front)), View(PointsIn(c), DelsIn(c)));
    }
  }

  lemma PrefixOk(log: seq<Change>, c: Change)
    requires LogOk(log + [c])
    ensures LogOk(log)
  {
    hide ChangeOk, SqnOf;
    assert forall i :: 0 <= i < |log| ==> (log + [c])[i] == log[i];
  }

  lemma ExtendOne(a: View, log: seq<Change>, c: Change, floor: nat, cutoff: int)
    requires LogOk(log + [c]) && SqnOf(c) > 0 && UpTo(a, SqnOf(c) - 1)
    requires SameReads(a, LogView(log), floor, cutoff)
    ensures SameReads(Join(a, View(PointsIn(c), DelsIn(c))), LogView(log + [c]), floor, cutoff)
  {
    hide LogView, SameReads, SqnOf, ChangeOk, UpTo, OneSqn;
    assert (log + [c])[|log|] == c && (log + [c])[..|log|] == log;
    LogUpTo(log, log + [c]);
    LogViewLast(log + [c]);
    ChangeSqn(c);
    ExtendSame(a, LogView(log), View(PointsIn(c), DelsIn(c)), SqnOf(c) - 1, SqnOf(c), floor, cutoff);
  }

  lemma UpToWeaken(w: View, n: nat, m: nat)
    requires UpTo(w, n) && n <= m
    ensures UpTo(w, m)
  {
  }

  lemma LogViewEmpty()
    ensures LogView([]) == View({}, {})
  {
  }

  lemma LogViewLast(log: seq<Change>)
    requires log != []
    ensures LogView(log) == Join(LogView(log[..|log|-1]), View(PointsIn(log[|log|-1]), DelsIn(log[|log|-1])))
  {
  }

  lemma ChangeSqn(c: Change)
    requires ChangeOk(c)
    ensures OneSqn(View(PointsIn(c), DelsIn(c)), SqnOf(c))
  {
  }

  /** All of a log but its last change lies below that change's sequence. */
  lemma LogUpTo(front: seq<Change>, log: seq<Change>)
    requires LogOk(log) && log != [] && front == log[..|log|-1]
    requires SqnOf(log[|log|-1]) > 0
    ensures UpTo(LogView(front), SqnOf(log[|log|-1]) - 1)
  {
    hide LogView;
    LogViewMember(front);
    forall e | e in LogView(front).points ensures e.sqn < SqnOf(log[|log|-1]) {
      var i :| 0 <= i < |front| && e in PointsIn(front[i]);
      assert ChangeOk(log[i]);
    }
  }

  /** What a crash leaves in the tables, with every change from the boundary on replayed
      over it, reads exactly as the whole log. */
  lemma RecoveryReads(w: View, log: seq<Change>, b: nat, f: nat, n: nat, floor: nat, cutoff: int)
    requires LogOk(log) && b <= f <= |log|
    requires FromLog(w, log[..f], cutoff) && SameReads(w, LogView(log[..f]), floor, cutoff)
    requires UpTo(w, n) && UpTo(LogView(log[..f]), n) && forall i :: f <= i < |log| ==> SqnOf(log[i]) > n
    ensures SameReads(Join(w, LogView(log[b..])), LogView(log), floor, cutoff)
  {
    hide LogView, SameReads, SqnOf, LogOk, FromLog, UpTo;
    var done, more := log[..f], log[f..];
    SplitTwice(log, b, f);
    ReplayIsHarmless(w, done, b, floor, cutoff) by { assert LogOk(done) by { TakeOk(log, f); } }
    var w' := Join(w, LogView(done[b..]));
    LogViewConcat(done[..b], done[b..]);
    UpToJoin(w, LogView(done[b..]), LogView(done), n);
    ExtendMany(w', done, more, n, floor, cutoff);
    LogViewConcat(done[b..], more);
    assert Join(w', LogView(more)) == Join(w, LogView(log[b..]));
  }

  lemma SplitTwice<T>(log: seq<T>, b: nat, f: nat)
    requires b <= f <= |log|
    ensures log == log[..f] + log[f..] && log[..f] == log[..f][..b] + log[..f][b..] && log[b..] == log[..f][b..] + log[f..]
  {
  }

  lemma TakeOk(log: seq<Change>, f: nat)
    requires LogOk(log) && f <= |log|
    ensures LogOk(log[..f])
  {
    hide SqnOf, ChangeOk;
  }

  lemma UpToJoin(w: View, part: View, whole: View, n: nat)
    requires UpTo(w, n) && UpTo(whole, n) && part.points <= whole.points && part.dels <= whole.dels
    ensures UpTo(Join(w, part), n)
  {
  }
}
