/**
What a compaction merge leaves of its inputs, and why no read at or above the
retained sequence can notice.
*/
module Collapse {
  import opened Bytes
  import opened Versions
  import opened Tables

  type Filter = (Bytes, Bytes, int) -> bool

  /** How a merge rewrites the versions it keeps: TTL expiry at `cutoff`, then an
      optional user filter over versions at or below `through` (0 for no bound). */
  datatype Rewrite = Rewrite(cutoff: int, filter: Option<Filter>, through: nat)

  /** resolveCompactionEntry: an expired or rejected value becomes a tombstone. */
  function Resolve(rw: Rewrite, e: Entry): Entry {
    if e.payload.Tombstone? then e
    else if e.payload.Expiring? && e.payload.expiresAt <= rw.cutoff then e.(payload := Tombstone)
    else if rw.filter.Some? && (rw.through == 0 || e.sqn <= rw.through)
            && !rw.filter.value(e.key, e.payload.value, if e.payload.Expiring? then e.payload.expiresAt else 0)
    then e.(payload := Tombstone)
    else e
  }

  /** The user filter is shown this version, and turns it down: it sees the user key, the value and the deadline, 0 for none. */
  predicate Refused(rw: Rewrite, e: Entry) {
    && rw.filter.Some? && (rw.through == 0 || e.sqn <= rw.through)
    && match e.payload
       case Tombstone => false
       case Plain(v) => !rw.filter.value(e.key, v, 0)
       case Expiring(v, x) => !rw.filter.value(e.key, v, x)
  }

  /** A merge with no user filter. */
  function Unfiltered(cutoff: int): Rewrite {
    Rewrite(cutoff, None, 0)
  }

  /** When a merge may reclaim a key's dead versions. */
  datatype Reclaim =
    | Never
    | Always
    | Unless(outside: seq<Bounds>)

  predicate ReclaimHere(rc: Reclaim, key: Bytes) {
    match rc
    case Never => false
    case Always => true
    case Unless(outside) => forall i :: 0 <= i < |outside| ==> !outside[i].MayContain(key)
  }

  /** A version at or below `retain` that the merge may drop for good. */
  ghost predicate Reclaimed(w: View, rc: Reclaim, retain: nat, rw: Rewrite, e: Entry) {
    && ReclaimHere(rc, e.key)
    && (RangeDeleted(w.dels, e.key, e.sqn, retain) || Resolve(rw, e).payload.Tombstone?)
  }

  /** The versions a merge must write: all above `retain`, and the newest at or
      below it unless that one is reclaimed. */
  ghost predicate Survives(w: View, rc: Reclaim, retain: nat, rw: Rewrite, e: Entry) {
    && e in w.points
    && (e.sqn > retain || (Newest(w.points, e, retain) && !Reclaimed(w, rc, retain, rw, e)))
  }

  /** `out` is what the merge of `w` leaves. */
  ghost predicate Collapsed(w: View, out: View, rc: Reclaim, retain: nat, rw: Rewrite) {
    && (forall e :: e in w.points && Survives(w, rc, retain, rw, e) ==> Resolve(rw, e) in out.points)
    && (forall f :: f in out.points ==> exists e :: Survives(w, rc, retain, rw, e) && f == Resolve(rw, e))
    && (forall d :: d in out.dels ==> d in w.dels)
    && (forall d :: d in w.dels && (rc != Always || d.sqn > retain) ==> d in out.dels)
  }

  /** Every point of `rest` is newer than the versions and range tombstones of `w`
      that the merge might reclaim over its key. */
  ghost predicate NothingUncovered(w: View, rest: View, rc: Reclaim) {
    && (forall f, e :: f in rest.points && e in w.points && f.key == e.key && ReclaimHere(rc, f.key) ==> f.sqn > e.sqn)
    && (forall f, d :: f in rest.points && d in w.dels && d.Contains(f.key) && ReclaimHere(rc, f.key) ==> f.sqn > d.sqn)
  }

  lemma DecidingKept(w: View, out: View, rest: View, rc: Reclaim, retain: nat, rw: Rewrite,
                     key: Bytes, s: nat, now: int, e: Entry)
    requires Collapsed(w, out, rc, retain, rw)
    requires NothingUncovered(w, rest, rc)
    requires s >= retain && now >= rw.cutoff && (e in rest.points || !Refused(rw, e))
    requires Deciding(Join(w, rest), key, s, e) && Outcome(e.payload, now).Some?
    ensures exists f :: Deciding(Join(out, rest), key, s, f) && Outcome(f.payload, now) == Outcome(e.payload, now)
  {
    var a, b := Join(w, rest), Join(out, rest);
    var f := e;
    if e in w.points && e !in rest.points {
      assert Newest(w.points, e, s);
      if e.sqn <= retain {
        assert Newest(w.points, e, retain);
        forall d | d in w.dels
          ensures !d.Covers(key, e.sqn, retain)
        {
          assert d in a.dels && !d.Covers(key, e.sqn, s);
        }
        assert Survives(w, rc, retain, rw, e);
      }
      f := Resolve(rw, e);
      assert f in out.points;
    }
    forall g | g in b.points && g.key == key && g.sqn <= s
      ensures g.sqn <= f.sqn
    {
      if g in out.points {
        var h :| Survives(w, rc, retain, rw, h) && g == Resolve(rw, h);
        assert h in a.points;
      }
    }
    forall d | d in b.dels
      ensures !d.Covers(key, f.sqn, s)
    {
      assert d in a.dels;
    }
    assert Deciding(b, key, s, f);
  }

  /** No version of the inputs is newer than a version `f` that decides after the merge. */
  lemma NothingNewerLost(w: View, out: View, rest: View, rc: Reclaim, retain: nat, rw: Rewrite, s: nat, f: Entry, g: Entry)
    requires Collapsed(w, out, rc, retain, rw)
    requires NothingUncovered(w, rest, rc)
    requires s >= retain
    requires Newest(Join(out, rest).points, f, s)
    requires g in w.points && g.key == f.key && g.sqn <= s
    ensures g.sqn <= f.sqn
  {
    var m := g;
    if g.sqn <= retain {
      m := NewestExists(w.points, g, retain);
    }
    if Survives(w, rc, retain, rw, m) {
      assert Resolve(rw, m) in Join(out, rest).points;
    } else if f in out.points {
      var h :| Survives(w, rc, retain, rw, h) && f == Resolve(rw, h);
    }
  }

  lemma DecidingFound(w: View, out: View, rest: View, rc: Reclaim, retain: nat, rw: Rewrite,
                      key: Bytes, s: nat, now: int, f: Entry)
    requires Collapsed(w, out, rc, retain, rw)
    requires NothingUncovered(w, rest, rc)
    requires s >= retain
    requires Deciding(Join(out, rest), key, s, f) && Outcome(f.payload, now).Some?
    ensures Deciding(Join(w, rest), key, s, f)
  {
    var a, b := Join(w, rest), Join(out, rest);
    var e := f;
    if f !in rest.points {
      e :| Survives(w, rc, retain, rw, e) && f == Resolve(rw, e);
    }
    forall g | g in a.points && g.key == key && g.sqn <= s
      ensures g.sqn <= e.sqn
    {
      if g in w.points {
        NothingNewerLost(w, out, rest, rc, retain, rw, s, f, g);
      } else {
        assert g in b.points;
      }
    }
    forall d | d in a.dels
      ensures !d.Covers(key, e.sqn, s)
    {
      if d in w.dels && d !in out.dels && f !in rest.points && e.sqn <= retain {
        assert !Reclaimed(w, rc, retain, rw, e);
        assert !d.Covers(key, e.sqn, retain);
      } else {
        assert d in b.dels ==> !d.Covers(key, f.sqn, s);
      }
    }
    assert Deciding(a, key, s, e);
  }

  /** Replacing `w` by what the merge leaves of it changes no read at or above `retain`. */
  lemma CollapsePreservesReads(w: View, out: View, rest: View, rc: Reclaim, retain: nat, rw: Rewrite)
    requires Collapsed(w, out, rc, retain, rw)
    requires NothingUncovered(w, rest, rc)
    requires rw.filter.None?
    ensures SameReads(Join(w, rest), Join(out, rest), retain, rw.cutoff)
  {
    forall key, s: nat, now: int, v | s >= retain && now >= rw.cutoff
      ensures Live(Join(w, rest), key, s, now, v) <==> Live(Join(out, rest), key, s, now, v)
    {
      if e :| Deciding(Join(w, rest), key, s, e) && Outcome(e.payload, now) == Some(v) {
        DecidingKept(w, out, rest, rc, retain, rw, key, s, now, e);
      }
      if f :| Deciding(Join(out, rest), key, s, f) && Outcome(f.payload, now) == Some(v) {
        DecidingFound(w, out, rest, rc, retain, rw, key, s, now, f);
      }
    }
  }

  /** With any filter at all, a merge reveals nothing: what a read finds after it,
      the same read found before it. */
  lemma FilterRevealsNothing(w: View, out: View, rest: View, rc: Reclaim, retain: nat, rw: Rewrite)
    requires Collapsed(w, out, rc, retain, rw)
    requires NothingUncovered(w, rest, rc)
    ensures forall key, s: nat, now: int, v ::
              s >= retain && Live(Join(out, rest), key, s, now, v) ==> Live(Join(w, rest), key, s, now, v)
  {
    forall key, s: nat, now: int, v | s >= retain && Live(Join(out, rest), key, s, now, v)
      ensures Live(Join(w, rest), key, s, now, v)
    {
      var f :| Deciding(Join(out, rest), key, s, f) && Outcome(f.payload, now) == Some(v);
      DecidingFound(w, out, rest, rc, retain, rw, key, s, now, f);
    }
  }

  /** Exactly the reads whose deciding version the filter turned down, with no copy of it outside, find nothing after the merge. */
  lemma FilterHidesExactly(w: View, out: View, rest: View, rc: Reclaim, retain: nat, rw: Rewrite, key: Bytes, s: nat, now: int, v: Visible)
    requires Collapsed(w, out, rc, retain, rw)
    requires NothingUncovered(w, rest, rc)
    requires s >= retain && now >= rw.cutoff
    ensures Live(Join(out, rest), key, s, now, v)
            <==> exists e :: Deciding(Join(w, rest), key, s, e) && Outcome(e.payload, now) == Some(v) && (e in rest.points || !Refused(rw, e))
  {
    hide Deciding, NothingUncovered;
    if e :| Deciding(Join(w, rest), key, s, e) && Outcome(e.payload, now) == Some(v) && (e in rest.points || !Refused(rw, e)) {
      DecidingKept(w, out, rest, rc, retain, rw, key, s, now, e);
    }
    if f :| Deciding(Join(out, rest), key, s, f) && Outcome(f.payload, now) == Some(v) {
      DecidingFound(w, out, rest, rc, retain, rw, key, s, now, f);
      DecidingIsHeld(Join(out, rest), key, s, f);
      if f !in rest.points {
        WrittenAsHeld(w, out, rc, retain, rw, f);
      }
    }
  }

  lemma DecidingIsHeld(w: View, key: Bytes, s: nat, e: Entry)
    requires Deciding(w, key, s, e)
    ensures e in w.points
  {
  }

  lemma WrittenAsHeld(w: View, out: View, rc: Reclaim, retain: nat, rw: Rewrite, f: Entry)
    requires Collapsed(w, out, rc, retain, rw) && f in out.points && !f.payload.Tombstone?
    ensures !Refused(rw, f)
  {
    var e :| Survives(w, rc, retain, rw, e) && f == Resolve(rw, e);
  }

  lemma ReclaimMeans(rc: Reclaim, k: Bytes)
    ensures ReclaimHere(rc, k) <==>
              match rc
              case Never => false
              case Always => true
              case Unless(outside) =>
                forall b :: b in outside ==> (b.min.Some? && Lt(k, b.min.value)) || (b.max.Some? && Lt(b.max.value, k))
  {
    OrderLaws();
    match rc
    case Never =>
    case Always =>
    case Unless(outside) =>
      forall b: Bounds ensures !b.MayContain(k) <==> (b.min.Some? && Lt(k, b.min.value)) || (b.max.Some? && Lt(b.max.value, k)) {
      }
  }

  /** What a merge writes of a key at a sequence where one version was held: nothing, if it is not the newest at or below the
      retained sequence or can be reclaimed; the version itself; or, if it is dead, expired or turned down, a tombstone. */
  lemma MergeWrites(w: View, out: View, rc: Reclaim, retain: nat, rw: Rewrite, k: Bytes, n: nat, p: Payload, q: Payload)
    requires Collapsed(w, out, rc, retain, rw) && Entry(k, n, p) in w.points
    requires forall f :: f in w.points && f.key == k && f.sqn == n ==> f.payload == p
    ensures var shown := rw.filter.Some? && (rw.through == 0 || n <= rw.through);
            var dead := match p
                        case Tombstone => true
                        case Plain(v) => shown && !rw.filter.value(k, v, 0)
                        case Expiring(v, x) => x <= rw.cutoff || (shown && !rw.filter.value(k, v, x));
            var reclaim := match rc
                           case Never => false
                           case Always => true
                           case Unless(outside) =>
                             forall b :: b in outside ==> (b.min.Some? && Lt(k, b.min.value)) || (b.max.Some? && Lt(b.max.value, k));
            var stays := n > retain || (Newest(w.points, Entry(k, n, p), retain)
                                        && !(reclaim && (dead || RangeDeleted(w.dels, k, n, retain))));
            Entry(k, n, q) in out.points <==> stays && q == if dead then Tombstone else p
  {
    ReclaimMeans(rc, k);
    hide Newest, RangeDeleted, ReclaimHere;
    var e := Entry(k, n, p);
    if Entry(k, n, q) in out.points {
      var h :| Survives(w, rc, retain, rw, h) && Entry(k, n, q) == Resolve(rw, h);
      assert h == e;
    }
    if Survives(w, rc, retain, rw, e) {
      assert Resolve(rw, e) in out.points;
    }
  }

  /** checkSameSeqDuplicate: identical, or a live TTL value beside the tombstone its expiry left. */
  predicate DroppableDuplicate(e: Entry, last: Entry, cutoff: int) {
    e.payload == last.payload
    || (Kind(e.payload) != Kind(last.payload) && e.payload == Resolve(Rewrite(cutoff, None, 0), last).payload)
  }

  /** Two versions of a key at one sequence that no merge may fold into one. */
  ghost predicate Clashing(points: set<Entry>, cutoff: int) {
    exists e, f :: e in points && f in points && e.key == f.key && e.sqn == f.sqn
                   && Kind(f.payload) <= Kind(e.payload) && !DroppableDuplicate(f, e, cutoff)
  }

  lemma ClashingPart(part: set<Entry>, points: set<Entry>, cutoff: int)
    requires part <= points
    ensures Clashing(part, cutoff) ==> Clashing(points, cutoff)
  {
    hide DroppableDuplicate;
  }
}
