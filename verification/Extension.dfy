/** How adding one change to two views that read alike leaves them reading alike. */
module Extension {
  import opened Bytes
  import opened Versions

  /** Every sequence number held is at most `n`. */
  ghost predicate UpTo(w: View, n: nat) {
    (forall e :: e in w.points ==> e.sqn <= n) && (forall d :: d in w.dels ==> d.sqn <= n)
  }

  /** Everything in `x` carries the sequence `m`. */
  ghost predicate OneSqn(x: View, m: nat) {
    (forall e :: e in x.points ==> e.sqn == m) && (forall d :: d in x.dels ==> d.sqn == m)
  }

  ghost predicate HasPoint(x: View, key: Bytes) {
    exists e :: e in x.points && e.key == key
  }

  ghost predicate HasDel(x: View, key: Bytes) {
    exists d :: d in x.dels && d.Contains(key)
  }

  /** Below the new sequence nothing changes. */
  lemma UnseenBelow(a: View, x: View, m: nat, key: Bytes, s: nat, e: Entry)
    requires OneSqn(x, m) && s < m
    ensures Deciding(Join(a, x), key, s, e) <==> Deciding(a, key, s, e)
  {
    hide RangeDel.Contains;
    assert forall d :: d in x.dels ==> !d.Covers(key, e.sqn, s);
    if Deciding(a, key, s, e) {
      forall d | d in Join(a, x).dels ensures !d.Covers(key, e.sqn, s) {
        assert d in a.dels || d in x.dels;
      }
    }
    if Deciding(Join(a, x), key, s, e) {
      forall d | d in a.dels ensures !d.Covers(key, e.sqn, s) {
        assert d in Join(a, x).dels;
      }
    }
  }

  /** At or above it, a new version of the key decides. */
  lemma NewPointDecides(a: View, x: View, n: nat, m: nat, key: Bytes, s: nat, e: Entry)
    requires UpTo(a, n) && n < m && OneSqn(x, m) && s >= m && HasPoint(x, key)
    ensures Deciding(Join(a, x), key, s, e) <==> e in x.points && e.key == key
  {
    hide RangeDel.Contains;
    var p :| p in x.points && p.key == key;
    assert p in Join(a, x).points;
    if e in x.points && e.key == key {
      assert forall d :: d in Join(a, x).dels ==> d.sqn <= m;
      assert Newest(Join(a, x).points, e, s);
    }
  }

  /** A new range tombstone over the key kills every older version. */
  lemma NewDelKills(a: View, x: View, n: nat, m: nat, key: Bytes, s: nat, e: Entry)
    requires UpTo(a, n) && n < m && OneSqn(x, m) && s >= m && !HasPoint(x, key) && HasDel(x, key)
    ensures !Deciding(Join(a, x), key, s, e)
  {
    hide RangeDel.Contains;
    var d :| d in x.dels && d.Contains(key);
    assert d in Join(a, x).dels;
    if e in a.points && e.key == key {
      assert d.Covers(key, e.sqn, s);
    }
  }

  lemma Untouched(a: View, x: View, key: Bytes, s: nat, e: Entry)
    requires !HasPoint(x, key) && !HasDel(x, key)
    ensures Deciding(Join(a, x), key, s, e) <==> Deciding(a, key, s, e)
  {
    hide RangeDel.Contains;
    if Deciding(Join(a, x), key, s, e) {
      forall d | d in a.dels ensures !d.Covers(key, e.sqn, s) {
        assert d in Join(a, x).dels;
      }
    }
    if Deciding(a, key, s, e) {
      forall d | d in Join(a, x).dels ensures !d.Covers(key, e.sqn, s) {
        assert d in a.dels || !d.Contains(key);
      }
    }
  }

  /** Adding the same newer change to two views that read alike keeps them alike. */
  lemma ExtendSame(a: View, b: View, x: View, n: nat, m: nat, floor: nat, cutoff: int)
    requires SameReads(a, b, floor, cutoff)
    requires UpTo(a, n) && UpTo(b, n) && n < m && OneSqn(x, m)
    ensures SameReads(Join(a, x), Join(b, x), floor, cutoff)
  {
    hide Deciding, Join, UpTo, OneSqn, HasPoint, HasDel, Outcome;
    forall key, s: nat, now: int, v | s >= floor && now >= cutoff
      ensures Live(Join(a, x), key, s, now, v) <==> Live(Join(b, x), key, s, now, v)
    {
      if s < m {
        forall e ensures Deciding(Join(a, x), key, s, e) <==> Deciding(a, key, s, e) { UnseenBelow(a, x, m, key, s, e); }
        forall e ensures Deciding(Join(b, x), key, s, e) <==> Deciding(b, key, s, e) { UnseenBelow(b, x, m, key, s, e); }
        assert Live(a, key, s, now, v) <==> Live(b, key, s, now, v);
      } else if HasPoint(x, key) {
        forall e ensures Deciding(Join(a, x), key, s, e) <==> Deciding(Join(b, x), key, s, e) {
          NewPointDecides(a, x, n, m, key, s, e);
          NewPointDecides(b, x, n, m, key, s, e);
        }
      } else if HasDel(x, key) {
        forall e ensures !Deciding(Join(a, x), key, s, e) { NewDelKills(a, x, n, m, key, s, e); }
        forall e ensures !Deciding(Join(b, x), key, s, e) { NewDelKills(b, x, n, m, key, s, e); }
      } else {
        forall e ensures Deciding(Join(a, x), key, s, e) <==> Deciding(a, key, s, e) { Untouched(a, x, key, s, e); }
        forall e ensures Deciding(Join(b, x), key, s, e) <==> Deciding(b, key, s, e) { Untouched(b, x, key, s, e); }
        assert Live(a, key, s, now, v) <==> Live(b, key, s, now, v);
      }
    }
  }

  lemma SameReadsWiden(a: View, b: View, floor: nat, cutoff: int, floor': nat, cutoff': int)
    requires SameReads(a, b, floor, cutoff) && floor <= floor' && cutoff <= cutoff'
    ensures SameReads(a, b, floor', cutoff')
  {
  }

  lemma SameReadsChain(a: View, b: View, c: View, floor: nat, cutoff: int)
    requires SameReads(a, b, floor, cutoff) && SameReads(a, c, floor, cutoff)
    ensures SameReads(b, c, floor, cutoff)
  {
    hide Live;
    forall key, s: nat, now: int, v | s >= floor && now >= cutoff
      ensures Live(b, key, s, now, v) <==> Live(c, key, s, now, v)
    {
      assert Live(a, key, s, now, v) <==> Live(b, key, s, now, v);
      assert Live(a, key, s, now, v) <==> Live(c, key, s, now, v);
    }
  }

  lemma UpToPart(w: View, part: View, n: nat)
    requires UpTo(w, n) && part.points <= w.points && part.dels <= w.dels
    ensures UpTo(part, n)
  {
  }

  // ---------------------------------------------------------------------------
  // What a read finds once one newer change is held
  // ---------------------------------------------------------------------------

  /** A newer version is read by its own key, until its deadline if it has one, and by no other. */
  lemma NewPointReads(w: View, e: Entry, key: Bytes, s: nat, now: int, v: Visible)
    requires e.sqn > 0 && UpTo(w, e.sqn - 1) && s >= e.sqn
    ensures Live(Join(w, View({e}, {})), key, s, now, v)
            <==> if key != e.key then Live(w, key, s, now, v)
                 else match e.payload
                      case Tombstone => false
                      case Plain(x) => v == Visible(x, 0)
                      case Expiring(x, t) => now < t && v == Visible(x, t)
  {
    hide Deciding;
    var x := View({e}, {});
    assert e in x.points;
    forall f ensures Deciding(Join(w, x), key, s, f) <==> if key == e.key then f == e else Deciding(w, key, s, f) {
      if key == e.key {
        NewPointDecides(w, x, e.sqn - 1, e.sqn, key, s, f);
      } else {
        Untouched(w, x, key, s, f);
      }
    }
  }

  /** A newer range tombstone hides exactly the keys from its start up to, and not including, its end. */
  lemma NewDelReads(w: View, d: RangeDel, key: Bytes, s: nat, now: int, v: Visible)
    requires d.sqn > 0 && UpTo(w, d.sqn - 1) && s >= d.sqn
    ensures Live(Join(w, View({}, {d})), key, s, now, v) <==> (Lt(key, d.start) || !Lt(key, d.end)) && Live(w, key, s, now, v)
  {
    hide Deciding, Outcome;
    CompareSign(d.start, key);
    var x := View({}, {d});
    var inside := !(Lt(key, d.start) || !Lt(key, d.end));
    assert d in x.dels && (HasDel(x, key) <==> inside);
    forall f ensures Deciding(Join(w, x), key, s, f) <==> !inside && Deciding(w, key, s, f) {
      if inside {
        NewDelKills(w, x, d.sqn - 1, d.sqn, key, s, f);
      } else {
        Untouched(w, x, key, s, f);
      }
    }
  }

  /** `b` reads as `a` does, but for the key `e` writes. */
  ghost predicate PutOver(a: View, b: View, e: Entry) {
    forall key, s: nat, now: int, v :: s >= e.sqn ==>
      (Live(b, key, s, now, v)
       <==> if key != e.key then Live(a, key, s, now, v)
            else match e.payload
                 case Tombstone => false
                 case Plain(x) => v == Visible(x, 0)
                 case Expiring(x, t) => now < t && v == Visible(x, t))
  }

  lemma PutIsOver(w: View, e: Entry)
    ensures e.sqn > 0 && UpTo(w, e.sqn - 1) ==> PutOver(w, Join(w, View({e}, {})), e)
  {
    hide UpTo, Live;
    if e.sqn > 0 && UpTo(w, e.sqn - 1) {
      var after := Join(w, View({e}, {}));
      forall key, s: nat, now: int, v | s >= e.sqn
        ensures Live(after, key, s, now, v)
                <==> if key != e.key then Live(w, key, s, now, v)
                     else match e.payload
                          case Tombstone => false
                          case Plain(x) => v == Visible(x, 0)
                          case Expiring(x, t) => now < t && v == Visible(x, t)
      {
        NewPointReads(w, e, key, s, now, v);
      }
    }
  }

  /** `b` reads as `a` does outside the range [start, end), and finds nothing inside. */
  ghost predicate RangeDeleteOver(a: View, b: View, d: RangeDel) {
    forall key, s: nat, now: int, v :: s >= d.sqn ==>
      (Live(b, key, s, now, v) <==> (Lt(key, d.start) || !Lt(key, d.end)) && Live(a, key, s, now, v))
  }

  lemma RangeDeleteIsOver(w: View, d: RangeDel)
    ensures d.sqn > 0 && UpTo(w, d.sqn - 1) ==> RangeDeleteOver(w, Join(w, View({}, {d})), d)
  {
    hide UpTo, Live;
    if d.sqn > 0 && UpTo(w, d.sqn - 1) {
      var after := Join(w, View({}, {d}));
      forall key, s: nat, now: int, v | s >= d.sqn
        ensures Live(after, key, s, now, v) <==> (Lt(key, d.start) || !Lt(key, d.end)) && Live(w, key, s, now, v)
      {
        NewDelReads(w, d, key, s, now, v);
      }
    }
  }
}
