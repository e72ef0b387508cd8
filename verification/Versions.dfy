/**
The multi-version data model: point versions, range tombstones, and what a read
at a sequence and an instant may see of a collection of them.
*/
module Versions {
  import opened Bytes

  /** What a version stores: a tombstone, a value, or a value with a deadline. */
  datatype Payload =
    | Tombstone
    | Plain(value: Bytes)
    | Expiring(value: Bytes, expiresAt: int)

  /** The kind byte of the internal-key trailer. */
  function Kind(p: Payload): (k: byte) {
    match p
    case Tombstone => 0
    case Plain(_) => 1
    case Expiring(_, _) => 3
  }

  /** One point version. `sqn` is its sequence number. */
  datatype Entry = Entry(key: Bytes, sqn: nat, payload: Payload)

  /** A range tombstone: deletes every key in [start, end) as of `sqn`. */
  datatype RangeDel = RangeDel(start: Bytes, end: Bytes, sqn: nat) {
    /** The write path and the block decoder both reject an empty range. */
    predicate WellFormed() {
      Lt(start, end)
    }

    predicate Contains(key: Bytes) {
      Le(start, key) && Lt(key, end)
    }

    /** Deletes a version at versionSqn for a read at readSqn. */
    predicate Covers(key: Bytes, versionSqn: nat, readSqn: nat) {
      sqn <= readSqn && sqn > versionSqn && Contains(key)
    }
  }

  /** A value as a read reports it, with its absolute deadline (0 for none). */
  datatype Visible = Visible(value: Bytes, expiresAt: int)

  /** What a version shows at instant `now`: an expired value reads as deleted. */
  function Outcome(p: Payload, now: int): Option<Visible> {
    match p
    case Tombstone => None
    case Plain(v) => Some(Visible(v, 0))
    case Expiring(v, x) => if x <= now then None else Some(Visible(v, x))
  }

  /** Everything a collection of sources holds. */
  datatype View = View(points: set<Entry>, dels: set<RangeDel>)

  function PointSet(es: seq<Entry>): set<Entry> {
    set e | e in es
  }

  function DelSet(ds: seq<RangeDel>): set<RangeDel> {
    set d | d in ds
  }

  function Join(a: View, b: View): View {
    View(a.points + b.points, a.dels + b.dels)
  }

  /** `e` is the newest version of its key at or below `s`. */
  ghost predicate Newest(points: set<Entry>, e: Entry, s: nat) {
    && e in points
    && e.sqn <= s
    && forall f :: f in points && f.key == e.key && f.sqn <= s ==> f.sqn <= e.sqn
  }

  ghost predicate RangeDeleted(dels: set<RangeDel>, key: Bytes, versionSqn: nat, s: nat) {
    exists d :: d in dels && d.Covers(key, versionSqn, s)
  }

  /** A read of `key` at sequence `s` and instant `now` finds `v`. */
  ghost predicate Live(w: View, key: Bytes, s: nat, now: int, v: Visible) {
    exists e :: Deciding(w, key, s, e) && Outcome(e.payload, now) == Some(v)
  }

  /** `e` decides `key` at `s`: newest visible version, not range-deleted. */
  ghost predicate Deciding(w: View, key: Bytes, s: nat, e: Entry) {
    && e.key == key
    && Newest(w.points, e, s)
    && !RangeDeleted(w.dels, key, e.sqn, s)
  }

  /** Two views no read at or above `floor`, at or after `cutoff`, can tell apart. */
  ghost predicate SameReads(a: View, b: View, floor: nat, cutoff: int) {
    forall key, s: nat, now: int, v ::
      s >= floor && now >= cutoff ==> (Live(a, key, s, now, v) <==> Live(b, key, s, now, v))
  }

  /** A key with any version at or below `s` has a newest one. */
  lemma {:induction false} NewestExists(points: set<Entry>, g: Entry, s: nat) returns (e: Entry)
    requires g in points && g.sqn <= s
    ensures Newest(points, e, s) && e.key == g.key && g.sqn <= e.sqn
    decreases s - g.sqn
  {
    if h :| h in points && h.key == g.key && g.sqn < h.sqn <= s {
      e := NewestExists(points, h, s);
    } else {
      e := g;
    }
  }
}
