/** Live tables: their contents, their recorded key bounds, and the views they give. */
module Tables {
  import opened Bytes
  import opened Versions

  /** Inclusive user-key bounds; an unknown bound covers everything on its side. */
  datatype Bounds = Bounds(min: Option<Bytes>, max: Option<Bytes>) {
    predicate MayContain(key: Bytes) {
      && (min.Some? ==> Le(min.value, key))
      && (max.Some? ==> Le(key, max.value))
    }

    /** Intersects [start, end], either side possibly unbounded. */
    predicate OverlapsRange(start: Option<Bytes>, end: Option<Bytes>) {
      && (end.Some? && min.Some? ==> Le(min.value, end.value))
      && (start.Some? && max.Some? ==> Le(start.value, max.value))
    }
  }

  datatype Table = Table(
    num: nat,
    depth: nat,
    size: nat,
    bounds: Bounds,
    points: seq<Entry>,
    dels: seq<RangeDel>)

  /** Internal-key order: user key ascending, then trailer (sequence, kind) descending. */
  predicate Precedes(a: Entry, b: Entry) {
    || Lt(a.key, b.key)
    || (a.key == b.key && (a.sqn > b.sqn || (a.sqn == b.sqn && Kind(a.payload) > Kind(b.payload))))
  }

  /** Key ascending, then sequence descending: the order of entries whose sequences are unique per key. */
  predicate Before(a: Entry, b: Entry) {
    Lt(a.key, b.key) || (a.key == b.key && a.sqn > b.sqn)
  }

  /** Strictly ascending internal keys, one version per key and sequence, as every
      table and memtable holds them. */
  predicate Ascending(es: seq<Entry>) {
    forall i, j :: 0 <= i < j < |es| ==> Before(es[i], es[j])
  }

  /** The recorded bounds take in every point key and every range tombstone's [start, end]. */
  predicate BoundsSound(t: Table) {
    && (forall i :: 0 <= i < |t.points| ==> t.bounds.MayContain(t.points[i].key))
    && (forall i :: 0 <= i < |t.dels| ==> t.bounds.MayContain(t.dels[i].start) && t.bounds.MayContain(t.dels[i].end))
  }

  /** They are keys it holds, and there are none only if it holds nothing. */
  ghost predicate BoundsTight(t: Table) {
    && (t.bounds.min.Some? ==> (exists e :: e in t.points && Some(e.key) == t.bounds.min) || exists d :: d in t.dels && Some(d.start) == t.bounds.min)
    && (t.bounds.max.Some? ==> (exists e :: e in t.points && Some(e.key) == t.bounds.max) || exists d :: d in t.dels && Some(d.end) == t.bounds.max)
    && (t.points != [] || t.dels != [] ==> t.bounds.min.Some? && t.bounds.max.Some?)
  }

  /** A recorded range is not inverted. */
  predicate Sane(b: Bounds) {
    b.min.Some? && b.max.Some? ==> Le(b.min.value, b.max.value)
  }

  predicate TableOk(t: Table) {
    && Sane(t.bounds)
    && Ascending(t.points)
    && BoundsSound(t)
    && forall i :: 0 <= i < |t.dels| ==> t.dels[i].WellFormed()
  }

  predicate TablesOk(ts: seq<Table>) {
    && (forall i :: 0 <= i < |ts| ==> TableOk(ts[i]))
    && (forall i, j :: 0 <= i < j < |ts| ==> ts[i].num != ts[j].num)
  }

  function PointsOf(ts: seq<Table>): set<Entry> {
    set t, e | t in ts && e in t.points :: e
  }

  function DelsOf(ts: seq<Table>): set<RangeDel> {
    set t, d | t in ts && d in t.dels :: d
  }

  function ViewOf(ts: seq<Table>): View {
    View(PointsOf(ts), DelsOf(ts))
  }

  /** A table that may not contain `key` holds no version of it and no range tombstone over it. */
  lemma BoundsExclude(t: Table, key: Bytes)
    requires BoundsSound(t) && !t.bounds.MayContain(key)
    ensures forall e :: e in t.points ==> e.key != key
    ensures forall d :: d in t.dels ==> !d.Contains(key)
  {
    OrderLaws();
  }

  /** widenBoundsForRangeDels: expands point bounds over every range tombstone. */
  method WidenBounds(min: Option<Bytes>, max: Option<Bytes>, dels: seq<RangeDel>) returns (b: Bounds)
    requires min.Some? <==> max.Some?
    requires forall i :: 0 <= i < |dels| ==> dels[i].WellFormed()
    ensures forall k :: min.Some? && Le(min.value, k) && Le(k, max.value) ==> b.MayContain(k)
    ensures forall i :: 0 <= i < |dels| ==> b.MayContain(dels[i].start) && b.MayContain(dels[i].end)
    // The bounds are no wider than asked for: each end is one of the given keys.
    ensures b.min == min || exists i :: 0 <= i < |dels| && b.min == Some(dels[i].start)
    ensures b.max == max || exists i :: 0 <= i < |dels| && b.max == Some(dels[i].end)
    ensures min.Some? || dels != [] ==> b.min.Some? && b.max.Some?
  {
    OrderLaws();
    var lo, hi := min, max;
    for i := 0 to |dels|
      invariant lo.Some? <==> hi.Some?
      invariant lo.None? ==> i == 0
      invariant min.Some? ==> lo.Some? && Le(lo.value, min.value) && Le(max.value, hi.value)
      invariant forall j :: 0 <= j < i ==> Le(lo.value, dels[j].start) && Le(dels[j].end, hi.value)
      invariant lo == min || exists j :: 0 <= j < i && lo == Some(dels[j].start)
      invariant hi == max || exists j :: 0 <= j < i && hi == Some(dels[j].end)
    {
      if lo.None? || Lt(dels[i].start, lo.value) {
        lo := Some(dels[i].start);
      }
      if hi.None? || Lt(hi.value, dels[i].end) {
        hi := Some(dels[i].end);
      }
    }
    b := Bounds(lo, hi);
  }
}
