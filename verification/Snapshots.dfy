/** Live read pins: what compaction must retain, and when a filter may run. */
module Snapshots {
  /** How often `n` is held in a reference-counting map. */
  function Held<T>(counts: map<T, nat>, n: T): nat {
    if n in counts then counts[n] else 0
  }

  ghost predicate Counted<T>(counts: map<T, nat>) {
    forall n :: n in counts ==> counts[n] > 0
  }

  function Take<T>(counts: map<T, nat>, n: T): map<T, nat> {
    counts[n := Held(counts, n) + 1]
  }

  function Drop<T>(counts: map<T, nat>, n: T): map<T, nat> {
    if Held(counts, n) > 1 then counts[n := counts[n] - 1] else counts - {n}
  }

  /** Releasing undoes acquiring, entry for entry. */
  lemma DropUndoesTake<T>(counts: map<T, nat>, n: T)
    requires Counted(counts)
    ensures Counted(Take(counts, n)) && Drop(Take(counts, n), n) == counts
  {
  }

  /** The least of `keys`, or `fallback` when there is none. */
  method Least(keys: set<int>, fallback: int) returns (r: int)
    ensures keys == {} ==> r == fallback
    ensures keys != {} ==> r in keys && forall n :: n in keys ==> r <= n
  {
    r := fallback;
    var first, left := true, keys;
    while exists n :: n in left
      invariant left <= keys && (first ==> left == keys && r == fallback)
      invariant !first ==> r in keys && forall n :: n in keys ==> n in left || r <= n
      decreases left
    {
      var n :| n in left;
      if first || n < r {
        r := n;
        first := false;
      }
      left := left - {n};
    }
  }

  class SnapshotSet {
    var count: map<int, nat>
    var iteratorTimes: map<int, nat>
    var filterRuns: nat

    /** No read pin is held while a filter run is reserved. */
    ghost predicate Valid()
      reads this
    {
      && Counted(count) && Counted(iteratorTimes)
      && (forall n :: n in count ==> n >= 0)
      && (filterRuns > 0 ==> count == map[])
    }

    constructor ()
      ensures Valid() && count == map[] && iteratorTimes == map[] && filterRuns == 0
    {
      count, iteratorTimes, filterRuns := map[], map[], 0;
    }

    /** One pass of acquire's wait loop: pins `n` unless a filter run holds readers off. */
    method Acquire(n: nat) returns (pinned: bool)
      requires Valid()
      modifies this`count
      ensures Valid() && pinned == (filterRuns == 0)
      ensures forall m :: Held(count, m) == old(Held(count, m)) + if pinned && m == n then 1 else 0
    {
      pinned := filterRuns == 0;
      if pinned {
        count := Take(count, n);
      }
    }

    method Release(n: nat)
      requires Valid()
      modifies this`count
      ensures Valid()
      ensures forall m :: Held(count, m) == old(Held(count, m)) - if m == n && n in old(count) then 1 else 0
    {
      count := Drop(count, n);
    }

    method AcquireIteratorTime(t: int)
      requires Valid()
      modifies this`iteratorTimes
      ensures Valid()
      ensures forall u :: Held(iteratorTimes, u) == old(Held(iteratorTimes, u)) + if u == t then 1 else 0
    {
      iteratorTimes := Take(iteratorTimes, t);
    }

    method ReleaseIteratorTime(t: int)
      requires Valid()
      modifies this`iteratorTimes
      ensures Valid()
      ensures forall u :: Held(iteratorTimes, u) == old(Held(iteratorTimes, u)) - if u == t && t in old(iteratorTimes) then 1 else 0
    {
      iteratorTimes := Drop(iteratorTimes, t);
    }

    /** Reserves a pin-free interval, if there is no pin. */
    method BeginCompactionFilter() returns (reserved: bool)
      requires Valid()
      modifies this`filterRuns
      ensures Valid() && reserved == (count == map[])
      ensures filterRuns == old(filterRuns) + if reserved then 1 else 0
    {
      reserved := |count| == 0;
      if reserved {
        filterRuns := filterRuns + 1;
      }
    }

    /** An unbalanced end panics in the source, before any change. */
    method EndCompactionFilter() returns (ok: bool)
      requires Valid()
      modifies this`filterRuns
      ensures Valid() && ok == (old(filterRuns) > 0)
      ensures filterRuns == old(filterRuns) - if ok then 1 else 0
    {
      ok := filterRuns > 0;
      if ok {
        filterRuns := filterRuns - 1;
      }
    }

    /** The sequence a compaction starting now must retain. With every pin taken at or below
        the published sequence, no pin held now or taken later is below it. */
    method Oldest(readSeq: nat) returns (retain: nat)
      requires Valid()
      ensures count == map[] ==> retain == readSeq
      ensures forall n :: n in count ==> retain <= n
      ensures (forall n :: n in count ==> n <= readSeq) ==> retain <= readSeq
      ensures count != map[] ==> retain in count
    {
      retain := Least(count.Keys, readSeq);
    }

    /** The expiry cutoff a compaction starting at `now` may use. */
    method OldestIteratorTime(now: int) returns (cutoff: int)
      requires Valid()
      ensures cutoff <= now && forall t :: t in iteratorTimes ==> cutoff <= t
      ensures cutoff == now || cutoff in iteratorTimes
    {
      cutoff := Least(iteratorTimes.Keys, now);
      if now < cutoff {
        cutoff := now;
      }
    }
  }
}
