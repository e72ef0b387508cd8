/** The k-way merge of sorted sources. */
module Merge {
  import opened Bytes
  import opened Versions
  import opened Tables

  /** Internal-key order up to equal keys, as a merge of several sources emits. */
  predicate Sorted(es: seq<Entry>) {
    forall i, j :: 0 <= i < j < |es| ==> !Precedes(es[j], es[i])
  }

  lemma PrecedesLaws()
    ensures forall a, b :: !(Precedes(a, b) && Precedes(b, a))
    ensures forall a, b, c :: Precedes(a, b) && Precedes(b, c) ==> Precedes(a, c)
    ensures forall a, b, c :: Precedes(a, b) && !Precedes(c, b) ==> Precedes(a, c)
    ensures forall a, b, c :: !Precedes(b, a) && Precedes(b, c) ==> Precedes(a, c)
    ensures forall a, b, c :: !Precedes(b, a) && !Precedes(c, b) ==> !Precedes(c, a)
  {
    OrderLaws();
  }

  function Contents(heap: seq<seq<Entry>>): multiset<Entry> {
    if heap == [] then multiset{} else Contents(heap[..|heap|-1]) + multiset(heap[|heap|-1])
  }

  lemma {:induction false} ContentsMember(heap: seq<seq<Entry>>, e: Entry)
    ensures e in Contents(heap) <==> exists i :: 0 <= i < |heap| && e in heap[i]
  {
    if heap != [] {
      ContentsMember(heap[..|heap|-1], e);
    }
  }

  /** Taking the head of one source takes exactly that entry out of the contents. */
  lemma {:induction false} ContentsPop(heap: seq<seq<Entry>>, k: nat)
    requires k < |heap| && heap[k] != []
    ensures Contents(heap) == Contents(heap[k := heap[k][1..]]) + multiset{heap[k][0]}
  {
    var n := |heap| - 1;
    var after := heap[k := heap[k][1..]];
    if k == n {
      assert after[..n] == heap[..n];
      assert heap[n] == [heap[n][0]] + heap[n][1..];
    } else {
      assert after[..n] == heap[..n][k := heap[k][1..]];
      ContentsPop(heap[..n], k);
    }
  }

  lemma {:induction false} ContentsDrop(heap: seq<seq<Entry>>, k: nat)
    requires k < |heap| && heap[k] == []
    ensures Contents(heap[..k] + heap[k+1..]) == Contents(heap)
  {
    var n := |heap| - 1;
    var after := heap[..k] + heap[k+1..];
    if k == n {
      assert after == heap[..n];
    } else {
      assert after[..n-1] == heap[..n][..k] + heap[..n][k+1..];
      ContentsDrop(heap[..n], k);
    }
  }

  /** Index of a source whose current entry no other precedes. */
  method LeastHead(heap: seq<seq<Entry>>) returns (top: nat)
    requires heap != [] && forall i :: 0 <= i < |heap| ==> heap[i] != []
    ensures top < |heap| && forall k :: 0 <= k < |heap| ==> !Precedes(heap[k][0], heap[top][0])
  {
    PrecedesLaws();
    top := 0;
    for i := 1 to |heap|
      invariant 0 <= top < |heap|
      invariant forall k :: 0 <= k < i ==> !Precedes(heap[k][0], heap[top][0])
    {
      if Precedes(heap[i][0], heap[top][0]) {
        top := i;
      }
    }
  }

  lemma LeastOfAll(heap: seq<seq<Entry>>, top: nat, f: Entry)
    requires forall i :: 0 <= i < |heap| ==> heap[i] != [] && Ascending(heap[i])
    requires top < |heap| && forall k :: 0 <= k < |heap| ==> !Precedes(heap[k][0], heap[top][0])
    requires f in Contents(heap)
    ensures !Precedes(f, heap[top][0])
  {
    ContentsMember(heap, f);
    var k :| 0 <= k < |heap| && f in heap[k];
    var m :| 0 <= m < |heap[k]| && heap[k][m] == f;
    assert m > 0 ==> Before(heap[k][0], f) && Precedes(heap[k][0], f);
    PrecedesLaws();
  }

  class MergeIter {
    /** What each live source still holds, current entry first. */
    var heap: seq<seq<Entry>>
    var current: Option<Entry>

    ghost predicate Valid()
      reads this
    {
      forall i :: 0 <= i < |heap| ==> heap[i] != [] && Ascending(heap[i])
    }

    constructor (sources: seq<seq<Entry>>)
      requires forall i :: 0 <= i < |sources| ==> Ascending(sources[i])
      ensures Valid() && Contents(heap) == Contents(sources) && current == None
    {
      var h := [];
      for i := 0 to |sources|
        invariant forall k :: 0 <= k < |h| ==> h[k] != [] && Ascending(h[k])
        invariant Contents(h) == Contents(sources[..i])
      {
        assert sources[..i+1][..i] == sources[..i];
        if sources[i] != [] {
          assert (h + [sources[i]])[..|h|] == h;
          h := h + [sources[i]];
        }
      }
      assert sources[..|sources|] == sources;
      heap := h;
      current := None;
    }

    /** Advances to the least remaining entry. */
    method Next() returns (ok: bool)
      requires Valid()
      modifies this
      ensures Valid()
      ensures ok <==> old(Contents(heap)) != multiset{}
      ensures !ok ==> heap == old(heap)
      ensures ok ==> current.Some? && old(Contents(heap)) == Contents(heap) + multiset{current.value}
      ensures ok ==> forall e :: e in Contents(heap) ==> !Precedes(e, current.value)
    {
      if heap == [] {
        return false;
      }
      var top := LeastHead(heap);
      var e := heap[top][0];
      var after := heap[top := heap[top][1..]];
      ContentsPop(heap, top);
      forall f | f in Contents(after) ensures !Precedes(f, e) {
        LeastOfAll(heap, top, f);
      }
      current := Some(e);
      if |heap[top]| > 1 {
        heap := after;
      } else {
        ContentsDrop(after, top);
        assert after[..top] == heap[..top] && after[top+1..] == heap[top+1..];
        heap := heap[..top] + heap[top+1..];
      }
      return true;
    }
  }

  /** Drains a merge: all entries of all sources, in internal-key order. */
  method MergeAll(sources: seq<seq<Entry>>) returns (out: seq<Entry>)
    requires forall i :: 0 <= i < |sources| ==> Ascending(sources[i])
    ensures multiset(out) == Contents(sources)
    ensures Sorted(out)
  {
    out := [];
    hide Precedes, Contents, Ascending;
    var it := new MergeIter(sources);
    while true
      invariant it.Valid()
      invariant Contents(sources) == multiset(out) + Contents(it.heap)
      invariant Sorted(out)
      invariant forall k, e :: 0 <= k < |out| && e in Contents(it.heap) ==> !Precedes(e, out[k])
      decreases |Contents(it.heap)|
    {
      ghost var before := Contents(it.heap);
      var ok := it.Next();
      if !ok {
        break;
      }
      assert forall e :: e in Contents(it.heap) ==> e in before;
      out := out + [it.current.value];
    }
  }
}
