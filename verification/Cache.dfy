/** One stripe of the block cache: a linked list in recency order, bounded by its bytes. */
module Cache {
  import opened Bytes

  datatype Key = Key(table: nat, offset: nat)

  datatype Item = Item(key: Key, value: Bytes)

  // ---------------------------------------------------------------------------
  // The recency list it stands for: most recent first, each key once
  // ---------------------------------------------------------------------------

  function Bytesize(l: seq<Item>): nat {
    if l == [] then 0 else Bytesize(l[..|l|-1]) + |l[|l|-1].value|
  }

  function Without(l: seq<Item>, k: Key): seq<Item> {
    if l == [] then [] else Without(l[..|l|-1], k) + if l[|l|-1].key == k then [] else [l[|l|-1]]
  }

  /** The longest run of most recent items that fits. */
  function Fit(l: seq<Item>, capacity: nat): (r: seq<Item>)
    ensures Bytesize(r) <= capacity && r <= l
  {
    if Bytesize(l) <= capacity then l else Fit(l[..|l|-1], capacity)
  }

  /** Only what does not fit is dropped, and from the old end. */
  lemma {:induction false} FitIsLongest(l: seq<Item>, capacity: nat, k: nat)
    requires k <= |l| && Bytesize(l[..k]) <= capacity
    ensures k <= |Fit(l, capacity)|
  {
    if Bytesize(l) > capacity {
      assert k < |l| by { assert l[..|l|] == l; }
      assert l[..|l|-1][..k] == l[..k];
      FitIsLongest(l[..|l|-1], capacity, k);
    }
  }

  class Node {
    const key: Key
    var value: Bytes
    var prev: Node
    var next: Node

    /** A node linked to itself, as the sentinel starts. */
    constructor (key: Key, value: Bytes)
      ensures this.key == key && this.value == value && prev == this && next == this
    {
      this.key, this.value := key, value;
      prev, next := this, this;
    }
  }

  /** The map and the list hold the same entries, one per key. */
  ghost predicate Indexes(items: map<Key, Node>, order: seq<Node>) {
    && (forall i :: 0 <= i < |order| ==> order[i].key in items && items[order[i].key] == order[i])
    && (forall k :: k in items ==> items[k] in order && items[k].key == k)
  }

  lemma IndexesMoved(items: map<Key, Node>, order: seq<Node>, i: nat)
    requires Indexes(items, order) && i < |order|
    ensures Indexes(items, [order[i]] + (order[..i] + order[i+1..]))
  {
    var now := [order[i]] + (order[..i] + order[i+1..]);
    forall n | n in order ensures n in now {
      var j :| 0 <= j < |order| && order[j] == n;
      assert n == if j == i then now[0] else if j < i then now[j + 1] else now[j];
    }
  }

  /** What a list of nodes holds. */
  ghost function ItemsOf(order: seq<Node>): (l: seq<Item>)
    reads order`value
    ensures |l| == |order| && forall i :: 0 <= i < |l| ==> l[i] == Item(order[i].key, order[i].value)
  {
    if order == [] then [] else ItemsOf(order[..|order|-1]) + [Item(order[|order|-1].key, order[|order|-1].value)]
  }

  lemma MembersMoved<T>(order: seq<T>, i: nat)
    requires i < |order|
    ensures forall n :: n in [order[i]] + (order[..i] + order[i+1..]) <==> n in order
  {
    assert order == order[..i] + [order[i]] + order[i+1..];
  }

  lemma ItemsMoved(order: seq<Node>, i: nat)
    requires i < |order|
    ensures var l := ItemsOf(order); ItemsOf([order[i]] + (order[..i] + order[i+1..])) == [l[i]] + (l[..i] + l[i+1..])
  {
    hide ItemsOf;
    var l, now := ItemsOf(order), [order[i]] + (order[..i] + order[i+1..]);
    var moved := [l[i]] + (l[..i] + l[i+1..]);
    forall k | 0 <= k < |order| ensures ItemsOf(now)[k] == moved[k] {
      if k > i {
        assert now[k] == order[k] && moved[k] == l[k];
      } else if k > 0 {
        assert now[k] == order[k - 1] && moved[k] == l[k - 1];
      }
    }
  }

  lemma IndexesDrop(items: map<Key, Node>, order: seq<Node>)
    requires Indexes(items, order) && order != []
    requires forall i :: 0 <= i < |order| - 1 ==> order[i].key != order[|order|-1].key
    ensures Indexes(items - {order[|order|-1].key}, order[..|order|-1])
  {
  }

  lemma IndexesFront(items: map<Key, Node>, order: seq<Node>, e: Node)
    requires Indexes(items, order) && e.key !in items
    ensures Indexes(items[e.key := e], [e] + order)
  {
  }

  lemma ItemsDrop(order: seq<Node>)
    requires order != []
    ensures ItemsOf(order[..|order|-1]) == ItemsOf(order)[..|order|-1]
  {
  }

  lemma ItemsFront(e: Node, order: seq<Node>)
    ensures ItemsOf([e] + order) == [Item(e.key, e.value)] + ItemsOf(order)
  {
    hide ItemsOf;
    var l := [Item(e.key, e.value)] + ItemsOf(order);
    forall k | 0 <= k < |l| ensures ItemsOf([e] + order)[k] == l[k] {
      if k > 0 {
        assert ([e] + order)[k] == order[k - 1];
      }
    }
  }

  class CacheShard {
    const capacity: nat
    const root: Node
    var size: nat
    var items: map<Key, Node>
    // The nodes from most to least recently used.
    ghost var order: seq<Node>

    ghost function Nodes(): set<Node>
      reads this`order
    {
      {root} + set n | n in order
    }

    /** The ring walked once: root, the nodes, and root again. */
    ghost function Ring(): seq<Node>
      reads this`order
    {
      [root] + order + [root]
    }

    /** Neighbours on the ring point at each other, and no node is on it twice. */
    ghost predicate Linked()
      reads this`order, Nodes()`prev, Nodes()`next
    {
      && (forall i, j :: 0 <= i < j < |order| ==> order[i] != order[j]) && root !in order
      && forall i :: 0 <= i <= |order| ==> Ring()[i].next == Ring()[i+1] && Ring()[i+1].prev == Ring()[i]
    }

    ghost predicate Indexed()
      reads this`order, this`items
    {
      Indexes(items, order)
    }

    ghost function Contents(): seq<Item>
      reads this`order, order`value
    {
      ItemsOf(order)
    }

    ghost predicate Valid()
      reads this, Nodes()
    {
      Linked() && Indexed() && size == Bytesize(Contents())
    }

    constructor (capacity: nat)
      ensures Valid() && fresh(Nodes()) && Contents() == [] && this.capacity == capacity
    {
      var r := new Node(Key(0, 0), []);
      this.capacity, root, size, items, order := capacity, r, 0, map[], [];
    }

    /** unlink: the i-th node leaves the ring. */
    method Unlink(e: Node, ghost i: nat)
      requires Linked() && i < |order| && order[i] == e
      modifies this`order, e.prev`next, e.next`prev
      ensures order == old(order[..i] + order[i+1..]) && Linked()
    {
      ghost var was := Ring();
      assert was[i + 1] == e && e.prev == was[i] && e.next == was[i + 2];
      RingDistinct();
      e.prev.next := e.next;
      e.next.prev := e.prev;
      order := order[..i] + order[i+1..];
      assert forall k :: 0 <= k < |Ring()| ==> Ring()[k] == if k <= i then was[k] else was[k + 1];
      forall k | 0 <= k <= |order| ensures Ring()[k].next == Ring()[k+1] && Ring()[k+1].prev == Ring()[k] {
        if k < i {
          assert was[k] != was[i] && was[k + 1] != was[i + 2];
        } else if k > i {
          assert was[k + 1] != was[i] && was[k + 2] != was[i + 2];
        }
      }
    }

    lemma RingDistinct()
      requires Linked()
      ensures forall a, b :: 0 <= a < b < |Ring()| && !(a == 0 && b == |Ring()| - 1) ==> Ring()[a] != Ring()[b]
    {
    }

    /** pushFront: a node outside the ring becomes the most recent. */
    method PushFront(e: Node)
      requires Linked() && e !in order && e != root
      modifies this`order, e`prev, e`next, root`next, root.next`prev
      ensures order == [e] + old(order) && Linked()
    {
      ghost var was := Ring();
      assert was[0] == root && root.next == was[1];
      e.prev := root;
      e.next := root.next;
      root.next.prev := e;
      root.next := e;
      order := [e] + order;
      assert forall k :: 0 <= k < |Ring()| ==> Ring()[k] == if k == 0 then root else if k == 1 then e else was[k - 1];
    }

    lemma Neighbours(i: nat)
      requires Linked() && i < |order|
      ensures order[i].prev in Nodes() && order[i].next in Nodes()
    {
      assert Ring()[i + 1] == order[i] && order[i].prev == Ring()[i] && order[i].next == Ring()[i + 2];
    }

    lemma FirstIsListed()
      requires Linked()
      ensures root.next in Nodes() && root.prev in Nodes()
      ensures root.prev == if order == [] then root else order[|order|-1]
    {
      assert Ring()[0] == root && root.next == Ring()[1] && Ring()[|order| + 1] == root && root.prev == Ring()[|order|];
    }

    /** A node's position on the list. */
    lemma IndexOf(e: Node) returns (i: nat)
      requires e in order
      ensures i < |order| && order[i] == e
    {
      i :| 0 <= i < |order| && order[i] == e;
    }

    /** The i-th node goes to the front of the ring. */
    method Relink(e: Node, ghost i: nat)
      requires Linked() && i < |order| && order[i] == e
      modifies this`order, Nodes()`prev, Nodes()`next
      ensures Linked() && order == [e] + old(order[..i] + order[i+1..])
    {
      hide Linked;
      Neighbours(i);
      Once(i);
      Unlink(e, i);
      FirstIsListed();
      PushFront(e);
    }

    /** Moves a listed node to the front: the same items, this one most recent. */
    method Touch(e: Node)
      requires Linked() && Indexed() && e in order
      modifies this`order, Nodes()`prev, Nodes()`next
      ensures Linked() && Indexed() && items == old(items) && Nodes() == old(Nodes()) && e in order
      ensures Contents() == [Item(e.key, e.value)] + Without(old(Contents()), e.key)
    {
      hide Linked, Indexes, ItemsOf, Without;
      ghost var i := IndexOf(e);
      KeysAreOnce();
      IndexesMoved(items, order, i);
      RemoveAt(Contents(), i);
      ItemsMoved(order, i);
      MembersMoved(order, i);
      Relink(e, i);
    }

    lemma KeyIsListed(key: Key)
      requires Indexed()
      ensures key in items ==> items[key] in order && items[key].key == key
      ensures key !in items ==> forall i :: 0 <= i < |order| ==> order[i].key != key
    {
    }

    lemma KeysAreOnce()
      requires Linked() && Indexed()
      ensures KeysOnce(Contents())
    {
    }

    lemma Once(i: nat)
      requires Linked() && i < |order|
      ensures order[i] != root && order[i] !in order[..i] + order[i+1..]
    {
    }

    /** get: a hit returns the value and makes the block the most recent. */
    method Get(key: Key) returns (r: Option<Bytes>)
      requires Valid()
      modifies this`order, Nodes()
      ensures Valid() && Nodes() == old(Nodes())
      ensures r.None? ==> Contents() == old(Contents()) && forall i :: 0 <= i < |Contents()| ==> Contents()[i].key != key
      ensures r.Some? ==> Item(key, r.value) in old(Contents())
      ensures r.Some? ==> Contents() == [Item(key, r.value)] + Without(old(Contents()), key)
    {
      hide Linked, Indexes, ItemsOf, Without, Bytesize;
      KeysAreOnce();
      KeyIsListed(key);
      if key in items {
        var e := items[key];
        ghost var i := IndexOf(e);
        assert Contents()[i] == Item(key, e.value);
        SizeOfTouched(Contents(), i);
        Touch(e);
        return Some(e.value);
      }
      return None;
    }

    /** evictOldest: the least recent item goes. */
    method EvictOldest()
      requires Valid() && order != []
      modifies this`order, this`items, this`size, Nodes()
      ensures Valid() && Nodes() <= old(Nodes())
      ensures Contents() == old(Contents()[..|Contents()|-1])
    {
      hide Linked, Indexes, ItemsOf, Bytesize;
      FirstIsListed();
      var lru := root.prev;
      ghost var n := |order| - 1;
      assert lru == order[n] && order[..n] + order[n+1..] == order[..n];
      Neighbours(n);
      Once(n);
      ListedInMap(n);
      KeysAreOnce();
      IndexesDrop(items, order);
      ItemsDrop(order);
      SizeLast(Contents());
      Unlink(lru, n);
      items := items - {lru.key};
      size := size - |lru.value|;
    }

    lemma ListedInMap(i: nat)
      requires Indexed() && i < |order|
      ensures order[i].key in items
    {
    }

    /** add: the block becomes the most recent, and the oldest go until the rest fit. */
    method Add(key: Key, value: Bytes)
      requires Valid()
      modifies this`order, this`items, this`size, Nodes()
      ensures Valid() && fresh(Nodes() - old(Nodes()))
      ensures Contents() == Fit([Item(key, value)] + Without(old(Contents()), key), capacity)
      ensures size <= capacity
    {
      hide Linked, Indexes, ItemsOf, Bytesize, Without, Fit;
      InsertFront(key, value);
      ghost var full := Contents();
      while size > capacity
        invariant Valid() && fresh(Nodes() - old(Nodes()))
        invariant Fit(Contents(), capacity) == Fit(full, capacity)
        decreases |order|
      {
        NotEmpty();
        FitDropsLast(Contents(), capacity);
        EvictOldest();
      }
      FitKeepsAll(Contents(), capacity);
    }

    lemma NotEmpty()
      requires Valid() && size > 0
      ensures order != []
    {
    }

    /** The first half of add: an existing block is overwritten and moved, a new one linked in. */
    method InsertFront(key: Key, value: Bytes)
      requires Valid()
      modifies this`order, this`items, this`size, Nodes()
      ensures Valid() && fresh(Nodes() - old(Nodes()))
      ensures Contents() == [Item(key, value)] + Without(old(Contents()), key)
    {
      hide Linked, Indexes, ItemsOf, Bytesize, Without;
      KeysAreOnce();
      KeyIsListed(key);
      if key in items {
        var e := items[key];
        ghost var i := IndexOf(e);
        SizeOfRemoved(Contents(), i);
        WithoutIgnoresValue(Contents(), i, value);
        ghost var before := Contents();
        SizeCovers(before, i);
        size := size + |value| - |e.value|;
        e.value := value;
        assert Contents() == before[i := Item(key, value)];
        Touch(e);
        SizeFront(Item(key, value), Without(old(Contents()), key));
      } else {
        WithoutAbsent(Contents(), key);
        SizeFront(Item(key, value), Contents());
        var e := new Node(key, value);
        FirstIsListed();
        ItemsFront(e, order);
        IndexesFront(items, order, e);
        PushFront(e);
        items := items[key := e];
        size := size + |value|;
      }
    }
  }

  lemma {:induction false} WithoutAbsent(l: seq<Item>, k: Key)
    requires forall i :: 0 <= i < |l| ==> l[i].key != k
    ensures Without(l, k) == l
  {
    if l != [] {
      WithoutAbsent(l[..|l|-1], k);
    }
  }

  ghost predicate KeysOnce(l: seq<Item>) {
    forall i, j :: 0 <= i < j < |l| ==> l[i].key != l[j].key
  }

  /** Removing a key that occurs once removes that one place. */
  lemma {:induction false} RemoveAt(l: seq<Item>, i: nat)
    requires i < |l| && KeysOnce(l)
    ensures Without(l, l[i].key) == l[..i] + l[i+1..]
    decreases |l|
  {
    var n := |l| - 1;
    if i == n {
      WithoutAbsent(l[..n], l[i].key);
    } else {
      RemoveAt(l[..n], i);
      assert l[i+1..] == l[..n][i+1..] + [l[n]];
    }
  }

  lemma {:induction false} SizeConcat(a: seq<Item>, b: seq<Item>)
    ensures Bytesize(a + b) == Bytesize(a) + Bytesize(b)
    decreases |b|
  {
    if b == [] {
      assert a + b == a;
    } else {
      assert (a + b)[..|a + b| - 1] == a + b[..|b|-1];
      SizeConcat(a, b[..|b|-1]);
    }
  }

  lemma SizeOne(x: Item)
    ensures Bytesize([x]) == |x.value|
  {
    assert [x][..0] == [];
  }

  lemma SizeOfRemoved(l: seq<Item>, i: nat)
    requires i < |l| && KeysOnce(l)
    ensures Bytesize(Without(l, l[i].key)) == Bytesize(l) - |l[i].value|
  {
    RemoveAt(l, i);
    assert l == l[..i] + ([l[i]] + l[i+1..]);
    SizeConcat(l[..i], [l[i]] + l[i+1..]);
    SizeConcat([l[i]], l[i+1..]);
    SizeConcat(l[..i], l[i+1..]);
    SizeOne(l[i]);
  }

  lemma SizeOfTouched(l: seq<Item>, i: nat)
    requires i < |l| && KeysOnce(l)
    ensures Bytesize([l[i]] + Without(l, l[i].key)) == Bytesize(l)
  {
    SizeOfRemoved(l, i);
    SizeConcat([l[i]], Without(l, l[i].key));
    SizeOne(l[i]);
  }

  lemma SizeLast(l: seq<Item>)
    requires l != []
    ensures Bytesize(l) == Bytesize(l[..|l|-1]) + |l[|l|-1].value|
  {
  }

  lemma SizeFront(x: Item, l: seq<Item>)
    ensures Bytesize([x] + l) == |x.value| + Bytesize(l)
  {
    SizeConcat([x], l);
    SizeOne(x);
  }

  lemma SizeCovers(l: seq<Item>, i: nat)
    requires i < |l| && KeysOnce(l)
    ensures Bytesize(l) >= |l[i].value|
  {
    SizeOfRemoved(l, i);
  }

  lemma WithoutIgnoresValue(l: seq<Item>, i: nat, v: Bytes)
    requires i < |l| && KeysOnce(l)
    ensures KeysOnce(l[i := Item(l[i].key, v)]) && Without(l[i := Item(l[i].key, v)], l[i].key) == Without(l, l[i].key)
  {
    var m := l[i := Item(l[i].key, v)];
    RemoveAt(l, i);
    RemoveAt(m, i);
    assert m[..i] == l[..i] && m[i+1..] == l[i+1..];
  }

  lemma FitDropsLast(l: seq<Item>, capacity: nat)
    requires Bytesize(l) > capacity
    ensures l != [] && Fit(l[..|l|-1], capacity) == Fit(l, capacity)
  {
  }

  lemma FitKeepsAll(l: seq<Item>, capacity: nat)
    requires Bytesize(l) <= capacity
    ensures Fit(l, capacity) == l
  {
  }

  // ---------------------------------------------------------------------------
  // Striping
  // ---------------------------------------------------------------------------

  const STRIPES: nat := 16

  function Total(caps: seq<nat>): nat {
    if caps == [] then 0 else Total(caps[..|caps|-1]) + caps[|caps|-1]
  }

  /** newBlockCache: the stripes' capacities add up to the configured one, and differ by at most a byte. */
  method SplitCapacity(capacity: nat) returns (caps: seq<nat>)
    ensures |caps| == STRIPES && Total(caps) == capacity
    ensures forall i, j :: 0 <= i < j < STRIPES ==> caps[j] <= caps[i] <= caps[j] + 1
  {
    var per, rest := capacity / STRIPES, capacity % STRIPES;
    caps := [];
    for i := 0 to STRIPES
      invariant |caps| == i && forall k :: 0 <= k < i ==> caps[k] == per + if k < rest then 1 else 0
      invariant Total(caps) == per * i + if i < rest then i else rest
    {
      var cap := if i < rest then per + 1 else per;
      assert per * (i + 1) == per * i + per;
      assert (caps + [cap])[..i] == caps;
      caps := caps + [cap];
    }
  }
}
