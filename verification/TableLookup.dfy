/** What a lookup finds among a table's entries, and the one block that decides it. */
module TableLookup {
  import opened Bytes
  import opened Varint
  import opened Versions
  import opened DataBlock
  import opened StoredValues
  import opened TableFormat
  import opened TableWriter
  import Ikey
  import M = Memtables
  import T = Tables

  /** A version of `user` that a read at `s` may see. */
  predicate Matches(x: Item, user: Bytes, s: nat) {
    |x.key| >= Ikey.TRAILER && Ikey.UserKey(x.key) == user && Ikey.SqnOf(x.key) <= s
  }

  /** The linear scan a lookup refines. */
  function FirstMatch(items: seq<Item>, user: Bytes, s: nat): (r: Option<Item>)
    ensures r.Some? ==> r.value in items && Matches(r.value, user, s)
  {
    if items == [] then None
    else if Matches(items[0], user, s) then Some(items[0])
    else FirstMatch(items[1..], user, s)
  }

  lemma {:induction false} NoMatch(items: seq<Item>, user: Bytes, s: nat)
    ensures FirstMatch(items, user, s).None? <==> forall i :: 0 <= i < |items| ==> !Matches(items[i], user, s)
    decreases |items|
  {
    hide Matches;
    if items != [] {
      NoMatch(items[1..], user, s);
      assert items == [items[0]] + items[1..];
    }
  }

  lemma {:induction false} MatchConcat(a: seq<Item>, b: seq<Item>, user: Bytes, s: nat)
    ensures FirstMatch(a + b, user, s) == if FirstMatch(a, user, s).Some? then FirstMatch(a, user, s) else FirstMatch(b, user, s)
    decreases |a|
  {
    hide Matches;
    if a == [] {
      assert a + b == b;
    } else {
      MatchConcat(a[1..], b, user, s);
      assert (a + b)[1..] == a[1..] + b;
    }
  }

  /** ikeyLookupKey: above every version newer than `s`, at or below every other. */
  function LookupKey(user: Bytes, s: nat): (ik: Bytes)
    ensures |ik| == |user| + Ikey.TRAILER
  {
    Ikey.Encode(user, s, 3)
  }

  lemma BelowLookup(ik: Bytes, user: Bytes, s: nat)
    requires KeyOk(ik) && s <= Ikey.MAX_SEQ
    ensures Ikey.Less(ik, LookupKey(user, s)) <==>
              Lt(Ikey.UserKey(ik), user) || (Ikey.UserKey(ik) == user && Ikey.SqnOf(ik) > s)
  {
    hide Ikey.UserKey, Ikey.Trailer, Ikey.Encode;
    Ikey.RoundTrip(user, s, 3);
    CompareSign(Ikey.UserKey(ik), user);
  }

  lemma PastLookup(ik: Bytes, v: Bytes, user: Bytes, s: nat)
    requires KeyOk(ik) && s <= Ikey.MAX_SEQ
    ensures Ikey.Less(ik, LookupKey(user, s)) ==> !Matches(Item(ik, v), user, s)
    ensures !Ikey.Less(ik, LookupKey(user, s)) && !Matches(Item(ik, v), user, s) ==> Lt(user, Ikey.UserKey(ik))
  {
    hide Ikey.UserKey, Ikey.Less, LookupKey, Ikey.SqnOf;
    BelowLookup(ik, user, s);
    OrderLaws();
  }

  lemma {:induction false} FlatConcat(a: seq<seq<Item>>, b: seq<seq<Item>>)
    ensures Flat(a + b) == Flat(a) + Flat(b)
    decreases |b|
  {
    hide Flat;
    EmptyFlat();
    if b == [] {
      assert a + b == a;
    } else {
      var front, last := b[..|b|-1], b[|b|-1];
      FlatConcat(a, front);
      FlatNext(a + front, last);
      FlatNext(front, last);
      assert front + [last] == b && a + front + [last] == a + b;
    }
  }

  lemma FlatThree(a: seq<seq<Item>>, b: seq<Item>, c: seq<seq<Item>>)
    ensures Flat(a + [b] + c) == Flat(a) + b + Flat(c)
  {
    hide Flat;
    FlatConcat(a + [b], c);
    FlatNext(a, b);
  }

  /** The entries before, in and after block `i`. */
  lemma FlatAround(blocks: seq<seq<Item>>, i: nat)
    requires i < |blocks|
    ensures Flat(blocks) == Flat(blocks[..i]) + blocks[i] + Flat(blocks[i + 1..])
  {
    hide Flat;
    FlatThree(blocks[..i], blocks[i], blocks[i + 1..]);
    assert blocks[..i] + [blocks[i]] + blocks[i + 1..] == blocks;
  }

  /** Sorted entries whose last one is below the lookup key hold no match. */
  lemma AllBelow(items: seq<Item>, n: nat, user: Bytes, s: nat)
    requires Sorted(items) && s <= Ikey.MAX_SEQ && n <= |items|
    requires n > 0 ==> Ikey.Less(items[n-1].key, LookupKey(user, s))
    ensures FirstMatch(items[..n], user, s).None?
  {
    hide FirstMatch, Matches, Ikey.Less, LookupKey, Ikey.KindOf;
    forall i | 0 <= i < n ensures !Matches(items[i], user, s) {
      if i < n - 1 {
        Ikey.Laws(items[i].key, items[n-1].key, LookupKey(user, s));
      }
      PastLookup(items[i].key, items[i].value, user, s);
      assert Item(items[i].key, items[i].value) == items[i];
    }
    NoMatch(items[..n], user, s);
  }

  /** Sorted entries after one that is past the key hold no match. */
  lemma AllAbove(items: seq<Item>, n: nat, user: Bytes, s: nat)
    requires Sorted(items) && 0 < n <= |items| && Lt(user, Ikey.UserKey(items[n-1].key))
    ensures FirstMatch(items[n..], user, s).None?
  {
    hide FirstMatch, Ikey.KindOf, Ikey.UserKey, Ikey.Trailer, Ikey.SqnOf;
    forall i | n <= i < |items| ensures !Matches(items[i], user, s) {
      assert Ikey.Less(items[n-1].key, items[i].key);
      CompareSign(Ikey.UserKey(items[n-1].key), Ikey.UserKey(items[i].key));
      OrderLaws();
    }
    NoMatch(items[n..], user, s);
  }

  /** The first block whose separator is at or past the lookup key decides the lookup. */
  lemma BlockDecides(blocks: seq<seq<Item>>, i: nat, user: Bytes, s: nat)
    requires Sorted(Flat(blocks)) && s <= Ikey.MAX_SEQ && forall k :: 0 <= k < |blocks| ==> blocks[k] != []
    requires i <= |blocks| && (i > 0 ==> Ikey.Less(Separator(blocks[i-1]), LookupKey(user, s)))
    requires i < |blocks| ==> !Ikey.Less(Separator(blocks[i]), LookupKey(user, s))
    ensures FirstMatch(Flat(blocks), user, s) == if i < |blocks| then FirstMatch(blocks[i], user, s) else None
  {
    hide FirstMatch, Matches, Sorted, Flat, Ikey.Less, LookupKey;
    var items := Flat(blocks);
    var a := |Flat(blocks[..i])|;
    if i == |blocks| {
      assert blocks[..i] == blocks;
      NoneBelow(blocks, i, user, s);
      assert items[..a] == items;
    } else {
      FlatAround(blocks, i);
      NoneBelow(blocks, i, user, s);
      var b := a + |blocks[i]|;
      MatchConcat(items[..a] + blocks[i], items[b..], user, s);
      MatchConcat(items[..a], blocks[i], user, s);
      assert items == items[..a] + blocks[i] + items[b..];
      if FirstMatch(blocks[i], user, s).None? {
        NoneAbove(blocks, i, user, s);
      }
    }
  }

  lemma NoneBelow(blocks: seq<seq<Item>>, i: nat, user: Bytes, s: nat)
    requires Sorted(Flat(blocks)) && s <= Ikey.MAX_SEQ && forall k :: 0 <= k < |blocks| ==> blocks[k] != []
    requires i <= |blocks| && (i > 0 ==> Ikey.Less(Separator(blocks[i-1]), LookupKey(user, s)))
    ensures var a := |Flat(blocks[..i])|;
            a <= |Flat(blocks)| && Flat(blocks)[..a] == Flat(blocks[..i]) && FirstMatch(Flat(blocks)[..a], user, s).None?
  {
    hide FirstMatch, Matches, Sorted, Flat, Ikey.Less, LookupKey, Separator;
    var items, upTo := Flat(blocks), Flat(blocks[..i]);
    FlatConcat(blocks[..i], blocks[i..]);
    assert blocks[..i] + blocks[i..] == blocks;
    assert items[..|upTo|] == upTo;
    if i > 0 {
      LastCloses(blocks[..i]);
      assert items[|upTo|-1] == upTo[|upTo|-1];
    } else {
      EmptyFlat();
      assert blocks[..0] == [];
    }
    AllBelow(items, |upTo|, user, s);
  }

  lemma EmptyFlat()
    ensures Flat([]) == []
  {
  }

  lemma NoneAbove(blocks: seq<seq<Item>>, i: nat, user: Bytes, s: nat)
    requires Sorted(Flat(blocks)) && s <= Ikey.MAX_SEQ && i < |blocks| && blocks[i] != []
    requires !Ikey.Less(Separator(blocks[i]), LookupKey(user, s)) && FirstMatch(blocks[i], user, s).None?
    ensures var b := |Flat(blocks[..i])| + |blocks[i]|;
            b <= |Flat(blocks)| && FirstMatch(Flat(blocks)[b..], user, s).None?
  {
    hide FirstMatch, Matches, Flat, Ikey.Less, LookupKey, Ikey.UserKey, Ikey.KindOf;
    FlatAround(blocks, i);
    var items, b := Flat(blocks), |Flat(blocks[..i])| + |blocks[i]|;
    var last := blocks[i][|blocks[i]|-1];
    assert items[b-1] == last;
    NoMatch(blocks[i], user, s);
    PastLookup(last.key, last.value, user, s);
    assert Item(last.key, last.value) == last;
    AllAbove(items, b, user, s);
  }

  // ---------------------------------------------------------------------------
  // The answer
  // ---------------------------------------------------------------------------

  /** A point lookup's answer: absent, a damaged table, a version, or a reference to a blob. */
  datatype Answer = Missing | Broken | Hit(sqn: nat, shown: Option<Visible>) | OutOfLine(sqn: nat, stored: Bytes)

  /** What a matching entry answers at instant `now`. */
  function Resolve(x: Item, now: int): Answer
    requires |x.key| >= Ikey.TRAILER
  {
    var sqn, kind := Ikey.SqnOf(x.key), Ikey.KindOf(x.key);
    if kind > 3 then Broken
    else if kind == 0 then Hit(sqn, None)
    else if kind == 2 then OutOfLine(sqn, x.value)
    else if kind == 3 then
      if |x.value| < EXPIRY_PREFIX then Broken
      else
        var t := FromLe(x.value[..EXPIRY_PREFIX]);
        // Read as a signed word: past the largest int64 it is negative, and invalid like zero.
        if t == 0 || t > MAX_INT64 then Broken
        else if t <= now then Hit(sqn, None)
        else Hit(sqn, Some(Visible(x.value[EXPIRY_PREFIX..], t)))
    else Hit(sqn, Some(Visible(x.value, 0)))
  }

  /** An entry whose kind byte, or whose deadline, no writer leaves is damage: a kind above 3, a deadline cut short, zero, or
      with its sign bit set. Kind 2 is a reference to a value stored elsewhere. */
  lemma DamagedAnswers(x: Item, now: int)
    requires |x.key| >= Ikey.TRAILER
    ensures x.key[|x.key| - Ikey.TRAILER] > 3 ==> Resolve(x, now) == Broken
    ensures x.key[|x.key| - Ikey.TRAILER] == 2 ==> Resolve(x, now) == OutOfLine(Ikey.SqnOf(x.key), x.value)
    ensures x.key[|x.key| - Ikey.TRAILER] == 3 && (|x.value| < 8 || x.value[..8] == Zeros(8) || x.value[7] >= 128) ==> Resolve(x, now) == Broken
  {
    hide FromLe, Ikey.KindOf;
    Ikey.KindIsByte(x.key);
    if |x.value| >= 8 {
      SignBit(x.value[..8]);
    }
  }

  /** The linear scan's answer. */
  function AnswerIn(items: seq<Item>, user: Bytes, s: nat, now: int): Answer {
    var x := FirstMatch(items, user, s);
    if x.None? then Missing else Resolve(x.value, now)
  }

  /** A version as a table stores it. */
  function ItemOf(e: Entry): Item
    requires Encodable(e)
  {
    Item(Ikey.KeyOf(e), Stored(e.payload))
  }

  ghost predicate ItemsOf(items: seq<Item>, points: seq<Entry>) {
    |items| == |points| && forall i :: 0 <= i < |points| ==> Encodable(points[i]) && items[i] == ItemOf(points[i])
  }

  lemma ItemAnswers(e: Entry, user: Bytes, s: nat, now: int)
    requires Encodable(e)
    ensures Matches(ItemOf(e), user, s) <==> e.key == user && e.sqn <= s
    ensures |ItemOf(e).key| >= Ikey.TRAILER && Resolve(ItemOf(e), now) == Hit(e.sqn, Outcome(e.payload, now))
  {
    hide Ikey.Trailer, FromLe, PutLe, Ikey.UserKey, Ikey.SqnOf, Ikey.KindOf;
    Ikey.RoundTrip(e.key, e.sqn, Kind(e.payload));
    if e.payload.Expiring? {
      var stored := Stored(e.payload);
      ExpiryReads(e.payload.expiresAt);
      assert stored[..EXPIRY_PREFIX] == PutLe(e.payload.expiresAt, EXPIRY_PREFIX) && stored[EXPIRY_PREFIX..] == e.payload.value;
    }
  }

  lemma ExpiryReads(x: nat)
    requires x <= MAX_INT64
    ensures FromLe(PutLe(x, EXPIRY_PREFIX)) == x
  {
    Pow2Of64();
    LeRoundTrip(x, EXPIRY_PREFIX);
  }

  /** On stored versions the answer is the newest visible version's outcome. */
  lemma {:induction false} AnswerIsLookup(items: seq<Item>, points: seq<Entry>, user: Bytes, s: nat, now: int)
    requires ItemsOf(items, points)
    ensures var e := M.Lookup(points, user, s);
            AnswerIn(items, user, s, now) == if e.None? then Missing else Hit(e.value.sqn, Outcome(e.value.payload, now))
    decreases |items|
  {
    hide Matches, ItemOf, Resolve;
    if items != [] {
      ItemAnswers(points[0], user, s, now);
      AnswerIsLookup(items[1..], points[1..], user, s, now);
    }
  }

  /** Versions in the engine's order are entries the table format takes. */
  lemma VersionsSorted(items: seq<Item>, points: seq<Entry>)
    requires ItemsOf(items, points) && T.Ascending(points)
    ensures Sorted(items)
  {
    hide Ikey.Less, ItemsOf;
    forall i | 0 <= i < |items| ensures KeyOk(items[i].key) {
      VersionKey(items, points, i);
    }
    forall i, j | 0 <= i < j < |items| ensures Ikey.Less(items[i].key, items[j].key) {
      VersionKey(items, points, i);
      VersionKey(items, points, j);
      assert T.Before(points[i], points[j]);
      Ikey.OrderIsPrecedes(points[i], points[j]);
    }
  }

  lemma VersionKey(items: seq<Item>, points: seq<Entry>, i: nat)
    requires ItemsOf(items, points) && i < |items|
    ensures i < |points| && items[i].key == Ikey.KeyOf(points[i]) && points[i].sqn <= Ikey.MAX_SEQ && KeyOk(items[i].key)
  {
    Ikey.RoundTrip(points[i].key, points[i].sqn, Kind(points[i].payload));
  }
}
