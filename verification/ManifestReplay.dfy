/** When a manifest replays, said over its edits, and what it then gives. */
module ManifestReplay {
  import opened Bytes
  import opened Manifest

  ghost predicate NoRepeat(ns: seq<nat>) {
    forall i, j :: 0 <= i < j < |ns| ==> ns[i] != ns[j]
  }

  function TableNums(ts: seq<TableInfo>): (ns: seq<nat>)
    ensures |ns| == |ts| && forall i :: 0 <= i < |ts| ==> ns[i] == ts[i].num
  {
    seq(|ts|, i requires 0 <= i < |ts| => ts[i].num)
  }

  function BlobNums(bs: seq<BlobInfo>): (ns: seq<nat>)
    ensures |ns| == |bs| && forall i :: 0 <= i < |bs| ==> ns[i] == bs[i].num
  {
    seq(|bs|, i requires 0 <= i < |bs| => bs[i].num)
  }

  /** Some edit adds, or deletes, that number. */
  ghost predicate Added(edits: seq<Edit>, n: nat) {
    exists i :: 0 <= i < |edits| && n in TableNums(edits[i].added)
  }

  ghost predicate Deleted(edits: seq<Edit>, n: nat) {
    exists i :: 0 <= i < |edits| && n in edits[i].deleted
  }

  ghost predicate BlobAdded(edits: seq<Edit>, n: nat) {
    exists i :: 0 <= i < |edits| && n in BlobNums(edits[i].addedBlobs)
  }

  ghost predicate BlobDeleted(edits: seq<Edit>, n: nat) {
    exists i :: 0 <= i < |edits| && n in edits[i].deletedBlobs
  }

  /** Edit `e` may follow `before`: it carries the identity exactly if it is the first, its boundary is not below an earlier
      one, what it adds is new, and what it deletes is live by then. */
  ghost predicate MayFollow(before: seq<Edit>, e: Edit) {
    && (e.identity <==> before == [])
    && (e.replayLog == 0 || forall i :: 0 <= i < |before| ==> before[i].replayLog <= e.replayLog)
    && NoRepeat(TableNums(e.added)) && (forall n :: n in TableNums(e.added) ==> n != 0 && !Added(before, n))
    && NoRepeat(e.deleted) && (forall n :: n in e.deleted ==> (Added(before, n) || n in TableNums(e.added)) && !Deleted(before, n))
    && NoRepeat(BlobNums(e.addedBlobs)) && (forall n :: n in BlobNums(e.addedBlobs) ==> !BlobAdded(before, n))
    && NoRepeat(e.deletedBlobs)
    && (forall n :: n in e.deletedBlobs ==> (BlobAdded(before, n) || n in BlobNums(e.addedBlobs)) && !BlobDeleted(before, n))
  }

  ghost predicate Replayable(edits: seq<Edit>) {
    forall i :: 0 <= i < |edits| ==> MayFollow(edits[..i], edits[i])
  }

  /** The state a manifest describes. */
  ghost predicate Describes(edits: seq<Edit>, st: Live) {
    && (st.identity <==> edits != [])
    && (forall i :: 0 <= i < |edits| ==> edits[i].replayLog <= st.replayLog)
    && (st.replayLog == 0 || exists i :: 0 <= i < |edits| && edits[i].replayLog == st.replayLog)
    && (forall i :: 0 <= i < |edits| && edits[i].lastSeq.Some? ==> edits[i].lastSeq.value <= st.lastSeq)
    && (st.lastSeq == 0 || exists i :: 0 <= i < |edits| && edits[i].lastSeq == Some(st.lastSeq))
    && (forall n :: n in st.seen <==> Added(edits, n))
    && (forall n :: n in st.tables <==> Added(edits, n) && !Deleted(edits, n))
    && (forall n :: n in st.seenBlobs <==> BlobAdded(edits, n))
    && (forall n :: n in st.blobs <==> BlobAdded(edits, n) && !BlobDeleted(edits, n))
    && (forall n :: (Deleted(edits, n) ==> Added(edits, n)) && (BlobDeleted(edits, n) ==> BlobAdded(edits, n)))
  }

  // ---------------------------------------------------------------------------
  // One list of numbers
  // ---------------------------------------------------------------------------

  lemma FirstOf(ns: seq<nat>)
    requires ns != []
    ensures NoRepeat(ns) <==> ns[0] !in ns[1..] && NoRepeat(ns[1..])
    ensures forall n :: n in ns <==> n == ns[0] || n in ns[1..]
  {
    var rest := ns[1..];
    assert forall i :: 0 <= i < |rest| ==> rest[i] == ns[i + 1];
    if NoRepeat(rest) && ns[0] !in rest {
      forall i, j | 0 <= i < j < |ns| ensures ns[i] != ns[j] {
        assert ns[j] == rest[j - 1];
        assert i > 0 ==> ns[i] == rest[i - 1];
      }
    }
  }

  lemma {:induction false} AddTablesIff(st: Live, ts: seq<TableInfo>)
    ensures AddTables(st, ts).Some? <==> NoRepeat(TableNums(ts)) && forall n :: n in TableNums(ts) ==> n != 0 && n !in st.seen
    ensures AddTables(st, ts).Some? ==>
              var r := AddTables(st, ts).value;
              && r == st.(tables := r.tables, seen := r.seen)
              && (forall n :: n in r.seen <==> n in st.seen || n in TableNums(ts))
              && (forall n :: n in r.tables <==> n in st.tables || n in TableNums(ts))
    decreases |ts|
  {
    hide NoRepeat;
    if ts == [] {
      NoneRepeat();
      assert TableNums(ts) == [];
    } else {
      var t, ns := ts[0], TableNums(ts);
      assert ns[1..] == TableNums(ts[1..]);
      FirstOf(ns);
      AddTablesIff(st.(tables := st.tables[t.num := t], seen := st.seen + {t.num}), ts[1..]);
    }
  }

  lemma NoneRepeat()
    ensures NoRepeat([])
  {
  }

  lemma {:induction false} DropTablesIff(st: Live, ns: seq<nat>)
    ensures DropTables(st, ns).Some? <==> NoRepeat(ns) && forall n :: n in ns ==> n in st.tables
    ensures DropTables(st, ns).Some? ==>
              var r := DropTables(st, ns).value;
              r == st.(tables := r.tables) && forall n :: n in r.tables <==> n in st.tables && n !in ns
    decreases |ns|
  {
    hide NoRepeat;
    if ns == [] {
      NoneRepeat();
    } else {
      FirstOf(ns);
      DropTablesIff(st.(tables := st.tables - {ns[0]}), ns[1..]);
    }
  }

  lemma {:induction false} AddBlobsIff(st: Live, bs: seq<BlobInfo>)
    ensures AddBlobs(st, bs).Some? <==> NoRepeat(BlobNums(bs)) && forall n :: n in BlobNums(bs) ==> n !in st.seenBlobs
    ensures AddBlobs(st, bs).Some? ==>
              var r := AddBlobs(st, bs).value;
              && r == st.(blobs := r.blobs, seenBlobs := r.seenBlobs)
              && (forall n :: n in r.seenBlobs <==> n in st.seenBlobs || n in BlobNums(bs))
              && (forall n :: n in r.blobs <==> n in st.blobs || n in BlobNums(bs))
    decreases |bs|
  {
    hide NoRepeat;
    if bs == [] {
      NoneRepeat();
      assert BlobNums(bs) == [];
    } else {
      var b, ns := bs[0], BlobNums(bs);
      assert ns[1..] == BlobNums(bs[1..]);
      FirstOf(ns);
      AddBlobsIff(st.(blobs := st.blobs[b.num := b], seenBlobs := st.seenBlobs + {b.num}), bs[1..]);
    }
  }

  lemma {:induction false} DropBlobsIff(st: Live, ns: seq<nat>)
    ensures DropBlobs(st, ns).Some? <==> NoRepeat(ns) && forall n :: n in ns ==> n in st.blobs
    ensures DropBlobs(st, ns).Some? ==>
              var r := DropBlobs(st, ns).value;
              r == st.(blobs := r.blobs) && forall n :: n in r.blobs <==> n in st.blobs && n !in ns
    decreases |ns|
  {
    hide NoRepeat;
    if ns == [] {
      NoneRepeat();
    } else {
      FirstOf(ns);
      DropBlobsIff(st.(blobs := st.blobs - {ns[0]}), ns[1..]);
    }
  }

  // ---------------------------------------------------------------------------
  // One edit, and a whole manifest
  // ---------------------------------------------------------------------------

  lemma Longer(edits: seq<Edit>, e: Edit, n: nat)
    ensures Added(edits + [e], n) <==> Added(edits, n) || n in TableNums(e.added)
    ensures Deleted(edits + [e], n) <==> Deleted(edits, n) || n in e.deleted
    ensures BlobAdded(edits + [e], n) <==> BlobAdded(edits, n) || n in BlobNums(e.addedBlobs)
    ensures BlobDeleted(edits + [e], n) <==> BlobDeleted(edits, n) || n in e.deletedBlobs
  {
    var more := edits + [e];
    assert more[|edits|] == e && forall i :: 0 <= i < |edits| ==> more[i] == edits[i];
  }

  /** The numbers of one edit, against a state. */
  ghost predicate Fits(st: Live, e: Edit) {
    && (e.identity <==> !st.identity) && (e.replayLog == 0 || st.replayLog <= e.replayLog)
    && NoRepeat(TableNums(e.added)) && (forall n :: n in TableNums(e.added) ==> n != 0 && n !in st.seen)
    && NoRepeat(e.deleted) && (forall n :: n in e.deleted ==> n in st.tables || n in TableNums(e.added))
    && NoRepeat(BlobNums(e.addedBlobs)) && (forall n :: n in BlobNums(e.addedBlobs) ==> n !in st.seenBlobs)
    && NoRepeat(e.deletedBlobs) && (forall n :: n in e.deletedBlobs ==> n in st.blobs || n in BlobNums(e.addedBlobs))
  }

  lemma ApplyIff(st: Live, e: Edit)
    ensures ApplyEdit(st, e).Some? <==> Fits(st, e)
    ensures ApplyEdit(st, e).Some? ==>
              var r := ApplyEdit(st, e).value;
              && r.identity
              && r.lastSeq == (if e.lastSeq.Some? && e.lastSeq.value > st.lastSeq then e.lastSeq.value else st.lastSeq)
              && r.replayLog == (if e.replayLog != 0 then e.replayLog else st.replayLog)
              && (forall n :: n in r.seen <==> n in st.seen || n in TableNums(e.added))
              && (forall n :: n in r.tables <==> (n in st.tables || n in TableNums(e.added)) && n !in e.deleted)
              && (forall n :: n in r.seenBlobs <==> n in st.seenBlobs || n in BlobNums(e.addedBlobs))
              && (forall n :: n in r.blobs <==> (n in st.blobs || n in BlobNums(e.addedBlobs)) && n !in e.deletedBlobs)
  {
    hide NoRepeat, AddTables, DropTables, AddBlobs, DropBlobs;
    if (e.identity <==> !st.identity) && (e.replayLog == 0 || st.replayLog <= e.replayLog) {
      var st1 := st.(identity := true, lastSeq := if e.lastSeq.Some? then Max(st.lastSeq, e.lastSeq.value) else st.lastSeq,
                     replayLog := if e.replayLog != 0 then e.replayLog else st.replayLog);
      AddTablesIff(st1, e.added);
      var st2 := AddTables(st1, e.added);
      if st2.Some? {
        DropTablesIff(st2.value, e.deleted);
        var st3 := DropTables(st2.value, e.deleted);
        if st3.Some? {
          AddBlobsIff(st3.value, e.addedBlobs);
          var st4 := AddBlobs(st3.value, e.addedBlobs);
          if st4.Some? {
            DropBlobsIff(st4.value, e.deletedBlobs);
          }
        }
      }
    }
  }

  lemma {:induction false} FoldLast(st: Live, edits: seq<Edit>, e: Edit)
    ensures Fold(st, edits + [e]) == if Fold(st, edits).None? then None else ApplyEdit(Fold(st, edits).value, e)
    decreases |edits|
  {
    hide ApplyEdit;
    if edits == [] {
      assert edits + [e] == [e] && [e][1..] == [];
    } else {
      assert (edits + [e])[1..] == edits[1..] + [e];
      var next := ApplyEdit(st, edits[0]);
      if next.Some? {
        FoldLast(next.value, edits[1..], e);
      }
    }
  }

  /** In a state its edits describe, what fits is what may follow. */
  lemma FitsIffFollows(edits: seq<Edit>, st: Live, e: Edit)
    requires Describes(edits, st)
    ensures Fits(st, e) <==> MayFollow(edits, e)
  {
    hide NoRepeat, Added, Deleted, BlobAdded, BlobDeleted;
  }

  lemma DescribesNext(edits: seq<Edit>, st: Live, e: Edit)
    requires Describes(edits, st) && ApplyEdit(st, e).Some?
    ensures Describes(edits + [e], ApplyEdit(st, e).value)
  {
    hide NoRepeat, Added, Deleted, BlobAdded, BlobDeleted, ApplyEdit;
    ApplyIff(st, e);
    var more, r := edits + [e], ApplyEdit(st, e).value;
    assert more[|edits|] == e && forall i :: 0 <= i < |edits| ==> more[i] == edits[i];
    forall n {
      Longer(edits, e, n);
    }
    MarksNext(edits, st, e, r);
  }

  lemma MarksNext(edits: seq<Edit>, st: Live, e: Edit, r: Live)
    requires (forall i :: 0 <= i < |edits| ==> edits[i].replayLog <= st.replayLog) && (e.replayLog == 0 || st.replayLog <= e.replayLog)
    requires st.replayLog == 0 || exists i :: 0 <= i < |edits| && edits[i].replayLog == st.replayLog
    requires forall i :: 0 <= i < |edits| && edits[i].lastSeq.Some? ==> edits[i].lastSeq.value <= st.lastSeq
    requires st.lastSeq == 0 || exists i :: 0 <= i < |edits| && edits[i].lastSeq == Some(st.lastSeq)
    requires r.lastSeq == if e.lastSeq.Some? && e.lastSeq.value > st.lastSeq then e.lastSeq.value else st.lastSeq
    requires r.replayLog == if e.replayLog != 0 then e.replayLog else st.replayLog
    ensures var more := edits + [e];
            && (forall i :: 0 <= i < |more| ==> more[i].replayLog <= r.replayLog)
            && (r.replayLog == 0 || exists i :: 0 <= i < |more| && more[i].replayLog == r.replayLog)
            && (forall i :: 0 <= i < |more| && more[i].lastSeq.Some? ==> more[i].lastSeq.value <= r.lastSeq)
            && (r.lastSeq == 0 || exists i :: 0 <= i < |more| && more[i].lastSeq == Some(r.lastSeq))
  {
    var more := edits + [e];
    assert more[|edits|] == e && forall i :: 0 <= i < |edits| ==> more[i] == edits[i];
    if r.replayLog != 0 && e.replayLog == 0 {
      var i :| 0 <= i < |edits| && edits[i].replayLog == st.replayLog;
      assert more[i].replayLog == r.replayLog;
    }
    if r.lastSeq != 0 && r.lastSeq == st.lastSeq {
      var i :| 0 <= i < |edits| && edits[i].lastSeq == Some(st.lastSeq);
      assert more[i].lastSeq == Some(r.lastSeq);
    }
  }

  lemma ReplayableNext(edits: seq<Edit>, e: Edit)
    ensures Replayable(edits + [e]) <==> Replayable(edits) && MayFollow(edits, e)
  {
    hide MayFollow;
    var more := edits + [e];
    assert more[|edits|] == e && more[..|edits|] == edits;
    forall i | 0 <= i < |edits| ensures more[i] == edits[i] && more[..i] == edits[..i] {
    }
  }

  /** Replay succeeds exactly on a manifest whose edits may follow one another, and gives the state they describe. */
  lemma {:induction false} ReplaySucceedsIff(edits: seq<Edit>)
    ensures Fold(FRESH, edits).Some? <==> Replayable(edits)
    ensures Fold(FRESH, edits).Some? ==> Describes(edits, Fold(FRESH, edits).value)
    decreases |edits|
  {
    hide MayFollow, Fits, Describes, ApplyEdit, Fold, Replayable;
    if edits == [] {
      Nothing();
    } else {
      var front, e := edits[..|edits|-1], edits[|edits|-1];
      assert edits == front + [e];
      ReplaySucceedsIff(front);
      FoldLast(FRESH, front, e);
      ReplayableNext(front, e);
      if Fold(FRESH, front).Some? {
        var st := Fold(FRESH, front).value;
        FitsIffFollows(front, st, e);
        ApplyIff(st, e);
        if ApplyEdit(st, e).Some? {
          DescribesNext(front, st, e);
        }
      }
    }
  }

  lemma Nothing()
    ensures Fold(FRESH, []) == Some(FRESH) && Replayable([]) && Describes([], FRESH)
  {
  }

  /** The edit every flush and compaction writes applies to any live state: new numbers join, live ones leave. */
  lemma TableChangeApplies(edits: seq<Edit>, e: Edit)
    requires Fold(FRESH, edits).Some? && edits != [] && e == EMPTY.(lastSeq := e.lastSeq, added := e.added, deleted := e.deleted)
    requires NoRepeat(TableNums(e.added)) && forall n :: n in TableNums(e.added) ==> n > 0 && n !in Fold(FRESH, edits).value.seen
    requires NoRepeat(e.deleted) && forall n :: n in e.deleted ==> n in Fold(FRESH, edits).value.tables
    ensures Fold(FRESH, edits + [e]).Some?
    ensures forall n :: n in Fold(FRESH, edits + [e]).value.tables
              <==> (n in Fold(FRESH, edits).value.tables || n in TableNums(e.added)) && n !in e.deleted
  {
    hide Fold, ApplyEdit, NoRepeat, Describes;
    ReplaySucceedsIff(edits);
    assert Fold(FRESH, edits).value.identity by { HasIdentity(edits, Fold(FRESH, edits).value); }
    FoldLast(FRESH, edits, e);
    NoneRepeat();
    assert BlobNums([]) == [];
    ApplyIff(Fold(FRESH, edits).value, e);
  }

  lemma HasIdentity(edits: seq<Edit>, st: Live)
    requires Describes(edits, st) && edits != []
    ensures st.identity
  {
  }

  /** replayManifestFile over the decoded edits; a manifest must carry its identity. */
  method ReplayManifest(edits: seq<Edit>) returns (r: Option<Live>)
    ensures r == if Fold(FRESH, edits).Some? && Fold(FRESH, edits).value.identity then Fold(FRESH, edits) else None
    ensures r.Some? <==> edits != [] && Replayable(edits)
    ensures r.Some? ==> Describes(edits, r.value)
  {
    hide ApplyEdit, Replayable, Describes;
    ReplaySucceedsIff(edits);
    IdentityIff(edits);
    var st := FRESH;
    for i := 0 to |edits|
      invariant Fold(FRESH, edits) == Fold(st, edits[i..])
    {
      assert edits[i..][0] == edits[i] && edits[i..][1..] == edits[i + 1..];
      var next := ApplyEdit(st, edits[i]);
      if next.None? {
        return None;
      }
      st := next.value;
    }
    r := if st.identity then Some(st) else None;
  }

  lemma IdentityIff(edits: seq<Edit>)
    ensures Fold(FRESH, edits).Some? ==> (Fold(FRESH, edits).value.identity <==> edits != [])
  {
    ReplaySucceedsIff(edits);
  }
}
