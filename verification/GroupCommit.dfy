/** What every step of the commit protocol keeps, over all interleavings. */
module GroupCommit {
  import opened Log
  import opened WriteAhead

  /** Every sequence in the journal is at most what the session has reserved for it. */
  lemma HistBelow(s: State, i: nat)
    requires SessionOk(s) && i < |Hist(s)|
    ensures SqnOf(Hist(s)[i]) <= s.c.base + |Hist(s)| - s.c.head <= s.c.walSeq
    ensures i >= s.c.head ==> SqnOf(Hist(s)[i]) == s.c.base + 1 + i - s.c.head
  {
    hide Flat, BatchOk, SqnOf, Unwritten;
    if i >= s.c.head {
      assert Hist(s)[s.c.head..][i - s.c.head] == Hist(s)[i];
    }
  }

  lemma EnqueueKeeps(s: State, s': State, b: Batch)
    requires CommitOk(s) && Enqueue(s, s', b)
    ensures CommitOk(s')
  {
    hide Flat, LogOk, SqnOf, BatchOk, Tail, Chain;
    if !s.c.poisoned {
      assert Unwritten(s') == Unwritten(s) + [b];
      FlatConcat(Unwritten(s), [b]);
      FlatOne(b);
      ChainSplits(Flat(Unwritten(s)), b, s.c.base + |Hist(s)| - s.c.head);
    } else {
      assert Unwritten(s') == Unwritten(s);
    }
  }

  lemma TakeKeeps(s: State, s': State)
    requires CommitOk(s) && Take(s, s')
    ensures CommitOk(s')
  {
    hide Flat, LogOk, SqnOf, BatchOk;
    if s.c.pending == [] {
      assert Unwritten(s') == Unwritten(s);
    } else if s.c.poisoned {
      assert Unwritten(s') == [];
    } else {
      assert Unwritten(s') == Unwritten(s);
      assert s.c.written[|s.c.written|..] == [] && s.c.pending[..0] == [];
      assert s.c.written[..|s.c.written|] == s.c.written;
    }
  }

  /** A chained batch appended to the journal leaves it a log. */
  lemma LogExtends(log: seq<Change>, b: Batch, n: nat)
    requires LogOk(log) && BatchOk(b) && Chain(b, n)
    requires forall i :: 0 <= i < |log| ==> SqnOf(log[i]) <= n
    ensures LogOk(log + b)
  {
    hide SqnOf, ChangeOk;
    var all := log + b;
    forall i | 0 <= i < |all| ensures ChangeOk(all[i]) {
      assert i >= |log| ==> all[i] == b[i - |log|];
    }
    forall i, j | 0 <= i < j < |all| ensures SqnOf(all[i]) < SqnOf(all[j]) {
      if j >= |log| {
        assert all[j] == b[j - |log|];
        assert i >= |log| ==> all[i] == b[i - |log|];
      }
    }
  }

  lemma ChainSplits(a: seq<Change>, b: seq<Change>, lo: nat)
    ensures Chain(a + b, lo) <==> Chain(a, lo) && Chain(b, lo + |a|)
  {
    hide SqnOf;
    if Chain(a, lo) && Chain(b, lo + |a|) {
      forall i | 0 <= i < |a + b| ensures SqnOf((a + b)[i]) == lo + 1 + i {
        assert i >= |a| ==> (a + b)[i] == b[i - |a|];
      }
    }
    if Chain(a + b, lo) {
      forall i | 0 <= i < |a| ensures SqnOf(a[i]) == lo + 1 + i {
        assert (a + b)[i] == a[i];
      }
      forall i | 0 <= i < |b| ensures SqnOf(b[i]) == lo + |a| + 1 + i {
        assert (a + b)[|a| + i] == b[i];
      }
    }
  }

  /** Writing one batch: what the journal and the queue become. */
  lemma WriteMoves(s: State, s': State, b: Batch)
    requires CommitOk(s) && WriteBatch(s, s') && b == s.c.phase.group[s.c.phase.done]
    ensures Hist(s') == Hist(s) + b && Unwritten(s) == [b] + Unwritten(s')
    ensures Flat(Unwritten(s)) == b + Flat(Unwritten(s')) && Durable(s') == Durable(s)
    ensures BatchOk(b) && Chain(b, s.c.base + |Hist(s)| - s.c.head)
    ensures Chain(Flat(Unwritten(s')), s.c.base + |Hist(s)| - s.c.head + |b|)
  {
    hide Flat, LogOk, SqnOf, BatchOk, Chain, JournalOk, ReadOk, AckedOk;
    FlatConcat(s.c.written, [b]);
    FlatOne(b);
    assert Unwritten(s) == [b] + Unwritten(s');
    FlatConcat([b], Unwritten(s'));
    assert s'.c.written[..s.c.synced] == s.c.written[..s.c.synced];
    assert b == Unwritten(s)[0];
    ChainSplits(b, Flat(Unwritten(s')), s.c.base + |Hist(s)| - s.c.head);
  }

  lemma WriteBatchKeeps(s: State, s': State)
    requires CommitOk(s) && WriteBatch(s, s')
    ensures CommitOk(s')
  {
    hide Flat, LogOk, SqnOf, BatchOk, Chain;
    var b := s.c.phase.group[s.c.phase.done];
    WriteMoves(s, s', b);
    forall i | 0 <= i < |Hist(s)| ensures SqnOf(Hist(s)[i]) <= s.c.base + |Hist(s)| - s.c.head {
      HistBelow(s, i);
    }
    LogExtends(Hist(s), b, s.c.base + |Hist(s)| - s.c.head);
    assert Hist(s')[s.c.head..] == Hist(s)[s.c.head..] + b;
    ChainSplits(Hist(s)[s.c.head..], b, s.c.base);
    ChainPositive(b, s.c.base + |Hist(s)| - s.c.head);
    assert Hist(s')[..s.c.applied] == Hist(s)[..s.c.applied];
    var g, n := s.c.phase.group, s.c.phase.done;
    assert g[..n + 1] == g[..n] + [b];
    assert Tail(s'.c.written, g[..n + 1]);
    forall i | 0 <= i < |Unwritten(s')| ensures BatchOk(Unwritten(s')[i]) {
      assert Unwritten(s')[i] == Unwritten(s)[i + 1];
    }
  }

  lemma ChainPositive(b: seq<Change>, n: nat)
    requires Chain(b, n)
    ensures forall i :: 0 <= i < |b| ==> SqnOf(b[i]) > n
  {
  }

  lemma QueueOk(s: State)
    requires SessionOk(s)
    ensures forall i :: 0 <= i < |s.c.pending| ==> BatchOk(s.c.pending[i])
  {
    hide Flat, SqnOf, BatchOk, Chain;
    var k := |Unwritten(s)| - |s.c.pending|;
    forall i | 0 <= i < |s.c.pending| ensures BatchOk(s.c.pending[i]) {
      assert s.c.pending[i] == Unwritten(s)[k + i];
    }
  }

  lemma WriteFailsKeeps(s: State, s': State)
    requires CommitOk(s) && WriteFails(s, s')
    ensures CommitOk(s')
  {
    hide Flat, LogOk, SqnOf, BatchOk, Chain;
    assert Unwritten(s') == s.c.pending;
    QueueOk(s);
  }

  lemma SyncGroupKeeps(s: State, s': State)
    requires CommitOk(s) && SyncGroup(s, s')
    ensures CommitOk(s')
  {
    hide Flat, LogOk, SqnOf, BatchOk, Chain;
    assert Unwritten(s') == Unwritten(s);
    assert s.c.phase.group[..s.c.phase.done] == s.c.phase.group;
    assert s.c.written[..|s.c.written|] == s.c.written;
  }

  lemma ApplyOneKeeps(s: State, s': State)
    requires CommitOk(s) && ApplyOne(s, s')
    ensures CommitOk(s')
  {
    hide Flat, LogOk, SqnOf, BatchOk, Chain;
    assert Unwritten(s') == Unwritten(s);
    assert s.c.written[..|s.c.written|] == s.c.written;
    assert forall c :: c in Hist(s)[..s.c.applied] ==> c in Hist(s)[..s.c.applied + 1];
  }

  lemma PublishKeeps(s: State, s': State, k: nat)
    requires CommitOk(s) && Publish(s, s', k)
    ensures CommitOk(s')
  {
    hide Flat, LogOk, SqnOf, BatchOk, Chain;
    assert Unwritten(s') == Unwritten(s);
    var b := s.c.written[k-1];
    PublishedIsLast(s.c.written, k);
    HistBelow(s, s.c.applied - 1);
    LogAscends(Hist(s));
  }

  lemma LogAscends(log: seq<Change>)
    requires LogOk(log)
    ensures forall i, j :: 0 <= i < j < |log| ==> SqnOf(log[i]) < SqnOf(log[j])
  {
  }

  lemma PublishedIsLast(bs: seq<Batch>, k: nat)
    requires 0 < k <= |bs| && bs[k-1] != []
    ensures 0 < |Flat(bs[..k])| <= |Flat(bs)| && Flat(bs)[|Flat(bs[..k])| - 1] == bs[k-1][|bs[k-1]|-1]
  {
    hide Flat;
    FlatPrefix(bs, k);
    assert bs[..k][..k-1] == bs[..k-1] && bs[..k][k-1..] == [bs[k-1]];
    FlatPrefix(bs[..k], k - 1);
    FlatOne(bs[k-1]);
  }

  lemma ApplyFailsKeeps(s: State, s': State)
    requires CommitOk(s) && ApplyFails(s, s')
    ensures CommitOk(s')
  {
    hide Flat, LogOk, SqnOf, BatchOk, Chain;
    assert Unwritten(s') == Unwritten(s);
  }

  lemma FinishApplyKeeps(s: State, s': State)
    requires CommitOk(s) && FinishApply(s, s')
    ensures CommitOk(s')
  {
    hide Flat, LogOk, SqnOf, BatchOk, Chain;
    assert Unwritten(s') == Unwritten(s);
    LogAscends(Hist(s));
  }

  lemma AckKeeps(s: State, s': State, observed: bool)
    requires CommitOk(s) && Ack(s, s', observed)
    ensures CommitOk(s')
  {
    hide Flat, LogOk, SqnOf, BatchOk, Chain;
    assert Unwritten(s') == Unwritten(s);
    if s.c.phase.done < |s.c.phase.group| {
      var k := |s.c.written| - |s.c.phase.group| + s.c.phase.done;
      assert s.c.written[k] == s.c.phase.group[s.c.phase.done];
      forall c | c in s.c.phase.group[s.c.phase.done] ensures c in Hist(s)[..s.c.applied] {
        FlatMember(s.c.written, k, c);
      }
    }
  }

  /** Every step of the protocol keeps it, whoever takes it. */
  lemma CommitStepKeeps(s: State, s': State)
    requires CommitOk(s) && CommitStep(s, s')
    ensures CommitOk(s')
  {
    hide CommitOk, Enqueue, Take, WriteBatch, WriteFails, SyncGroup, ApplyOne, Publish, ApplyFails, FinishApply, Ack;
    if b :| Enqueue(s, s', b) {
      EnqueueKeeps(s, s', b);
    } else if Take(s, s') {
      TakeKeeps(s, s');
    } else if WriteBatch(s, s') {
      WriteBatchKeeps(s, s');
    } else if WriteFails(s, s') {
      WriteFailsKeeps(s, s');
    } else if SyncGroup(s, s') {
      SyncGroupKeeps(s, s');
    } else if ApplyOne(s, s') {
      ApplyOneKeeps(s, s');
    } else if k :| Publish(s, s', k) {
      PublishKeeps(s, s', k);
    } else if ApplyFails(s, s') {
      ApplyFailsKeeps(s, s');
    } else if FinishApply(s, s') {
      FinishApplyKeeps(s, s');
    } else {
      var ok :| Ack(s, s', ok);
      AckKeeps(s, s', ok);
    }
  }
}
