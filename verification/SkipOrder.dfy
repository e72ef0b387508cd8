/** The shape of a skiplist: a row of towers, and the next tower of a given height. */
module SkipOrder {
  /** The first position after `i` whose tower reaches above `level`, or the end. */
  function Next(hs: seq<nat>, i: nat, level: nat): (j: nat)
    requires i < |hs|
    ensures i < j <= |hs| && (j < |hs| ==> hs[j] > level) && forall k :: i < k < j ==> hs[k] <= level
    decreases |hs| - i
  {
    if i + 1 == |hs| || hs[i + 1] > level then i + 1 else Next(hs, i + 1, level)
  }

  lemma NextIs(hs: seq<nat>, i: nat, level: nat, j: nat)
    requires i < |hs| && i < j <= |hs| && (j < |hs| ==> hs[j] > level) && forall k :: i < k < j ==> hs[k] <= level
    ensures Next(hs, i, level) == j
  {
  }

  function Inserted(s: seq<nat>, pos: nat, x: nat): (r: seq<nat>)
    requires pos <= |s|
    ensures |r| == |s| + 1
  {
    s[..pos] + [x] + s[pos..]
  }

  /** How a new tower of height `h` at `pos` changes who follows whom. */
  lemma InsertMovesNext(hs: seq<nat>, pos: nat, h: nat, i: nat, level: nat)
    requires 0 < pos <= |hs| && i < pos
    ensures var j := Next(hs, i, level);
            Next(Inserted(hs, pos, h), i, level) == if j < pos then j else if level < h then pos else j + 1
  {
    var hs', j := Inserted(hs, pos, h), Next(hs, i, level);
    var j' := if j < pos then j else if level < h then pos else j + 1;
    assert forall k :: 0 <= k < pos ==> hs'[k] == hs[k];
    assert hs'[pos] == h && forall k :: pos < k < |hs'| ==> hs'[k] == hs[k - 1];
    NextIs(hs', i, level, j');
  }

  lemma InsertKeepsNext(hs: seq<nat>, pos: nat, h: nat, i: nat, level: nat)
    requires pos <= i < |hs|
    ensures Next(Inserted(hs, pos, h), i + 1, level) == Next(hs, i, level) + 1
  {
    var hs', j := Inserted(hs, pos, h), Next(hs, i, level);
    assert forall k :: pos < k < |hs'| ==> hs'[k] == hs[k - 1];
    NextIs(hs', i + 1, level, j + 1);
  }

  /** The new tower is followed, on each of its levels, by what followed its predecessor there. */
  lemma InsertedNext(hs: seq<nat>, pos: nat, h: nat, i: nat, level: nat)
    requires 0 < pos <= |hs| && i < pos <= Next(hs, i, level)
    ensures Next(Inserted(hs, pos, h), pos, level) == Next(hs, i, level) + 1
  {
    var hs', j := Inserted(hs, pos, h), Next(hs, i, level);
    assert forall k :: pos < k < |hs'| ==> hs'[k] == hs[k - 1];
    NextIs(hs', pos, level, j + 1);
  }

  /** Two towers before `pos` that both look past it on a level are one. */
  lemma OnePredecessor(hs: seq<nat>, pos: nat, i: nat, k: nat, level: nat)
    requires i < pos && k < pos <= |hs| && hs[i] > level && hs[k] > level && Next(hs, i, level) >= pos
    ensures Next(hs, k, level) >= pos ==> i == k
  {
  }

  /** At the bottom level every tower counts. */
  lemma BottomNext(hs: seq<nat>, i: nat)
    requires i < |hs| && forall k :: 0 <= k < |hs| ==> hs[k] > 0
    ensures Next(hs, i, 0) == i + 1
  {
  }
}
