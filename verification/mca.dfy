/** The alignment of matching blocks in llvm/utils/update_mca_test_checks.py. */
module McaBlocks {

  type Text = string

  /** The nonempty blocks, in order. */
  function Solid(bs: seq<Text>): seq<Text> {
    if bs == [] then []
    else Solid(bs[..|bs| - 1]) + if bs[|bs| - 1] != "" then [bs[|bs| - 1]] else []
  }

  /** How many nonempty blocks directly follow a nonempty block. */
  function Pairs(bs: seq<Text>): nat {
    if |bs| < 2 then 0
    else Pairs(bs[..|bs| - 1]) + if bs[|bs| - 2] != "" && bs[|bs| - 1] != "" then 1 else 0
  }

  function Empties(n: nat): (s: seq<Text>)
    ensures |s| == n
  {
    seq(n, _ => "")
  }

  lemma {:induction false} SolidConcat(a: seq<Text>, b: seq<Text>)
    ensures Solid(a + b) == Solid(a) + Solid(b)
    decreases |b|
  {
    if b == [] {
      assert a + b == a;
    } else {
      var n := |b| - 1;
      SolidConcat(a, b[..n]);
      assert (a + b)[..|a| + n] == a + b[..n];
    }
  }

  lemma {:induction false} PairsConcat(a: seq<Text>, b: seq<Text>)
    requires a != [] && b != []
    ensures Pairs(a + b) == Pairs(a) + Pairs(b) + if a[|a| - 1] != "" && b[0] != "" then 1 else 0
    decreases |b|
  {
    var n := |b| - 1;
    assert (a + b)[..|a| + n] == a + b[..n];
    if n > 0 {
      PairsConcat(a, b[..n]);
    } else {
      assert a + b[..0] == a;
    }
  }

  lemma {:induction false} EmptiesAreNothing(n: nat)
    ensures Solid(Empties(n)) == [] && Pairs(Empties(n)) == 0
  {
    if n > 0 {
      EmptiesAreNothing(n - 1);
      assert Empties(n)[..n - 1] == Empties(n - 1);
    }
  }

  /** n empty blocks before the k-th block. */
  function Insert(bs: seq<Text>, k: nat, n: nat): seq<Text>
    requires k <= |bs|
  {
    bs[..k] + Empties(n) + bs[k..]
  }

  /** Empty blocks between two nonempty ones keep all nonempty blocks, in order, and separate
      exactly that pair. */
  lemma InsertSeparates(bs: seq<Text>, k: nat, n: nat)
    requires 0 < k < |bs| && bs[k - 1] != "" && bs[k] != "" && n > 0
    ensures Solid(Insert(bs, k, n)) == Solid(bs) && Pairs(Insert(bs, k, n)) == Pairs(bs) - 1
  {
    var a, e, b := bs[..k], Empties(n), bs[k..];
    assert bs == a + b;
    EmptiesAreNothing(n);
    SolidConcat(a, b);
    SolidConcat(a, e);
    SolidConcat(a + e, b);
    assert Solid(a) + [] == Solid(a);
    PairsConcat(a, b);
    PairsConcat(a, e);
    PairsConcat(a + e, b);
    assert (a + e)[|a + e| - 1] == "" && e[0] == "";
  }

  function TotalPairs(lists: seq<seq<Text>>): nat {
    if lists == [] then 0 else TotalPairs(lists[..|lists| - 1]) + Pairs(lists[|lists| - 1])
  }

  lemma {:induction false} TotalUpdate(lists: seq<seq<Text>>, i: nat, bs: seq<Text>)
    requires i < |lists|
    ensures TotalPairs(lists[i := bs]) == TotalPairs(lists) - Pairs(lists[i]) + Pairs(bs)
    decreases |lists|
  {
    var n := |lists| - 1;
    if i < n {
      TotalUpdate(lists[..n], i, bs);
      assert lists[i := bs][..n] == lists[..n][i := bs];
    } else {
      assert lists[i := bs][..n] == lists[..n];
    }
  }

  /** The first index of a block that occurs. */
  function First(bs: seq<Text>, b: Text): (k: nat)
    requires b in bs
    ensures k < |bs| && bs[k] == b && b !in bs[..k]
  {
    if bs[0] == b then 0 else 1 + First(bs[1..], b)
  }

  function Farthest(farthest: map<Text, nat>, b: Text): nat {
    if b in farthest then farthest[b] else 0
  }

  /** No first index of a block is beyond the recorded one. */
  ghost predicate Known(bs: seq<Text>, farthest: map<Text, nat>) {
    forall b :: b in bs && b != "" ==> First(bs, b) <= Farthest(farthest, b)
  }

  /** A block can be moved when it directly follows a nonempty block and is not as far behind as it
      is in another list. */
  predicate Movable(bs: seq<Text>, farthest: map<Text, nat>, k: nat) {
    0 < k < |bs| && bs[k] != "" && bs[k - 1] != "" && k < Farthest(farthest, bs[k])
  }

  ghost predicate NotLess(f: map<Text, nat>, g: map<Text, nat>) {
    forall b :: Farthest(f, b) <= Farthest(g, b)
  }

  lemma NothingKnown(f: map<Text, nat>)
    ensures NotLess(f, f)
    ensures forall bs: seq<Text> :: Known(bs[..0], f)
  {
  }

  lemma RaiseKnown(bs: seq<Text>, f: map<Text, nat>, g: map<Text, nat>)
    requires Known(bs, f) && NotLess(f, g)
    ensures Known(bs, g)
  {
    hide First, Farthest;
    forall b | b in bs && b != ""
      ensures First(bs, b) <= Farthest(g, b)
    {
      assert First(bs, b) <= Farthest(f, b) <= Farthest(g, b);
    }
  }

  lemma FirstUnique(bs: seq<Text>, b: Text, k: nat)
    requires k < |bs| && bs[k] == b && b !in bs[..k]
    ensures First(bs, b) == k
  {
    var m := First(bs, b);
    assert !(m < k) && !(k < m);
  }

  /** Looking in a longer list finds the same first index. */
  lemma FirstKept(bs: seq<Text>, k: nat, b: Text)
    requires k < |bs| && b in bs[..k]
    ensures b in bs[..k + 1] && First(bs[..k + 1], b) == First(bs[..k], b)
  {
    hide First;
    var c, n := bs[..k + 1], First(bs[..k], b);
    assert c[..n] == bs[..k][..n] && c[n] == bs[..k][n];
    FirstUnique(c, b, n);
  }

  lemma FirstOfPrefix(bs: seq<Text>, k: nat)
    requires k < |bs|
    ensures bs[k] in bs[..k + 1] && First(bs, bs[k]) == First(bs[..k + 1], bs[k])
  {
    hide First;
    var c := bs[..k + 1];
    assert c[k] == bs[k];
    var m := First(c, bs[k]);
    assert c[..m] == bs[..m];
    FirstUnique(bs, bs[k], m);
  }

  lemma NextKnown(bs: seq<Text>, k: nat, f: map<Text, nat>)
    requires k < |bs| && Known(bs[..k], f)
    requires bs[k] != "" ==> First(bs, bs[k]) <= Farthest(f, bs[k])
    ensures Known(bs[..k + 1], f)
  {
    hide First, Farthest;
    FirstOfPrefix(bs, k);
    forall b | b in bs[..k + 1] && b != ""
      ensures First(bs[..k + 1], b) <= Farthest(f, b)
    {
      if b in bs[..k] {
        FirstKept(bs, k, b);
      } else {
        InPrefix(bs, k, b);
      }
    }
  }

  lemma InPrefix(bs: seq<Text>, k: nat, b: Text)
    requires k < |bs| && b in bs[..k + 1] && b !in bs[..k]
    ensures b == bs[k]
  {
    assert bs[..k + 1] == bs[..k] + [bs[k]];
  }

  class Aligner {
    var allBlocks: seq<seq<Text>>
    var farthest: map<Text, nat>

    constructor ()
      ensures allBlocks == [] && farthest == map[]
    {
      allBlocks, farthest := [], map[];
    }

    /** Record how far behind each block is, over all lists. */
    method FindFarthest()
      modifies this`farthest
      ensures forall i :: 0 <= i < |allBlocks| ==> Known(allBlocks[i], farthest)
    {
      hide Known;
      for i := 0 to |allBlocks|
        invariant forall j :: 0 <= j < i ==> Known(allBlocks[j], farthest)
      {
        ghost var before := farthest;
        var blocks := allBlocks[i];
        NothingKnown(farthest);
        for k := 0 to |blocks|
          invariant Known(blocks[..k], farthest) && NotLess(before, farthest)
        {
          var block := blocks[k];
          if block != "" {
            var index := First(blocks, block);
            FirstOfPrefix(blocks, k);
            if index > Farthest(farthest, block) {
              RaiseKnown(blocks[..k], farthest, farthest[block := index]);
              farthest := farthest[block := index];
            }
          }
          NextKnown(blocks, k, farthest);
        }
        assert blocks[..|blocks|] == blocks;
        forall j | 0 <= j < i
          ensures Known(allBlocks[j], farthest)
        {
          RaiseKnown(allBlocks[j], before, farthest);
        }
      }
    }

    /** Move the first block that can be moved, by inserting empty blocks before it. */
    method AlignMatchingBlocks() returns (changed: bool)
      modifies this
      ensures |allBlocks| == |old(allBlocks)|
      ensures forall i :: 0 <= i < |allBlocks| ==> Solid(allBlocks[i]) == Solid(old(allBlocks)[i])
      ensures changed ==> TotalPairs(allBlocks) == TotalPairs(old(allBlocks)) - 1
      ensures !changed ==> allBlocks == old(allBlocks)
      ensures !changed ==> forall i :: 0 <= i < |allBlocks| ==> Known(allBlocks[i], farthest)
      ensures !changed ==> forall i, k: nat :: 0 <= i < |allBlocks| ==> !Movable(allBlocks[i], farthest, k)
    {
      hide First, Solid, Pairs, Insert;
      FindFarthest();
      ghost var f := farthest;
      for i := 0 to |allBlocks|
        invariant allBlocks == old(allBlocks) && farthest == f
        invariant forall j :: 0 <= j < |allBlocks| ==> Known(allBlocks[j], farthest)
        invariant forall j, k: nat :: 0 <= j < i ==> !Movable(allBlocks[j], farthest, k)
      {
        var blocks := allBlocks[i];
        for k := 0 to |blocks|
          invariant allBlocks == old(allBlocks) && farthest == f
          invariant forall m: nat :: m < k ==> !Movable(blocks, farthest, m)
        {
          var block := blocks[k];
          if block != "" && k > 0 && blocks[k - 1] != "" {
            var moved := MoveTo(blocks, k, Farthest(farthest, block));
            if moved != blocks {
              InsertSeparates(blocks, k, Farthest(farthest, block) - k);
              TotalUpdate(allBlocks, i, moved);
              allBlocks := allBlocks[i := moved];
              return true;
            }
          }
        }
      }
      return false;
    }

    /** Insert empty blocks one by one until the k-th block is at the given index. */
    method MoveTo(blocks0: seq<Text>, k: nat, target: nat) returns (blocks: seq<Text>)
      requires k < |blocks0|
      ensures if k < target then blocks == Insert(blocks0, k, target - k) && blocks != blocks0 else blocks == blocks0
    {
      blocks := blocks0;
      var index := k;
      assert blocks == Insert(blocks0, k, 0);
      while index < target
        invariant k <= index && (index <= target || index == k) && blocks == Insert(blocks0, k, index - k)
      {
        InsertOne(blocks0, k, index - k);
        blocks := blocks[..index] + [""] + blocks[index..];
        index := index + 1;
      }
      assert |blocks| == |blocks0| + (index - k);
    }

    /** Align until no block can be moved: every change separates two adjacent blocks for good, so
        that this terminates. */
    method AlignAll()
      modifies this
      ensures |allBlocks| == |old(allBlocks)|
      ensures forall i :: 0 <= i < |allBlocks| ==> Solid(allBlocks[i]) == Solid(old(allBlocks)[i])
      ensures forall i :: 0 <= i < |allBlocks| ==> Known(allBlocks[i], farthest)
      ensures forall i, k: nat :: 0 <= i < |allBlocks| ==> !Movable(allBlocks[i], farthest, k)
    {
      var madeChanges := true;
      while madeChanges
        invariant |allBlocks| == |old(allBlocks)|
        invariant forall i :: 0 <= i < |allBlocks| ==> Solid(allBlocks[i]) == Solid(old(allBlocks)[i])
        invariant !madeChanges ==> forall i :: 0 <= i < |allBlocks| ==> Known(allBlocks[i], farthest)
        invariant !madeChanges ==> forall i, k: nat :: 0 <= i < |allBlocks| ==> !Movable(allBlocks[i], farthest, k)
        decreases TotalPairs(allBlocks), madeChanges
      {
        madeChanges := AlignMatchingBlocks();
      }
    }
  }

  lemma InsertOne(bs: seq<Text>, k: nat, n: nat)
    requires k <= |bs|
    ensures var s := Insert(bs, k, n); s[..k + n] + [""] + s[k + n..] == Insert(bs, k, n + 1)
  {
    var s := Insert(bs, k, n);
    assert s[..k + n] == bs[..k] + Empties(n) && s[k + n..] == bs[k..];
    assert Empties(n) + [""] == Empties(n + 1);
    assert bs[..k] + Empties(n) + [""] == bs[..k] + (Empties(n) + [""]);
  }

  /** In the end, a block that directly follows a nonempty block is in no other list first found
      further behind. */
  lemma Settled(lists: seq<seq<Text>>, farthest: map<Text, nat>, i: nat, j: nat, k: nat)
    requires forall i :: 0 <= i < |lists| ==> Known(lists[i], farthest)
    requires forall i, k: nat :: 0 <= i < |lists| ==> !Movable(lists[i], farthest, k)
    requires i < |lists| && j < |lists| && 0 < k < |lists[i]| && lists[i][k - 1] != "" && lists[i][k] != ""
    ensures lists[i][k] in lists[j] ==> First(lists[j], lists[i][k]) <= k
  {
    assert !Movable(lists[i], farthest, k);
    assert Known(lists[j], farthest);
  }
}
