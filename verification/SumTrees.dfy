/**
 The array-backed binary sum tree behind prioritized replay (marl/training/replay_buffer.py).

 The tree is stored level by level: node n has children 2n+1 and 2n+2, and the last
 `capacity` cells are the leaves.  The capacity may be any positive number, so the leaves can lie
 on two levels and their left-to-right order need not be their index order.
 */
module SumTrees {
  import opened Roulette
  import opened Rings
  import opened Arith

  /** Leaf indices below node n, from left to right. */
  function InOrder(capacity: nat, n: nat): (order: seq<nat>)
    requires n < 2 * capacity - 1
    ensures order != []
    ensures forall k | 0 <= k < |order| :: order[k] < capacity
    decreases 2 * capacity - n
  {
    if n >= capacity - 1 then [n - (capacity - 1)]
    else InOrder(capacity, 2 * n + 1) + InOrder(capacity, 2 * n + 2)
  }

  /** The leaf values met when the leaves are visited in the given order. */
  function Weights(leaves: seq<real>, order: seq<nat>): (ws: seq<real>)
    requires forall k | 0 <= k < |order| :: order[k] < |leaves|
    ensures |ws| == |order|
    ensures NonNegative(leaves) ==> NonNegative(ws)
  {
    seq(|order|, k requires 0 <= k < |order| => leaves[order[k]])
  }

  /** The index that a left-to-right roulette scan over the leaves selects for the draw v. */
  function Pick(leaves: seq<real>, v: real): (idx: nat)
    requires leaves != []
    ensures idx < |leaves|
  {
    PickBelow(leaves, 0, v)
  }

  /** The same scan over the leaves below node n only. */
  function PickBelow(leaves: seq<real>, n: nat, v: real): (idx: nat)
    requires n < 2 * |leaves| - 1
    ensures idx < |leaves|
  {
    var order := InOrder(|leaves|, n);
    order[Scan(Weights(leaves, order), v)]
  }

  /** The left-to-right position of the selected leaf. */
  function PickPosition(leaves: seq<real>, v: real): (p: nat)
    requires leaves != []
    ensures p < |InOrder(|leaves|, 0)|
  {
    Scan(Weights(leaves, InOrder(|leaves|, 0)), v)
  }

  // ---- every leaf occurs exactly once, whatever the capacity ----

  /** The leaves below nodes lo, ..., hi-1, when bag[n] has the leaves below node n. */
  function Below(bag: seq<multiset<nat>>, lo: nat, hi: nat): multiset<nat>
    requires lo <= hi <= |bag|
    decreases hi - lo
  {
    if lo == hi then multiset{} else bag[lo] + Below(bag, lo + 1, hi)
  }

  lemma {:induction false} BelowSnoc(bag: seq<multiset<nat>>, lo: nat, hi: nat)
    requires lo <= hi < |bag|
    ensures Below(bag, lo, hi + 1) == Below(bag, lo, hi) + bag[hi]
    decreases hi - lo
  {
    if lo < hi {
      BelowSnoc(bag, lo + 1, hi);
    }
  }

  predicate Splits(bag: seq<multiset<nat>>, n: nat) {
    2 * n + 2 < |bag| && bag[n] == bag[2 * n + 1] + bag[2 * n + 2]
  }

  /** Nodes n, ..., 2n cut the tree across, so together they have all the leaves of the root. */
  lemma {:induction false} CutHasAllLeaves(bag: seq<multiset<nat>>, n: nat)
    requires 2 * n < |bag|
    requires forall k | 0 <= k < n :: Splits(bag, k)
    ensures Below(bag, n, 2 * n + 1) == bag[0]
  {
    if n == 0 {
      assert Below(bag, 1, 1) == multiset{};
    } else {
      CutHasAllLeaves(bag, n - 1);
      assert Splits(bag, n - 1);
      BelowSnoc(bag, n, 2 * n - 1);
      BelowSnoc(bag, n, 2 * n);
    }
  }

  /** A run of one-leaf nodes has exactly the leaves k, ..., capacity-1. */
  lemma {:induction false} LeafCells(bag: seq<multiset<nat>>, capacity: nat, k: nat)
    requires capacity >= 1 && |bag| == 2 * capacity - 1 && k <= capacity
    requires forall i | 0 <= i < capacity :: bag[i + capacity - 1] == multiset{i}
    ensures Below(bag, k + capacity - 1, 2 * capacity - 1) == multiset(seq(capacity - k, i => k + i))
    decreases capacity - k
  {
    if k < capacity {
      LeafCells(bag, capacity, k + 1);
      assert seq(capacity - k, i => k + i) == [k] + seq(capacity - k - 1, i => k + 1 + i);
      assert bag[k + capacity - 1] == multiset{k};
    }
  }

  function Bags(capacity: nat): (bag: seq<multiset<nat>>)
    requires capacity >= 1
    ensures |bag| == 2 * capacity - 1
  {
    seq(2 * capacity - 1, n requires 0 <= n < 2 * capacity - 1 => multiset(InOrder(capacity, n)))
  }

  lemma BagSplits(capacity: nat, n: nat)
    requires n + 1 < capacity
    ensures Splits(Bags(capacity), n)
  {
    assert InOrder(capacity, n) == InOrder(capacity, 2 * n + 1) + InOrder(capacity, 2 * n + 2);
  }

  lemma LeafBag(capacity: nat, i: nat)
    requires i < capacity
    ensures Bags(capacity)[i + capacity - 1] == multiset{i}
  {
    assert InOrder(capacity, i + capacity - 1) == [i];
  }

  lemma InOrderIsPermutation(capacity: nat)
    requires capacity >= 1
    ensures multiset(InOrder(capacity, 0)) == multiset(seq(capacity, i => i))
    ensures |InOrder(capacity, 0)| == capacity
  {
    var bag := Bags(capacity);
    forall n | 0 <= n < capacity - 1 ensures Splits(bag, n) {
      BagSplits(capacity, n);
    }
    forall i | 0 <= i < capacity ensures bag[i + capacity - 1] == multiset{i} {
      LeafBag(capacity, i);
    }
    assert bag[0] == multiset(InOrder(capacity, 0));
    hide *;
    RootBag(bag, capacity);
    assert |multiset(InOrder(capacity, 0))| == |InOrder(capacity, 0)|;
  }

  lemma RootBag(bag: seq<multiset<nat>>, capacity: nat)
    requires capacity >= 1 && |bag| == 2 * capacity - 1
    requires forall n | 0 <= n < capacity - 1 :: Splits(bag, n)
    requires forall i | 0 <= i < capacity :: bag[i + capacity - 1] == multiset{i}
    ensures bag[0] == multiset(seq(capacity, i => i)) && |bag[0]| == capacity
  {
    CutHasAllLeaves(bag, capacity - 1);
    LeafCells(bag, capacity, 0);
    assert seq(capacity, i => 0 + i) == seq(capacity, i => i);
    assert |seq(capacity, i => i)| == capacity;
  }

  // ---- what the sum property says about every node ----

  /** While a difference travels up and has reached node `at`, only the parent of `at` still owes it. */
  function Pending(at: nat, n: nat, delta: real): real {
    if at > 0 && n == (at - 1) / 2 then delta else 0.0
  }

  /** Node n is short of its children's sum by `delta`. */
  predicate Owes(t: seq<real>, n: nat, delta: real) {
    2 * n + 2 < |t| && t[n] + delta == t[2 * n + 1] + t[2 * n + 2]
  }

  predicate IsSumTree(capacity: nat, t: seq<real>) {
    && capacity >= 1
    && |t| == 2 * capacity - 1
    && forall n | 0 <= n < capacity - 1 :: Owes(t, n, 0.0)
  }

  lemma WeightsAppend(leaves: seq<real>, a: seq<nat>, b: seq<nat>)
    requires forall k | 0 <= k < |a| :: a[k] < |leaves|
    requires forall k | 0 <= k < |b| :: b[k] < |leaves|
    ensures Weights(leaves, a + b) == Weights(leaves, a) + Weights(leaves, b)
  {
  }

  lemma ChildrenShareWeight(leaves: seq<real>, n: nat)
    requires n + 1 < |leaves|
    ensures var capacity := |leaves|;
            var l, r := InOrder(capacity, 2 * n + 1), InOrder(capacity, 2 * n + 2);
            && InOrder(capacity, n) == l + r
            && Weights(leaves, InOrder(capacity, n)) == Weights(leaves, l) + Weights(leaves, r)
            && Sum(Weights(leaves, InOrder(capacity, n))) == Sum(Weights(leaves, l)) + Sum(Weights(leaves, r))
  {
    var l, r := InOrder(|leaves|, 2 * n + 1), InOrder(|leaves|, 2 * n + 2);
    assert InOrder(|leaves|, n) == l + r;
    hide *;
    WeightsAppend(leaves, l, r);
    SumAppend(Weights(leaves, l), Weights(leaves, r));
  }

  /** Every node holds the sum of the leaves below it. */
  lemma {:induction false} NodeIsSumOfLeaves(capacity: nat, t: seq<real>, n: nat)
    requires IsSumTree(capacity, t) && n < 2 * capacity - 1
    ensures t[n] == Sum(Weights(t[capacity - 1..], InOrder(capacity, n)))
    decreases 2 * capacity - n
  {
    if n < capacity - 1 {
      assert Owes(t, n, 0.0);
      hide InOrder, Weights, Sum;
      ChildrenShareWeight(t[capacity - 1..], n);
      NodeIsSumOfLeaves(capacity, t, 2 * n + 1);
      NodeIsSumOfLeaves(capacity, t, 2 * n + 2);
    } else {
      hide IsSumTree;
      assert Weights(t[capacity - 1..], InOrder(capacity, n)) == [t[n]];
    }
  }

  /** The total of nodes lo, ..., hi-1. */
  function RangeSum(t: seq<real>, lo: nat, hi: nat): real
    requires lo <= hi <= |t|
    decreases hi - lo
  {
    if lo == hi then 0.0 else t[lo] + RangeSum(t, lo + 1, hi)
  }

  lemma {:induction false} RangeSumSnoc(t: seq<real>, lo: nat, hi: nat)
    requires lo <= hi < |t|
    ensures RangeSum(t, lo, hi + 1) == RangeSum(t, lo, hi) + t[hi]
    decreases hi - lo
  {
    if lo < hi {
      RangeSumSnoc(t, lo + 1, hi);
    }
  }

  lemma {:induction false} RangeSumToEnd(t: seq<real>, lo: nat)
    requires lo <= |t|
    ensures RangeSum(t, lo, |t|) == Sum(t[lo..])
    decreases |t| - lo
  {
    if lo < |t| {
      RangeSumToEnd(t, lo + 1);
      assert t[lo..][1..] == t[lo + 1..];
    }
  }

  lemma {:induction false} CutSumsToRoot(capacity: nat, t: seq<real>, n: nat)
    requires IsSumTree(capacity, t) && n < capacity
    ensures RangeSum(t, n, 2 * n + 1) == t[0]
  {
    if n == 0 {
      assert RangeSum(t, 1, 1) == 0.0;
    } else {
      CutSumsToRoot(capacity, t, n - 1);
      assert Owes(t, n - 1, 0.0);
      RangeSumSnoc(t, n, 2 * n - 1);
      RangeSumSnoc(t, n, 2 * n);
    }
  }

  /** The root is the sum of all the leaves, taken in index order. */
  lemma RootIsTotal(capacity: nat, t: seq<real>)
    requires IsSumTree(capacity, t)
    ensures t[0] == Sum(t[capacity - 1..])
  {
    CutSumsToRoot(capacity, t, capacity - 1);
    RangeSumToEnd(t, capacity - 1);
  }

  /** The leaves alone determine the whole tree. */
  lemma LeavesDetermineTree(capacity: nat, t: seq<real>, u: seq<real>)
    requires IsSumTree(capacity, t) && IsSumTree(capacity, u)
    requires t[capacity - 1..] == u[capacity - 1..]
    ensures t == u
  {
    forall n | 0 <= n < |t| ensures t[n] == u[n] {
      NodeIsSumOfLeaves(capacity, t, n);
      NodeIsSumOfLeaves(capacity, u, n);
    }
  }

  // ---- what a draw selects ----

  /** For 0 < v <= total the selected leaf is positive and v falls into its in-order stretch. */
  lemma PickBrackets(capacity: nat, t: seq<real>, v: real)
    requires IsSumTree(capacity, t) && 0.0 < v <= t[0]
    ensures var leaves := t[capacity - 1..];
            var ws := Weights(leaves, InOrder(capacity, 0));
            var p := PickPosition(leaves, v);
            && leaves[Pick(leaves, v)] > 0.0
            && ws[p] == leaves[Pick(leaves, v)]
            && Sum(ws[..p]) < v <= Sum(ws[..p]) + ws[p]
  {
    var ws := Weights(t[capacity - 1..], InOrder(capacity, 0));
    NodeIsSumOfLeaves(capacity, t, 0);
    ScanBrackets(ws, v);
    SumSnoc(ws, Scan(ws, v));
  }

  /** The draws that select a position are exactly a stretch as long as its priority: sampling is proportional. */
  lemma PickedIffInStretch(capacity: nat, t: seq<real>, v: real, p: nat)
    requires IsSumTree(capacity, t) && NonNegative(t[capacity - 1..]) && 0.0 < v <= t[0] && p < capacity
    ensures var leaves := t[capacity - 1..];
            var ws := Weights(leaves, InOrder(capacity, 0));
            && |ws| == capacity && ws[p] == leaves[InOrder(capacity, 0)[p]]
            && (PickPosition(leaves, v) == p <==> Sum(ws[..p]) < v <= Sum(ws[..p]) + ws[p])
  {
    var ws := Weights(t[capacity - 1..], InOrder(capacity, 0));
    assert NonNegative(ws);
    InOrderIsPermutation(capacity);
    hide Scan, Weights, IsSumTree, InOrder;
    if Sum(ws[..p]) < v <= Sum(ws[..p]) + ws[p] {
      SumSnoc(ws, p);
      BracketIsScan(ws, v, p);
    }
    PickBrackets(capacity, t, v);
  }

  /** A draw of zero (or less) selects the leftmost leaf, whether or not its priority is positive. */
  lemma ZeroPicksLeftmost(leaves: seq<real>, v: real)
    requires leaves != [] && NonNegative(leaves) && v <= 0.0
    ensures Pick(leaves, v) == InOrder(|leaves|, 0)[0]
  {
    assert Weights(leaves, InOrder(|leaves|, 0))[0] >= 0.0;
  }

  /** One level of the descent: comparing with the left child's sum loses nothing. */
  lemma DescendOneLevel(leaves: seq<real>, n: nat, left: real, v: real)
    requires NonNegative(leaves) && n + 1 < |leaves|
    requires left == Sum(Weights(leaves, InOrder(|leaves|, 2 * n + 1)))
    ensures PickBelow(leaves, n, v)
            == if v <= left then PickBelow(leaves, 2 * n + 1, v) else PickBelow(leaves, 2 * n + 2, v - left)
  {
    ChildrenShareWeight(leaves, n);
    var l, r := InOrder(|leaves|, 2 * n + 1), InOrder(|leaves|, 2 * n + 2);
    var wl, wr := Weights(leaves, l), Weights(leaves, r);
    hide InOrder, Weights, Sum, Scan;
    ScanAppend(wl, wr, v);
    ConcatIndex(l, r, Scan(wl + wr, v));
  }

  lemma ConcatIndex<T>(a: seq<T>, b: seq<T>, k: nat)
    requires k < |a| + |b|
    ensures (a + b)[k] == if k < |a| then a[k] else b[k - |a|]
  {
  }

  class SumTree {
    const capacity: nat
    const tree: array<real>
    var dataPointer: nat
    var size: nat

    ghost predicate Valid()
      reads this, tree
    {
      && tree.Length == 2 * capacity - 1
      && IsSumTree(capacity, tree[..])
      && dataPointer < capacity
      && size <= capacity
    }

    /** The priorities, by data index. */
    ghost function Leaves(): (leaves: seq<real>)
      requires Valid()
      reads this, tree
      ensures |leaves| == capacity
    {
      tree[capacity - 1..]
    }

    constructor (capacity: nat)
      requires capacity >= 1
      ensures Valid() && fresh(tree)
      ensures this.capacity == capacity && dataPointer == 0 && size == 0
      ensures Leaves() == seq(capacity, i => 0.0)
    {
      this.capacity := capacity;
      tree := new real[2 * capacity - 1](i => 0.0);
      dataPointer, size := 0, 0;
    }

    /** The stored total: exactly the sum of all priorities. */
    method Total() returns (total: real)
      requires Valid()
      ensures total == Sum(Leaves()) == tree[0]
    {
      total := tree[0];
      RootIsTotal(capacity, tree[..]);
      assert tree[..][capacity - 1..] == Leaves();
    }

    /** Sets one priority; adding the difference along the path to the root repairs every sum. */
    method Update(idx: nat, priority: real)
      requires Valid() && idx < capacity
      modifies tree
      ensures Valid() && Leaves() == old(Leaves())[idx := priority]
    {
      ghost var before := tree[..];
      var treeIdx := idx + capacity - 1;
      var delta := priority - tree[treeIdx];
      tree[treeIdx] := priority;
      forall n | 0 <= n < capacity - 1 ensures Owes(tree[..], n, Pending(treeIdx, n, delta)) {
        assert Owes(before, n, 0.0);
      }
      while treeIdx > 0
        invariant treeIdx < 2 * capacity - 1
        invariant forall n | 0 <= n < capacity - 1 :: Owes(tree[..], n, Pending(treeIdx, n, delta))
        invariant tree[capacity - 1..] == old(Leaves())[idx := priority]
      {
        ghost var child, previous := treeIdx, tree[..];
        treeIdx := (treeIdx - 1) / 2;
        tree[treeIdx] := tree[treeIdx] + delta;
        forall n | 0 <= n < capacity - 1 ensures Owes(tree[..], n, Pending(treeIdx, n, delta)) {
          assert Owes(previous, n, Pending(child, n, delta));
        }
      }
      forall n | 0 <= n < capacity - 1 ensures Owes(tree[..], n, 0.0) {
        assert Owes(tree[..], n, Pending(treeIdx, n, delta));
      }
    }

    method Add(priority: real) returns (idx: nat)
      requires Valid()
      modifies this`dataPointer, this`size, tree
      ensures Valid()
      ensures idx == old(dataPointer) && Leaves() == old(Leaves())[idx := priority]
      ensures dataPointer == Next(old(dataPointer), capacity)
      ensures size == if old(size) < capacity then old(size) + 1 else capacity
    {
      idx := dataPointer;
      Update(idx, priority);
      NextCursor(dataPointer, capacity);
      dataPointer := (dataPointer + 1) % capacity;
      size := if size + 1 < capacity then size + 1 else capacity;
    }

    /** The descent agrees with the linear scan for every draw, also outside (0, total]. */
    method Sample(value: real) returns (idx: nat)
      requires Valid() && NonNegative(Leaves())
      ensures idx == Pick(Leaves(), value)
    {
      hide IsSumTree, NonNegative, PickBelow, Weights, Sum;
      ghost var leaves := Leaves();
      assert leaves == tree[..][capacity - 1..];
      var v := value;
      var treeIdx := 0;
      while treeIdx < capacity - 1
        invariant treeIdx < 2 * capacity - 1
        invariant PickBelow(leaves, treeIdx, v) == Pick(leaves, value)
        decreases 2 * capacity - treeIdx
      {
        var left := 2 * treeIdx + 1;
        NodeIsSumOfLeaves(capacity, tree[..], left);
        DescendOneLevel(leaves, treeIdx, tree[left], v);
        if v <= tree[left] {
          treeIdx := left;
        } else {
          v := v - tree[left];
          treeIdx := left + 1;
        }
      }
      LeafPicksItself(leaves, treeIdx, v);
      idx := treeIdx - (capacity - 1);
    }
  }

  lemma LeafPicksItself(leaves: seq<real>, n: nat, v: real)
    requires |leaves| - 1 <= n < 2 * |leaves| - 1
    ensures PickBelow(leaves, n, v) == n - (|leaves| - 1)
  {
  }
}
