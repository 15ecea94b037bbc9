/** The duplicate-last Merkle tree over a day's row hashes. */
module Merkle {
  import opened Common

  /** What an inner node hashes: its two children, 64 bytes. */
  function Pair(a: Digest, b: Digest): (p: seq<Byte>)
    ensures |p| == 64
  {
    var left: seq<Byte> := a;
    left + b
  }

  // ----- the tree, from the top down -----

  function Pow2(k: nat): (p: nat)
    ensures p > 0
  {
    if k == 0 then 1 else 2 * Pow2(k - 1)
  }

  /** The number of halvings, rounding up, that take `n` to one. */
  function Depth(n: nat): nat {
    if n <= 1 then 0 else 1 + Depth((n + 1) / 2)
  }

  /** The depth is the base-two logarithm, rounded up. */
  lemma {:induction false} DepthIsLog(n: nat)
    requires n >= 1
    ensures n <= Pow2(Depth(n))
    ensures n > 1 ==> Pow2(Depth(n) - 1) < n
  {
    if n > 1 {
      DepthIsLog((n + 1) / 2);
    }
  }

  /**
   * The node over the 2^height leaves from `first` on. Where no leaves are left for its right half, the
   * left half stands in for it.
   */
  function Tree(hash: Hash, leaves: seq<Digest>, height: nat, first: nat): Digest
    requires first < |leaves|
    decreases height
  {
    if height == 0 then leaves[first]
    else
      var left := Tree(hash, leaves, height - 1, first);
      var middle := first + Pow2(height - 1);
      hash(Pair(left, if middle < |leaves| then Tree(hash, leaves, height - 1, middle) else left))
  }

  function Root(hash: Hash, leaves: seq<Digest>): Digest {
    if leaves == [] then hash([]) else Tree(hash, leaves, Depth(|leaves|), 0)
  }

  // ----- the tree, from the leaves up -----

  /** One round: an odd level repeats its last node, then neighbours are hashed together. */
  function NextLevel(hash: Hash, level: seq<Digest>): (r: seq<Digest>)
    requires level != []
    ensures |r| == (|level| + 1) / 2
  {
    seq((|level| + 1) / 2,
        i requires 0 <= i < (|level| + 1) / 2 => hash(Pair(level[2 * i], level[Min(2 * i + 1, |level| - 1)])))
  }

  lemma TreeBase(hash: Hash, leaves: seq<Digest>, first: nat)
    requires 2 * first < |leaves|
    ensures NextLevel(hash, leaves)[first] == Tree(hash, leaves, 1, 2 * first)
  {
    assert NextLevel(hash, leaves)[first]
        == hash(Pair(leaves[2 * first], leaves[Min(2 * first + 1, |leaves| - 1)]));
  }

  lemma TreeStep(hash: Hash, leaves: seq<Digest>, next: seq<Digest>, height: nat, first: nat, middle: nat)
    requires height > 1 && 2 * first < |leaves| && |next| == (|leaves| + 1) / 2
    requires middle == first + Pow2(height - 2)
    requires Tree(hash, next, height - 2, first) == Tree(hash, leaves, height - 1, 2 * first)
    requires 2 * middle < |leaves| ==>
               Tree(hash, next, height - 2, middle) == Tree(hash, leaves, height - 1, 2 * middle)
    ensures Tree(hash, next, height - 1, first) == Tree(hash, leaves, height, 2 * first)
  {
    assert 2 * first + Pow2(height - 1) == 2 * middle;
  }

  lemma {:induction false} TreeAbove(hash: Hash, leaves: seq<Digest>, next: seq<Digest>, height: nat, first: nat)
    requires height > 0 && 2 * first < |leaves| && next == NextLevel(hash, leaves)
    ensures Tree(hash, next, height - 1, first) == Tree(hash, leaves, height, 2 * first)
    decreases height
  {
    if height == 1 {
      TreeBase(hash, leaves, first);
    } else {
      var middle := first + Pow2(height - 2);
      TreeAbove(hash, leaves, next, height - 1, first);
      if 2 * middle < |leaves| {
        TreeAbove(hash, leaves, next, height - 1, middle);
      }
      TreeStep(hash, leaves, next, height, first, middle);
    }
  }

  lemma TopAbove(hash: Hash, leaves: seq<Digest>, next: seq<Digest>, depth: nat)
    requires depth > 0 && leaves != [] && next == NextLevel(hash, leaves)
    ensures Tree(hash, next, depth - 1, 0) == Tree(hash, leaves, depth, 0)
  {
    TreeAbove(hash, leaves, next, depth, 0);
  }

  /** A round does not change the root. */
  lemma RootAbove(hash: Hash, leaves: seq<Digest>)
    requires |leaves| > 1
    ensures Root(hash, leaves) == Root(hash, NextLevel(hash, leaves))
  {
    var next := NextLevel(hash, leaves);
    var depth := Depth(|leaves|);
    assert depth - 1 == Depth(|next|);
    TopAbove(hash, leaves, next, depth);
  }

  lemma PadAndHalve(hash: Hash, below: seq<Digest>, level: seq<Digest>)
    requires |below| > 1 && |level| == (|below| + 1) / 2
    requires forall i :: 0 <= i < |level| ==>
               level[i] == hash(Pair(below[2 * i], below[Min(2 * i + 1, |below| - 1)]))
    ensures level == NextLevel(hash, below)
  {
  }

  /** `_merkle_root`: it computes the root in as many rounds as the tree is deep. */
  method MerkleRoot(hash: Hash, leaves: seq<Digest>) returns (root: Digest, ghost rounds: nat)
    ensures root == Root(hash, leaves)
    ensures rounds == Depth(|leaves|)
  {
    rounds := 0;
    if leaves == [] {
      return hash([]), 0;
    }
    var level := leaves;
    while |level| > 1
      invariant level != []
      invariant Root(hash, leaves) == Root(hash, level)
      invariant Depth(|leaves|) == rounds + Depth(|level|)
      decreases |level|
    {
      ghost var below := level;
      if |level| % 2 == 1 {
        level := level + [level[|level| - 1]];
      }
      level := seq<Digest>(|level| / 2, i requires 0 <= i < |level| / 2 => hash(Pair(level[2 * i], level[2 * i + 1])));
      rounds := rounds + 1;
      PadAndHalve(hash, below, level);
      RootAbove(hash, below);
    }
    root := level[0];
  }

  /**
   * Repeating the last leaf of an odd list of at least three leaves cannot be seen in the root. It can
   * for a single leaf, whose root is the leaf itself, unless the leaf is the hash of its own pair.
   */
  lemma RepeatedLastLeaf(hash: Hash, leaves: seq<Digest>)
    requires |leaves| % 2 == 1
    ensures var longer := leaves + [leaves[|leaves| - 1]];
            Root(hash, longer) == Root(hash, leaves)
            <==> |leaves| > 1 || hash(Pair(leaves[0], leaves[0])) == leaves[0]
  {
    if |leaves| == 1 {
      RepeatedOnlyLeaf(hash, leaves);
    } else {
      RepeatedOddLeaf(hash, leaves);
    }
  }

  lemma RepeatedOddLeaf(hash: Hash, leaves: seq<Digest>)
    requires |leaves| % 2 == 1 && |leaves| > 1
    ensures Root(hash, leaves + [leaves[|leaves| - 1]]) == Root(hash, leaves)
  {
    var longer := leaves + [leaves[|leaves| - 1]];
    hide Root;
    RootAbove(hash, longer);
    RootAbove(hash, leaves);
    assert NextLevel(hash, longer) == NextLevel(hash, leaves);
  }

  lemma RepeatedOnlyLeaf(hash: Hash, leaves: seq<Digest>)
    requires |leaves| == 1
    ensures Root(hash, leaves) == leaves[0]
    ensures Root(hash, leaves + [leaves[0]]) == hash(Pair(leaves[0], leaves[0]))
  {
    var longer := leaves + [leaves[0]];
    RootAbove(hash, longer);
    assert NextLevel(hash, longer) == [hash(Pair(leaves[0], leaves[0]))];
    OneLeaf(hash, leaves);
    OneLeaf(hash, NextLevel(hash, longer));
    hide Root, NextLevel;
  }

  lemma OneLeaf(hash: Hash, leaves: seq<Digest>)
    requires |leaves| == 1
    ensures Root(hash, leaves) == leaves[0]
  {
  }

  // ----- binding -----

  /** Two different pairs of digests with one hash are a collision. */
  lemma PairCollision(hash: Hash, a: Digest, b: Digest, c: Digest, d: Digest) returns (f: Finding)
    requires hash(Pair(a, b)) == hash(Pair(c, d))
    ensures f.Sound(hash) && !f.ZeroHash?
    ensures f.Same? <==> a == c && b == d
  {
    if Pair(a, b) == Pair(c, d) {
      SplitEqual(a, b, c, d);
      f := Same;
    } else {
      f := Collision(Pair(a, b), Pair(c, d));
    }
  }

  /** Nodes stay distinct from level to level. */
  lemma DistinctAbove(hash: Hash, level: seq<Digest>) returns (f: Finding)
    requires level != [] && Distinct(level)
    ensures f.Sound(hash) && !f.ZeroHash?
    ensures f.Same? ==> Distinct(NextLevel(hash, level))
  {
    var next := NextLevel(hash, level);
    if i, j :| 0 <= i < j < |next| && next[i] == next[j] {
      f := PairCollision(hash, level[2 * i], level[Min(2 * i + 1, |level| - 1)],
                         level[2 * j], level[Min(2 * j + 1, |level| - 1)]);
    } else {
      f := Same;
    }
  }

  /** A level fixes the nodes below it, up to a repeated last one. */
  lemma ChildrenBound(hash: Hash, a: seq<Digest>, b: seq<Digest>) returns (f: Finding)
    requires a != [] && b != [] && NextLevel(hash, a) == NextLevel(hash, b)
    ensures f.Sound(hash) && !f.ZeroHash?
    ensures f.Same? && (|a| == |b| || (Distinct(a) && Distinct(b))) ==> a == b
  {
    var half := (|a| + 1) / 2;
    assert half == |NextLevel(hash, b)|;
    var k := 0;
    while k < half
      invariant 0 <= k <= half
      invariant forall i :: 0 <= i < k ==>
                  a[2 * i] == b[2 * i] && a[Min(2 * i + 1, |a| - 1)] == b[Min(2 * i + 1, |b| - 1)]
    {
      assert NextLevel(hash, a)[k] == NextLevel(hash, b)[k];
      f := PairCollision(hash, a[2 * k], a[Min(2 * k + 1, |a| - 1)], b[2 * k], b[Min(2 * k + 1, |b| - 1)]);
      if !f.Same? {
        return;
      }
      k := k + 1;
    }
    f := Same;
    if |a| == |b| {
      forall i | 0 <= i < |a| ensures a[i] == b[i] {
        assert a[2 * (i / 2)] == b[2 * (i / 2)];
      }
    } else {
      var last := half - 1;
      assert a[2 * last] == b[2 * last];
    }
  }

  /** Trees of one size: equal roots force equal leaves, or a collision. */
  lemma {:induction false} SameSizeBinding(hash: Hash, a: seq<Digest>, b: seq<Digest>) returns (f: Finding)
    requires |a| == |b| && Root(hash, a) == Root(hash, b)
    ensures f.Sound(hash) && !f.ZeroHash?
    ensures f.Same? ==> a == b
    decreases |a|
  {
    f := Same;
    if |a| > 1 {
      RootAbove(hash, a);
      RootAbove(hash, b);
      f := SameSizeBinding(hash, NextLevel(hash, a), NextLevel(hash, b));
      if f.Same? {
        f := ChildrenBound(hash, a, b);
      }
    }
  }

  /** Trees of one depth over distinct leaves. */
  lemma {:induction false} SameDepthBinding(hash: Hash, a: seq<Digest>, b: seq<Digest>) returns (f: Finding)
    requires a != [] && b != [] && Distinct(a) && Distinct(b)
    requires Depth(|a|) == Depth(|b|) && Root(hash, a) == Root(hash, b)
    ensures f.Sound(hash) && !f.ZeroHash?
    ensures f.Same? ==> a == b
    decreases |a|
  {
    f := Same;
    if |a| > 1 {
      RootAbove(hash, a);
      RootAbove(hash, b);
      f := DistinctAbove(hash, a);
      if f.Same? {
        f := DistinctAbove(hash, b);
      }
      if f.Same? {
        f := SameDepthBinding(hash, NextLevel(hash, a), NextLevel(hash, b));
      }
      if f.Same? {
        f := ChildrenBound(hash, a, b);
      }
    }
  }

  /**
   * Down the left edge of a shallow and of a deep tree that share a node: at the bottom a leaf, hashed
   * from more than 64 bytes, meets an inner node, hashed from 64.
   */
  lemma {:induction false} LeftEdge(hash: Hash, a: seq<Digest>, b: seq<Digest>, low: nat, high: nat,
                                    input: seq<Byte>)
    returns (f: Finding)
    requires a != [] && b != [] && low < high
    requires Tree(hash, a, low, 0) == Tree(hash, b, high, 0)
    requires a[0] == hash(input) && |input| > 64
    ensures f.Sound(hash) && f.Collision?
    decreases low
  {
    var (left, right) := Children(hash, b, high);
    if low == 0 {
      f := Collision(input, Pair(left, right));
    } else {
      var (l, r) := Children(hash, a, low);
      f := PairCollision(hash, l, r, left, right);
      if f.Same? {
        f := LeftEdge(hash, a, b, low - 1, high - 1, input);
      }
    }
  }

  /** The children of the first node at a height. */
  ghost function Children(hash: Hash, leaves: seq<Digest>, height: nat): (c: (Digest, Digest))
    requires leaves != [] && height > 0
    ensures c.0 == Tree(hash, leaves, height - 1, 0)
    ensures Tree(hash, leaves, height, 0) == hash(Pair(c.0, c.1))
  {
    var left := Tree(hash, leaves, height - 1, 0);
    var middle := Pow2(height - 1);
    (left, if middle < |leaves| then Tree(hash, leaves, height - 1, middle) else left)
  }

  lemma DeeperTree(hash: Hash, a: seq<Digest>, b: seq<Digest>, input: seq<Byte>) returns (f: Finding)
    requires a != [] && b != [] && Depth(|a|) < Depth(|b|) && Root(hash, a) == Root(hash, b)
    requires a[0] == hash(input) && |input| > 64
    ensures f.Sound(hash) && f.Collision?
  {
    f := LeftEdge(hash, a, b, Depth(|a|), Depth(|b|), input);
  }

  /**
   * Trees of any sizes over distinct leaves that are each the hash of more than 64 bytes: equal roots
   * force equal leaves, or a collision.
   */
  lemma RootBinding(hash: Hash, a: seq<Digest>, b: seq<Digest>, inputA: seq<Byte>, inputB: seq<Byte>)
    returns (f: Finding)
    requires a != [] && b != [] && Distinct(a) && Distinct(b)
    requires a[0] == hash(inputA) && |inputA| > 64
    requires b[0] == hash(inputB) && |inputB| > 64
    requires Root(hash, a) == Root(hash, b)
    ensures f.Sound(hash) && !f.ZeroHash?
    ensures f.Same? ==> a == b
  {
    var (da, db) := (Depth(|a|), Depth(|b|));
    if da < db {
      f := DeeperTree(hash, a, b, inputA);
    } else if db < da {
      f := DeeperTree(hash, b, a, inputB);
    } else {
      f := SameDepthBinding(hash, a, b);
    }
  }

  /** What a node hashes: the left child's bytes and then the right child's. */
  function Joined(a: Digest, b: Digest): seq<Byte> {
    seq(64, i requires 0 <= i < 64 => if i < 32 then a[i] else b[i - 32])
  }

  lemma PairIsJoined(a: Digest, b: Digest)
    ensures Pair(a, b) == Joined(a, b)
  {
  }

  /** Three leaves, from left to right, the last one standing in for a fourth. */
  lemma ThreeLeaves(hash: Hash, a: Digest, b: Digest, c: Digest)
    ensures Root(hash, [a, b, c]) == hash(Joined(hash(Joined(a, b)), hash(Joined(c, c))))
    ensures Root(hash, [a, b]) == hash(Joined(a, b)) && Root(hash, [a]) == a && Root(hash, []) == hash([])
  {
    PairIsJoined(a, b);
    PairIsJoined(c, c);
    PairIsJoined(hash(Joined(a, b)), hash(Joined(c, c)));
    hide Pair, Joined;
    assert Depth(3) == 2 && Depth(2) == 1 && Pow2(1) == 2 && Pow2(0) == 1;
    assert Tree(hash, [a, b, c], 1, 0) == hash(Pair(a, b));
    assert Tree(hash, [a, b, c], 1, 2) == hash(Pair(c, c));
  }
}
