/** Merkle trees of a block (BuildMerkleTree, GetMerkleBranch and CheckMerkleBranch in src/main.h):
    the flat array against the levels of the tree, and what a branch proves. */
module Merkle {
  import opened Transactions
  import opened Powers

  type PairHash = (Hash, Hash) -> Hash

  // ---------------------------------------------------------------- the tree by levels

  /** The level above: pairs are hashed, and an odd last node is paired with itself. */
  function Parents(h: PairHash, level: seq<Hash>): (r: seq<Hash>)
    ensures |level| <= 2 * |r| <= |level| + 1
  {
    if level == [] then []
    else if |level| == 1 then [h(level[0], level[0])]
    else [h(level[0], level[1])] + Parents(h, level[2..])
  }

  lemma {:induction false} ParentAt(h: PairHash, level: seq<Hash>, j: nat)
    requires 2 * j < |level|
    ensures j < |Parents(h, level)|
    ensures Parents(h, level)[j] == h(level[2 * j], level[Min(2 * j + 1, |level| - 1)])
  {
    if j > 0 {
      ParentAt(h, level[2..], j - 1);
    }
  }

  function Root(h: PairHash, level: seq<Hash>): Hash
    decreases |level|
  {
    if level == [] then 0 else if |level| == 1 then level[0] else Root(h, Parents(h, level))
  }

  /** All levels one after the other. */
  function Flat(h: PairHash, level: seq<Hash>): seq<Hash>
    decreases |level|
  {
    if |level| <= 1 then level else level + Flat(h, Parents(h, level))
  }

  /** nIndex ^ 1. */
  function Sibling(i: nat): nat {
    if i % 2 == 0 then i + 1 else i - 1
  }

  /** The hashes beside the path from a leaf to the root. */
  function Branch(h: PairHash, level: seq<Hash>, i: nat): seq<Hash>
    decreases |level|
  {
    if |level| <= 1 then [] else [level[Min(Sibling(i), |level| - 1)]] + Branch(h, Parents(h, level), i / 2)
  }

  /** Climbing along a branch. */
  function Climb(h: PairHash, hash: Hash, branch: seq<Hash>, i: int): Hash
    decreases |branch|
  {
    if branch == [] then hash
    else Climb(h, if i % 2 == 1 then h(branch[0], hash) else h(hash, branch[0]), branch[1..], i / 2)
  }

  ghost predicate Injective(h: PairHash) {
    forall a, b, c, d :: h(a, b) == h(c, d) ==> a == c && b == d
  }

  /** One round of BuildMerkleTree. */
  lemma NextLevel(h: PairHash, txs: seq<Hash>, before: seq<Hash>, after: seq<Hash>, j: nat, level: seq<Hash>)
    requires j + |level| == |before| && before[j..] == level && |level| > 1
    requires after == before + Parents(h, level) && before[..j] + Flat(h, level) == Flat(h, txs)
    ensures after[|before|..] == Parents(h, level) && after[..|before|] + Flat(h, Parents(h, level)) == Flat(h, txs)
  {
    var up := Parents(h, level);
    assert after[..|before|] == before == before[..j] + level;
    assert before[..j] + (level + Flat(h, up)) == (before[..j] + level) + Flat(h, up);
  }

  /** One round of GetMerkleBranch. */
  lemma BranchStep(h: PairHash, tree: seq<Hash>, j: nat, level: seq<Hash>, i: nat)
    requires j <= |tree| && tree[j..] == Flat(h, level) && |level| > 1
    ensures j + |level| <= |tree| && tree[j + |level|..] == Flat(h, Parents(h, level))
    ensures var k := Min(Sibling(i), |level| - 1);
            tree[j + k] == level[k] && Branch(h, level, i) == [tree[j + k]] + Branch(h, Parents(h, level), i / 2)
  {
    var k := Min(Sibling(i), |level| - 1);
    assert tree[j + k] == tree[j..][k];
    assert tree[j + |level|..] == tree[j..][|level|..];
  }

  /** A node is the hash of either child with the child's neighbour, in their order. */
  lemma NodeFromChild(h: PairHash, level: seq<Hash>, i: nat)
    requires i < |level| && |level| > 1
    ensures var side := level[Min(Sibling(i), |level| - 1)];
            i / 2 < |Parents(h, level)|
            && Parents(h, level)[i / 2] == if i % 2 == 1 then h(side, level[i]) else h(level[i], side)
  {
    ParentAt(h, level, i / 2);
  }

  lemma Parts(h: PairHash, a: Hash, b: Hash, c: Hash, d: Hash)
    requires Injective(h) && h(a, b) == h(c, d)
    ensures a == c && b == d
  {
  }

  // ---------------------------------------------------------------- what branches prove

  /** The branch of a leaf leads to the root. */
  lemma {:induction false} BranchLeadsToRoot(h: PairHash, level: seq<Hash>, i: nat)
    requires i < |level|
    ensures Climb(h, level[i], Branch(h, level, i), i) == Root(h, level)
    decreases |level|
  {
    if |level| > 1 {
      var up, j := Parents(h, level), i / 2;
      NodeFromChild(h, level, i);
      BranchLeadsToRoot(h, up, j);
      assert Branch(h, level, i)[1..] == Branch(h, up, j);
    }
  }

  /** With an injective hash a branch of the right length that leads to the root is the branch of
      the leaf, and starts at that leaf. */
  lemma {:induction false} BranchForcesLeaf(h: PairHash, level: seq<Hash>, i: nat, hash: Hash, branch: seq<Hash>)
    requires Injective(h) && i < |level|
    requires |branch| == |Branch(h, level, i)| && Climb(h, hash, branch, i) == Root(h, level)
    ensures hash == level[i] && branch == Branch(h, level, i)
    decreases |level|
  {
    if |level| > 1 {
      var up := Parents(h, level);
      var next := if i % 2 == 1 then h(branch[0], hash) else h(hash, branch[0]);
      NodeFromChild(h, level, i);
      BranchForcesLeaf(h, up, i / 2, next, branch[1..]);
      var side := level[Min(Sibling(i), |level| - 1)];
      if i % 2 == 1 {
        Parts(h, side, level[i], branch[0], hash);
      } else {
        Parts(h, level[i], side, hash, branch[0]);
      }
      assert branch == [branch[0]] + branch[1..];
    }
  }

  /** With an injective hash the root determines a list of given length. */
  lemma {:induction false} RootForcesLeaves(h: PairHash, a: seq<Hash>, b: seq<Hash>)
    requires Injective(h) && |a| == |b| && Root(h, a) == Root(h, b)
    ensures a == b
    decreases |a|
  {
    if |a| > 1 {
      RootForcesLeaves(h, Parents(h, a), Parents(h, b));
      forall i | 0 <= i < |a| ensures a[i] == b[i] {
        SameParents(h, a, b, i);
      }
    }
  }

  lemma SameParents(h: PairHash, a: seq<Hash>, b: seq<Hash>, i: nat)
    requires Injective(h) && |a| == |b| > 1 && Parents(h, a) == Parents(h, b) && i < |a|
    ensures a[i] == b[i]
  {
    NodeFromChild(h, a, i);
    NodeFromChild(h, b, i);
    var x, y := a[Min(Sibling(i), |a| - 1)], b[Min(Sibling(i), |b| - 1)];
    if i % 2 == 1 {
      Parts(h, x, a[i], y, b[i]);
    } else {
      Parts(h, a[i], x, b[i], y);
    }
  }

  /** Lists of different lengths can have the same root: an odd list, and the list with its last hash
      repeated. */
  lemma RepeatedLeafKeepsRoot(h: PairHash, a: seq<Hash>)
    requires |a| % 2 == 1 && |a| > 1
    ensures Root(h, a + [a[|a| - 1]]) == Root(h, a)
  {
    RepeatedLeafKeepsParents(h, a);
  }

  lemma {:induction false} RepeatedLeafKeepsParents(h: PairHash, a: seq<Hash>)
    requires |a| % 2 == 1
    ensures Parents(h, a + [a[|a| - 1]]) == Parents(h, a)
  {
    if |a| > 1 {
      RepeatedLeafKeepsParents(h, a[2..]);
      assert (a + [a[|a| - 1]])[2..] == a[2..] + [a[|a| - 1]];
    }
  }

  /** How many levels lie above a list of this length. */
  function Levels(n: nat): nat {
    if n <= 1 then 0 else 1 + Levels((n + 1) / 2)
  }

  /** Without repeats below there are none above. */
  lemma NoRepeatAbove(h: PairHash, level: seq<Hash>)
    requires Injective(h) && NoDuplicates(level)
    ensures NoDuplicates(Parents(h, level))
  {
    var up := Parents(h, level);
    forall i, j | 0 <= i < j < |up| ensures up[i] != up[j] {
      ParentAt(h, level, i);
      ParentAt(h, level, j);
    }
  }

  /** Lists without repeats under the same nodes have the same length. */
  lemma SameLength(h: PairHash, a: seq<Hash>, b: seq<Hash>)
    requires Injective(h) && NoDuplicates(b) && |a| > 1 && |b| > 1 && Parents(h, a) == Parents(h, b)
    ensures |b| <= |a|
  {
    if |b| > |a| {
      var j := |Parents(h, a)| - 1;
      assert |a| == 2 * j + 1 && |b| == 2 * j + 2;
      ParentAt(h, a, j);
      ParentAt(h, b, j);
      Parts(h, a[2 * j], a[2 * j], b[2 * j], b[2 * j + 1]);
    }
  }

  /** With an injective hash the root determines a list without repeats among all those with equally many
      levels. */
  lemma {:induction false} RootForcesDistinctLeaves(h: PairHash, a: seq<Hash>, b: seq<Hash>)
    requires Injective(h) && a != [] && b != [] && NoDuplicates(a) && NoDuplicates(b)
    requires Levels(|a|) == Levels(|b|) && Root(h, a) == Root(h, b)
    ensures a == b
    decreases |a|
  {
    if |a| > 1 {
      NoRepeatAbove(h, a);
      NoRepeatAbove(h, b);
      RootForcesDistinctLeaves(h, Parents(h, a), Parents(h, b));
      SameLength(h, a, b);
      SameLength(h, b, a);
      RootForcesLeaves(h, a, b);
    }
  }

  /** A branch has as many hashes as the logarithm of the number of leaves, rounded up. */
  lemma {:induction false} BranchLength(h: PairHash, level: seq<Hash>, i: nat)
    requires level != []
    ensures var d := |Branch(h, level, i)|;
            d == Levels(|level|) && |level| <= Power2(d) && (d > 0 ==> Power2(d - 1) < |level|)
    decreases |level|
  {
    if |level| > 1 {
      BranchLength(h, Parents(h, level), i / 2);
    }
  }

  // ---------------------------------------------------------------- the code

  /** A block as the Merkle code sees it: its transaction hashes and the cached array vMerkleTree. */
  class MerkleBlock {
    const h: PairHash
    const txs: seq<Hash>
    var tree: seq<Hash>

    /** The cache is empty or up to date. */
    ghost predicate Valid()
      reads this
    {
      tree == [] || tree == Flat(h, txs)
    }

    constructor (h: PairHash, txs: seq<Hash>)
      ensures Valid() && this.h == h && this.txs == txs && tree == []
    {
      this.h, this.txs, tree := h, txs, [];
    }

    /** BuildMerkleTree. */
    method BuildMerkleTree() returns (root: Hash)
      modifies this
      ensures tree == Flat(h, txs) && root == Root(h, txs)
    {
      tree := txs;
      var j, size := 0, |txs|;
      ghost var level := txs;
      while size > 1
        invariant size == |level| && 0 <= j && j + size == |tree| && tree[j..] == level
        invariant tree[..j] + Flat(h, level) == Flat(h, txs) && Root(h, level) == Root(h, txs)
        invariant txs != [] ==> size > 0
        decreases size
      {
        ghost var before := tree;
        HashLevel(j, level);
        NextLevel(h, txs, before, tree, j, level);
        j := j + size;
        level := Parents(h, level);
        size := (size + 1) / 2;
      }
      assert tree == tree[..j] + tree[j..];
      root := if tree == [] then 0 else tree[|tree| - 1];
    }

    /** The inner loop of BuildMerkleTree: the parents of the last level are appended. */
    method HashLevel(j: nat, ghost level: seq<Hash>)
      requires j + |level| == |tree| && tree[j..] == level && |level| > 1
      modifies this
      ensures tree == old(tree) + Parents(h, level)
    {
      var i, size := 0, |tree| - j;
      ghost var up := Parents(h, level);
      while i < size
        invariant 0 <= i && i % 2 == 0 && i / 2 <= |up|
        invariant tree == old(tree) + up[..i / 2]
      {
        var i2 := Min(i + 1, size - 1);
        assert tree[j + i] == level[i] && tree[j + i2] == level[i2];
        ParentAt(h, level, i / 2);
        assert up[..i / 2 + 1] == up[..i / 2] + [up[i / 2]];
        tree := tree + [h(tree[j + i], tree[j + i2])];
        i := i + 2;
      }
      assert up[..i / 2] == up;
    }

    /** GetMerkleBranch. */
    method GetMerkleBranch(index: nat) returns (branch: seq<Hash>)
      requires Valid()
      modifies this
      ensures Valid() && branch == Branch(h, txs, index)
    {
      if tree == [] {
        var root := BuildMerkleTree();
      }
      branch := BranchIn(h, tree, txs, index);
    }

    /** A proof that the block can give for each of its transactions. */
    method Prove(index: nat) returns (ok: bool)
      requires Valid() && index < |txs|
      modifies this
      ensures ok
    {
      var root := BuildMerkleTree();
      var branch := GetMerkleBranch(index);
      var top := CheckMerkleBranch(h, txs[index], branch, index);
      BranchLeadsToRoot(h, txs, index);
      ok := top == root;
    }
  }

  /** The loop of GetMerkleBranch over the array. */
  method BranchIn(h: PairHash, tree: seq<Hash>, txs: seq<Hash>, index: nat) returns (branch: seq<Hash>)
    requires tree == Flat(h, txs)
    ensures branch == Branch(h, txs, index)
  {
    branch := [];
    var j, size, i := 0, |txs|, index;
    ghost var level := txs;
    while size > 1
      invariant size == |level| && 0 <= j <= |tree| && tree[j..] == Flat(h, level)
      invariant branch + Branch(h, level, i) == Branch(h, txs, index)
      decreases size
    {
      var k := Min(Sibling(i), size - 1);
      BranchStep(h, tree, j, level, i);
      branch := branch + [tree[j + k]];
      i := i / 2;
      j := j + size;
      level := Parents(h, level);
      size := (size + 1) / 2;
    }
  }

  /** CheckMerkleBranch. */
  method CheckMerkleBranch(h: PairHash, hash: Hash, branch: seq<Hash>, index: int) returns (top: Hash)
    ensures top == if index == -1 then 0 else Climb(h, hash, branch, index)
  {
    if index == -1 { return 0; }
    top := hash;
    var i, n := index, 0;
    while n < |branch|
      invariant n <= |branch| && Climb(h, top, branch[n..], i) == Climb(h, hash, branch, index)
    {
      assert branch[n..][1..] == branch[n + 1..];
      top := if i % 2 == 1 then h(branch[n], top) else h(top, branch[n]);
      i := i / 2;
      n := n + 1;
    }
  }
}
