/** The branch Merkle root: the level-by-level loop, the recursive tree of section 2.1 of
    RFC 6962, and what an equal root says about the leaves. */
module Merkle {
  import opened ByteStrings
  import opened Sorting

  const LEAF_PREFIX: byte := 0
  const NODE_PREFIX: byte := 1

  function LeafString(leaf: Bytes): Bytes {
    [LEAF_PREFIX] + leaf
  }

  function NodeString(left: Digest, right: Digest): Bytes {
    [NODE_PREFIX] + left + right
  }

  function LeafHash(h: Hash, leaf: Bytes): Digest {
    h(LeafString(leaf))
  }

  function NodeHash(h: Hash, left: Digest, right: Digest): Digest {
    h(NodeString(left, right))
  }

  function LeafHashes(h: Hash, leaves: seq<Bytes>): (r: seq<Digest>)
    ensures |r| == |leaves|
    ensures forall i :: 0 <= i < |leaves| ==> r[i] == LeafHash(h, leaves[i])
  {
    seq(|leaves|, i requires 0 <= i < |leaves| => LeafHash(h, leaves[i]))
  }

  predicate HashLeq(a: Bytes, b: Bytes) {
    LexLeq(a, b)
  }

  lemma HashOrderIsTotal()
    ensures TotalOrder(HashLeq)
  {
    forall x: Bytes, y: Bytes ensures HashLeq(x, y) || HashLeq(y, x) {
      LexTotal(x, y);
    }
    forall x: Bytes, y: Bytes, z: Bytes | HashLeq(x, y) && HashLeq(y, z) ensures HashLeq(x, z) {
      LexTransitive(x, y, z);
    }
    forall x: Bytes, y: Bytes | HashLeq(x, y) && HashLeq(y, x) ensures x == y {
      LexAntisymmetric(x, y);
    }
  }

  // ----- the specification: section 2.1 of RFC 6962

  /** The largest power of two smaller than `n`. */
  function Split(n: nat): (k: nat)
    requires n >= 2
    ensures 1 <= k < n <= 2 * k
    ensures n > 2 ==> k % 2 == 0
  {
    if n == 2 then 1 else 2 * Split((n + 1) / 2)
  }

  ghost predicate PowerOfTwo(k: nat) {
    exists e: nat :: k == Exp2(e)
  }

  ghost function Exp2(e: nat): (r: nat)
    ensures r >= 1
  {
    if e == 0 then 1 else 2 * Exp2(e - 1)
  }

  /** `Split` is what the RFC asks for: a power of two below `n`, and no larger one is. */
  lemma {:induction false} SplitIsLargestPowerOfTwo(n: nat)
    requires n >= 2
    ensures PowerOfTwo(Split(n))
    ensures forall e: nat :: Exp2(e) < n ==> Exp2(e) <= Split(n)
    decreases n
  {
    if n == 2 {
      assert Exp2(0) == 1;
    } else {
      var m := (n + 1) / 2;
      SplitIsLargestPowerOfTwo(m);
      var e: nat :| Split(m) == Exp2(e);
      assert Split(n) == Exp2(e + 1);
      forall d: nat | Exp2(d) < n ensures Exp2(d) <= Split(n) {
        if d > 0 {
          assert Exp2(d) == 2 * Exp2(d - 1);
          assert Exp2(d - 1) < m;
        }
      }
    }
  }

  /** The tree over already hashed leaves. */
  function Tree(h: Hash, nodes: seq<Digest>): Digest
    requires |nodes| >= 1
    decreases |nodes|
  {
    if |nodes| == 1 then nodes[0]
    else
      var k := Split(|nodes|);
      NodeHash(h, Tree(h, nodes[..k]), Tree(h, nodes[k..]))
  }

  /** MTH(D[n]) of the RFC, for a non-empty list. */
  function TreeHash(h: Hash, leaves: seq<Bytes>): Digest
    requires |leaves| >= 1
    decreases |leaves|
  {
    if |leaves| == 1 then LeafHash(h, leaves[0])
    else
      var k := Split(|leaves|);
      NodeHash(h, TreeHash(h, leaves[..k]), TreeHash(h, leaves[k..]))
  }

  lemma {:induction false} TreeOverLeafHashes(h: Hash, leaves: seq<Bytes>)
    requires |leaves| >= 1
    ensures Tree(h, LeafHashes(h, leaves)) == TreeHash(h, leaves)
    decreases |leaves|
  {
    if |leaves| > 1 {
      var k := Split(|leaves|);
      TreeOverLeafHashes(h, leaves[..k]);
      TreeOverLeafHashes(h, leaves[k..]);
      assert LeafHashes(h, leaves)[..k] == LeafHashes(h, leaves[..k]);
      assert LeafHashes(h, leaves)[k..] == LeafHashes(h, leaves[k..]);
    }
  }

  // ----- the loop

  /** The next level: neighbours are paired, an odd last node is promoted unchanged. */
  function NextLevel(h: Hash, level: seq<Digest>): (r: seq<Digest>)
    ensures |r| == (|level| + 1) / 2
  {
    if |level| < 2 then level
    else [NodeHash(h, level[0], level[1])] + NextLevel(h, level[2..])
  }

  lemma {:induction false} NextLevelAppend(h: Hash, a: seq<Digest>, b: seq<Digest>)
    requires |a| % 2 == 0
    ensures NextLevel(h, a + b) == NextLevel(h, a) + NextLevel(h, b)
    decreases |a|
  {
    if a == [] {
      assert a + b == b;
    } else {
      assert (a + b)[2..] == a[2..] + b;
      NextLevelAppend(h, a[2..], b);
    }
  }

  /** Going up one level does not change the tree. */
  lemma {:induction false} NextLevelKeepsTree(h: Hash, level: seq<Digest>)
    requires |level| >= 1
    ensures Tree(h, NextLevel(h, level)) == Tree(h, level)
    decreases |level|
  {
    if |level| == 2 {
      assert NextLevel(h, level) == [NodeHash(h, level[0], level[1])] + NextLevel(h, level[2..]);
      assert level[..1] == [level[0]] && level[1..] == [level[1]];
    } else if |level| > 2 {
      var k := Split(|level|);
      var left, right := level[..k], level[k..];
      assert level == left + right;
      NextLevelAppend(h, left, right);
      NextLevelKeepsTree(h, left);
      NextLevelKeepsTree(h, right);
      var next := NextLevel(h, level);
      assert Split(|next|) == k / 2;
      assert next[..k / 2] == NextLevel(h, left);
      assert next[k / 2..] == NextLevel(h, right);
    }
  }

  function SortedLeaves(branchHashes: seq<Digest>): (r: seq<Bytes>)
    ensures |r| == |branchHashes|
    ensures multiset(r) == multiset(branchHashes)
  {
    var asBytes: seq<Bytes> := branchHashes;
    Sort(asBytes, HashLeq)
  }

  /** The root as a function: the RFC tree over the sorted leaves. */
  function SortedRoot(h: Hash, branchHashes: seq<Digest>): Digest
    requires branchHashes != []
  {
    TreeHash(h, SortedLeaves(branchHashes))
  }

  datatype RootResult = Root(root: Digest) | NoBranches

  method PairLevel(h: Hash, level: seq<Digest>) returns (next: seq<Digest>)
    ensures next == NextLevel(h, level)
  {
    next := [];
    var i := 0;
    while i + 1 < |level|
      invariant 0 <= i <= |level|
      invariant next + NextLevel(h, level[i..]) == NextLevel(h, level)
    {
      assert level[i..][2..] == level[i + 2..];
      next := next + [NodeHash(h, level[i], level[i + 1])];
      i := i + 2;
    }
    if i < |level| {
      next := next + [level[i]];
    }
  }

  // ----- the root a reader can recompute

  /** The branch hashes in ascending byte order. */
  ghost predicate AscendingOf(leaves: seq<Bytes>, branchHashes: seq<Digest>) {
    && multiset(leaves) == multiset(branchHashes)
    && forall i, j :: 0 <= i < j < |leaves| ==> LexLeq(leaves[i], leaves[j])
  }

  lemma SortedLeavesAscend(branchHashes: seq<Digest>)
    ensures AscendingOf(SortedLeaves(branchHashes), branchHashes)
  {
    HashOrderIsTotal();
    var asBytes: seq<Bytes> := branchHashes;
    SortSorts(asBytes, HashLeq);
    hide Sort, LexLeq;
    var leaves := SortedLeaves(branchHashes);
    forall i, j | 0 <= i < j < |leaves| ensures LexLeq(leaves[i], leaves[j]) {
      assert HashLeq(leaves[i], leaves[j]);
    }
  }

  lemma AscendingIsUnique(a: seq<Bytes>, b: seq<Bytes>, branchHashes: seq<Digest>)
    requires AscendingOf(a, branchHashes) && AscendingOf(b, branchHashes)
    ensures a == b
  {
    HashOrderIsTotal();
    hide LexLeq;
    assert Sorted(a, HashLeq) && Sorted(b, HashLeq);
    SortedUnique(a, b, HashLeq);
  }

  /** However the hashes are put into ascending order, the root is the tree over them. */
  lemma RootOfAscending(h: Hash, branchHashes: seq<Digest>, leaves: seq<Bytes>)
    requires branchHashes != [] && AscendingOf(leaves, branchHashes)
    ensures leaves != [] && SortedRoot(h, branchHashes) == TreeHash(h, leaves)
  {
    SortedLeavesAscend(branchHashes);
    AscendingIsUnique(leaves, SortedLeaves(branchHashes), branchHashes);
  }

  /** The equations of section 2.1 of RFC 6962, written out: a leaf is hashed after a zero byte; a longer list is
      cut at any power of two below its length that is at least half of it, and the two roots are hashed after
      a one byte. */
  lemma TreeHashEquations(h: Hash, leaves: seq<Bytes>, k: nat)
    requires leaves != []
    ensures |leaves| == 1 ==> TreeHash(h, leaves) == h([0] + leaves[0])
    ensures PowerOfTwo(k) && k < |leaves| <= 2 * k ==>
              TreeHash(h, leaves) == h([1] + TreeHash(h, leaves[..k]) + TreeHash(h, leaves[k..]))
  {
    if PowerOfTwo(k) && k < |leaves| <= 2 * k {
      SplitIsLargestPowerOfTwo(|leaves|);
      var d: nat :| k == Exp2(d);
      var e: nat :| Split(|leaves|) == Exp2(e);
      PowersApart(d, e);
    }
  }

  lemma {:induction false} Exp2Grows(d: nat, e: nat)
    requires d < e
    ensures 2 * Exp2(d) <= Exp2(e)
  {
    if d + 1 < e {
      Exp2Grows(d, e - 1);
    }
  }

  lemma PowersApart(d: nat, e: nat)
    ensures Exp2(d) < 2 * Exp2(e) && Exp2(e) < 2 * Exp2(d) ==> d == e
  {
    if d < e {
      Exp2Grows(d, e);
    } else if e < d {
      Exp2Grows(e, d);
    }
  }

  /** The level loop computes the RFC tree over the branch hashes in ascending byte order. */
  method SortedBranchesMerkleRoot(h: Hash, branchHashes: seq<Digest>) returns (r: RootResult)
    ensures branchHashes == [] <==> r == NoBranches
    ensures branchHashes != [] ==> r == Root(SortedRoot(h, branchHashes))
    ensures forall leaves :: AscendingOf(leaves, branchHashes) && leaves != [] ==> r == Root(TreeHash(h, leaves))
  {
    if branchHashes == [] {
      return NoBranches;
    }
    var leaves := SortedLeaves(branchHashes);
    var level := LeafHashes(h, leaves);
    TreeOverLeafHashes(h, leaves);
    while |level| > 1
      invariant |level| >= 1
      invariant Tree(h, level) == TreeHash(h, leaves)
      decreases |level|
    {
      NextLevelKeepsTree(h, level);
      level := PairLevel(h, level);
    }
    r := Root(level[0]);
    forall other | AscendingOf(other, branchHashes) && other != [] ensures r == Root(TreeHash(h, other)) {
      RootOfAscending(h, branchHashes, other);
    }
  }

  // ----- what an equal root proves

  /** Every string hashed while building the tree. */
  ghost function TreeStrings(h: Hash, leaves: seq<Bytes>): set<Bytes>
    requires |leaves| >= 1
    decreases |leaves|
  {
    if |leaves| == 1 then {LeafString(leaves[0])}
    else
      var k := Split(|leaves|);
      {NodeString(TreeHash(h, leaves[..k]), TreeHash(h, leaves[k..]))}
      + TreeStrings(h, leaves[..k]) + TreeStrings(h, leaves[k..])
  }

  /** A string hashed by the one computation and a different one hashed by the other share a digest. */
  ghost predicate Collide(h: Hash, xs: set<Bytes>, ys: set<Bytes>) {
    exists x, y :: x in xs && y in ys && x != y && h(x) == h(y)
  }

  lemma CollideMonotone(h: Hash, xs: set<Bytes>, ys: set<Bytes>, xs': set<Bytes>, ys': set<Bytes>)
    requires Collide(h, xs, ys) && xs <= xs' && ys <= ys'
    ensures Collide(h, xs', ys')
  {
    var x, y :| x in xs && y in ys && x != y && h(x) == h(y);
    assert x in xs' && y in ys';
  }

  lemma NodeStringInjective(a: Digest, b: Digest, c: Digest, d: Digest)
    requires NodeString(a, b) == NodeString(c, d)
    ensures a == c && b == d
  {
    assert a == NodeString(a, b)[1..33] && b == NodeString(a, b)[33..];
    assert c == NodeString(c, d)[1..33] && d == NodeString(c, d)[33..];
  }

  ghost function TopString(h: Hash, leaves: seq<Bytes>): (r: Bytes)
    requires |leaves| >= 1
    ensures r in TreeStrings(h, leaves) && h(r) == TreeHash(h, leaves)
    ensures r != [] && r[0] == if |leaves| == 1 then LEAF_PREFIX else NODE_PREFIX
  {
    if |leaves| == 1 then LeafString(leaves[0])
    else
      var k := Split(|leaves|);
      NodeString(TreeHash(h, leaves[..k]), TreeHash(h, leaves[k..]))
  }

  lemma SubtreeStrings(h: Hash, a: seq<Bytes>)
    requires |a| >= 2
    ensures TreeStrings(h, a[..Split(|a|)]) <= TreeStrings(h, a) && TreeStrings(h, a[Split(|a|)..]) <= TreeStrings(h, a)
  {
  }

  /** The same top string means a leaf on both sides, the same one, or two nodes with equal children. */
  lemma SameTop(h: Hash, a: seq<Bytes>, b: seq<Bytes>)
    requires |a| >= 1 && |b| >= 1 && TopString(h, a) == TopString(h, b)
    ensures |a| == 1 <==> |b| == 1
    ensures |a| == 1 ==> a == b
    ensures |a| > 1 ==> TreeHash(h, a[..Split(|a|)]) == TreeHash(h, b[..Split(|b|)])
    ensures |a| > 1 ==> TreeHash(h, a[Split(|a|)..]) == TreeHash(h, b[Split(|b|)..])
  {
    hide TreeHash, TreeStrings;
    if |a| == 1 {
      assert a[0] == TopString(h, a)[1..] && b[0] == TopString(h, b)[1..];
      assert a == [a[0]] && b == [b[0]];
    } else {
      var i, j := Split(|a|), Split(|b|);
      NodeStringInjective(TreeHash(h, a[..i]), TreeHash(h, a[i..]), TreeHash(h, b[..j]), TreeHash(h, b[j..]));
    }
  }

  /** Two leaf lists of any lengths with the same root are the same list, or two of the strings
      hashed for them collide.  The prefixes keep a leaf from passing for a node. */
  lemma {:induction false} TreeHashBinds(h: Hash, a: seq<Bytes>, b: seq<Bytes>)
    requires |a| >= 1 && |b| >= 1
    requires TreeHash(h, a) == TreeHash(h, b)
    ensures a == b || Collide(h, TreeStrings(h, a), TreeStrings(h, b))
    decreases |a|
  {
    hide TreeHash, TreeStrings;
    var sa, sb := TopString(h, a), TopString(h, b);
    if sa == sb {
      SameTop(h, a, b);
      hide TopString, Collide;
      if |a| > 1 {
        var i, j := Split(|a|), Split(|b|);
        SubtreeStrings(h, a);
        SubtreeStrings(h, b);
        TreeHashBinds(h, a[..i], b[..j]);
        TreeHashBinds(h, a[i..], b[j..]);
        if a[..i] == b[..j] && a[i..] == b[j..] {
          assert a == a[..i] + a[i..] && b == b[..j] + b[j..];
        } else if a[..i] != b[..j] {
          CollideMonotone(h, TreeStrings(h, a[..i]), TreeStrings(h, b[..j]), TreeStrings(h, a), TreeStrings(h, b));
        } else {
          CollideMonotone(h, TreeStrings(h, a[i..]), TreeStrings(h, b[j..]), TreeStrings(h, a), TreeStrings(h, b));
        }
      }
    }
  }

  /** The root does not depend on the order the branches arrive in. */
  lemma SortedRootOfPermutation(h: Hash, a: seq<Digest>, b: seq<Digest>)
    requires a != [] && multiset(a) == multiset(b)
    ensures b != [] && SortedRoot(h, a) == SortedRoot(h, b)
  {
    HashOrderIsTotal();
    assert |multiset(a)| == |a| && |multiset(b)| == |b|;
    SortOfPermutation<Bytes>(a, b, HashLeq);
  }

  ghost function RootStrings(h: Hash, branchHashes: seq<Digest>): set<Bytes>
    requires branchHashes != []
  {
    TreeStrings(h, SortedLeaves(branchHashes))
  }

  /** Equal sorted roots mean equal multisets of branch hashes, or a collision. */
  lemma SortedRootBinds(h: Hash, a: seq<Digest>, b: seq<Digest>)
    requires a != [] && b != []
    requires SortedRoot(h, a) == SortedRoot(h, b)
    ensures multiset(a) == multiset(b) || Collide(h, RootStrings(h, a), RootStrings(h, b))
  {
    TreeHashBinds(h, SortedLeaves(a), SortedLeaves(b));
  }
}
