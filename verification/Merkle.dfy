/**
 The Merkle tree of crypto/merkle/src/lib.rs: built top-down by halving, verified bottom-up on
 the bits of the leaf index. The hash function is a parameter and is not assumed injective:
 results hold or exhibit two different pairs that combine to the same hash.
 */
module Merkle {
  import opened Wrappers
  import opened Bytes

  type Sha = seq<byte> -> Hash

  function Combine(sha: Sha, left: Hash, right: Hash): Hash
  {
    sha(left + right)
  }

  datatype Tree = Leaf(hash: Hash) | Node(hash: Hash, left: Tree, right: Tree)

  function Depth(t: Tree): nat
  {
    match t case Leaf(_) => 1 case Node(_, l, _) => 1 + Depth(l)
  }

  /** Splits in halves down to single hashes; the code never calls it on an empty list. */
  function BuildTree(sha: Sha, hs: seq<Hash>): Tree
    requires |hs| > 0
  {
    if |hs| == 1 then Leaf(hs[0])
    else (
      var mid := |hs| / 2;
      var l, r := BuildTree(sha, hs[..mid]), BuildTree(sha, hs[mid..]);
      Node(Combine(sha, l.hash, r.hash), l, r)
    )
  }

  function TreeRoot(sha: Sha, hs: seq<Hash>): Hash
    requires |hs| > 0
  {
    BuildTree(sha, hs).hash
  }

  // ---------------------------------------------------------------- powers of two and bits

  function Pow2(k: nat): (p: nat)
    ensures p > 0
  {
    if k == 0 then 1 else 2 * Pow2(k - 1)
  }

  /** The index with its low k bits dropped. */
  function Shift(i: nat, k: nat): nat
  {
    if k == 0 then i else Shift(i / 2, k - 1)
  }

  lemma {:induction false} ShiftSmall(i: nat, k: nat)
    requires i < 2 * Pow2(k)
    ensures Shift(i, k) == if i < Pow2(k) then 0 else 1
  {
    if k > 0 { ShiftSmall(i / 2, k - 1); }
  }

  /** Bits below bit m do not change when 2^m is taken off. */
  lemma {:induction false} ShiftDrop(i: nat, m: nat, b: nat)
    requires b < m && Pow2(m) <= i
    ensures Shift(i, b) % 2 == Shift(i - Pow2(m), b) % 2
  {
    if b > 0 {
      assert (i - Pow2(m)) / 2 == i / 2 - Pow2(m - 1);
      ShiftDrop(i / 2, m - 1, b - 1);
    }
  }

  lemma {:induction false} Pow2Monotone(a: nat, b: nat)
    requires a <= b
    ensures Pow2(a) <= Pow2(b)
  {
    if a < b { Pow2Monotone(a, b - 1); }
  }

  // ---------------------------------------------------------------- padding

  function NextPow2From(p: nat, n: nat): (q: nat)
    requires p > 0
    ensures q >= n
    decreases n - p
  {
    if p >= n then p else NextPow2From(2 * p, n)
  }

  /** The least power of two at or above n. */
  function NextPow2(n: nat): nat
  {
    NextPow2From(1, n)
  }

  lemma {:induction false} NextPow2FromLeast(j: nat, n: nat)
    requires j == 0 || Pow2(j - 1) < n
    ensures exists k :: j <= k && NextPow2From(Pow2(j), n) == Pow2(k) && Pow2(k) >= n && (k == 0 || Pow2(k - 1) < n)
    decreases n - Pow2(j)
  {
    if Pow2(j) >= n {
      assert j <= j && NextPow2From(Pow2(j), n) == Pow2(j);
    } else {
      NextPow2FromLeast(j + 1, n);
    }
  }

  lemma NextPow2Least(n: nat) returns (k: nat)
    ensures NextPow2(n) == Pow2(k) && n <= Pow2(k)
    ensures forall j: nat :: n <= Pow2(j) ==> k <= j && Pow2(k) <= Pow2(j)
  {
    NextPow2FromLeast(0, n);
    k :| NextPow2From(Pow2(0), n) == Pow2(k) && Pow2(k) >= n && (k == 0 || Pow2(k - 1) < n);
    forall j: nat | n <= Pow2(j) ensures k <= j && Pow2(k) <= Pow2(j) {
      if j < k { Pow2Monotone(j, k - 1); }
      Pow2Monotone(k, j);
    }
  }

  /** A 64-bit word shifted left by one, the top bit lost. */
  function ShiftLeft(p: Word64): Word64
  {
    if 2 * p < WORD64 then 2 * p else 2 * p - WORD64
  }

  /** The doubling loop on a 64-bit word. */
  method NextPowerOfTwo(n: Word64) returns (p: Word64)
    requires n <= WORD64 / 2
    ensures p == NextPow2(n) <= WORD64 / 2
  {
    if n <= 1 {
      return 1;
    }
    p := 1;
    ghost var k := 0;
    Widths63();
    while p < n
      invariant k <= 63 && p == Pow2(k)
      invariant NextPow2(n) == NextPow2From(p, n)
      decreases WORD64 - p
    {
      if k == 63 { assert false; }
      Pow2Monotone(k + 1, 63);
      p := ShiftLeft(p);
      k := k + 1;
    }
    Pow2Monotone(k, 63);
  }

  lemma Widths63()
    ensures Pow2(63) == WORD64 / 2
  {
    assert Pow2(8) == 256;
    assert Pow2(16) == 65536;
    assert Pow2(24) == 0x100_0000;
    assert Pow2(32) == WORD32;
    assert Pow2(40) == 0x100_0000_0000;
    assert Pow2(48) == 0x1_0000_0000_0000;
    assert Pow2(56) == 0x100_0000_0000_0000;
  }

  /** The loop variable after k rounds of shifting left in a word. */
  function LoopValue(k: nat): Word64
  {
    if k == 0 then 1 else ShiftLeft(LoopValue(k - 1))
  }

  /** The loop ends exactly for n up to 2^63; beyond, the variable sticks at zero. */
  lemma LoopEndsIff(n: Word64)
    ensures (exists k :: LoopValue(k) >= n) <==> n <= WORD64 / 2
  {
    Widths63();
    LoopValues(63);
    forall k ensures LoopValue(k) <= WORD64 / 2 {
      if k <= 63 { LoopValues(k); Pow2Monotone(k, 63); } else { LoopSticks(63, k); }
    }
  }

  lemma {:induction false} LoopValues(k: nat)
    requires k <= 63
    ensures LoopValue(k) == Pow2(k)
  {
    if k > 0 {
      LoopValues(k - 1);
      Widths63();
      Pow2Monotone(k, 63);
    }
  }

  lemma {:induction false} LoopSticks(top: nat, k: nat)
    requires LoopValue(top) == WORD64 / 2 && k > top
    ensures LoopValue(k) == 0
  {
    if k > top + 1 { LoopSticks(top, k - 1); }
  }

  function Zeros(n: nat): (zs: seq<Hash>)
    ensures |zs| == n && forall i :: 0 <= i < n ==> zs[i] == ZERO_HASH
  {
    if n == 0 then [] else [ZERO_HASH] + Zeros(n - 1)
  }

  function Pad(hs: seq<Hash>): (padded: seq<Hash>)
    ensures |padded| > 0 && |padded| >= |hs|
  {
    if hs == [] then [ZERO_HASH]
    else hs + Zeros(NextPow2(|hs|) - |hs|)
  }

  function ComputeRoot(sha: Sha, hs: seq<Hash>): Hash
  {
    if hs == [] then ZERO_HASH else TreeRoot(sha, Pad(hs))
  }

  /** The bytes that are hashed: left before right, no leaf is hashed by itself, and zeros for nothing. */
  lemma RootBytes(sha: Sha, a: Hash, b: Hash, c: Hash, d: Hash)
    ensures ComputeRoot(sha, []) == ZERO_HASH && forall i :: 0 <= i < 32 ==> ZERO_HASH[i] == 0
    ensures ComputeRoot(sha, [a]) == a
    ensures ComputeRoot(sha, [a, b]) == sha(a + b)
    ensures ComputeRoot(sha, [a, b, c, d]) == sha(sha(a + b) + sha(c + d))
  {
    NoPadding([a]);
    NoPadding([a, b]);
    NoPadding([a, b, c, d]);
    PairRoot(sha, a, b);
    PairRoot(sha, c, d);
    assert TreeRoot(sha, [a]) == a;
    HalvesRoot(sha, [a, b], [c, d]);
    assert [a, b] + [c, d] == [a, b, c, d];
  }

  lemma NoPadding(hs: seq<Hash>)
    requires |hs| == 1 || |hs| == 2 || |hs| == 4
    ensures Pad(hs) == hs
  {
    assert NextPow2From(4, 4) == 4 && NextPow2From(2, 4) == 4 && NextPow2From(2, 2) == 2;
    assert NextPow2(|hs|) == |hs|;
  }

  lemma HalvesRoot(sha: Sha, l: seq<Hash>, r: seq<Hash>)
    requires |l| == |r| > 0
    ensures TreeRoot(sha, l + r) == sha(TreeRoot(sha, l) + TreeRoot(sha, r))
  {
    assert (l + r)[..|l|] == l && (l + r)[|l|..] == r;
  }

  lemma PairRoot(sha: Sha, a: Hash, b: Hash)
    ensures TreeRoot(sha, [a, b]) == sha(a + b)
  {
    HalvesRoot(sha, [a], [b]);
    assert [a] + [b] == [a, b];
    assert TreeRoot(sha, [a]) == a && TreeRoot(sha, [b]) == b;
  }

  /** Padding gives the least power of two at or above the length, and changes no given hash. */
  lemma PadShape(hs: seq<Hash>) returns (k: nat)
    ensures |Pad(hs)| == Pow2(k) && |hs| <= Pow2(k) && hs <= Pad(hs)
    ensures forall j: nat :: |hs| <= Pow2(j) ==> Pow2(k) <= Pow2(j)
    ensures forall i :: |hs| <= i < |Pad(hs)| ==> Pad(hs)[i] == ZERO_HASH
  {
    k := NextPow2Least(|hs|);
    if hs == [] {
      assert NextPow2(0) == Pow2(0);
      k := 0;
    }
  }

  // ---------------------------------------------------------------- shape of the tree

  function Leaves(t: Tree): seq<Hash>
  {
    match t case Leaf(h) => [h] case Node(_, l, r) => Leaves(l) + Leaves(r)
  }

  /** All leaves at depth k below the root, and every node's hash combines its children's. */
  predicate Perfect(sha: Sha, t: Tree, k: nat)
  {
    match t
    case Leaf(_) => k == 0
    case Node(h, l, r) => k > 0 && h == Combine(sha, l.hash, r.hash) && Perfect(sha, l, k - 1) && Perfect(sha, r, k - 1)
  }

  lemma {:induction false} BuildTreeShape(sha: Sha, hs: seq<Hash>, k: nat)
    requires |hs| == Pow2(k)
    ensures var t := BuildTree(sha, hs); Perfect(sha, t, k) && Leaves(t) == hs && Depth(t) == k + 1
    decreases k
  {
    if k > 0 {
      var mid := Pow2(k - 1);
      BuildTreeShape(sha, hs[..mid], k - 1);
      BuildTreeShape(sha, hs[mid..], k - 1);
      assert hs == hs[..mid] + hs[mid..];
    }
  }

  /** The pairs combined at the nodes of a tree. */
  function NodePairs(t: Tree): set<(Hash, Hash)>
  {
    match t
    case Leaf(_) => {}
    case Node(_, l, r) => {(l.hash, r.hash)} + NodePairs(l) + NodePairs(r)
  }

  /** Two different pairs, one from each set, that combine to the same hash. */
  ghost predicate Collision(sha: Sha, ps: set<(Hash, Hash)>, qs: set<(Hash, Hash)>)
  {
    exists p, q :: p in ps && q in qs && p != q && Combine(sha, p.0, p.1) == Combine(sha, q.0, q.1)
  }

  // ---------------------------------------------------------------- proofs

  datatype Proof = Proof(index: nat, leaf: Hash, siblings: seq<Hash>)

  /** The pair combined at one level: the bit says which side the current hash is on. */
  function Beside(current: Hash, bit: nat, sibling: Hash): (Hash, Hash)
  {
    if bit == 0 then (current, sibling) else (sibling, current)
  }

  function Join(sha: Sha, pair: (Hash, Hash)): Hash
  {
    Combine(sha, pair.0, pair.1)
  }

  /** The hash reached from a leaf by folding in the siblings on the index bits. */
  function Fold(sha: Sha, current: Hash, index: nat, siblings: seq<Hash>): Hash
    decreases |siblings|
  {
    if siblings == [] then current
    else Fold(sha, Join(sha, Beside(current, index % 2, siblings[0])), index / 2, siblings[1..])
  }

  /** The pairs combined on the way. */
  function FoldPairs(sha: Sha, current: Hash, index: nat, siblings: seq<Hash>): set<(Hash, Hash)>
    decreases |siblings|
  {
    if siblings == [] then {}
    else (
      var pair := Beside(current, index % 2, siblings[0]);
      {pair} + FoldPairs(sha, Join(sha, pair), index / 2, siblings[1..])
    )
  }

  method ComputeProofRoot(sha: Sha, proof: Proof) returns (root: Hash)
    ensures root == Fold(sha, proof.leaf, proof.index, proof.siblings)
  {
    root := proof.leaf;
    var idx, j := proof.index, 0;
    while j < |proof.siblings|
      invariant 0 <= j <= |proof.siblings|
      invariant Fold(sha, root, idx, proof.siblings[j..]) == Fold(sha, proof.leaf, proof.index, proof.siblings)
    {
      if idx % 2 == 0 {
        root := Combine(sha, root, proof.siblings[j]);
      } else {
        root := Combine(sha, proof.siblings[j], root);
      }
      idx := idx / 2;
      assert proof.siblings[j..][1..] == proof.siblings[j + 1..];
      j := j + 1;
    }
  }

  predicate Verifies(sha: Sha, proof: Proof, root: Hash)
  {
    Fold(sha, proof.leaf, proof.index, proof.siblings) == root
  }

  /** The fold can be read from the root end: the last sibling meets the bit above the others. */
  lemma {:induction false} FoldLast(sha: Sha, current: Hash, index: nat, siblings: seq<Hash>, top: Hash)
    ensures var pair := Beside(Fold(sha, current, index, siblings), Shift(index, |siblings|) % 2, top);
      && Fold(sha, current, index, siblings + [top]) == Join(sha, pair)
      && FoldPairs(sha, current, index, siblings + [top]) == FoldPairs(sha, current, index, siblings) + {pair}
    decreases |siblings|
  {
    if siblings == [] {
      assert (siblings + [top])[1..] == [];
    } else {
      var pair := Beside(current, index % 2, siblings[0]);
      FoldLast(sha, Join(sha, pair), index / 2, siblings[1..], top);
      assert (siblings + [top])[1..] == siblings[1..] + [top];
    }
  }

  /** Only as many index bits matter as there are siblings. */
  lemma {:induction false} FoldDrop(sha: Sha, current: Hash, index: nat, siblings: seq<Hash>)
    requires Pow2(|siblings|) <= index
    ensures Fold(sha, current, index, siblings) == Fold(sha, current, index - Pow2(|siblings|), siblings)
    ensures FoldPairs(sha, current, index, siblings) == FoldPairs(sha, current, index - Pow2(|siblings|), siblings)
    decreases |siblings|
  {
    if siblings != [] {
      FoldDrop(sha, Join(sha, Beside(current, index % 2, siblings[0])), index / 2, siblings[1..]);
      assert (index - Pow2(|siblings|)) / 2 == index / 2 - Pow2(|siblings| - 1);
    }
  }

  /** The low d bits of an index. */
  function LowBits(i: nat, d: nat): (low: nat)
    ensures low < Pow2(d)
  {
    if i < Pow2(d) then i else LowBits(i - Pow2(d), d)
  }

  lemma {:induction false} FoldLowBits(sha: Sha, current: Hash, index: nat, siblings: seq<Hash>)
    ensures var low := LowBits(index, |siblings|);
      && Fold(sha, current, index, siblings) == Fold(sha, current, low, siblings)
      && FoldPairs(sha, current, index, siblings) == FoldPairs(sha, current, low, siblings)
    decreases index
  {
    if Pow2(|siblings|) <= index {
      FoldDrop(sha, current, index, siblings);
      FoldLowBits(sha, current, index - Pow2(|siblings|), siblings);
    }
  }

  /** A fold in two stages. */
  lemma {:induction false} FoldAppend(sha: Sha, current: Hash, index: nat, low: seq<Hash>, high: seq<Hash>)
    ensures var inner := Fold(sha, current, index, low);
      && Fold(sha, current, index, low + high) == Fold(sha, inner, Shift(index, |low|), high)
      && FoldPairs(sha, inner, Shift(index, |low|), high) <= FoldPairs(sha, current, index, low + high)
    decreases |low|
  {
    if low == [] {
      assert low + high == high;
    } else {
      FoldAppend(sha, Join(sha, Beside(current, index % 2, low[0])), index / 2, low[1..], high);
      assert (low + high)[1..] == low[1..] + high;
    }
  }

  /** Node number i at depth k of a tree: a leaf when k is its height. */
  function LeafAt(t: Tree, k: nat, i: nat): Hash
  {
    if t.Leaf? || k == 0 then t.hash
    else if i < Pow2(k - 1) then LeafAt(t.left, k - 1, i) else LeafAt(t.right, k - 1, i - Pow2(k - 1))
  }

  /** The roots of the sibling subtrees along the way to that node, from the node up. */
  function Path(t: Tree, k: nat, i: nat): seq<Hash>
  {
    if t.Leaf? || k == 0 then []
    else if i < Pow2(k - 1) then Path(t.left, k - 1, i) + [t.right.hash]
    else Path(t.right, k - 1, i - Pow2(k - 1)) + [t.left.hash]
  }

  lemma {:induction false} LeafAtIsLeaf(sha: Sha, t: Tree, k: nat, i: nat)
    requires Perfect(sha, t, k) && i < Pow2(k)
    ensures |Leaves(t)| == Pow2(k) && LeafAt(t, k, i) == Leaves(t)[i]
  {
    if k > 0 {
      LeafAtIsLeaf(sha, t.left, k - 1, if i < Pow2(k - 1) then i else 0);
      LeafAtIsLeaf(sha, t.right, k - 1, if i < Pow2(k - 1) then 0 else i - Pow2(k - 1));
    }
  }

  lemma {:induction false} PathLength(sha: Sha, t: Tree, k: nat, d: nat, i: nat)
    requires Perfect(sha, t, k) && d <= k
    ensures |Path(t, d, i)| == d
  {
    if d > 0 {
      if i < Pow2(d - 1) { PathLength(sha, t.left, k - 1, d - 1, i); }
      else { PathLength(sha, t.right, k - 1, d - 1, i - Pow2(d - 1)); }
    }
  }

  /** The last level of a fold: the top bit of the index says which side the lower part is on. */
  lemma FoldTop(sha: Sha, leaf: Hash, i: nat, lower: seq<Hash>, top: Hash)
    requires i < 2 * Pow2(|lower|)
    ensures var j := if i < Pow2(|lower|) then i else i - Pow2(|lower|);
      var pair := Beside(Fold(sha, leaf, j, lower), if i < Pow2(|lower|) then 0 else 1, top);
      && Fold(sha, leaf, i, lower + [top]) == Join(sha, pair)
      && FoldPairs(sha, leaf, i, lower + [top]) == FoldPairs(sha, leaf, j, lower) + {pair}
  {
    FoldLast(sha, leaf, i, lower, top);
    ShiftSmall(i, |lower|);
    if i >= Pow2(|lower|) { FoldDrop(sha, leaf, i, lower); }
  }

  /** Completeness on a perfect tree: the path of subtree roots folds to the root. */
  lemma {:induction false} PathFolds(sha: Sha, t: Tree, k: nat, d: nat, i: nat)
    requires Perfect(sha, t, k) && d <= k && i < Pow2(d)
    ensures Fold(sha, LeafAt(t, d, i), i, Path(t, d, i)) == t.hash
  {
    if d > 0 {
      var half, j := if i < Pow2(d - 1) then t.left else t.right, if i < Pow2(d - 1) then i else i - Pow2(d - 1);
      PathLength(sha, half, k - 1, d - 1, j);
      PathFolds(sha, half, k - 1, d - 1, j);
      FoldTop(sha, LeafAt(t, d, i), i, Path(half, d - 1, j), if i < Pow2(d - 1) then t.right.hash else t.left.hash);
    }
  }

  /** The tree over the padded list, and its height. */
  function PaddedTree(sha: Sha, hs: seq<Hash>): Tree
  {
    BuildTree(sha, Pad(hs))
  }

  lemma PaddedTreeShape(sha: Sha, hs: seq<Hash>) returns (k: nat)
    ensures |Pad(hs)| == Pow2(k) && Perfect(sha, PaddedTree(sha, hs), k)
    ensures forall i: nat :: i < |Pad(hs)| ==> LeafAt(PaddedTree(sha, hs), k, i) == Pad(hs)[i]
    ensures hs != [] ==> ComputeRoot(sha, hs) == PaddedTree(sha, hs).hash
  {
    k := PadShape(hs);
    BuildTreeShape(sha, Pad(hs), k);
    forall i: nat | i < |Pad(hs)| ensures LeafAt(PaddedTree(sha, hs), k, i) == Pad(hs)[i] {
      LeafAtIsLeaf(sha, PaddedTree(sha, hs), k, i);
    }
  }

  /** Completeness: for every list and index in range, the path in the padded tree verifies. */
  lemma Completeness(sha: Sha, hs: seq<Hash>, i: nat) returns (k: nat)
    requires i < |hs|
    ensures |Pad(hs)| == Pow2(k)
    ensures Verifies(sha, Proof(i, hs[i], Path(PaddedTree(sha, hs), k, i)), ComputeRoot(sha, hs))
  {
    k := PaddedTreeShape(sha, hs);
    PathFolds(sha, PaddedTree(sha, hs), k, k, i);
  }

  lemma CollisionGrows(sha: Sha, ps: set<(Hash, Hash)>, ps': set<(Hash, Hash)>, qs: set<(Hash, Hash)>, qs': set<(Hash, Hash)>)
    requires ps <= ps' && qs <= qs' && Collision(sha, ps, qs)
    ensures Collision(sha, ps', qs')
  {
  }

  /** At the root, the fold combines the very pair the tree combines, or the two collide. */
  lemma TopPair(sha: Sha, t: Tree, leaf: Hash, i: nat, lower: seq<Hash>, top: Hash)
    requires t.Node? && t.hash == Combine(sha, t.left.hash, t.right.hash) && i < 2 * Pow2(|lower|)
    requires Fold(sha, leaf, i, lower + [top]) == t.hash
    ensures
      || Collision(sha, NodePairs(t), FoldPairs(sha, leaf, i, lower + [top]))
      || (i < Pow2(|lower|) && Fold(sha, leaf, i, lower) == t.left.hash && top == t.right.hash)
      || (i >= Pow2(|lower|) && Fold(sha, leaf, i - Pow2(|lower|), lower) == t.right.hash && top == t.left.hash)
  {
    FoldTop(sha, leaf, i, lower, top);
    var low := i < Pow2(|lower|);
    var pair := Beside(Fold(sha, leaf, if low then i else i - Pow2(|lower|), lower), if low then 0 else 1, top);
    var children := (t.left.hash, t.right.hash);
    assert children in NodePairs(t) && pair in FoldPairs(sha, leaf, i, lower + [top]);
    assert Combine(sha, pair.0, pair.1) == Combine(sha, children.0, children.1);
  }

  lemma CollisionAbove(sha: Sha, t: Tree, half: Tree, leaf: Hash, i: nat, j: nat, lower: seq<Hash>, top: Hash)
    requires t.Node? && (half == t.left || half == t.right)
    requires i < 2 * Pow2(|lower|) && j == if i < Pow2(|lower|) then i else i - Pow2(|lower|)
    requires Collision(sha, NodePairs(half), FoldPairs(sha, leaf, j, lower))
    ensures Collision(sha, NodePairs(t), FoldPairs(sha, leaf, i, lower + [top]))
  {
    FoldTop(sha, leaf, i, lower, top);
    CollisionGrows(sha, NodePairs(half), NodePairs(t), FoldPairs(sha, leaf, j, lower), FoldPairs(sha, leaf, i, lower + [top]));
  }

  /** A fold of d levels that reaches the root of a perfect tree came from depth d along the path, or collides. */
  lemma {:induction false} FoldDetermines(sha: Sha, t: Tree, k: nat, leaf: Hash, i: nat, siblings: seq<Hash>)
    requires Perfect(sha, t, k) && |siblings| <= k && i < Pow2(|siblings|) && Fold(sha, leaf, i, siblings) == t.hash
    ensures (leaf == LeafAt(t, |siblings|, i) && siblings == Path(t, |siblings|, i))
      || Collision(sha, NodePairs(t), FoldPairs(sha, leaf, i, siblings))
    decreases k
  {
    if siblings != [] {
      var d := |siblings|;
      var lower, top := siblings[..d - 1], siblings[d - 1];
      assert siblings == lower + [top];
      TopPair(sha, t, leaf, i, lower, top);
      if !Collision(sha, NodePairs(t), FoldPairs(sha, leaf, i, siblings)) {
        var low := i < Pow2(d - 1);
        var half, j := if low then t.left else t.right, if low then i else i - Pow2(d - 1);
        FoldDetermines(sha, half, k - 1, leaf, j, lower);
        if Collision(sha, NodePairs(half), FoldPairs(sha, leaf, j, lower)) {
          CollisionAbove(sha, t, half, leaf, i, j, lower, top);
        }
      }
    }
  }

  /**
   Soundness: a proof of full length that verifies carries the padded leaf at its index and
   exactly the sibling subtree roots, or a pair of the proof collides with a pair of the tree.
   */
  lemma Soundness(sha: Sha, hs: seq<Hash>, proof: Proof)
    requires hs != [] && proof.index < |Pad(hs)| && Pow2(|proof.siblings|) == |Pad(hs)|
    requires Verifies(sha, proof, ComputeRoot(sha, hs))
    ensures var t, k := PaddedTree(sha, hs), |proof.siblings|;
      || (proof.leaf == Pad(hs)[proof.index] && proof.siblings == Path(t, k, proof.index))
      || Collision(sha, NodePairs(t), FoldPairs(sha, proof.leaf, proof.index, proof.siblings))
  {
    var k := PaddedTreeShape(sha, hs);
    Pow2Injective(k, |proof.siblings|);
    FoldDetermines(sha, PaddedTree(sha, hs), k, proof.leaf, proof.index, proof.siblings);
  }

  /**
   What a proof of any length and any index claims: with d siblings, at most the height k, that
   its hash is the node at depth d under the low d bits of the index; with more than k, that the
   first d - k siblings fold to a leaf; and that the rest are the sibling roots on the way up.
   */
  ghost predicate Opens(sha: Sha, hs: seq<Hash>, k: nat, proof: Proof)
  {
    var t, d := PaddedTree(sha, hs), |proof.siblings|;
    if d <= k then
      var i := LowBits(proof.index, d);
      proof.leaf == LeafAt(t, d, i) && proof.siblings == Path(t, d, i)
    else
      var i := LowBits(Shift(proof.index, d - k), k);
      && Fold(sha, proof.leaf, proof.index, proof.siblings[..d - k]) == LeafAt(t, k, i)
      && proof.siblings[d - k..] == Path(t, k, i)
  }

  /** Everything that verify accepts, sibling count and index unchecked; and all of that it accepts. */
  lemma VerifyAccepts(sha: Sha, hs: seq<Hash>, k: nat, proof: Proof)
    requires hs != [] && |Pad(hs)| == Pow2(k)
    ensures Opens(sha, hs, k, proof) ==> Verifies(sha, proof, ComputeRoot(sha, hs))
    ensures Verifies(sha, proof, ComputeRoot(sha, hs)) ==>
      || Opens(sha, hs, k, proof)
      || Collision(sha, NodePairs(PaddedTree(sha, hs)), FoldPairs(sha, proof.leaf, proof.index, proof.siblings))
  {
    var t := PaddedTree(sha, hs);
    BuildTreeShape(sha, Pad(hs), k);
    if |proof.siblings| <= k {
      LowFold(sha, t, k, proof.leaf, proof.index, proof.siblings);
    } else {
      var extra := |proof.siblings| - k;
      var low, high := proof.siblings[..extra], proof.siblings[extra..];
      assert proof.siblings == low + high;
      var inner := Fold(sha, proof.leaf, proof.index, low);
      FoldAppend(sha, proof.leaf, proof.index, low, high);
      LowFold(sha, t, k, inner, Shift(proof.index, extra), high);
      var pairs := FoldPairs(sha, inner, Shift(proof.index, extra), high);
      if Collision(sha, NodePairs(t), pairs) {
        CollisionGrows(sha, NodePairs(t), NodePairs(t), pairs, FoldPairs(sha, proof.leaf, proof.index, proof.siblings));
      }
    }
  }

  lemma LowFold(sha: Sha, t: Tree, k: nat, leaf: Hash, index: nat, siblings: seq<Hash>)
    requires Perfect(sha, t, k) && |siblings| <= k
    ensures var d := |siblings|; var i := LowBits(index, d);
      var opens := leaf == LeafAt(t, d, i) && siblings == Path(t, d, i);
      && (opens ==> Fold(sha, leaf, index, siblings) == t.hash)
      && (Fold(sha, leaf, index, siblings) == t.hash ==>
            opens || Collision(sha, NodePairs(t), FoldPairs(sha, leaf, index, siblings)))
  {
    var d := |siblings|;
    var i := LowBits(index, d);
    FoldLowBits(sha, leaf, index, siblings);
    PathFolds(sha, t, k, d, i);
    if Fold(sha, leaf, i, siblings) == t.hash { FoldDetermines(sha, t, k, leaf, i, siblings); }
  }

  lemma Pow2Injective(a: nat, b: nat)
    requires Pow2(a) == Pow2(b)
    ensures a == b
  {
    if a < b { Pow2Strict(a, b); } else if b < a { Pow2Strict(b, a); }
  }

  lemma Pow2Strict(a: nat, b: nat)
    requires a < b
    ensures Pow2(a) < Pow2(b)
  {
    Pow2Monotone(a + 1, b);
  }

  lemma {:induction false} RootBinds(sha: Sha, t: Tree, t': Tree, k: nat)
    requires Perfect(sha, t, k) && Perfect(sha, t', k) && t.hash == t'.hash
    ensures t == t' || Collision(sha, NodePairs(t), NodePairs(t'))
  {
    if k > 0 {
      var p, q := (t.left.hash, t.right.hash), (t'.left.hash, t'.right.hash);
      if p == q {
        RootBinds(sha, t.left, t'.left, k - 1);
        RootBinds(sha, t.right, t'.right, k - 1);
        if Collision(sha, NodePairs(t.left), NodePairs(t'.left)) {
          CollisionGrows(sha, NodePairs(t.left), NodePairs(t), NodePairs(t'.left), NodePairs(t'));
        } else if Collision(sha, NodePairs(t.right), NodePairs(t'.right)) {
          CollisionGrows(sha, NodePairs(t.right), NodePairs(t), NodePairs(t'.right), NodePairs(t'));
        }
      } else {
        assert p in NodePairs(t) && q in NodePairs(t');
        assert Combine(sha, p.0, p.1) == Combine(sha, q.0, q.1);
      }
    }
  }

  /** Binding: lists of one length with equal roots are equal, or their trees collide. */
  lemma Binding(sha: Sha, a: seq<Hash>, b: seq<Hash>)
    requires |a| == |b| && ComputeRoot(sha, a) == ComputeRoot(sha, b)
    ensures a == b || Collision(sha, NodePairs(PaddedTree(sha, a)), NodePairs(PaddedTree(sha, b)))
  {
    if a != [] {
      var k := PadShape(a);
      var k' := PadShape(b);
      BuildTreeShape(sha, Pad(a), k);
      BuildTreeShape(sha, Pad(b), k);
      RootBinds(sha, PaddedTree(sha, a), PaddedTree(sha, b), k);
      assert a == Pad(a)[..|a|] && b == Pad(b)[..|b|];
    }
  }
}
