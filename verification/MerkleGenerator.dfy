/**
 The proof generator of crypto/merkle/src/lib.rs as it stands. Its sibling loop walks from the
 root down and pushes single leaves, so what it emits is the sibling path only for trees of at
 most two leaves.
 */
module MerkleGenerator {
  import opened Wrappers
  import opened Bytes
  import opened Merkle

  /** The index within a half of size mid, and the place of its mirror image in the other half. */
  function Within(i: nat, mid: nat): (j: nat)
    requires mid > 0
    ensures j < mid
  {
    i % mid
  }

  /** The leaf mirrored into the other half. */
  function MirrorLeaf(hs: seq<Hash>, i: nat): Hash
    requires |hs| > 1 && i < |hs|
  {
    var mid := |hs| / 2;
    if i < mid then hs[mid + Within(i, mid)] else hs[Within(i, mid)]
  }

  /** The half with the index. */
  function OwnHalf(hs: seq<Hash>, i: nat): (half: seq<Hash>)
    requires |hs| > 1 && i < |hs|
    ensures Within(i, |hs| / 2) < |half| < |hs|
  {
    if i < |hs| / 2 then hs[..|hs| / 2] else hs[|hs| / 2..]
  }

  /** What the loop pushes: at each level the leaf mirrored into the other half. */
  function Emitted(hs: seq<Hash>, i: nat): seq<Hash>
    requires i < |hs|
    decreases |hs|
  {
    if |hs| == 1 then [] else [MirrorLeaf(hs, i)] + Emitted(OwnHalf(hs, i), Within(i, |hs| / 2))
  }

  /** One round of the loop moves the head of what is still to come onto what has been pushed. */
  lemma Pushed(pushed: seq<Hash>, x: Hash, rest: seq<Hash>)
    ensures pushed + ([x] + rest) == (pushed + [x]) + rest
  {
  }

  method CollectSiblings(hashes: seq<Hash>, start: nat) returns (siblings: seq<Hash>)
    requires start < |hashes|
    ensures siblings == Emitted(hashes, start)
  {
    siblings := [];
    var current: seq<Hash>, index: nat := hashes, start;
    while |current| > 1
      invariant index < |current|
      invariant siblings + Emitted(current, index) == Emitted(hashes, start)
      decreases |current|
    {
      var mid := |current| / 2;
      var inner := Within(index, mid);
      var sibling, next;
      if index < mid {
        sibling, next := current[mid + inner], current[..mid];
      } else {
        sibling, next := current[inner], current[mid..];
      }
      assert sibling == MirrorLeaf(current, index) && next == OwnHalf(current, index);
      Pushed(siblings, sibling, Emitted(next, inner));
      siblings, index, current := siblings + [sibling], inner, next;
    }
  }

  lemma HalfOfPow2(k: nat)
    requires k > 0
    ensures Pow2(k) / 2 == Pow2(k - 1) && Pow2(k) == 2 * Pow2(k - 1)
  {
  }

  lemma SmallMod(i: nat, m: nat)
    requires m > 0
    ensures i < m ==> i % m == i
    ensures m <= i < 2 * m ==> i % m == i - m
  {
    if m <= i < 2 * m { assert (i - m) % m == i % m; }
  }

  /** The index with bit b flipped. */
  function Flip(i: nat, b: nat): int
  {
    if Shift(i, b) % 2 == 0 then i + Pow2(b) else i - Pow2(b)
  }

  lemma EvenSplit(hs: seq<Hash>, i: nat, mid: nat)
    requires mid > 0 && |hs| == 2 * mid && i < |hs|
    ensures |hs| / 2 == mid
    ensures if i < mid then Within(i, mid) == i && MirrorLeaf(hs, i) == hs[i + mid] && OwnHalf(hs, i) == hs[..mid]
      else Within(i, mid) == i - mid && MirrorLeaf(hs, i) == hs[i - mid] && OwnHalf(hs, i) == hs[mid..]
  {
    SmallMod(i, mid);
  }

  /** On a full tree each level keeps the half with the index and the index within it. */
  lemma EmittedLeft(hs: seq<Hash>, i: nat, k: nat)
    requires k > 0 && |hs| == Pow2(k) && i < Pow2(k - 1)
    ensures var mid := Pow2(k - 1); Emitted(hs, i) == [hs[i + mid]] + Emitted(hs[..mid], i)
  {
    EvenSplit(hs, i, Pow2(k - 1));
  }

  lemma EmittedRight(hs: seq<Hash>, i: nat, k: nat)
    requires k > 0 && |hs| == Pow2(k) && Pow2(k - 1) <= i < |hs|
    ensures var mid := Pow2(k - 1); Emitted(hs, i) == [hs[i - mid]] + Emitted(hs[mid..], i - mid)
  {
    EvenSplit(hs, i, Pow2(k - 1));
  }

  lemma FlipWithinHalf(i: nat, m: nat, b: nat)
    requires i < 2 * Pow2(m) && b <= m
    ensures b == m ==> Flip(i, b) == if i < Pow2(m) then i + Pow2(m) else i - Pow2(m)
    ensures b < m && Pow2(m) <= i ==> Flip(i - Pow2(m), b) == Flip(i, b) - Pow2(m)
  {
    ShiftSmall(i, m);
    if b < m && Pow2(m) <= i { ShiftDrop(i, m, b); }
  }

  /** Position j of the emitted list holds the leaf whose index differs in bit k - 1 - j. */
  ghost predicate MirrorAt(hs: seq<Hash>, i: nat, k: nat, emitted: seq<Hash>, j: nat)
    requires j < k == |emitted|
  {
    0 <= Flip(i, k - 1 - j) < |hs| && emitted[j] == hs[Flip(i, k - 1 - j)]
  }

  ghost predicate Mirrors(hs: seq<Hash>, i: nat, k: nat, emitted: seq<Hash>)
  {
    |emitted| == k && forall j: nat :: j < k ==> MirrorAt(hs, i, k, emitted, j)
  }

  lemma MirrorsStep(hs: seq<Hash>, i: nat, k: nat, lower: seq<Hash>, emitted: seq<Hash>)
    requires k > 0 && |hs| == Pow2(k) && i < |hs|
    requires var mid := Pow2(k - 1);
      if i < mid then Mirrors(hs[..mid], i, k - 1, lower) && emitted == [hs[i + mid]] + lower
      else Mirrors(hs[mid..], i - mid, k - 1, lower) && emitted == [hs[i - mid]] + lower
    ensures Mirrors(hs, i, k, emitted)
  {
    var mid := Pow2(k - 1);
    forall j: nat | j < k ensures MirrorAt(hs, i, k, emitted, j) {
      FlipWithinHalf(i, k - 1, k - 1 - j);
      if j > 0 {
        assert emitted[j] == lower[j - 1];
        if i < mid {
          assert MirrorAt(hs[..mid], i, k - 1, lower, j - 1);
        } else {
          assert MirrorAt(hs[mid..], i - mid, k - 1, lower, j - 1);
        }
      }
    }
  }

  /** Closed form of the loop on a full tree. */
  lemma {:induction false} EmittedClosedForm(hs: seq<Hash>, i: nat, k: nat)
    requires |hs| == Pow2(k) && i < |hs|
    ensures Mirrors(hs, i, k, Emitted(hs, i))
    decreases k
  {
    if k > 0 {
      var mid := Pow2(k - 1);
      var half, j := if i < mid then hs[..mid] else hs[mid..], if i < mid then i else i - mid;
      EmittedClosedForm(half, j, k - 1);
      if i < mid { EmittedLeft(hs, i, k); } else { EmittedRight(hs, i, k); }
      MirrorsStep(hs, i, k, Emitted(half, j), Emitted(hs, i));
    }
  }

  function GenerateProof(hs: seq<Hash>, i: nat): Option<Proof>
  {
    if hs == [] || i >= |hs| then None
    else Some(Proof(i, hs[i], Emitted(Pad(hs), i)))
  }

  /** A proof is generated exactly for the indices of the list, for that index and leaf. */
  lemma GeneratorDomain(hs: seq<Hash>, i: nat)
    ensures GenerateProof(hs, i).Some? <==> i < |hs|
    ensures i < |hs| ==> GenerateProof(hs, i).value.index == i && GenerateProof(hs, i).value.leaf == hs[i]
  {
  }

  predicate GeneratedVerifies(sha: Sha, hs: seq<Hash>, i: nat)
    requires i < |hs|
  {
    Verifies(sha, GenerateProof(hs, i).value, ComputeRoot(sha, hs))
  }

  /** Every proof generated for a list of n hashes verifies, whatever the hash function. */
  ghost predicate GeneratedProofsVerify(n: nat)
  {
    forall sha: Sha, hs: seq<Hash>, i: nat :: |hs| == n && i < n ==> GeneratedVerifies(sha, hs, i)
  }

  lemma TwoLeafTree(sha: Sha, hs: seq<Hash>)
    requires |hs| == 2
    ensures BuildTree(sha, hs) == Node(Combine(sha, hs[0], hs[1]), Leaf(hs[0]), Leaf(hs[1]))
  {
    assert BuildTree(sha, hs[..1]) == Leaf(hs[0]);
    assert BuildTree(sha, hs[1..]) == Leaf(hs[1]);
  }

  lemma SmallListsVerify(sha: Sha, hs: seq<Hash>, i: nat)
    requires i < |hs| <= 2
    ensures GeneratedVerifies(sha, hs, i)
  {
    assert Pow2(0) == 1 && Pow2(1) == 2;
    var k := PadShape(hs);
    assert |hs| <= Pow2(|hs| - 1);
    assert Pad(hs) == hs;
    k := Completeness(sha, hs, i);
    Pow2Injective(k, |hs| - 1);
    if |hs| == 2 {
      assert hs[..1] == [hs[0]] && hs[1..] == [hs[1]];
      if i == 0 { EmittedLeft(hs, i, 1); } else { EmittedRight(hs, i, 1); }
      assert Emitted(hs, i) == [hs[1 - i]];
      TwoLeafTree(sha, hs);
      assert Path(PaddedTree(sha, hs), 1, i) == [hs[1 - i]];
    }
  }

  /**
   For every hash function: the generated proof is accepted if the loop's output is the path of
   sibling roots, and only then unless the proof exhibits a collision with the tree.
   */
  lemma GeneratedMeansPath(sha: Sha, hs: seq<Hash>, i: nat, k: nat)
    requires i < |hs| && |Pad(hs)| == Pow2(k)
    ensures var t, emitted := PaddedTree(sha, hs), Emitted(Pad(hs), i);
      && (emitted == Path(t, k, i) ==> GeneratedVerifies(sha, hs, i))
      && (GeneratedVerifies(sha, hs, i) ==>
            emitted == Path(t, k, i) || Collision(sha, NodePairs(t), FoldPairs(sha, hs[i], i, emitted)))
  {
    var k' := PaddedTreeShape(sha, hs);
    Pow2Injective(k, k');
    EmittedClosedForm(Pad(hs), i, k);
    PathFolds(sha, PaddedTree(sha, hs), k, k, i);
    if GeneratedVerifies(sha, hs, i) {
      FoldDetermines(sha, PaddedTree(sha, hs), k, hs[i], i, Emitted(Pad(hs), i));
    }
  }

  /** The first sibling on a path is the neighbouring leaf. */
  lemma {:induction false} PathFirst(sha: Sha, t: Tree, k: nat, i: nat)
    requires k > 0 && Perfect(sha, t, k) && i < Pow2(k)
    ensures |Path(t, k, i)| == k && 0 <= Flip(i, 0) < Pow2(k) && Path(t, k, i)[0] == LeafAt(t, k, Flip(i, 0))
  {
    PathLength(sha, t, k, k, i);
    FlipWithinHalf(i, k - 1, 0);
    if k > 1 {
      var low := i < Pow2(k - 1);
      var half, j := if low then t.left else t.right, if low then i else i - Pow2(k - 1);
      PathFirst(sha, half, k - 1, j);
    }
  }

  lemma NeighbourFirst(sha: Sha, hs: seq<Hash>, i: nat, k: nat)
    requires k > 0 && |hs| == Pow2(k) && i < |hs|
    ensures 0 <= Flip(i, 0) < |hs| && |Path(BuildTree(sha, hs), k, i)| == k
    ensures Path(BuildTree(sha, hs), k, i)[0] == hs[Flip(i, 0)]
  {
    BuildTreeShape(sha, hs, k);
    PathFirst(sha, BuildTree(sha, hs), k, i);
    LeafAtIsLeaf(sha, BuildTree(sha, hs), k, Flip(i, 0));
  }

  lemma EmittedFirst(hs: seq<Hash>, i: nat, k: nat)
    requires k > 0 && |hs| == Pow2(k) && i < |hs|
    ensures 0 <= Flip(i, k - 1) < |hs| && |Emitted(hs, i)| == k && Emitted(hs, i)[0] == hs[Flip(i, k - 1)]
  {
    EmittedClosedForm(hs, i, k);
    assert MirrorAt(hs, i, k, Emitted(hs, i), 0);
  }

  /**
   For every hash function and every list of three or more: the generated proof is rejected, or
   collides, unless the leaves next to and across from the index happen to be equal.
   */
  lemma GeneratedNeeds(sha: Sha, hs: seq<Hash>, i: nat, k: nat)
    requires i < |hs| && |Pad(hs)| == Pow2(k) && k >= 2 && GeneratedVerifies(sha, hs, i)
    ensures 0 <= Flip(i, 0) < |Pad(hs)| && 0 <= Flip(i, k - 1) < |Pad(hs)|
    ensures Pad(hs)[Flip(i, 0)] == Pad(hs)[Flip(i, k - 1)]
      || Collision(sha, NodePairs(PaddedTree(sha, hs)), FoldPairs(sha, hs[i], i, Emitted(Pad(hs), i)))
  {
    GeneratedMeansPath(sha, hs, i, k);
    NeighbourFirst(sha, Pad(hs), i, k);
    EmittedFirst(Pad(hs), i, k);
  }

  /** A list whose leaf 1 differs from the leaf across from leaf 0. */
  function Spiked(n: nat): (hs: seq<Hash>)
    requires n >= 3
    ensures |hs| == n
  {
    [ZERO_HASH, ONE_HASH] + Zeros(n - 2)
  }

  lemma SpikedPad(n: nat) returns (k: nat)
    requires n >= 3
    ensures k >= 2 && |Pad(Spiked(n))| == Pow2(k)
    ensures 1 < Pow2(k - 1) < Pow2(k) && Pad(Spiked(n))[1] == ONE_HASH && Pad(Spiked(n))[Pow2(k - 1)] == ZERO_HASH
  {
    var hs := Spiked(n);
    k := PadShape(hs);
    assert Pow2(0) == 1 && Pow2(1) == 2;
    assert k >= 2;
    HalfOfPow2(k);
    HalfOfPow2(k - 1);
    var half := Pow2(k - 1);
    assert Pad(hs)[1] == hs[1];
    if half < n { assert Pad(hs)[half] == hs[half] == ZERO_HASH; }
  }

  lemma FlipZero(b: nat)
    ensures Flip(0, b) == Pow2(b)
  {
    ShiftSmall(0, b);
  }

  /** For every hash function and every n above two: a list of n hashes, at index 0. */
  lemma EveryHashFails(sha: Sha, n: nat)
    requires n >= 3
    ensures var hs := Spiked(n);
      GeneratedVerifies(sha, hs, 0) ==>
        Collision(sha, NodePairs(PaddedTree(sha, hs)), FoldPairs(sha, hs[0], 0, Emitted(Pad(hs), 0)))
  {
    if GeneratedVerifies(sha, Spiked(n), 0) {
      var k := SpikedPad(n);
      FlipZero(0);
      FlipZero(k - 1);
      GeneratedNeeds(sha, Spiked(n), 0, k);
      assert ONE_HASH[0] != ZERO_HASH[0];
    }
  }

  /** A hash function that keeps the first 32 bytes. */
  function FirstHalf(x: seq<byte>): Hash
  {
    if |x| >= 32 then x[..32] else ZERO_HASH
  }

  const ONE_HASH: Hash := [
    1, 0, 0, 0, 0, 0, 0, 0, 0, 0, 0, 0, 0, 0, 0, 0,
    0, 0, 0, 0, 0, 0, 0, 0, 0, 0, 0, 0, 0, 0, 0, 0]

  lemma FirstHalfCombine(left: Hash, right: Hash)
    ensures Combine(FirstHalf, left, right) == left
  {
    var both: seq<byte> := left + right;
    assert both[..32] == left;
  }

  lemma {:induction false} FirstHalfRoot(hs: seq<Hash>)
    requires |hs| > 0
    ensures TreeRoot(FirstHalf, hs) == hs[0]
  {
    if |hs| > 1 {
      var mid := |hs| / 2;
      FirstHalfRoot(hs[..mid]);
      FirstHalfRoot(hs[mid..]);
      FirstHalfCombine(hs[0], hs[mid]);
    }
  }

  lemma {:induction false} FirstHalfFold(current: Hash, siblings: seq<Hash>)
    ensures Fold(FirstHalf, current, 0, siblings) == current
    decreases |siblings|
  {
    if siblings != [] {
      FirstHalfCombine(current, siblings[0]);
      FirstHalfFold(current, siblings[1..]);
    }
  }

  /** For three hashes or more: a one followed by zeros, at index 1. */
  lemma LargeListFails(n: nat)
    requires n >= 3
    ensures var hs := [ONE_HASH] + Zeros(n - 1); !GeneratedVerifies(FirstHalf, hs, 1)
  {
    var hs := [ONE_HASH] + Zeros(n - 1);
    var k := PadShape(hs);
    var padded := Pad(hs);
    assert Pow2(0) == 1 && Pow2(1) == 2;
    assert k >= 2;
    HalfOfPow2(k);
    HalfOfPow2(k - 1);
    var mid := |padded| / 2;
    var siblings := Emitted(padded, 1);
    EmittedLeft(padded, 1, k);
    assert padded[mid + 1] == ZERO_HASH;
    FirstHalfCombine(siblings[0], hs[1]);
    FirstHalfFold(siblings[0], siblings[1..]);
    FirstHalfRoot(padded);
  }

  lemma LargeNotVerified(n: nat)
    requires n >= 3
    ensures !GeneratedProofsVerify(n)
  {
    var hs := [ONE_HASH] + Zeros(n - 1);
    LargeListFails(n);
    assert |hs| == n && !GeneratedVerifies(FirstHalf, hs, 1);
  }

  /** The generator is right exactly for lists of at most two hashes. */
  lemma GeneratorCorrectIff(n: nat)
    ensures GeneratedProofsVerify(n) <==> n <= 2
  {
    if n <= 2 {
      forall sha: Sha, hs: seq<Hash>, i: nat | |hs| == n && i < n
        ensures GeneratedVerifies(sha, hs, i)
      {
        SmallListsVerify(sha, hs, i);
      }
    } else {
      LargeNotVerified(n);
    }
  }
}
