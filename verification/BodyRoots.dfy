/**
 The body root of Protocol/Block.hs: the Merkle roots of the transaction hashes and of the vote
 hashes, combined. With it, a tip hash fixes the hashes of whole bodies.
 */
module BodyRoots {
  import opened Wrappers
  import opened Bytes
  import opened Merkle
  import opened Ledger
  import opened LedgerChain
  import opened HeaderChain

  function BodyRoot(sha: Sha, txs: seq<Hash>, votes: seq<Hash>): Hash
  {
    Combine(sha, ComputeRoot(sha, txs), ComputeRoot(sha, votes))
  }

  /** The bytes that are hashed: the transactions' root before the votes'. */
  lemma BodyRootBytes(sha: Sha, txs: seq<Hash>, votes: seq<Hash>)
    ensures BodyRoot(sha, txs, votes) == sha(ComputeRoot(sha, txs) + ComputeRoot(sha, votes))
  {
  }

  /** All pairs that are combined on the way to the root. */
  function BodyPairs(sha: Sha, txs: seq<Hash>, votes: seq<Hash>): set<(Hash, Hash)>
  {
    {(ComputeRoot(sha, txs), ComputeRoot(sha, votes))} + NodePairs(PaddedTree(sha, txs)) + NodePairs(PaddedTree(sha, votes))
  }

  /** Bodies of equal sizes with equal roots have equal hashes, or their trees collide. */
  lemma BodyRootBinds(sha: Sha, txs: seq<Hash>, votes: seq<Hash>, txs': seq<Hash>, votes': seq<Hash>)
    requires |txs| == |txs'| && |votes| == |votes'| && BodyRoot(sha, txs, votes) == BodyRoot(sha, txs', votes')
    ensures (txs == txs' && votes == votes') || Collision(sha, BodyPairs(sha, txs, votes), BodyPairs(sha, txs', votes'))
  {
    var p, q := (ComputeRoot(sha, txs), ComputeRoot(sha, votes)), (ComputeRoot(sha, txs'), ComputeRoot(sha, votes'));
    var ps, qs := BodyPairs(sha, txs, votes), BodyPairs(sha, txs', votes');
    assert p in ps && q in qs;
    if p == q {
      Binding(sha, txs, txs');
      Binding(sha, votes, votes');
      if txs != txs' {
        CollisionGrows(sha, NodePairs(PaddedTree(sha, txs)), ps, NodePairs(PaddedTree(sha, txs')), qs);
      } else if votes != votes' {
        CollisionGrows(sha, NodePairs(PaddedTree(sha, votes)), ps, NodePairs(PaddedTree(sha, votes')), qs);
      }
    }
  }

  /** The hashes of a body's transactions and of its votes. */
  datatype BodyHashes = BodyHashes(txs: Body -> seq<Hash>, votes: seq<BlockVote> -> seq<Hash>)

  /** The chain's body root is the Merkle root of these hashes. */
  ghost predicate MerkleBodies(p: Primitives, sha: Sha, hashes: BodyHashes)
  {
    forall txs, votes :: p.bodyRoot(txs, votes) == BodyRoot(sha, hashes.txs(txs), hashes.votes(votes))
  }

  ghost predicate SameSizes(hashes: BodyHashes, a: Block, b: Block)
  {
    |hashes.txs(a.body)| == |hashes.txs(b.body)| && |hashes.votes(a.votes)| == |hashes.votes(b.votes)|
  }

  ghost predicate BodiesCollide(sha: Sha, hashes: BodyHashes, a: Block, b: Block)
  {
    Collision(sha, BodyPairs(sha, hashes.txs(a.body), hashes.votes(a.votes)), BodyPairs(sha, hashes.txs(b.body), hashes.votes(b.votes)))
  }

  /**
   Two validated chains from one genesis with the same tip hash: two of their headers collide, or
   at every height their blocks hold the same transaction and vote hashes, if in equal numbers,
   or the Merkle trees of the two bodies collide.
   */
  lemma TipFixesBodies(p: Primitives, sha: Sha, hashes: BodyHashes, u: UTxOSet, genesis: Header, a: seq<Block>, b: seq<Block>, i: nat)
    requires MerkleBodies(p, sha, hashes)
    requires ValidatedChain(p, StateAt(p, u, genesis), a) && ValidatedChain(p, StateAt(p, u, genesis), b)
    requires FinalState(p, StateAt(p, u, genesis), a).tipHash == FinalState(p, StateAt(p, u, genesis), b).tipHash
    ensures
      || Collides(p, Preimages(genesis, Headers(a)), Preimages(genesis, Headers(b)))
      || (|a| == |b| && (i < |a| && SameSizes(hashes, a[i], b[i]) ==>
            || BodiesCollide(sha, hashes, a[i], b[i])
            || (hashes.txs(a[i].body) == hashes.txs(b[i].body) && hashes.votes(a[i].votes) == hashes.votes(b[i].votes))))
  {
    TipFixesHistory(p, u, genesis, a, b);
    if !Collides(p, Preimages(genesis, Headers(a)), Preimages(genesis, Headers(b))) {
      assert SameBlocks(p, a, b);
      if i < |a| && SameSizes(hashes, a[i], b[i]) {
        assert p.bodyRoot(a[i].body, a[i].votes) == p.bodyRoot(b[i].body, b[i].votes);
        BodyRootBinds(sha, hashes.txs(a[i].body), hashes.votes(a[i].votes), hashes.txs(b[i].body), hashes.votes(b[i].votes));
      }
    }
  }
}
