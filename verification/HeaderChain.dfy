/**
 Block headers, their serialisation and hash, and block validation against the chain tip
 (Protocol/Block.hs). The tip hash of a validated chain determines its whole history unless
 two different headers of the chains hash alike.
 */
module HeaderChain {
  import opened Wrappers
  import opened Bytes
  import opened Ledger
  import opened LedgerChain

  /** The validator id may have any length; the timestamp is in whole seconds. */
  datatype Header = Header(
    parentHash: Hash,
    number: Word64,
    slot: Word64,
    epoch: Word64,
    timestamp: Word64,
    validator: seq<byte>,
    merkleRoot: Hash,
    stateRoot: Hash,
    nonce: Word64,
    version: Word32,
    signature: seq<byte>)

  /** A vote that a block carries. */
  datatype BlockVote = BlockVote(validator: seq<byte>, block: Hash, round: Word64, kind: byte)

  datatype Block = Block(header: Header, body: Body, votes: seq<BlockVote>)

  datatype ChainState = ChainState(utxo: UTxOSet, tipHash: Hash, tipNumber: Word64)

  /** Hashing, signatures, body size and body root come from outside. */
  datatype Primitives = Primitives(
    hash: seq<byte> -> Hash,
    headerSigned: Header -> bool,
    txSigned: SignatureCheck,
    bodySize: (Body, seq<BlockVote>) -> nat,
    bodyRoot: (Body, seq<BlockVote>) -> Hash,
    maxBlockSize: Word32)

  datatype BlockError =
    | TooLarge(actual: Word32, limit: Word32)
    | WrongParent
    | WrongNumber
    | BadSignature
    | WrongVersion
    | BadBody(error: ValidationError)
    | RootMismatch(claimed: Hash, computed: Hash)

  /** The fields after the timestamp; only the validator id has no fixed width. */
  function SerializeRest(h: Header): (s: seq<byte>)
    ensures |s| == |h.validator| + 76
  {
    h.validator + (h.merkleRoot + (h.stateRoot + (BigEndian(8, h.nonce) + BigEndian(4, h.version))))
  }

  /** All fields but the signature. */
  function Serialize(h: Header): (s: seq<byte>)
    ensures |s| == |h.validator| + 140
  {
    h.parentHash + (BigEndian(8, h.number) + (BigEndian(8, h.slot) + (BigEndian(8, h.epoch)
    + (BigEndian(8, h.timestamp) + SerializeRest(h)))))
  }

  /** Where each field is found in the serialised header. */
  lemma SerializeLayout(h: Header)
    ensures var s, v := Serialize(h), |h.validator|;
      && s[..32] == h.parentHash
      && Value(s[32..40]) == h.number && Value(s[40..48]) == h.slot
      && Value(s[48..56]) == h.epoch && Value(s[56..64]) == h.timestamp
      && s[64..64 + v] == h.validator
      && s[64 + v..96 + v] == h.merkleRoot && s[96 + v..128 + v] == h.stateRoot
      && Value(s[128 + v..136 + v]) == h.nonce && Value(s[136 + v..]) == h.version
  {
    var s := Serialize(h);
    Widths();
    ValueOfBigEndian(8, h.number);
    ValueOfBigEndian(8, h.slot);
    ValueOfBigEndian(8, h.epoch);
    ValueOfBigEndian(8, h.timestamp);
    var s4 := BigEndian(8, h.timestamp) + SerializeRest(h);
    var s3 := BigEndian(8, h.epoch) + s4;
    var s2 := BigEndian(8, h.slot) + s3;
    assert s[0..] == s;
    FieldAt(s, 0, h.parentHash, BigEndian(8, h.number) + s2);
    FieldAt(s, 32, BigEndian(8, h.number), s2);
    FieldAt(s, 40, BigEndian(8, h.slot), s3);
    FieldAt(s, 48, BigEndian(8, h.epoch), s4);
    FieldAt(s, 56, BigEndian(8, h.timestamp), SerializeRest(h));
    RestLayout(h, s);
  }

  lemma RestLayout(h: Header, s: seq<byte>)
    requires |s| == |h.validator| + 140 && s[64..] == SerializeRest(h)
    ensures var v := |h.validator|;
      && s[64..64 + v] == h.validator
      && s[64 + v..96 + v] == h.merkleRoot && s[96 + v..128 + v] == h.stateRoot
      && Value(s[128 + v..136 + v]) == h.nonce && Value(s[136 + v..]) == h.version
  {
    var v := |h.validator|;
    Widths();
    ValueOfBigEndian(8, h.nonce);
    ValueOfBigEndian(4, h.version);
    var s2 := BigEndian(8, h.nonce) + BigEndian(4, h.version);
    FieldAt(s, 64, h.validator, h.merkleRoot + (h.stateRoot + s2));
    FieldAt(s, 64 + v, h.merkleRoot, h.stateRoot + s2);
    FieldAt(s, 96 + v, h.stateRoot, s2);
    FieldAt(s, 128 + v, BigEndian(8, h.nonce), BigEndian(4, h.version));
  }

  function HeaderHash(p: Primitives, h: Header): Hash
  {
    p.hash(Serialize(h))
  }

  // ---------------------------------------------------------------- validation

  function ValidateHeader(p: Primitives, cs: ChainState, h: Header): Result<Header, BlockError>
  {
    if h.parentHash != cs.tipHash then Err(WrongParent)
    else if h.number != cs.tipNumber + 1 then Err(WrongNumber)
    else if !p.headerSigned(h) then Err(BadSignature)
    else if h.version != 1 then Err(WrongVersion)
    else Ok(h)
  }

  function ValidateBlock(p: Primitives, cs: ChainState, b: Block): Result<Block, BlockError>
  {
    var size: Word32 := p.bodySize(b.body, b.votes) % WORD32;
    if size > p.maxBlockSize then Err(TooLarge(size, p.maxBlockSize))
    else match ValidateHeader(p, cs, b.header)
      case Err(e) => Err(e)
      case Ok(_) =>
        match ValidateBody(p.txSigned, cs.utxo, b.body)
        case Err(e) => Err(BadBody(e))
        case Ok(_) =>
          if p.bodyRoot(b.body, b.votes) != b.header.merkleRoot
          then Err(RootMismatch(b.header.merkleRoot, p.bodyRoot(b.body, b.votes))) else Ok(b)
  }

  /** A block is accepted exactly when it passes every check against the tip and the UTxO set. */
  lemma BlockAcceptedIff(p: Primitives, cs: ChainState, b: Block)
    ensures ValidateBlock(p, cs, b).Ok? <==>
      && p.bodySize(b.body, b.votes) % WORD32 <= p.maxBlockSize
      && b.header.parentHash == cs.tipHash && b.header.number == cs.tipNumber + 1
      && p.headerSigned(b.header) && b.header.version == 1
      && (forall tx :: tx in b.body ==> Acceptable(p.txSigned, cs.utxo, tx)) && NoDup(AllInputs(b.body))
      && p.bodyRoot(b.body, b.votes) == b.header.merkleRoot
  {
    BodyAcceptedIff(p.txSigned, cs.utxo, b.body);
  }

  /** The checks before the body, in the order in which they are made. */
  ghost predicate HeaderFits(p: Primitives, cs: ChainState, h: Header)
  {
    h.parentHash == cs.tipHash && h.number == cs.tipNumber + 1 && p.headerSigned(h) && h.version == 1
  }

  /** Which error a rejected block gets: that of the first check it fails. */
  lemma BlockRejection(p: Primitives, cs: ChainState, b: Block)
    requires ValidateBlock(p, cs, b).Err?
    ensures var e, size, h := ValidateBlock(p, cs, b).error, p.bodySize(b.body, b.votes) % WORD32, b.header;
      var root, body := p.bodyRoot(b.body, b.votes), ValidateBody(p.txSigned, cs.utxo, b.body);
      var fits := size <= p.maxBlockSize;
      && (!fits <==> e == TooLarge(size, p.maxBlockSize))
      && (fits && h.parentHash != cs.tipHash <==> e == WrongParent)
      && (fits && h.parentHash == cs.tipHash && h.number != cs.tipNumber + 1 <==> e == WrongNumber)
      && (fits && h.parentHash == cs.tipHash && h.number == cs.tipNumber + 1 && !p.headerSigned(h) <==> e == BadSignature)
      && (e == WrongVersion <==>
            fits && h.parentHash == cs.tipHash && h.number == cs.tipNumber + 1 && p.headerSigned(h) && h.version != 1)
      && (fits && HeaderFits(p, cs, h) && body.Err? <==> e.BadBody?)
      && (e.BadBody? ==> body == Err(e.error))
      && (fits && HeaderFits(p, cs, h) && body.Ok? <==> e == RootMismatch(h.merkleRoot, root) && root != h.merkleRoot)
  {
  }

  function Advance(p: Primitives, cs: ChainState, b: Block): ChainState
  {
    ChainState(ApplyBlock(cs.utxo, b.body), HeaderHash(p, b.header), b.header.number)
  }

  predicate ValidatedChain(p: Primitives, cs: ChainState, blocks: seq<Block>)
    decreases |blocks|
  {
    blocks == [] ||
    (ValidateBlock(p, cs, blocks[0]).Ok? && ValidatedChain(p, Advance(p, cs, blocks[0]), blocks[1..]))
  }

  function FinalState(p: Primitives, cs: ChainState, blocks: seq<Block>): ChainState
    decreases |blocks|
  {
    if blocks == [] then cs else FinalState(p, Advance(p, cs, blocks[0]), blocks[1..])
  }

  function Bodies(blocks: seq<Block>): seq<Body>
  {
    if blocks == [] then [] else [blocks[0].body] + Bodies(blocks[1..])
  }

  /** A validated chain is an accepted chain of bodies, so all the ledger theorems apply to it. */
  lemma {:induction false} ValidatedIsAccepted(p: Primitives, cs: ChainState, blocks: seq<Block>)
    requires ValidatedChain(p, cs, blocks)
    ensures AcceptedChain(p.txSigned, cs.utxo, Bodies(blocks))
    ensures FinalState(p, cs, blocks).utxo == ApplyChain(cs.utxo, Bodies(blocks))
    decreases |blocks|
  {
    if blocks != [] {
      ValidatedIsAccepted(p, Advance(p, cs, blocks[0]), blocks[1..]);
      assert Bodies(blocks)[1..] == Bodies(blocks[1..]);
    }
  }

  // ---------------------------------------------------------------- the encoding is injective

  lemma WordInjective(n: nat, v: nat, w: nat)
    requires v < Pow256(n) && w < Pow256(n) && BigEndian(n, v) == BigEndian(n, w)
    ensures v == w
  {
    ValueOfBigEndian(n, v);
    ValueOfBigEndian(n, w);
  }

  /** Two headers agree in everything that is hashed. */
  predicate SameUpToSignature(a: Header, b: Header)
  {
    a.(signature := b.signature) == b
  }

  lemma SplitWord(n: nat, v: nat, rest: seq<byte>, w: nat, rest': seq<byte>)
    requires v < Pow256(n) && w < Pow256(n) && BigEndian(n, v) + rest == BigEndian(n, w) + rest'
    ensures v == w && rest == rest'
  {
    SplitConcat(BigEndian(n, v), rest, BigEndian(n, w), rest');
    WordInjective(n, v, w);
  }

  lemma RestInjective(a: Header, b: Header)
    requires |a.validator| == |b.validator| && SerializeRest(a) == SerializeRest(b)
    ensures a.validator == b.validator && a.merkleRoot == b.merkleRoot && a.stateRoot == b.stateRoot
    ensures a.nonce == b.nonce && a.version == b.version
  {
    Widths();
    var a3, b3 := BigEndian(8, a.nonce) + BigEndian(4, a.version), BigEndian(8, b.nonce) + BigEndian(4, b.version);
    var a2, b2 := a.stateRoot + a3, b.stateRoot + b3;
    SplitConcat(a.validator, a.merkleRoot + a2, b.validator, b.merkleRoot + b2);
    SplitConcat(a.merkleRoot, a2, b.merkleRoot, b2);
    SplitConcat(a.stateRoot, a3, b.stateRoot, b3);
    SplitWord(8, a.nonce, BigEndian(4, a.version), b.nonce, BigEndian(4, b.version));
    WordInjective(4, a.version, b.version);
  }

  /** Equal encodings mean equal headers; the total length gives the length of the validator id. */
  lemma SerializeInjective(a: Header, b: Header)
    requires Serialize(a) == Serialize(b)
    ensures SameUpToSignature(a, b)
  {
    Widths();
    var a4, b4 := BigEndian(8, a.timestamp) + SerializeRest(a), BigEndian(8, b.timestamp) + SerializeRest(b);
    var a3, b3 := BigEndian(8, a.epoch) + a4, BigEndian(8, b.epoch) + b4;
    var a2, b2 := BigEndian(8, a.slot) + a3, BigEndian(8, b.slot) + b3;
    SplitConcat(a.parentHash, BigEndian(8, a.number) + a2, b.parentHash, BigEndian(8, b.number) + b2);
    SplitWord(8, a.number, a2, b.number, b2);
    SplitWord(8, a.slot, a3, b.slot, b3);
    SplitWord(8, a.epoch, a4, b.epoch, b4);
    SplitWord(8, a.timestamp, SerializeRest(a), b.timestamp, SerializeRest(b));
    RestInjective(a, b);
  }

  // ---------------------------------------------------------------- the tip fixes the history

  function Headers(blocks: seq<Block>): seq<Header>
  {
    if blocks == [] then [] else [blocks[0].header] + Headers(blocks[1..])
  }

  /** The last header of a chain on top of a first one. */
  function Tip(first: Header, hs: seq<Header>): Header
  {
    if hs == [] then first else hs[|hs| - 1]
  }

  /** Each header points at the hash of its predecessor and counts one further. */
  predicate Linked(p: Primitives, first: Header, hs: seq<Header>)
  {
    forall i :: 0 <= i < |hs| ==>
      hs[i].parentHash == HeaderHash(p, Tip(first, hs[..i])) && hs[i].number == first.number + 1 + i
  }

  /** The state right after a block with this header. */
  function StateAt(p: Primitives, u: UTxOSet, h: Header): ChainState
  {
    ChainState(u, HeaderHash(p, h), h.number)
  }

  lemma {:induction false} ValidatedIsLinked(p: Primitives, u: UTxOSet, first: Header, blocks: seq<Block>)
    requires ValidatedChain(p, StateAt(p, u, first), blocks)
    ensures Linked(p, first, Headers(blocks))
    ensures FinalState(p, StateAt(p, u, first), blocks).tipHash == HeaderHash(p, Tip(first, Headers(blocks)))
    decreases |blocks|
  {
    if blocks != [] {
      var next := blocks[0].header;
      var u' := ApplyBlock(u, blocks[0].body);
      assert Advance(p, StateAt(p, u, first), blocks[0]) == StateAt(p, u', next);
      ValidatedIsLinked(p, u', next, blocks[1..]);
      LinkedInFront(p, first, next, Headers(blocks[1..]));
    }
  }

  lemma LinkedInFront(p: Primitives, first: Header, next: Header, rest: seq<Header>)
    requires Linked(p, next, rest) && next.parentHash == HeaderHash(p, first) && next.number == first.number + 1
    ensures Linked(p, first, [next] + rest) && Tip(first, [next] + rest) == Tip(next, rest)
  {
    var hs := [next] + rest;
    forall i | 0 <= i < |hs|
      ensures hs[i].parentHash == HeaderHash(p, Tip(first, hs[..i])) && hs[i].number == first.number + 1 + i
    {
      if i > 0 {
        assert hs[i] == rest[i - 1];
        assert Tip(first, hs[..i]) == Tip(next, rest[..i - 1]);
      }
    }
  }

  /** The byte strings hashed along a chain. */
  function Preimages(first: Header, hs: seq<Header>): set<seq<byte>>
  {
    {Serialize(first)} + set h | h in hs :: Serialize(h)
  }

  /** Two different strings, one from each set, with the same hash. */
  ghost predicate Collides(p: Primitives, xs: set<seq<byte>>, ys: set<seq<byte>>)
  {
    exists x, y :: x in xs && y in ys && x != y && p.hash(x) == p.hash(y)
  }

  predicate SameHistory(a: seq<Header>, b: seq<Header>)
  {
    |a| == |b| && forall i :: 0 <= i < |a| ==> SameUpToSignature(a[i], b[i])
  }

  lemma TipInPreimages(first: Header, hs: seq<Header>)
    ensures Serialize(Tip(first, hs)) in Preimages(first, hs)
  {
    if hs != [] { assert hs[|hs| - 1] in hs; }
  }

  lemma {:induction false} LinkedTips(p: Primitives, first: Header, a: seq<Header>, b: seq<Header>)
    requires Linked(p, first, a) && Linked(p, first, b)
    requires HeaderHash(p, Tip(first, a)) == HeaderHash(p, Tip(first, b))
    ensures SameHistory(a, b) || Collides(p, Preimages(first, a), Preimages(first, b))
    decreases |a|
  {
    var x, y := Tip(first, a), Tip(first, b);
    TipInPreimages(first, a);
    TipInPreimages(first, b);
    if Serialize(x) == Serialize(y) {
      SerializeInjective(x, y);
      if a != [] && b != [] {
        var a', b' := a[..|a| - 1], b[..|b| - 1];
        ShorterLinked(p, first, a);
        ShorterLinked(p, first, b);
        assert x.parentHash == HeaderHash(p, Tip(first, a')) && y.parentHash == HeaderHash(p, Tip(first, b'));
        LinkedTips(p, first, a', b');
        if SameHistory(a', b') {
          LongerHistory(a, b);
        } else {
          CollidesGrows(p, Preimages(first, a'), Preimages(first, a), Preimages(first, b'), Preimages(first, b));
        }
      } else {
        assert x.number == first.number + |a| && y.number == first.number + |b|;
      }
    }
  }

  lemma LongerHistory(a: seq<Header>, b: seq<Header>)
    requires a != [] && b != [] && SameHistory(a[..|a| - 1], b[..|b| - 1])
    requires SameUpToSignature(a[|a| - 1], b[|b| - 1])
    ensures SameHistory(a, b)
  {
    var a', b' := a[..|a| - 1], b[..|b| - 1];
    forall i | 0 <= i < |a| ensures SameUpToSignature(a[i], b[i]) {
      if i < |a'| { assert a'[i] == a[i] && b'[i] == b[i]; }
    }
  }

  lemma CollidesGrows(p: Primitives, xs: set<seq<byte>>, xs': set<seq<byte>>, ys: set<seq<byte>>, ys': set<seq<byte>>)
    requires xs <= xs' && ys <= ys' && Collides(p, xs, ys)
    ensures Collides(p, xs', ys')
  {
  }

  lemma ShorterLinked(p: Primitives, first: Header, a: seq<Header>)
    requires a != [] && Linked(p, first, a)
    ensures Linked(p, first, a[..|a| - 1])
  {
    var a' := a[..|a| - 1];
    assert forall i :: 0 <= i < |a'| ==> a'[..i] == a[..i];
  }

  /** Every block of a validated chain passed each check against the state it extends. */
  lemma {:induction false} EveryBlockChecked(p: Primitives, cs: ChainState, blocks: seq<Block>, i: nat)
    requires ValidatedChain(p, cs, blocks) && i < |blocks|
    ensures |Headers(blocks)| == |blocks| && Headers(blocks)[i] == blocks[i].header
    ensures p.bodyRoot(blocks[i].body, blocks[i].votes) == blocks[i].header.merkleRoot
    ensures p.headerSigned(blocks[i].header) && blocks[i].header.version == 1
    ensures p.bodySize(blocks[i].body, blocks[i].votes) % WORD32 <= p.maxBlockSize
    ensures ValidateBody(p.txSigned, FinalState(p, cs, blocks[..i]).utxo, blocks[i].body).Ok?
    decreases |blocks|
  {
    HeadersLength(blocks);
    if i > 0 {
      EveryBlockChecked(p, Advance(p, cs, blocks[0]), blocks[1..], i - 1);
      assert blocks[..i][1..] == blocks[1..][..i - 1];
    }
  }

  lemma {:induction false} HeadersLength(blocks: seq<Block>)
    ensures |Headers(blocks)| == |blocks|
  {
    if blocks != [] { HeadersLength(blocks[1..]); }
  }

  lemma TipFixesHeaders(p: Primitives, u: UTxOSet, genesis: Header, a: seq<Block>, b: seq<Block>)
    requires ValidatedChain(p, StateAt(p, u, genesis), a) && ValidatedChain(p, StateAt(p, u, genesis), b)
    requires FinalState(p, StateAt(p, u, genesis), a).tipHash == FinalState(p, StateAt(p, u, genesis), b).tipHash
    ensures SameHistory(Headers(a), Headers(b))
      || Collides(p, Preimages(genesis, Headers(a)), Preimages(genesis, Headers(b)))
  {
    ValidatedIsLinked(p, u, genesis, a);
    ValidatedIsLinked(p, u, genesis, b);
    LinkedTips(p, genesis, Headers(a), Headers(b));
  }

  lemma RootsAgree(p: Primitives, cs: ChainState, a: seq<Block>, b: seq<Block>, i: nat)
    requires ValidatedChain(p, cs, a) && ValidatedChain(p, cs, b)
    requires SameHistory(Headers(a), Headers(b)) && i < |a| && i < |b|
    ensures p.bodyRoot(a[i].body, a[i].votes) == p.bodyRoot(b[i].body, b[i].votes)
  {
    EveryBlockChecked(p, cs, a, i);
    EveryBlockChecked(p, cs, b, i);
    assert SameUpToSignature(Headers(a)[i], Headers(b)[i]);
  }

  /** Equal length, headers equal in every serialised field, bodies with equal roots. */
  ghost predicate SameBlocks(p: Primitives, a: seq<Block>, b: seq<Block>)
  {
    && SameHistory(Headers(a), Headers(b)) && |a| == |b|
    && forall i :: 0 <= i < |a| ==> p.bodyRoot(a[i].body, a[i].votes) == p.bodyRoot(b[i].body, b[i].votes)
  }

  lemma HistoryFixesRoots(p: Primitives, cs: ChainState, a: seq<Block>, b: seq<Block>)
    requires ValidatedChain(p, cs, a) && ValidatedChain(p, cs, b) && SameHistory(Headers(a), Headers(b))
    ensures SameBlocks(p, a, b)
  {
    HeadersLength(a);
    HeadersLength(b);
    forall i | 0 <= i < |a| ensures p.bodyRoot(a[i].body, a[i].votes) == p.bodyRoot(b[i].body, b[i].votes) {
      RootsAgree(p, cs, a, b, i);
    }
  }

  /**
   Two validated chains on one genesis with the same tip hash are the same blocks, as far as
   headers are serialised and bodies are rooted, or two different headers among them hash alike.
   */
  lemma TipFixesHistory(p: Primitives, u: UTxOSet, genesis: Header, a: seq<Block>, b: seq<Block>)
    requires ValidatedChain(p, StateAt(p, u, genesis), a) && ValidatedChain(p, StateAt(p, u, genesis), b)
    requires FinalState(p, StateAt(p, u, genesis), a).tipHash == FinalState(p, StateAt(p, u, genesis), b).tipHash
    ensures SameBlocks(p, a, b) || Collides(p, Preimages(genesis, Headers(a)), Preimages(genesis, Headers(b)))
  {
    TipFixesHeaders(p, u, genesis, a, b);
    if SameHistory(Headers(a), Headers(b)) {
      HistoryFixesRoots(p, StateAt(p, u, genesis), a, b);
    }
  }
}
