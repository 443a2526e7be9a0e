/**
 Applying accepted block bodies: conservation of value, at most one spend of every created
 output, and independence of the order of the transactions in a block.
 */
module LedgerChain {
  import opened Wrappers
  import opened Bytes
  import opened Ledger

  // ---------------------------------------------------------------- application

  /** A transaction's outputs, stored under its id and their index. */
  function OutputsOf(tx: Transaction): (m: UTxOSet)
    ensures forall k :: k in m <==> k.txId == tx.id && k.index < |tx.outputs|
    ensures forall k :: k in m ==> m[k] == tx.outputs[k.index]
  {
    map i | 0 <= i < |tx.outputs| :: UTxOId(tx.id, i) := tx.outputs[i]
  }

  function AllOutputs(txs: seq<Transaction>): UTxOSet
  {
    if txs == [] then map[] else OutputsOf(txs[0]) + AllOutputs(txs[1..])
  }

  function Spent(txs: seq<Transaction>): set<UTxOId>
  {
    set i | i in AllInputs(txs)
  }

  /** Applying a block: remove the spent ids, then add the outputs. */
  function ApplyBlock(u: UTxOSet, txs: seq<Transaction>): UTxOSet
  {
    (u - Spent(txs)) + AllOutputs(txs)
  }

  /** Applying the transactions one at a time. */
  function ApplyEach(u: UTxOSet, txs: seq<Transaction>): UTxOSet
    decreases |txs|
  {
    if txs == [] then u else ApplyEach(ApplyBlock(u, [txs[0]]), txs[1..])
  }

  type Body = seq<Transaction>

  /** Every block is accepted in the state its predecessors left. */
  predicate AcceptedChain(signed: SignatureCheck, u: UTxOSet, blocks: seq<Body>)
    decreases |blocks|
  {
    blocks == [] ||
    (ValidateBody(signed, u, blocks[0]).Ok? && AcceptedChain(signed, ApplyBlock(u, blocks[0]), blocks[1..]))
  }

  function ApplyChain(u: UTxOSet, blocks: seq<Body>): UTxOSet
    decreases |blocks|
  {
    if blocks == [] then u else ApplyChain(ApplyBlock(u, blocks[0]), blocks[1..])
  }

  // ---------------------------------------------------------------- value

  /** The total value of a UTxO set. */
  ghost function Total(u: UTxOSet): nat
  {
    if u == map[] then 0 else (var k :| k in u; u[k].amount + Total(u - {k}))
  }

  lemma {:induction false} TotalRemove(u: UTxOSet, k: UTxOId)
    requires k in u
    ensures Total(u) == u[k].amount + Total(u - {k})
    decreases |u|
  {
    var j :| j in u && Total(u) == u[j].amount + Total(u - {j});
    if j != k {
      TotalRemove(u - {j}, k);
      TotalRemove(u - {k}, j);
      assert u - {j} - {k} == u - {k} - {j};
    }
  }

  function ExactOutputs(outs: seq<UTxO>): nat
  {
    if outs == [] then 0 else ExactOutputs(outs[..|outs| - 1]) + outs[|outs| - 1].amount
  }

  function ExactInputs(u: UTxOSet, ids: seq<UTxOId>): nat
  {
    if ids == [] then 0
    else ExactInputs(u, ids[..|ids| - 1]) + (if ids[|ids| - 1] in u then u[ids[|ids| - 1]].amount else 0)
  }

  lemma {:induction false} WrapAdd(x: nat, y: nat)
    ensures Wrap(Wrap(x) + y) == Wrap(x + y)
  {
  }

  lemma {:induction false} SumOutputsWraps(outs: seq<UTxO>)
    ensures SumOutputs(outs) == Wrap(ExactOutputs(outs))
  {
    if outs != [] {
      SumOutputsWraps(outs[..|outs| - 1]);
      WrapAdd(ExactOutputs(outs[..|outs| - 1]), outs[|outs| - 1].amount);
    }
  }

  lemma {:induction false} SumInputsWraps(u: UTxOSet, ids: seq<UTxOId>)
    ensures SumInputs(u, ids) == Wrap(ExactInputs(u, ids))
  {
    if ids != [] {
      SumInputsWraps(u, ids[..|ids| - 1]);
      if ids[|ids| - 1] in u { WrapAdd(ExactInputs(u, ids[..|ids| - 1]), u[ids[|ids| - 1]].amount); }
    }
  }

  /** Distinct known inputs carry exactly the value their removal takes out of the set. */
  lemma {:induction false} InputsAreRemoved(u: UTxOSet, ids: seq<UTxOId>)
    requires NoDup(ids) && forall i :: i in ids ==> i in u
    ensures Total(u - set i | i in ids) + ExactInputs(u, ids) == Total(u)
  {
    if ids == [] {
      assert u - (set i | i in ids) == u;
    } else {
      var last := |ids| - 1;
      var rest := ids[..last];
      InputsAreRemoved(u, rest);
      var u' := u - set i | i in rest;
      assert ids[last] !in rest;
      TotalRemove(u', ids[last]);
      assert u' - {ids[last]} == u - set i | i in ids;
    }
  }

  lemma TotalInsert(u: UTxOSet, k: UTxOId, x: UTxO)
    ensures Total(u[k := x]) <= Total(u) + x.amount
    ensures k !in u ==> Total(u[k := x]) == Total(u) + x.amount
  {
    TotalRemove(u[k := x], k);
    assert u[k := x] - {k} == u - {k};
    if k in u { TotalRemove(u, k); } else { assert u - {k} == u; }
  }

  lemma UnionInsert(u: UTxOSet, m: UTxOSet, k: UTxOId)
    requires k in m
    ensures u + m == (u + (m - {k}))[k := m[k]]
  {
  }

  lemma OutputsInsert(tx: Transaction)
    requires tx.outputs != []
    ensures var last := |tx.outputs| - 1; var before := OutputsOf(tx.(outputs := tx.outputs[..last]));
      UTxOId(tx.id, last) !in before && OutputsOf(tx) == before[UTxOId(tx.id, last) := tx.outputs[last]]
  {
  }

  /** Adding a set raises the total by at most its own value, and by exactly that if the ids are new. */
  lemma {:induction false} TotalAdd(u: UTxOSet, m: UTxOSet)
    ensures Total(u + m) <= Total(u) + Total(m)
    ensures u.Keys !! m.Keys ==> Total(u + m) == Total(u) + Total(m)
    decreases |m|
  {
    if m == map[] {
      assert u + m == u;
    } else {
      var k :| k in m;
      var m' := m - {k};
      TotalRemove(m, k);
      TotalAdd(u, m');
      TotalInsert(u + m', k, m[k]);
      UnionInsert(u, m, k);
    }
  }

  lemma {:induction false} TotalOutputs(tx: Transaction)
    ensures Total(OutputsOf(tx)) == ExactOutputs(tx.outputs)
    decreases |tx.outputs|
  {
    if tx.outputs == [] {
      assert OutputsOf(tx) == map[];
    } else {
      var last := |tx.outputs| - 1;
      var shorter := tx.(outputs := tx.outputs[..last]);
      TotalOutputs(shorter);
      TotalInsert(OutputsOf(shorter), UTxOId(tx.id, last), tx.outputs[last]);
      OutputsInsert(tx);
    }
  }

  // ---------------------------------------------------------------- conservation

  /** The outputs add up to less than 2^64, so the code's sum is the true one. */
  predicate OutputsFit(tx: Transaction)
  {
    ExactOutputs(tx.outputs) < WORD64
  }

  /** In a set worth less than 2^64 the input sum never wraps. */
  lemma InputsExact(u: UTxOSet, ids: seq<UTxOId>)
    requires NoDup(ids) && (forall i :: i in ids ==> i in u) && Total(u) < WORD64
    ensures SumInputs(u, ids) == ExactInputs(u, ids) <= Total(u)
  {
    InputsAreRemoved(u, ids);
    SumInputsWraps(u, ids);
  }

  /**
   An accepted transaction creates no value exactly when its output sum wraps no more often than
   its input sum. In a set worth less than 2^64 that means that its outputs fit a Word64.
   */
  lemma TransactionConservesIff(signed: SignatureCheck, u: UTxOSet, tx: Transaction)
    requires ValidateTransaction(signed, u, tx).Ok?
    ensures ExactOutputs(tx.outputs) <= ExactInputs(u, tx.inputs) <==>
      ExactOutputs(tx.outputs) / WORD64 <= ExactInputs(u, tx.inputs) / WORD64
    ensures Total(u) < WORD64 ==> (ExactOutputs(tx.outputs) <= ExactInputs(u, tx.inputs) <==> OutputsFit(tx))
  {
    TransactionAcceptedIff(signed, u, tx);
    SumOutputsWraps(tx.outputs);
    SumInputsWraps(u, tx.inputs);
    if Total(u) < WORD64 { InputsExact(u, tx.inputs); }
  }

  /** Two outputs of 2^63 wrap to zero: a coin worth 1 is accepted as payment for them. */
  lemma OverflowCreatesValue(id: Hash, earlier: Hash)
    ensures var coin := UTxOId(earlier, 0);
      var u: UTxOSet := map[coin := UTxO([], 1)];
      var big := UTxO([], WORD64 / 2);
      var tx := Transaction(id, [coin], [big, big], []);
      && ValidateTransaction(_ => true, u, tx).Ok?
      && ExactInputs(u, tx.inputs) == 1 && ExactOutputs(tx.outputs) == WORD64
  {
    var coin := UTxOId(earlier, 0);
    var u: UTxOSet := map[coin := UTxO([], 1)];
    var big := UTxO([], WORD64 / 2);
    var tx := Transaction(id, [coin], [big, big], []);
    assert [coin][..0] == [] && [big, big][..1] == [big] && [big][..0] == [];
    assert ExactOutputs([big]) == WORD64 / 2;
    assert ExactInputs(u, [coin]) == 1;
    SumOutputsWraps(tx.outputs);
    SumInputsWraps(u, tx.inputs);
    TransactionAcceptedIff(_ => true, u, tx);
  }

  function BlockOutputs(txs: seq<Transaction>): nat
  {
    if txs == [] then 0 else ExactOutputs(txs[0].outputs) + BlockOutputs(txs[1..])
  }

  lemma {:induction false} TotalAllOutputs(txs: seq<Transaction>)
    ensures Total(AllOutputs(txs)) <= BlockOutputs(txs)
  {
    if txs != [] {
      TotalAllOutputs(txs[1..]);
      TotalOutputs(txs[0]);
      TotalAdd(OutputsOf(txs[0]), AllOutputs(txs[1..]));
    }
  }

  lemma {:induction false} ExactInputsAppend(u: UTxOSet, a: seq<UTxOId>, b: seq<UTxOId>)
    ensures ExactInputs(u, a + b) == ExactInputs(u, a) + ExactInputs(u, b)
    decreases |b|
  {
    if b == [] {
      assert a + b == a;
    } else {
      ExactInputsAppend(u, a, b[..|b| - 1]);
      assert (a + b)[..|a + b| - 1] == a + b[..|b| - 1];
    }
  }

  /** Summed over a block, accepted outputs are covered by the inputs. */
  lemma {:induction false} BlockCovered(signed: SignatureCheck, u: UTxOSet, txs: seq<Transaction>)
    requires forall tx :: tx in txs ==> Acceptable(signed, u, tx) && OutputsFit(tx)
    ensures BlockOutputs(txs) <= ExactInputs(u, AllInputs(txs))
  {
    if txs != [] {
      BlockCovered(signed, u, txs[1..]);
      ExactInputsAppend(u, txs[0].inputs, AllInputs(txs[1..]));
      TransactionAcceptedIff(signed, u, txs[0]);
      TransactionConservesIff(signed, u, txs[0]);
    }
  }

  lemma {:induction false} InputsKnown(signed: SignatureCheck, u: UTxOSet, txs: seq<Transaction>)
    requires forall tx :: tx in txs ==> Acceptable(signed, u, tx)
    ensures forall i :: i in AllInputs(txs) ==> i in u
  {
    if txs != [] {
      InputsKnown(signed, u, txs[1..]);
      assert Acceptable(signed, u, txs[0]);
    }
  }

  /** An accepted block whose outputs fit never raises the total value. */
  lemma BlockConserves(signed: SignatureCheck, u: UTxOSet, txs: seq<Transaction>)
    requires ValidateBody(signed, u, txs).Ok?
    requires forall tx :: tx in txs ==> OutputsFit(tx)
    ensures Total(ApplyBlock(u, txs)) <= Total(u)
    ensures Total(u) < WORD64 ==> forall tx :: tx in txs ==> SumInputs(u, tx.inputs) == ExactInputs(u, tx.inputs)
  {
    BodyAcceptedIff(signed, u, txs);
    InputsKnown(signed, u, txs);
    InputsAreRemoved(u, AllInputs(txs));
    BlockCovered(signed, u, txs);
    TotalAllOutputs(txs);
    TotalAdd(u - Spent(txs), AllOutputs(txs));
    forall tx | Total(u) < WORD64 && tx in txs ensures SumInputs(u, tx.inputs) == ExactInputs(u, tx.inputs) {
      InputsExact(u, tx.inputs);
    }
  }

  /** Over any accepted chain the total value never rises; from less than 2^64 no input sum ever wraps. */
  lemma {:induction false} ChainConserves(signed: SignatureCheck, u: UTxOSet, blocks: seq<Body>, i: nat)
    requires AcceptedChain(signed, u, blocks) && i <= |blocks|
    requires forall b, tx :: b in blocks && tx in b ==> OutputsFit(tx)
    ensures Total(ApplyChain(u, blocks[..i])) <= Total(u)
    ensures Total(u) < WORD64 && i < |blocks| ==> forall tx :: tx in blocks[i] ==>
      SumInputs(ApplyChain(u, blocks[..i]), tx.inputs) == ExactInputs(ApplyChain(u, blocks[..i]), tx.inputs)
    decreases |blocks|
  {
    if blocks != [] {
      BlockConserves(signed, u, blocks[0]);
      if i == 0 {
        assert blocks[..0] == [];
      } else {
        ChainConserves(signed, ApplyBlock(u, blocks[0]), blocks[1..], i - 1);
        assert blocks[..i][1..] == blocks[1..][..i - 1];
      }
    }
  }

  // ---------------------------------------------------------------- no double spend

  function ChainInputs(blocks: seq<Body>): seq<UTxOId>
  {
    if blocks == [] then [] else AllInputs(blocks[0]) + ChainInputs(blocks[1..])
  }

  function ChainTransactions(blocks: seq<Body>): seq<Transaction>
  {
    if blocks == [] then [] else blocks[0] + ChainTransactions(blocks[1..])
  }

  /** How many of the transactions create the output k. */
  function Creations(txs: seq<Transaction>, k: UTxOId): nat
  {
    if txs == [] then 0 else (if k in OutputsOf(txs[0]) then 1 else 0) + Creations(txs[1..], k)
  }

  function Count(b: bool): nat { if b then 1 else 0 }

  lemma {:induction false} CreatedOnlyByOutputs(txs: seq<Transaction>, k: UTxOId)
    ensures k in AllOutputs(txs) <==> Creations(txs, k) > 0
  {
    if txs != [] { CreatedOnlyByOutputs(txs[1..], k); }
  }

  lemma {:induction false} CreationsAppend(a: seq<Transaction>, b: seq<Transaction>, k: UTxOId)
    ensures Creations(a + b, k) == Creations(a, k) + Creations(b, k)
  {
    if a == [] {
      assert a + b == b;
    } else {
      CreationsAppend(a[1..], b, k);
      assert (a + b)[1..] == a[1..] + b;
    }
  }

  lemma {:induction false} NoDupCounts<T>(xs: seq<T>)
    ensures NoDup(xs) <==> forall x :: multiset(xs)[x] <= 1
  {
    if xs != [] {
      var last := |xs| - 1;
      var rest := xs[..last];
      NoDupCounts(rest);
      assert xs == rest + [xs[last]];
      assert multiset(xs) == multiset(rest) + multiset{xs[last]};
      if xs[last] in rest { assert multiset(xs)[xs[last]] >= 2; }
      if NoDup(xs) { assert NoDup(rest) && xs[last] !in rest; }
      if forall x :: multiset(xs)[x] <= 1 {
        assert forall x :: multiset(rest)[x] <= multiset(xs)[x];
      }
    }
  }

  /**
   Over any accepted chain, whatever its transaction ids, an output is consumed at most as
   often as it came into being: in the initial set or as an output of the chain.
   */
  lemma {:induction false} SpentAtMostCreated(signed: SignatureCheck, u: UTxOSet, blocks: seq<Body>, k: UTxOId)
    requires AcceptedChain(signed, u, blocks)
    ensures multiset(ChainInputs(blocks))[k] + Count(k in ApplyChain(u, blocks))
         <= Count(k in u) + Creations(ChainTransactions(blocks), k)
    decreases |blocks|
  {
    if blocks != [] {
      var txs, u' := blocks[0], ApplyBlock(u, blocks[0]);
      SpentAtMostCreated(signed, u', blocks[1..], k);
      BodyAcceptedIff(signed, u, txs);
      InputsKnown(signed, u, txs);
      NoDupCounts(AllInputs(txs));
      CreatedOnlyByOutputs(txs, k);
      CreationsAppend(txs, ChainTransactions(blocks[1..]), k);
      assert multiset(ChainInputs(blocks)) == multiset(AllInputs(txs)) + multiset(ChainInputs(blocks[1..]));
      assert multiset(AllInputs(txs))[k] > 0 <==> k in Spent(txs);
    }
  }

  function Ids(txs: seq<Transaction>): seq<Hash>
  {
    if txs == [] then [] else [txs[0].id] + Ids(txs[1..])
  }

  /** The transaction ids are distinct and none of them names an output already in the set. */
  predicate FreshIds(u: UTxOSet, txs: seq<Transaction>)
  {
    NoDup(Ids(txs)) && forall k :: k in u ==> k.txId !in Ids(txs)
  }

  lemma {:induction false} IdsMembers(txs: seq<Transaction>)
    ensures |Ids(txs)| == |txs| && forall i :: 0 <= i < |txs| ==> Ids(txs)[i] == txs[i].id
  {
    if txs != [] { IdsMembers(txs[1..]); }
  }

  lemma FreshTail(u: UTxOSet, txs: seq<Transaction>)
    requires FreshIds(u, txs) && txs != []
    ensures FreshIds(u, txs[1..]) && txs[0].id !in Ids(txs[1..])
  {
    assert Ids(txs) == [txs[0].id] + Ids(txs[1..]);
    assert forall i :: 0 <= i < |Ids(txs[1..])| ==> Ids(txs)[i + 1] == Ids(txs[1..])[i];
    forall i | 0 <= i < |Ids(txs[1..])| ensures Ids(txs[1..])[i] != txs[0].id {
      assert Ids(txs)[0] != Ids(txs)[i + 1];
    }
  }

  lemma {:induction false} FreshCreations(u: UTxOSet, txs: seq<Transaction>, k: UTxOId)
    requires FreshIds(u, txs)
    ensures Creations(txs, k) <= Count(k.txId in Ids(txs))
  {
    if txs != [] {
      FreshTail(u, txs);
      FreshCreations(u, txs[1..], k);
    }
  }

  /** With transaction ids never reused, no output is ever consumed twice. */
  lemma NoDoubleSpend(signed: SignatureCheck, u: UTxOSet, blocks: seq<Body>)
    requires AcceptedChain(signed, u, blocks) && FreshIds(u, ChainTransactions(blocks))
    ensures NoDup(ChainInputs(blocks))
    ensures forall k :: k in ChainInputs(blocks) ==> k !in ApplyChain(u, blocks)
  {
    forall k
      ensures multiset(ChainInputs(blocks))[k] + Count(k in ApplyChain(u, blocks)) <= 1
    {
      SpentAtMostCreated(signed, u, blocks, k);
      FreshCreations(u, ChainTransactions(blocks), k);
    }
    NoDupCounts(ChainInputs(blocks));
    forall k | k in ChainInputs(blocks) ensures k !in ApplyChain(u, blocks) {
      assert multiset(ChainInputs(blocks))[k] >= 1;
    }
  }

  // ---------------------------------------------------------------- order independence

  lemma {:induction false} AllOutputsIds(txs: seq<Transaction>)
    ensures forall k :: k in AllOutputs(txs) ==> k.txId in Ids(txs)
  {
    if txs != [] { AllOutputsIds(txs[1..]); }
  }

  lemma {:induction false} OutputSource(txs: seq<Transaction>, k: UTxOId) returns (tx: Transaction)
    requires k in AllOutputs(txs)
    ensures tx in txs && k in OutputsOf(tx)
  {
    if k in AllOutputs(txs[1..]) {
      tx := OutputSource(txs[1..], k);
    } else {
      tx := txs[0];
    }
  }

  /** With distinct ids, the block's outputs are those of each of its transactions. */
  lemma {:induction false} OutputLookup(u: UTxOSet, txs: seq<Transaction>, tx: Transaction, k: UTxOId)
    requires FreshIds(u, txs) && tx in txs && k in OutputsOf(tx)
    ensures k in AllOutputs(txs) && AllOutputs(txs)[k] == OutputsOf(tx)[k]
  {
    FreshTail(u, txs);
    AllOutputsIds(txs[1..]);
    if tx != txs[0] { OutputLookup(u, txs[1..], tx, k); }
  }

  /** Whatever one transaction of an accepted block does, the others stay acceptable. */
  lemma OthersStayAcceptable(signed: SignatureCheck, u: UTxOSet, txs: seq<Transaction>, tx: Transaction)
    requires txs != [] && FreshIds(u, txs) && NoDup(AllInputs(txs)) && tx in txs[1..]
    requires Acceptable(signed, u, txs[0]) && Acceptable(signed, u, tx)
    ensures Acceptable(signed, ApplyBlock(u, [txs[0]]), tx)
  {
    var u' := ApplyBlock(u, [txs[0]]);
    assert AllInputs(txs) == txs[0].inputs + AllInputs(txs[1..]);
    InputsAmong(txs[1..], tx);
    SingleBlock(u, txs[0]);
    forall i | i in tx.inputs ensures i in u' && u'[i] == u[i] {
      PartsDisjoint(txs[0].inputs, AllInputs(txs[1..]), i);
      assert Ids(txs)[0] == txs[0].id;
    }
    SameAmounts(u, u', tx.inputs);
  }

  lemma SingleBlock(u: UTxOSet, tx: Transaction)
    ensures ApplyBlock(u, [tx]) == (u - set i | i in tx.inputs) + OutputsOf(tx)
  {
    assert [tx][1..] == [];
    assert AllInputs([tx]) == tx.inputs;
    assert AllOutputs([tx]) == OutputsOf(tx);
  }

  lemma PartsDisjoint<T>(a: seq<T>, b: seq<T>, x: T)
    requires NoDup(a + b) && x in b
    ensures x !in a
  {
    var j :| 0 <= j < |b| && b[j] == x;
    assert (a + b)[|a| + j] == x;
    forall i | 0 <= i < |a| ensures a[i] != x {
      assert (a + b)[i] == a[i];
    }
  }

  lemma {:induction false} InputsAmong(txs: seq<Transaction>, tx: Transaction)
    requires tx in txs
    ensures forall i :: i in tx.inputs ==> i in AllInputs(txs)
  {
    if tx != txs[0] { InputsAmong(txs[1..], tx); }
  }

  lemma {:induction false} SameAmounts(u: UTxOSet, u': UTxOSet, ids: seq<UTxOId>)
    requires forall i :: i in ids ==> i in u && i in u' && u[i] == u'[i]
    ensures SumInputs(u, ids) == SumInputs(u', ids)
  {
    if ids != [] { SameAmounts(u, u', ids[..|ids| - 1]); }
  }

  /** Removing and adding for the first transaction, then for the rest, is doing so for all. */
  lemma BlockCompose(u: UTxOSet, txs: seq<Transaction>)
    requires txs != [] && FreshIds(u, txs)
    requires forall i :: i in AllInputs(txs) ==> i in u
    ensures ApplyBlock(ApplyBlock(u, [txs[0]]), txs[1..]) == ApplyBlock(u, txs)
  {
    SingleBlock(u, txs[0]);
    assert Ids(txs)[0] == txs[0].id;
    assert forall i :: i in AllInputs(txs[1..]) ==> i in AllInputs(txs);
    assert Spent(txs) == (set i | i in txs[0].inputs) + Spent(txs[1..]);
    TwoUpdates(u, (set i | i in txs[0].inputs), OutputsOf(txs[0]), Spent(txs[1..]), AllOutputs(txs[1..]));
  }

  lemma TwoUpdates<K, V>(u: map<K, V>, a: set<K>, m: map<K, V>, b: set<K>, m': map<K, V>)
    requires b !! m.Keys
    ensures (u - a + m) - b + m' == u - (a + b) + (m + m')
  {
  }

  lemma FreshAfter(u: UTxOSet, txs: seq<Transaction>)
    requires txs != [] && FreshIds(u, txs)
    ensures FreshIds(ApplyBlock(u, [txs[0]]), txs[1..])
  {
    FreshTail(u, txs);
    SingleBlock(u, txs[0]);
  }

  lemma RestStaysAcceptable(signed: SignatureCheck, u: UTxOSet, txs: seq<Transaction>)
    requires txs != [] && NoDup(AllInputs(txs)) && FreshIds(u, txs)
    requires forall tx :: tx in txs ==> Acceptable(signed, u, tx)
    ensures var u', rest := ApplyBlock(u, [txs[0]]), txs[1..];
      (forall tx :: tx in rest ==> Acceptable(signed, u', tx)) && NoDup(AllInputs(rest)) && FreshIds(u', rest)
  {
    forall tx | tx in txs[1..] ensures Acceptable(signed, ApplyBlock(u, [txs[0]]), tx) {
      OthersStayAcceptable(signed, u, txs, tx);
    }
    FreshAfter(u, txs);
    TailNoDup(txs[0].inputs, AllInputs(txs[1..]));
  }

  /** Transaction by transaction, in the order listed: all stay acceptable and the result is the block's. */
  lemma {:induction false} OneByOne(signed: SignatureCheck, u: UTxOSet, txs: seq<Transaction>)
    requires forall tx :: tx in txs ==> Acceptable(signed, u, tx)
    requires NoDup(AllInputs(txs)) && FreshIds(u, txs)
    ensures ApplyEach(u, txs) == ApplyBlock(u, txs)
    ensures forall k :: 0 <= k < |txs| ==> Acceptable(signed, ApplyEach(u, txs[..k]), txs[k])
    decreases |txs|
  {
    if txs == [] {
      assert ApplyBlock(u, txs) == u;
    } else {
      var u', rest := ApplyBlock(u, [txs[0]]), txs[1..];
      RestStaysAcceptable(signed, u, txs);
      InputsKnown(signed, u, txs);
      BlockCompose(u, txs);
      OneByOne(signed, u', rest);
      forall k | 0 <= k < |txs| ensures Acceptable(signed, ApplyEach(u, txs[..k]), txs[k]) {
        if k > 0 { assert txs[..k][1..] == rest[..k - 1]; }
      }
    }
  }

  lemma TailNoDup<T>(a: seq<T>, b: seq<T>)
    requires NoDup(a + b)
    ensures NoDup(b)
  {
    forall i, j | 0 <= i < j < |b| ensures b[i] != b[j] {
      assert (a + b)[|a| + i] == b[i] && (a + b)[|a| + j] == b[j];
    }
  }

  ghost function Bag<T>(txs: seq<Transaction>, f: Transaction -> multiset<T>): multiset<T>
  {
    if txs == [] then multiset{} else f(txs[0]) + Bag(txs[1..], f)
  }

  lemma {:induction false} BagAppend<T>(a: seq<Transaction>, b: seq<Transaction>, f: Transaction -> multiset<T>)
    ensures Bag(a + b, f) == Bag(a, f) + Bag(b, f)
  {
    if a == [] {
      assert a + b == b;
    } else {
      BagAppend(a[1..], b, f);
      assert (a + b)[1..] == a[1..] + b;
    }
  }

  lemma WithoutOne<T>(s: seq<T>, j: nat)
    requires j < |s|
    ensures multiset(s[..j] + s[j + 1..]) == multiset(s) - multiset{s[j]}
  {
    assert s == s[..j] + [s[j]] + s[j + 1..];
  }

  lemma RemoveFirst<T>(a: seq<T>, b: seq<T>) returns (j: nat)
    requires a != [] && multiset(a) == multiset(b)
    ensures j < |b| && b[j] == a[0] && multiset(a[1..]) == multiset(b[..j] + b[j + 1..])
  {
    assert a[0] in multiset(b);
    j :| 0 <= j < |b| && b[j] == a[0];
    WithoutOne(b, j);
    WithoutOne(a, 0);
    assert a[..0] + a[1..] == a[1..];
  }

  /** What the transactions contribute together does not depend on their order. */
  lemma {:induction false} BagPermutes<T>(a: seq<Transaction>, b: seq<Transaction>, f: Transaction -> multiset<T>)
    requires multiset(a) == multiset(b)
    ensures Bag(a, f) == Bag(b, f)
    decreases |a|
  {
    if a == [] {
      assert |multiset(b)| == 0;
    } else {
      var j := RemoveFirst(a, b);
      var pre, post := b[..j], b[j + 1..];
      BagPermutes(a[1..], pre + post, f);
      BagAppend(pre, post, f);
      BagAppend(pre, b[j..], f);
      assert b == pre + b[j..];
      assert b[j..][1..] == post;
    }
  }

  ghost function InputBag(tx: Transaction): multiset<UTxOId> { multiset(tx.inputs) }

  ghost function IdBag(tx: Transaction): multiset<Hash> { multiset{tx.id} }

  lemma {:induction false} BagsOf(txs: seq<Transaction>)
    ensures multiset(AllInputs(txs)) == Bag(txs, InputBag)
    ensures multiset(Ids(txs)) == Bag(txs, IdBag)
  {
    if txs != [] { BagsOf(txs[1..]); }
  }

  /** The tests of a block body and the freshness of its ids hold for every reordering. */
  lemma ReorderedTests(u: UTxOSet, txs: seq<Transaction>, txs': seq<Transaction>)
    requires multiset(txs) == multiset(txs') && NoDup(AllInputs(txs)) && FreshIds(u, txs)
    ensures NoDup(AllInputs(txs')) && FreshIds(u, txs')
    ensures Spent(txs') == Spent(txs)
  {
    BagsOf(txs);
    BagsOf(txs');
    BagPermutes(txs, txs', InputBag);
    BagPermutes(txs, txs', IdBag);
    NoDupCounts(AllInputs(txs));
    NoDupCounts(AllInputs(txs'));
    NoDupCounts(Ids(txs));
    NoDupCounts(Ids(txs'));
    SameMembers(AllInputs(txs), AllInputs(txs'));
    SameMembers(Ids(txs), Ids(txs'));
  }

  lemma SameMembers<T>(a: seq<T>, b: seq<T>)
    requires multiset(a) == multiset(b)
    ensures forall x :: x in a <==> x in b
  {
    assert forall x :: x in a <==> x in multiset(a);
    assert forall x :: x in b <==> x in multiset(b);
  }

  lemma ReorderedLookup(u: UTxOSet, txs: seq<Transaction>, txs': seq<Transaction>, k: UTxOId)
    requires multiset(txs) == multiset(txs') && FreshIds(u, txs) && FreshIds(u, txs') && k in AllOutputs(txs)
    ensures k in AllOutputs(txs') && AllOutputs(txs')[k] == AllOutputs(txs)[k]
  {
    var tx := OutputSource(txs, k);
    SameMembers(txs, txs');
    OutputLookup(u, txs, tx, k);
    OutputLookup(u, txs', tx, k);
  }

  lemma ReorderedOutputs(u: UTxOSet, txs: seq<Transaction>, txs': seq<Transaction>)
    requires multiset(txs) == multiset(txs') && FreshIds(u, txs) && FreshIds(u, txs')
    ensures AllOutputs(txs') == AllOutputs(txs)
  {
    forall k | k in AllOutputs(txs) ensures k in AllOutputs(txs') && AllOutputs(txs')[k] == AllOutputs(txs)[k] {
      ReorderedLookup(u, txs, txs', k);
    }
    forall k | k in AllOutputs(txs') ensures k in AllOutputs(txs) {
      ReorderedLookup(u, txs', txs, k);
    }
  }

  /**
   For every accepted block with distinct new transaction ids: applied one by one in any order,
   each transaction is valid when its turn comes, and the final set is always the block's.
   */
  lemma OrderIndependence(signed: SignatureCheck, u: UTxOSet, txs: seq<Transaction>, txs': seq<Transaction>)
    requires ValidateBody(signed, u, txs).Ok? && FreshIds(u, txs) && multiset(txs) == multiset(txs')
    ensures ApplyEach(u, txs') == ApplyBlock(u, txs)
    ensures forall k :: 0 <= k < |txs'| ==> ValidateTransaction(signed, ApplyEach(u, txs'[..k]), txs'[k]).Ok?
  {
    BodyAcceptedIff(signed, u, txs);
    ReorderedTests(u, txs, txs');
    ReorderedOutputs(u, txs, txs');
    forall tx | tx in txs' ensures Acceptable(signed, u, tx) {
      assert tx in multiset(txs);
    }
    OneByOne(signed, u, txs');
    forall k | 0 <= k < |txs'| ensures ValidateTransaction(signed, ApplyEach(u, txs'[..k]), txs'[k]).Ok? {
      TransactionAcceptedIff(signed, ApplyEach(u, txs'[..k]), txs'[k]);
    }
  }

  lemma {:induction false} TotalAllOutputsExact(u: UTxOSet, txs: seq<Transaction>)
    requires FreshIds(u, txs)
    ensures Total(AllOutputs(txs)) == BlockOutputs(txs)
  {
    if txs != [] {
      FreshTail(u, txs);
      TotalAllOutputsExact(u, txs[1..]);
      TotalOutputs(txs[0]);
      AllOutputsIds(txs[1..]);
      TotalAdd(OutputsOf(txs[0]), AllOutputs(txs[1..]));
    }
  }

  /** With new ids the books balance to the unit: what the inputs held is gone, what the outputs hold is there. */
  lemma BlockBalance(signed: SignatureCheck, u: UTxOSet, txs: seq<Transaction>)
    requires ValidateBody(signed, u, txs).Ok? && FreshIds(u, txs)
    ensures Total(ApplyBlock(u, txs)) + ExactInputs(u, AllInputs(txs)) == Total(u) + BlockOutputs(txs)
  {
    BodyAcceptedIff(signed, u, txs);
    InputsKnown(signed, u, txs);
    InputsAreRemoved(u, AllInputs(txs));
    AllOutputsIds(txs);
    TotalAllOutputsExact(u, txs);
    TotalAdd(u - Spent(txs), AllOutputs(txs));
  }
}
