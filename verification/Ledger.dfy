/**
 UTxO transactions and block bodies: validation as in Protocol/Block.hs with its Word64
 sums, and what validation guarantees when blocks are applied one after another.
 */
module Ledger {
  import opened Wrappers
  import opened Bytes

  datatype UTxOId = UTxOId(txId: Hash, index: nat)

  datatype UTxO = UTxO(address: seq<byte>, amount: Word64)

  datatype Transaction = Transaction(id: Hash, inputs: seq<UTxOId>, outputs: seq<UTxO>, signature: seq<byte>)

  type UTxOSet = map<UTxOId, UTxO>

  datatype ValidationError =
    | InvalidSignature
    | DoubleSpend(id: UTxOId)
    | InsufficientFunds(totalInput: Word64, totalOutput: Word64)
    | DuplicateInputs

  /** Whether a transaction's signature checks out; the signature scheme is not modelled. */
  type SignatureCheck = Transaction -> bool

  // ---------------------------------------------------------------- validation

  function Wrap(x: nat): Word64
  {
    x % WORD64
  }

  /** sumInputs: a left fold in Word64 that skips unknown ids. */
  function SumInputs(u: UTxOSet, ids: seq<UTxOId>): Word64
  {
    if ids == [] then 0
    else (
      var acc, last := SumInputs(u, ids[..|ids| - 1]), ids[|ids| - 1];
      if last in u then Wrap(acc + u[last].amount) else acc
    )
  }

  /** sumOutputs: a left fold in Word64. */
  function SumOutputs(outs: seq<UTxO>): Word64
  {
    if outs == [] then 0 else Wrap(SumOutputs(outs[..|outs| - 1]) + outs[|outs| - 1].amount)
  }

  function FirstUnknown(u: UTxOSet, ids: seq<UTxOId>): Option<UTxOId>
  {
    if ids == [] then None else if ids[0] !in u then Some(ids[0]) else FirstUnknown(u, ids[1..])
  }

  function ValidateTransaction(signed: SignatureCheck, u: UTxOSet, tx: Transaction): Result<Transaction, ValidationError>
  {
    if !signed(tx) then Err(InvalidSignature)
    else if FirstUnknown(u, tx.inputs).Some? then Err(DoubleSpend(FirstUnknown(u, tx.inputs).value))
    else if tx.inputs != [] && |set i | i in tx.inputs| != |tx.inputs| then Err(DoubleSpend(tx.inputs[0]))
    else if SumOutputs(tx.outputs) > SumInputs(u, tx.inputs) then
      Err(InsufficientFunds(SumInputs(u, tx.inputs), SumOutputs(tx.outputs)))
    else Ok(tx)
  }

  function NubOrd<T(==)>(seen: set<T>, xs: seq<T>): seq<T>
    decreases |xs|
  {
    if xs == [] then []
    else if xs[0] in seen then NubOrd(seen, xs[1..])
    else [xs[0]] + NubOrd(seen + {xs[0]}, xs[1..])
  }

  function FirstInvalid(signed: SignatureCheck, u: UTxOSet, txs: seq<Transaction>): Option<ValidationError>
  {
    if txs == [] then None
    else match ValidateTransaction(signed, u, txs[0])
      case Err(e) => Some(e)
      case Ok(_) => FirstInvalid(signed, u, txs[1..])
  }

  function AllInputs(txs: seq<Transaction>): seq<UTxOId>
  {
    if txs == [] then [] else txs[0].inputs + AllInputs(txs[1..])
  }

  /** Every transaction against the state before the block, then no input twice in the block. */
  function ValidateBody(signed: SignatureCheck, u: UTxOSet, txs: seq<Transaction>): Result<seq<Transaction>, ValidationError>
  {
    match FirstInvalid(signed, u, txs)
    case Some(e) => Err(e)
    case None =>
      if |AllInputs(txs)| != |NubOrd({}, AllInputs(txs))| then Err(DuplicateInputs) else Ok(txs)
  }

  // ---------------------------------------------------------------- what validation tests

  predicate NoDup<T(==)>(xs: seq<T>)
  {
    forall i, j :: 0 <= i < j < |xs| ==> xs[i] != xs[j]
  }

  lemma {:induction false} NubOrdKeepsAll<T>(seen: set<T>, xs: seq<T>)
    ensures |NubOrd(seen, xs)| <= |xs|
    ensures |NubOrd(seen, xs)| == |xs| <==> NoDup(xs) && forall x :: x in xs ==> x !in seen
    decreases |xs|
  {
    if xs != [] {
      var rest := xs[1..];
      NubOrdKeepsAll(seen, rest);
      NubOrdKeepsAll(seen + {xs[0]}, rest);
      assert forall x :: x in xs <==> x == xs[0] || x in rest;
      assert forall i :: 0 <= i < |rest| ==> xs[i + 1] == rest[i];
      if NoDup(rest) && xs[0] !in rest {
        forall i, j | 0 <= i < j < |xs| ensures xs[i] != xs[j] {
          assert xs[j] == rest[j - 1] && (i > 0 ==> xs[i] == rest[i - 1]);
        }
      }
      if NoDup(xs) {
        assert xs[0] !in rest;
      }
    }
  }

  lemma {:induction false} SetSizeNoDup<T>(xs: seq<T>)
    ensures |set x | x in xs| <= |xs|
    ensures |set x | x in xs| == |xs| <==> NoDup(xs)
  {
    if xs != [] {
      var last := |xs| - 1;
      var rest := xs[..last];
      SetSizeNoDup(rest);
      assert (set x | x in xs) == (set x | x in rest) + {xs[last]};
      assert xs == rest + [xs[last]];
      if xs[last] in rest {
        assert (set x | x in xs) == (set x | x in rest);
      }
    }
  }

  lemma {:induction false} FirstUnknownNone(u: UTxOSet, ids: seq<UTxOId>)
    ensures FirstUnknown(u, ids).None? <==> forall i :: i in ids ==> i in u
  {
    if ids != [] {
      FirstUnknownNone(u, ids[1..]);
      assert forall i :: i in ids <==> i == ids[0] || i in ids[1..];
    }
  }

  /** Acceptance of a transaction, test by test. */
  ghost predicate Acceptable(signed: SignatureCheck, u: UTxOSet, tx: Transaction)
  {
    && signed(tx)
    && (forall i :: i in tx.inputs ==> i in u)
    && NoDup(tx.inputs)
    && SumOutputs(tx.outputs) <= SumInputs(u, tx.inputs)
  }

  lemma TransactionAcceptedIff(signed: SignatureCheck, u: UTxOSet, tx: Transaction)
    ensures ValidateTransaction(signed, u, tx).Ok? <==> Acceptable(signed, u, tx)
  {
    FirstUnknownNone(u, tx.inputs);
    SetSizeNoDup(tx.inputs);
  }

  lemma {:induction false} FirstInvalidNone(signed: SignatureCheck, u: UTxOSet, txs: seq<Transaction>)
    ensures FirstInvalid(signed, u, txs).None? <==> forall tx :: tx in txs ==> Acceptable(signed, u, tx)
  {
    if txs != [] {
      TransactionAcceptedIff(signed, u, txs[0]);
      FirstInvalidNone(signed, u, txs[1..]);
      assert forall tx :: tx in txs <==> tx == txs[0] || tx in txs[1..];
    }
  }

  /** A body is accepted exactly when each transaction is and no input id repeats across the block. */
  lemma BodyAcceptedIff(signed: SignatureCheck, u: UTxOSet, txs: seq<Transaction>)
    ensures ValidateBody(signed, u, txs).Ok? <==>
      (forall tx :: tx in txs ==> Acceptable(signed, u, tx)) && NoDup(AllInputs(txs))
  {
    FirstInvalidNone(signed, u, txs);
    NubOrdKeepsAll({}, AllInputs(txs));
  }

  lemma {:induction false} NubOrdIsNub<T>(seen: set<T>, xs: seq<T>)
    ensures NoDup(NubOrd(seen, xs))
    ensures forall x :: x in NubOrd(seen, xs) <==> x in xs && x !in seen
    decreases |xs|
  {
    if xs != [] {
      NubOrdIsNub(seen, xs[1..]);
      NubOrdIsNub(seen + {xs[0]}, xs[1..]);
      assert forall x :: x in xs <==> x == xs[0] || x in xs[1..];
    }
  }

  /** The first input that is not in the set. */
  ghost predicate IsFirstUnknown(u: UTxOSet, ids: seq<UTxOId>, id: UTxOId)
  {
    exists k :: 0 <= k < |ids| && ids[k] == id && id !in u && (forall j :: 0 <= j < k ==> ids[j] in u)
  }

  lemma {:induction false} FirstUnknownIsFirst(u: UTxOSet, ids: seq<UTxOId>)
    requires FirstUnknown(u, ids).Some?
    ensures IsFirstUnknown(u, ids, FirstUnknown(u, ids).value)
  {
    if ids[0] in u {
      var rest, id := ids[1..], FirstUnknown(u, ids).value;
      FirstUnknownIsFirst(u, rest);
      var k :| 0 <= k < |rest| && rest[k] == id && id !in u && (forall j :: 0 <= j < k ==> rest[j] in u);
      assert ids[k + 1] == id;
      assert forall j :: 0 < j < k + 1 ==> ids[j] == rest[j - 1];
    }
  }

  /**
   Why a transaction is refused. The id in a double-spend error is the first unknown input; when
   all inputs are known but one repeats, it is the first input, whichever one repeats.
   */
  lemma RejectionReason(signed: SignatureCheck, u: UTxOSet, tx: Transaction)
    requires ValidateTransaction(signed, u, tx).Err?
    ensures var e, known := ValidateTransaction(signed, u, tx).error, forall i :: i in tx.inputs ==> i in u;
      && (!signed(tx) <==> e == InvalidSignature)
      && (signed(tx) && !known <==> e.DoubleSpend? && IsFirstUnknown(u, tx.inputs, e.id))
      && (signed(tx) && known && !NoDup(tx.inputs) <==> e.DoubleSpend? && e.id in u)
      && (e.DoubleSpend? && e.id in u ==> e.id == tx.inputs[0])
      && (signed(tx) && known && NoDup(tx.inputs) <==> e.InsufficientFunds?)
      && (e.InsufficientFunds? ==> e.totalInput == SumInputs(u, tx.inputs) < e.totalOutput == SumOutputs(tx.outputs))
  {
    FirstUnknownNone(u, tx.inputs);
    SetSizeNoDup(tx.inputs);
    if FirstUnknown(u, tx.inputs).Some? { FirstUnknownIsFirst(u, tx.inputs); }
  }

  /** The error of the first transaction that is refused. */
  ghost predicate IsFirstError(signed: SignatureCheck, u: UTxOSet, txs: seq<Transaction>, e: ValidationError)
  {
    exists k :: 0 <= k < |txs| && ValidateTransaction(signed, u, txs[k]) == Err(e)
      && (forall j :: 0 <= j < k ==> ValidateTransaction(signed, u, txs[j]).Ok?)
  }

  /** A body is refused with the error of its first bad transaction, or else for a repeated input. */
  lemma BodyRejection(signed: SignatureCheck, u: UTxOSet, txs: seq<Transaction>)
    requires ValidateBody(signed, u, txs).Err?
    ensures var e := ValidateBody(signed, u, txs).error;
      if forall tx :: tx in txs ==> Acceptable(signed, u, tx) then e == DuplicateInputs && !NoDup(AllInputs(txs))
      else IsFirstError(signed, u, txs, e)
  {
    FirstInvalidNone(signed, u, txs);
    NubOrdKeepsAll({}, AllInputs(txs));
    if FirstInvalid(signed, u, txs).Some? { FirstInvalidIsFirst(signed, u, txs); }
  }

  lemma {:induction false} FirstInvalidIsFirst(signed: SignatureCheck, u: UTxOSet, txs: seq<Transaction>)
    requires FirstInvalid(signed, u, txs).Some?
    ensures IsFirstError(signed, u, txs, FirstInvalid(signed, u, txs).value)
  {
    if ValidateTransaction(signed, u, txs[0]).Ok? {
      var rest, e := txs[1..], FirstInvalid(signed, u, txs).value;
      FirstInvalidIsFirst(signed, u, rest);
      var k :| 0 <= k < |rest| && ValidateTransaction(signed, u, rest[k]) == Err(e)
        && (forall j :: 0 <= j < k ==> ValidateTransaction(signed, u, rest[j]).Ok?);
      assert txs[k + 1] == rest[k];
      assert forall j :: 0 < j < k + 1 ==> txs[j] == rest[j - 1];
    } else {
      assert ValidateTransaction(signed, u, txs[0]) == Err(FirstInvalid(signed, u, txs).value);
    }
  }
}
