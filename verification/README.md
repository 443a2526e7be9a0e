# Crypto_Coin: verified models of consensus, ledger, Merkle tree, storage and wire frames

Crypto_Coin is a proof-of-stake coin: a Tendermint-style Byzantine fault tolerant engine and
a UTxO block validator in Haskell, and a Merkle tree, a block store and a wire protocol in
Rust. This project models those cores in Dafny and proves what they are for.

- **Consensus** (`Validators`, `Engine`, `WrittenEngine`, `EngineObject`, `Protocol`,
  `Progress`, `Settling`, `Deviations`, `SoleRuns`, `DeviationRuns`, `SingleVotes`, `Totals`,
  `Exhaustion`, `Handlers`, `Provenance`). The handlers of one validator are functions on its state and message queue; the
  class `ConsensusEngine` updates fields in place and is proved equal to them, once under the
  readings below and once as the code is written. `Protocol` puts the correct validators in a
  world where Byzantine ones send anything under their own names and the network delays,
  reorders and repeats messages at will. A run is any finite sequence of such steps, and every
  theorem is about every run and every round. The invariant (`NodeInv`) says that votes are
  cast once per round and phase, that locks and precommits have polkas, that a prevote against
  an earlier precommit is justified by a polka in between, and that decisions have quorums.
  `WrittenEngine` puts every departure of the code from the readings behind a switch of its
  own. `Settling` and `Deviations` prove agreement and finality from a weaker invariant, for runs
  whose steps pass tests the acting validator can make. `DeviationRuns` proves exactly which
  settings of the switches are safe, `SingleVotes` exactly which keep votes single, and `Totals`
  exactly which total powers the 64-bit two-thirds test can carry. `Handlers` states by fields
  what single handlers do, and `Provenance` that only proposed blocks are voted for and decided.
- **Ledger** (`Ledger`, `LedgerChain`, `HeaderChain`, `BodyRoots`). Transaction, body and header
  validation with their errors; then conservation, absence of double spends, order independence and the
  binding of a whole history by its tip hash, over whole chains.
- **Merkle tree** (`Merkle`, `MerkleGenerator`). The tree is built top-down by halving, the
  verifier folds bottom-up on index bits; the two are related by re-association.
- **Storage** (`Storage`, `StorageForks`). A class over two maps and a head, proved against a
  plain history, and a step system whose steps are the separate lock sections of concurrent
  calls; then exactly what several blocks at one height do to the head, to serialisability and
  to lookups.
- **Wire frames** (`WireFrame`). The frame codec on single frames and on byte streams.

Hash, signature, checksum, size and body-root functions are parameters; nothing is assumed of
them. Where a statement depends on collision resistance it says "equal, or here are two
different inputs, taken from these two computations, with one hash". The proposer's fresh
block is a parameter of the proposing step. Clocks and timers are steps that may happen at any
moment. Word64, Word32 and usize arithmetic wraps explicitly, except for rounds as said below.

## Readings

The engine is partly a skeleton. These are the readings the model takes. Those that depart from
what the code does are switches of `Rules`, all of them on in `Written()`. `FinalRulesIff` proves
which of them agreement and finality need: votes counted for one hash, the polka behind a claimed
valid round, no lock on nil (as soon as there are nil votes), a round that never falls and never
wraps, and proposals answered once a round. With that, the step guards and following only
strictly higher views are not needed; they can stand in for answering once. For single votes all
of these guards are needed; without nil votes, counting for one hash makes up for them
(`SingleRulesIff`).

- `collectVotes` and `collectViewChanges` are placeholders that return nothing; they are read
  as the received messages of that phase and round, or view. `processMessages` empties the
  queue it dispatches; the model keeps received messages so that votes can be collected.
- The consensus specification under docs/ counts a polka or commit quorum for one hash, in
  its account of the precommit and commit steps. The code tests the senders of all votes and
  takes the first hash. The model follows the specification; `FirstValueRuleIff` says exactly
  when the two agree, `FirstValueRuleSplits` shows an input on which they do not, and
  `FirstValueRedecides` a run in which that changes a decision.
- `handleProposal` has no step guard. In the model it acts when the validator has not yet
  prevoted in the round and has not precommitted. `handlePrevote` acts before the precommit,
  once. `handlePrecommit` acts in every step, as in the code: that a decision stays is proved.
  Answering proposals again is what breaks finality (`AgainLateRedecides`,
  `AgainBackRedecides`); acting in a late step does not by itself.
- A proposal's `pmValidRound` counts only if it is an earlier round whose polka for that block
  the receiver has, which is how the specification explains a valid value. The code compares
  the number alone; `NumberBreaksLocks` and `NumberRedecides` show what that allows.
- A nil polka leaves the lock alone, as in Engine.hs:258-263. In the code the first branch
  takes every quorum of senders, also one that is unanimous for nil, and records the round with
  no block; the branch at 258-263 is then not reached where the test is exact. `NilLockRedecides`
  shows what recording nil allows once validators vote nil.
- `proposeBlock` tests no step, and `startConsensus` may run it again while there is no decision.
  In the model a proposer offers in the propose step. `AgainOfferRedecides` shows what a late
  offer allows together with proposals answered again.
- Round changes keep the lock, as in Engine.hs:320-323 and 481-486. The specification also
  unlocks on a view change; the code does not, nor does the model.
- `handleNewView` jumps to any view, also backwards. The step of the model requires a strictly
  higher view. `TestedRunsAreSafe` gives the wider test under which the handler as written is
  safe, and `JumpBackRedecides` a run in which a jump back changes a decision.
- The round is a Word64 and wraps to 0 after 2^64-1; an announced view can bring it to the end
  at once. Rounds are unbounded in the model. `WrapRedecides` is a run in which the wrap changes
  a decision. Without the wrap a validator past the last 64-bit round, which no proposer can be
  computed for, never decides any more (`NeverDecides`, `OneMessageExhausts`).
- The two-thirds test multiplies Word64 values and wraps, and nothing bounds the powers. Polkas
  and quorums among sent messages are exact in the model, while the handlers test as the code
  does. Below a total of 2^63 a passing test is a true quorum, and the safety theorems are about
  every right total below that; from there on two validators can each pass alone and disagree
  with nobody faulty (`SplitDisagrees`, `FinalAtIff`). Below 2^64/3 the test is exact, which
  progress needs: above it a lone validator never decides (`LargeNeverDecides`).
- No handler checks a signature. In the model a faulty validator sends under its own name only,
  as the signatures in the messages are there to ensure.
- `pmBlock` is undefined in `proposeBlock`. The model offers the valid block if there is one,
  in line with the valid round the code attaches, and else the candidate.
- The code sends no nil votes on a timeout; the specification does. Both nil votes are steps
  that a run may or may not take; the runs that change a decision do without them.
- Proposer selection is the code's, with its Word64 round converted to a signed 64-bit index.

In the ledger, applying a block is defined here as removing the spent ids and then adding
outputs under (transaction id, index); the state module is not part of this model. A block
after number 2^64-1 is rejected, since `succ` has no value there. Timestamps are whole seconds.
In `BodyRoots` the Merkle root of a list is that of the Rust tree.

In the Merkle tree, `build_tree` does not pass leaves through `hash_leaf`, although the unit
tests of that file expect it; the model follows the code. `collect_siblings` is described as
giving sibling subtree roots from leaf to root; it pushes leaf hashes from the root down. The
path of sibling subtree roots is `Path`; what the loop gives is in `MerkleGenerator`.

## Model

| member | source | states |
|---|---|---|
| `Protocol.Agreement` | formal-protocol/crypto-coin-consensus/src/CryptoCoin/Consensus/Engine.hs:207-295 | In every run, over any number of rounds, with a right total power below 2^63 and at most a third of it Byzantine, no two correct validators ever hold different decisions, even when the two decisions are looked at in different moments of the run. |
| `Totals.FinalAtIff` | formal-protocol/crypto-coin-consensus/src/CryptoCoin/Consensus/Types.hs:338-345 | For every total power t: agreement and finality hold in every network of right total t with at most a third faulty and in every run, if and only if 2t is below 2^64; for the rules of the model and for all sound ones. |
| `Totals.SplitDisagrees` | formal-protocol/crypto-coin-consensus/src/CryptoCoin/Consensus/Types.hs:338-345 | For every total from 2^63 on, and whatever the rules: a network with nobody faulty and a run from the start in which one correct validator decides a in round 0 and another b in round 1. |
| `Totals.LargeNeverDecides` | formal-protocol/crypto-coin-consensus/src/CryptoCoin/Consensus/Types.hs:338-345 | For every total from 2^64/3 up to 2^63: a network of one validator that decides in no run. |
| `Protocol.LockPersistence` | formal-protocol/crypto-coin-consensus/src/CryptoCoin/Consensus/Engine.hs:217-255 | In the same networks: once precommits for a block in round r exceed two thirds of the power, no later round of any continuation ever has a polka for another block. |
| `Protocol.Finality` | formal-protocol/crypto-coin-consensus/src/CryptoCoin/Consensus/Engine.hs:269-328 | In the same networks: once a correct validator has decided, no continuation of any kind changes the value, although no handler guards it; and the commit step always carries a decision. |
| `Protocol.PolkaUniqueness` | formal-protocol/crypto-coin-consensus/src/CryptoCoin/Consensus/Engine.hs:231-266 | In the same networks no round of any reachable state has polkas for two values, nil included. |
| `Protocol.LocksHavePolkas` | formal-protocol/crypto-coin-consensus/src/CryptoCoin/Consensus/Engine.hs:231-266 | In the same networks, in every reachable state each lock of a correct validator, and each of its precommits for a block, is backed by a polka of that very round among the sent messages. |
| `Protocol.ValidBlockPassesLocks` | formal-protocol/crypto-coin-consensus/src/CryptoCoin/Consensus/Engine.hs:182-222 | In every reachable state a valid block whose round is not below a receiver's lock passes the lock test if and only if the receiver is unlocked, locked on that block, or has received the polka; equal rounds force equal blocks. |
| `Protocol.StepsMoveForward` | formal-protocol/crypto-coin-consensus/src/CryptoCoin/Consensus/Engine.hs:231-328 | No step of any run lowers a correct validator's round or locked round or drops a lock; the locked block changes only with the locked round; a round change restarts at propose with the lock kept. |
| `Protocol.ActKeepsInv` | formal-protocol/crypto-coin-consensus/src/CryptoCoin/Consensus/Engine.hs:207-328 | Every step, by a correct validator, the network or a Byzantine sender, keeps the invariant of all correct validators, and sent messages stay sent. |
| `Protocol.RunInv` | formal-protocol/crypto-coin-consensus/src/CryptoCoin/Consensus/Engine.hs:207-328 | The invariant holds in every reachable state. |
| `Protocol.HandleProposalKeeps` | formal-protocol/crypto-coin-consensus/src/CryptoCoin/Consensus/Engine.hs:207-228 | Answering a proposal keeps the invariant: a prevote against an earlier precommit has a polka in between. |
| `Protocol.HandlePrevoteKeeps` | formal-protocol/crypto-coin-consensus/src/CryptoCoin/Consensus/Engine.hs:231-266 | Reacting to prevotes keeps the invariant: the new lock and precommit have their polka, and a nil polka leaves the lock alone. |
| `Protocol.HandlePrecommitKeeps` | formal-protocol/crypto-coin-consensus/src/CryptoCoin/Consensus/Engine.hs:269-295 | Reacting to precommits keeps the invariant: a decision has a quorum of precommits. |
| `Protocol.ReceiveKeeps` | formal-protocol/crypto-coin-consensus/src/CryptoCoin/Consensus/Engine.hs:385-392 | Every message kind, delivered in any order and any number of times, keeps the invariant of the receiver. |
| `Protocol.ProposeKeeps` | formal-protocol/crypto-coin-consensus/src/CryptoCoin/Consensus/Engine.hs:170-200 | Proposing keeps the invariant. |
| `Protocol.LockPersists` | formal-protocol/crypto-coin-consensus/src/CryptoCoin/Consensus/Engine.hs:217-255 | The cross-round step, by strong induction on the round: with a quorum of precommits for h in round r, a polka of a later round is for h. |
| `Protocol.CommitHasPolka` | formal-protocol/crypto-coin-consensus/src/CryptoCoin/Consensus/Engine.hs:231-295 | A quorum of precommits for a block implies a polka for it in the same round. |
| `Protocol.CommitUnique` | formal-protocol/crypto-coin-consensus/src/CryptoCoin/Consensus/Engine.hs:231-295 | Quorums of precommits, in one round or in two, are for one block; the sketch in the specification argues within one round only. |
| `Protocol.PolkaLocks` | formal-protocol/crypto-coin-consensus/src/CryptoCoin/Consensus/Engine.hs:231-255 | In every state satisfying the invariant, the delivery that makes the received prevotes for a block pass the test makes a validator that has not precommitted lock that block and send its precommit. |
| `Protocol.QuorumDecides` | formal-protocol/crypto-coin-consensus/src/CryptoCoin/Consensus/Engine.hs:269-289 | In every state satisfying the invariant, the delivery that makes the received precommits for a block pass the test makes the receiver decide that block, whatever its step. |
| `Provenance.PrevotesAnswerProposer` | formal-protocol/crypto-coin-consensus/src/CryptoCoin/Consensus/Engine.hs:213-228 | In every network and run, whatever the rules: each prevote of a correct validator for a block has, among the sent messages, a proposal for that block and round from the active validator at the signed round modulo their number; and correct validators propose in their own rounds only. |
| `Provenance.Validity` | formal-protocol/crypto-coin-consensus/src/CryptoCoin/Consensus/Engine.hs:207-295 | Under every sound choice of rules, in every run: a block that a correct validator has decided was proposed by the proposer of some round. |
| `Provenance.ModelValidity` | formal-protocol/crypto-coin-consensus/src/CryptoCoin/Consensus/Engine.hs:207-295 | Both for every run of the model. |
| `Handlers.OthersIgnored` | formal-protocol/crypto-coin-consensus/src/CryptoCoin/Consensus/Engine.hs:213-215 | A proposal of another round, or from anybody but the round's proposer, is queued and changes nothing else, in the model and under every choice of rules. |
| `Handlers.ProposalAnswered` | formal-protocol/crypto-coin-consensus/src/CryptoCoin/Consensus/Engine.hs:216-228 | An unlocked validator that has not prevoted in the round answers the proposer's block by a prevote for it in that round and the prevote step, and nothing else changes; the same as written. |
| `Handlers.LockedAsWritten` | formal-protocol/crypto-coin-consensus/src/CryptoCoin/Consensus/Engine.hs:217-222 | Locked on another block, the handler as written answers if and only if the claimed valid round is a number above the locked round. |
| `Handlers.LockedInModel` | formal-protocol/crypto-coin-consensus/src/CryptoCoin/Consensus/Engine.hs:217-222 | Locked on another block, the handler of the model answers if and only if the claimed valid round lies between the locked round and this one and the received prevotes of that round for the block pass the test. |
| `Handlers.OthersDoNotOffer` | formal-protocol/crypto-coin-consensus/src/CryptoCoin/Consensus/Engine.hs:428-438 | A validator that is not the proposer of its round offers nothing, under every choice of rules. |
| `Handlers.PolkaFields` | formal-protocol/crypto-coin-consensus/src/CryptoCoin/Consensus/Engine.hs:246-255 | Received prevotes for a block that pass the test set locked and valid block to that block, locked and valid round to this round, and the step to precommit; the other fields stay. |
| `Handlers.NilPolkaKeepsLock` | formal-protocol/crypto-coin-consensus/src/CryptoCoin/Consensus/Engine.hs:256-266 | Received nil prevotes that pass the test: a nil precommit is queued, the step is precommit, all other fields stay. |
| `Handlers.FirstIsLocked` | formal-protocol/crypto-coin-consensus/src/CryptoCoin/Consensus/Engine.hs:238-255 | As written, when the senders of all prevotes pass: the value of the newest vote, nil too, is locked, recorded as valid and precommitted. |
| `Handlers.NilBranch` | formal-protocol/crypto-coin-consensus/src/CryptoCoin/Consensus/Engine.hs:256-263 | As written, when they do not pass but the nil voters do: precommit nil, keep the lock. |
| `Handlers.NilQuorumAdvances` | formal-protocol/crypto-coin-consensus/src/CryptoCoin/Consensus/Engine.hs:290-293 | Received nil precommits that pass the test: the round is one higher, the step propose, all other fields stay. |
| `Handlers.NilValueAdvances` | formal-protocol/crypto-coin-consensus/src/CryptoCoin/Consensus/Engine.hs:290-293 | The same under every choice of rules, as written with the round plus one modulo 2^64. |
| `Handlers.ViewChangeAdvances` | formal-protocol/crypto-coin-consensus/src/CryptoCoin/Consensus/Engine.hs:308-328 | A view change starts the round after the current one, plus one or plus one modulo 2^64, if and only if the senders of received view changes to that view pass the test; nothing else changes. |
| `Handlers.CommitMessage` | formal-protocol/crypto-coin-consensus/src/CryptoCoin/Consensus/Engine.hs:298-305 | A commit message sets the decision if the step is commit and there is none, and otherwise changes nothing. |
| `Handlers.NewViewFollowed` | formal-protocol/crypto-coin-consensus/src/CryptoCoin/Consensus/Engine.hs:405-415 | An announced 64-bit view becomes the round, in the propose step with the lock kept: in the model if it is higher, as written always. |
| `Deviations.TestedRunsAreSafe` | formal-protocol/crypto-coin-consensus/src/CryptoCoin/Consensus/Engine.hs:207-488 | For every choice of rules, the code as written with its wrapping round included, and every right total below 2^63 with at most a third faulty: in every run whose steps all pass a test on the acting validator's own state and queue, agreement and finality hold. The test: a proposal is answered once a round, or else votes and offers are made before the precommit only; a prevote against the lock has its polka at hand; a first hash is taken only from unanimous votes; no nil lock is recorded; a view is not below own votes for blocks and the lock; no round is started after round 2^64-1. |
| `DeviationRuns.FinalRulesIff` | formal-protocol/crypto-coin-consensus/src/CryptoCoin/Consensus/Engine.hs:207-488 | For every choice of rules: agreement and finality hold in every network of right total below 2^63 with at most a third faulty and in every run, if and only if votes count for one hash, a claimed valid round needs its polka, no nil lock is recorded, the round does not wrap, no lower view is followed while a later round has a proposer, and proposals are answered once a round or else votes and offers are made before the precommit only and views followed upwards only. For runs without nil votes the same if and only if, without the nil lock. |
| `DeviationRuns.UnsoundRedecides` | formal-protocol/crypto-coin-consensus/src/CryptoCoin/Consensus/Engine.hs:207-488 | For every other choice of rules a network and a run in which agreement or finality fails; without nil votes unless nil locks alone are at fault. |
| `DeviationRuns.WrapRedecides` | formal-protocol/crypto-coin-consensus/src/CryptoCoin/Consensus/Engine.hs:477-488 | Whatever the other rules: a round that wraps lets a single validator decide b, come back to round 0 and decide a. |
| `DeviationRuns.AgainLateRedecides` | formal-protocol/crypto-coin-consensus/src/CryptoCoin/Consensus/Engine.hs:207-266 | Proposals answered again together with late votes: a correct validator decides two blocks in one round. |
| `DeviationRuns.AgainBackRedecides` | formal-protocol/crypto-coin-consensus/src/CryptoCoin/Consensus/Engine.hs:207-415 | Proposals answered again together with a view followed that is not above the round: the same. |
| `DeviationRuns.AgainOfferRedecides` | formal-protocol/crypto-coin-consensus/src/CryptoCoin/Consensus/Engine.hs:152-200 | Proposals answered again together with offers after the precommit: a validator decides two blocks in one round. |
| `DeviationRuns.NilLockRedecides` | formal-protocol/crypto-coin-consensus/src/CryptoCoin/Consensus/Engine.hs:242-255 | Whatever the other rules: if a nil polka is recorded as a lock, a validator decides a, drops its lock on a nil polka and decides b. |
| `SingleVotes.SingleRulesIff` | formal-protocol/crypto-coin-consensus/src/CryptoCoin/Consensus/Engine.hs:207-488 | For every choice of rules: no correct validator in any network and run votes twice in a phase of a 64-bit round, if and only if proposals are answered once a round, votes and offers are made before the precommit only, the round does not wrap and only higher views are followed. For runs without nil votes: if and only if proposals are answered once a round and, where the first hash is taken, all of that holds. |
| `Settling.LockStays` | formal-protocol/crypto-coin-consensus/src/CryptoCoin/Consensus/Engine.hs:217-255 | Lock persistence from the weaker invariant, in which validators may act late and precommit more than once: every polka contains a quorum of justified prevotes. |
| `Settling.CommitsAgree` | formal-protocol/crypto-coin-consensus/src/CryptoCoin/Consensus/Engine.hs:231-295 | Commit quorums of any two rounds are for one block, from the weaker invariant. |
| `Deviations.TestedStepKeeps` | formal-protocol/crypto-coin-consensus/src/CryptoCoin/Consensus/Engine.hs:207-488 | Every tested step under any rules, and every faulty message, keeps the weaker invariant. |
| `DeviationRuns.JumpBackRedecides` | formal-protocol/crypto-coin-consensus/src/CryptoCoin/Consensus/Engine.hs:405-415 | Whatever the other rules: if any view below the round is followed while a later round has a proposer, there is a run from the start, with one validator and no nil votes, in which it decides b, goes back and decides a. |
| `DeviationRuns.NumberBreaksLocks` | formal-protocol/crypto-coin-consensus/src/CryptoCoin/Consensus/Engine.hs:217-222 | If the valid round is compared as a number alone, there is a run, whatever the other rules, with a commit quorum for a in round 0 and a polka for b in round 3 on a claim of round 1, where nobody voted. |
| `DeviationRuns.NumberRedecides` | formal-protocol/crypto-coin-consensus/src/CryptoCoin/Consensus/Engine.hs:217-222 | The same rule lets a correct validator decide a and then b. |
| `DeviationRuns.FirstValueRedecides` | formal-protocol/crypto-coin-consensus/src/CryptoCoin/Consensus/Engine.hs:276-289 | If the first hash is taken for the value of all votes, there is a run in which one faulty precommit makes a correct validator decide b and its own then a. |
| `Deviations.ModelRuns` | formal-protocol/crypto-coin-consensus/src/CryptoCoin/Consensus/Engine.hs:207-415 | With every departure switched off, runs are the runs of the protocol model. |
| `Progress.CanAlwaysDecide` | formal-protocol/crypto-coin-consensus/src/CryptoCoin/Consensus/Engine.hs:170-328 | From every reachable state whose rounds leave as many 64-bit rounds as there are validators (at most 2^63), with a right total below 2^64/3, less than a third of it Byzantine and the correct validators active, some continuation, made only of deliveries, proposals and round timeouts of correct validators, makes all of them decide one and the same block. |
| `Progress.CanDecideIn` | formal-protocol/crypto-coin-consensus/src/CryptoCoin/Consensus/Engine.hs:170-328 | From every reachable state: if some later 64-bit round is the turn of a correct validator with the latest lock, such a continuation makes all decide in that round. |
| `Exhaustion.NeverDecides` | formal-protocol/crypto-coin-consensus/src/CryptoCoin/Consensus/Engine.hs:434-438 | In every run, a correct validator that is undecided in a round of 2^64 or more, which has no proposer, stays so in every continuation of any kind. |
| `Exhaustion.OneMessageExhausts` | formal-protocol/crypto-coin-consensus/src/CryptoCoin/Consensus/Engine.hs:405-415 | A live network in which one faulty announcement of view 2^64-1 and one timeout leave a correct validator undecided in every continuation. |
| `Progress.RoundDecides` | formal-protocol/crypto-coin-consensus/src/CryptoCoin/Consensus/Engine.hs:170-295 | From any reachable state in which the correct validators share a fresh round, led by the one with the latest lock and with the polka behind it delivered, that round can be completed with all of them decided on one block. |
| `Progress.LeaderPasses` | formal-protocol/crypto-coin-consensus/src/CryptoCoin/Consensus/Engine.hs:182-222 | The proposal of the validator with the latest lock passes every correct validator's lock test once the polka behind it has been delivered. |
| `Progress.CorrectQuorum` | formal-protocol/crypto-coin-consensus/src/CryptoCoin/Consensus/Types.hs:338-345 | With less than a third of the power Byzantine the correct validators alone pass the two-thirds test. |
| `Engine.CollectVotes` | formal-protocol/crypto-coin-consensus/src/CryptoCoin/Consensus/Engine.hs:461-464 | Exactly the received votes of the phase and round. |
| `Engine.QuorumValueCorrect` | formal-protocol/crypto-coin-consensus/src/CryptoCoin/Consensus/Engine.hs:238-281 | A value is found if and only if the received votes for some value pass the two-thirds test, and those for the value found do. |
| `Engine.FirstValueRuleIff` | formal-protocol/crypto-coin-consensus/src/CryptoCoin/Consensus/Engine.hs:238-243 | The test as written (all senders, then the first hash) finds the one-value quorum, for every validator set of right total below 2^64/3, if and only if every sender voted for the value at the head of the list. |
| `Engine.FirstValueRuleSplits` | formal-protocol/crypto-coin-consensus/src/CryptoCoin/Consensus/Engine.hs:276-281 | Two votes of equal power for two blocks: the test as written takes a different block for each arrival order, and neither has a quorum. |
| `Engine.ReceiveFrame` | formal-protocol/crypto-coin-consensus/src/CryptoCoin/Consensus/Engine.hs:385-392 | Receiving a message adds that message and messages under the receiver's own name only, and never drops a decision. |
| `EngineObject.ConsensusEngine.constructor` | formal-protocol/crypto-coin-consensus/src/CryptoCoin/Consensus/Engine.hs:95-137 | A new engine is in round 0, step propose, with no lock, no decision and an empty queue. |
| `EngineObject.ConsensusEngine.Send` | formal-protocol/crypto-coin-consensus/src/CryptoCoin/Consensus/Engine.hs:494-498 | Sending prepends to the queue and changes nothing else. |
| `EngineObject.ConsensusEngine.FindQuorum` | formal-protocol/crypto-coin-consensus/src/CryptoCoin/Consensus/Engine.hs:238-243 | Under the one-hash reading: the loop over the collected votes returns the one-value quorum of the phase. |
| `EngineObject.ConsensusEngine.OnProposal` | formal-protocol/crypto-coin-consensus/src/CryptoCoin/Consensus/Engine.hs:207-228 | Under the readings: updating the fields in place has exactly the effect of the proposal handler that the run theorems are about. |
| `EngineObject.ConsensusEngine.OnPrevote` | formal-protocol/crypto-coin-consensus/src/CryptoCoin/Consensus/Engine.hs:231-266 | The same for prevotes, under the readings: lock and valid block together, then the precommit. |
| `EngineObject.ConsensusEngine.OnPrecommit` | formal-protocol/crypto-coin-consensus/src/CryptoCoin/Consensus/Engine.hs:269-295 | The same for precommits, under the readings: decision and step, or the next round on a nil quorum. |
| `EngineObject.ConsensusEngine.OnCommit` | formal-protocol/crypto-coin-consensus/src/CryptoCoin/Consensus/Engine.hs:298-305 | The same for commit messages. |
| `EngineObject.ConsensusEngine.OnViewChange` | formal-protocol/crypto-coin-consensus/src/CryptoCoin/Consensus/Engine.hs:308-328 | The same for view changes, with an unbounded round: the next round, keeping the lock. |
| `EngineObject.ConsensusEngine.OnNewView` | formal-protocol/crypto-coin-consensus/src/CryptoCoin/Consensus/Engine.hs:405-415 | The same for new views, under the reading of a strictly higher view. |
| `EngineObject.ConsensusEngine.StartNextRound` | formal-protocol/crypto-coin-consensus/src/CryptoCoin/Consensus/Engine.hs:477-488 | The next round, an unbounded number, keeps lock, valid block and decision. |
| `EngineObject.ConsensusEngine.OnMessage` | formal-protocol/crypto-coin-consensus/src/CryptoCoin/Consensus/Engine.hs:385-392 | Queueing and dispatching a message has exactly the effect of the delivery step of the run model. |
| `EngineObject.ConsensusEngine.OfferBlock` | formal-protocol/crypto-coin-consensus/src/CryptoCoin/Consensus/Engine.hs:170-200 | Under the reading of the propose step: proposing has exactly the effect of the proposal step of the run model. |
| `EngineObject.ConsensusEngine.FindFirstValue` | formal-protocol/crypto-coin-consensus/src/CryptoCoin/Consensus/Engine.hs:238-243 | Two thirds over the senders of all votes, then the hash of the first, as written. |
| `EngineObject.ConsensusEngine.OnProposalAsWritten` | formal-protocol/crypto-coin-consensus/src/CryptoCoin/Consensus/Engine.hs:207-228 | The proposal handler as written, updating fields in place: no step guard, valid round compared as a number. |
| `EngineObject.ConsensusEngine.OnPrevoteAsWritten` | formal-protocol/crypto-coin-consensus/src/CryptoCoin/Consensus/Engine.hs:231-266 | The prevote handler as written: first hash, lock recorded also for nil, the nil branch after it. |
| `EngineObject.ConsensusEngine.OnPrecommitAsWritten` | formal-protocol/crypto-coin-consensus/src/CryptoCoin/Consensus/Engine.hs:269-295 | The precommit handler as written. |
| `EngineObject.ConsensusEngine.StartNextRoundAsWritten` | formal-protocol/crypto-coin-consensus/src/CryptoCoin/Consensus/Engine.hs:477-488 | The next round as written: a 64-bit number that wraps, the lock and the decision kept. |
| `EngineObject.ConsensusEngine.OnViewChangeAsWritten` | formal-protocol/crypto-coin-consensus/src/CryptoCoin/Consensus/Engine.hs:308-328 | The view-change handler as written: the next 64-bit round on two thirds of the senders. |
| `EngineObject.ConsensusEngine.OnNewViewAsWritten` | formal-protocol/crypto-coin-consensus/src/CryptoCoin/Consensus/Engine.hs:405-415 | The new-view handler as written: any view is followed. |
| `EngineObject.ConsensusEngine.OfferBlockAsWritten` | formal-protocol/crypto-coin-consensus/src/CryptoCoin/Consensus/Engine.hs:144-200 | Proposing as written: no step is tested while there is no decision. |
| `EngineObject.ConsensusEngine.OnMessageAsWritten` | formal-protocol/crypto-coin-consensus/src/CryptoCoin/Consensus/Engine.hs:385-392 | Queueing and dispatching has exactly the effect of a delivery in the runs of the engine as written. |
| `Validators.QuorumIntersection` | formal-protocol/crypto-coin-consensus/src/CryptoCoin/Consensus/Types.hs:338-345 | Any two voter sets with exactly more than two thirds of the power share validators holding more than a third, for every list of validators. |
| `Validators.IntersectionIff` | formal-protocol/crypto-coin-consensus/src/CryptoCoin/Consensus/Types.hs:338-345 | For every total t: any two voter sets that pass the Word64 test, in any list of right total t, share more than a third of the power, if and only if 2t is below 2^64. |
| `Validators.PassingIsExact` | formal-protocol/crypto-coin-consensus/src/CryptoCoin/Consensus/Types.hs:338-345 | With a right total below 2^63 a voter set that passes the Word64 test has exactly more than two thirds of the power. |
| `Validators.QuorumsShareCorrect` | formal-protocol/crypto-coin-consensus/src/CryptoCoin/Consensus/Types.hs:338-345 | With at most a third of the power faulty, two such sets share a listed validator that is not faulty. |
| `Validators.SuperMajorityIsExact` | formal-protocol/crypto-coin-consensus/src/CryptoCoin/Consensus/Types.hs:338-345 | The Word64 test agrees with the unbounded one on every voter set when the stored total is the sum and three times it fits 64 bits. |
| `Validators.TestExactIff` | formal-protocol/crypto-coin-consensus/src/CryptoCoin/Consensus/Types.hs:338-345 | For a total t, the Word64 test is exact for every validator list of that total and every voter set if and only if 3t is below 2^64. |
| `Validators.SuperMajorityMonotone` | formal-protocol/crypto-coin-consensus/src/CryptoCoin/Consensus/Types.hs:338-345 | Where the stored total is right and three times it fits 64 bits, more voters never lose a quorum. |
| `Validators.ProposerFairness` | formal-protocol/crypto-coin-consensus/src/CryptoCoin/Consensus/Engine.hs:434-438 | For distinct active addresses, at most 2^63: in the window of as many rounds as there are active validators from round r, counted as 64-bit numbers, each proposes exactly once if and only if the window does not cross round 2^63, where the signed index jumps, or the number divides 2^64. |
| `Validators.SomeCorrectProposer` | formal-protocol/crypto-coin-consensus/src/CryptoCoin/Consensus/Engine.hs:434-438 | Any f+1 consecutive 64-bit rounds, also across 2^64, contain a proposer that is not faulty when f of the active validators are, f is below the active count, and the rounds do not cross 2^63 or the count divides 2^64. |
| `Validators.ActivePosition` | formal-protocol/crypto-coin-consensus/src/CryptoCoin/Consensus/Types.hs:358-359 | Every active validator has a place in the proposer rotation. |
| `Validators.ActiveExactly` | formal-protocol/crypto-coin-consensus/src/CryptoCoin/Consensus/Types.hs:354-359 | The rotation holds exactly the validators with active status, each as often as it is listed and in the order of the list. |
| `Validators.ProposerIsActive` | formal-protocol/crypto-coin-consensus/src/CryptoCoin/Consensus/Engine.hs:434-438 | The proposer of every round is the address of a listed active validator. |
| `Ledger.NubOrdKeepsAll` | formal-protocol/crypto-coin-protocol/src/CryptoCoin/Protocol/Block.hs:214-231 | The length test on nubOrd passes if and only if nothing repeats and nothing was seen before. |
| `Ledger.NubOrdIsNub` | formal-protocol/crypto-coin-protocol/src/CryptoCoin/Protocol/Block.hs:224-231 | nubOrd returns every unseen element, each once. |
| `Ledger.TransactionAcceptedIff` | formal-protocol/crypto-coin-protocol/src/CryptoCoin/Protocol/Block.hs:234-274 | A transaction is accepted if and only if it is signed, its inputs are distinct members of the UTxO set, and its Word64 inputs cover its Word64 outputs. |
| `Ledger.RejectionReason` | formal-protocol/crypto-coin-protocol/src/CryptoCoin/Protocol/Block.hs:234-274 | Which error a rejected transaction gets, in both directions; a double-spend error names the first unknown input, or the first input when all are known and one repeats. |
| `Ledger.BodyAcceptedIff` | formal-protocol/crypto-coin-protocol/src/CryptoCoin/Protocol/Block.hs:205-231 | A body is accepted if and only if each transaction is acceptable in the state before the block and no input repeats across the whole block. |
| `Ledger.BodyRejection` | formal-protocol/crypto-coin-protocol/src/CryptoCoin/Protocol/Block.hs:205-231 | A rejected body reports the error of its first unacceptable transaction, or duplicate inputs when every transaction is acceptable. |
| `LedgerChain.OutputsOf` | formal-protocol/crypto-coin-protocol/src/CryptoCoin/Protocol/Types.hs:207-217 | A transaction creates exactly the entries (its id, index) with its outputs. |
| `LedgerChain.OrderIndependence` | formal-protocol/crypto-coin-protocol/src/CryptoCoin/Protocol/Block.hs:205-274 | For an accepted block with fresh distinct transaction ids, applying the transactions one by one in any permutation keeps each one valid when it is reached and ends in the block's UTxO set. |
| `LedgerChain.OneByOne` | formal-protocol/crypto-coin-protocol/src/CryptoCoin/Protocol/Block.hs:205-274 | Validating and applying one by one agrees with validating all against the state before the block. |
| `LedgerChain.ChainConserves` | formal-protocol/crypto-coin-protocol/src/CryptoCoin/Protocol/Block.hs:234-274 | Along every accepted chain whose per-transaction output totals fit 64 bits the total value never rises, whatever it was at the start; from a total that fits 64 bits no input sum wraps. |
| `LedgerChain.BlockConserves` | formal-protocol/crypto-coin-protocol/src/CryptoCoin/Protocol/Block.hs:205-274 | The same for one block. |
| `LedgerChain.BlockBalance` | formal-protocol/crypto-coin-protocol/src/CryptoCoin/Protocol/Block.hs:205-274 | With fresh ids, the value after an accepted block plus the inputs equals the value before plus the outputs, exactly. |
| `LedgerChain.TransactionConservesIff` | formal-protocol/crypto-coin-protocol/src/CryptoCoin/Protocol/Block.hs:255-274 | An accepted transaction creates no value if and only if its exact output total exceeds 2^64 no more often than its exact input total; in a set worth less than 2^64, if and only if its outputs fit 64 bits. |
| `LedgerChain.OverflowCreatesValue` | formal-protocol/crypto-coin-protocol/src/CryptoCoin/Protocol/Block.hs:255-274 | A concrete accepted transaction, spending an earlier transaction's coin, with input 1 and exact output total 2^64. |
| `LedgerChain.NoDoubleSpend` | formal-protocol/crypto-coin-protocol/src/CryptoCoin/Protocol/Block.hs:214-231 | With transaction ids never reused, every UTxO id is consumed at most once across all accepted blocks, and a consumed one is not in the final set. |
| `LedgerChain.SpentAtMostCreated` | formal-protocol/crypto-coin-protocol/src/CryptoCoin/Protocol/Block.hs:205-274 | Without any assumption on ids: over every accepted chain each UTxO id is consumed no more often than it was present or created, less one if it is still there. |
| `LedgerChain.InputsAreRemoved` | formal-protocol/crypto-coin-protocol/src/CryptoCoin/Protocol/Block.hs:234-274 | Removing distinct known inputs lowers the total by exactly their value. |
| `HeaderChain.TipFixesHistory` | formal-protocol/crypto-coin-protocol/src/CryptoCoin/Protocol/Block.hs:146-202 | Two validated chains from one genesis with the same tip hash have the same length, headers equal in every serialised field and equal transaction roots, or two different serialised headers of the two chains have the same hash. |
| `BodyRoots.TipFixesBodies` | formal-protocol/crypto-coin-protocol/src/CryptoCoin/Protocol/Block.hs:146-170 | With the body root combined from the Merkle roots of the hashes of transactions and of votes: same tip hash means two headers collide, or at each height blocks with equally many of both have the same transaction and vote hashes, or their Merkle trees collide. |
| `BodyRoots.BodyRootBinds` | formal-protocol/crypto-coin-protocol/src/CryptoCoin/Protocol/Block.hs:163-170 | Bodies of equal sizes with equal roots have equal transaction and vote hashes, or two different pairs combine to one hash. |
| `BodyRoots.BodyRootBytes` | formal-protocol/crypto-coin-protocol/src/CryptoCoin/Protocol/Block.hs:163-170 | The body root hashes the transaction root followed by the vote root. |
| `HeaderChain.TipFixesHeaders` | formal-protocol/crypto-coin-protocol/src/CryptoCoin/Protocol/Block.hs:178-202 | The header part of that statement. |
| `HeaderChain.LinkedTips` | formal-protocol/crypto-coin-protocol/src/CryptoCoin/Protocol/Block.hs:178-202 | The same for any two linked header lists, by induction from the tip; unequal lengths end in a number mismatch. |
| `HeaderChain.SerializeInjective` | formal-protocol/crypto-coin-protocol/src/CryptoCoin/Protocol/Block.hs:387-399 | Equal serialised headers are equal in every field but the signature, for validator ids of any length. |
| `HeaderChain.SerializeLayout` | formal-protocol/crypto-coin-protocol/src/CryptoCoin/Protocol/Block.hs:387-399 | Where each field stands in the serialised header: parent hash at 0, number, slot, epoch and timestamp in eight big-endian bytes each from 32, validator id from 64, then transaction root, state root, nonce in eight and version in four bytes. |
| `HeaderChain.BlockAcceptedIff` | formal-protocol/crypto-coin-protocol/src/CryptoCoin/Protocol/Block.hs:146-202 | A block is accepted if and only if size, parent, number, signature, version, body and transaction root are all right. |
| `HeaderChain.BlockRejection` | formal-protocol/crypto-coin-protocol/src/CryptoCoin/Protocol/Block.hs:146-202 | Which error a rejected block gets, in both directions: that of the first failing check in the order size, parent, number, signature, version, body, transaction root, with the values it carries. |
| `HeaderChain.ValidatedIsLinked` | formal-protocol/crypto-coin-protocol/src/CryptoCoin/Protocol/Block.hs:178-202 | A validated chain is linked by hash and number from its start, and its recorded tip is the hash of its last header. |
| `HeaderChain.ValidatedIsAccepted` | formal-protocol/crypto-coin-protocol/src/CryptoCoin/Protocol/Block.hs:146-170 | The bodies of a validated chain form an accepted chain with the same final UTxO set, so every ledger theorem applies to it. |
| `HeaderChain.EveryBlockChecked` | formal-protocol/crypto-coin-protocol/src/CryptoCoin/Protocol/Block.hs:146-202 | Every block of a validated chain passed its root, signature, version, size and body checks in the state its predecessors left. |
| `Bytes.ValueOfBigEndian` | formal-protocol/crypto-coin-protocol/src/CryptoCoin/Protocol/Block.hs:461-474 | Decoding a big-endian word gives back the number, whenever it fits the width. |
| `Bytes.BigEndianOfValue` | node/p2p/src/protocol.rs:139-152 | Encoding the value of a byte string in its own width gives back the bytes. |
| `Bytes.FourBytes` | node/p2p/src/protocol.rs:151-152 | The value of four bytes, the first weighing most. |
| `Merkle.Soundness` | crypto/merkle/src/lib.rs:103-159 | A proof of the right length that verifies against the built root has the padded leaf at its index and the sibling subtree roots as siblings, or a pair in the tree and a different pair in the fold combine to one hash. |
| `Merkle.VerifyAccepts` | crypto/merkle/src/lib.rs:103-125 | Sibling count and index are not checked: for a proof of any length and index, verify accepts if it opens the node at that depth under the low index bits (or, when longer than the height, folds to a leaf first) with the sibling roots above it, and only then unless a collision is exhibited. |
| `Merkle.Completeness` | crypto/merkle/src/lib.rs:109-159 | For every non-empty list and in-range index the leaf-to-root path of sibling subtree roots verifies against the root. |
| `Merkle.Binding` | crypto/merkle/src/lib.rs:133-159 | Lists of equal length with equal roots are equal, or two different pairs in the two trees combine to one hash. |
| `Merkle.BuildTreeShape` | crypto/merkle/src/lib.rs:78-159 | On 2^k hashes the tree is perfect, its in-order leaves are the list and its depth is k+1. |
| `Merkle.RootBytes` | crypto/merkle/src/lib.rs:133-228 | The roots of no, one, two and four hashes as hashes of concatenated bytes, left before right: 32 zero bytes, the hash itself, and the pairs. |
| `Merkle.PadShape` | crypto/merkle/src/lib.rs:236-251 | Padding keeps the list as a prefix, fills with zero hashes and reaches the least power of two not below the length. |
| `Merkle.NextPow2Least` | crypto/merkle/src/lib.rs:254-263 | The result is a power of two, not below n, and least. |
| `Merkle.NextPowerOfTwo` | crypto/merkle/src/lib.rs:254-263 | The 64-bit loop returns that value for every n up to 2^63. |
| `Merkle.LoopEndsIff` | crypto/merkle/src/lib.rs:254-263 | The 64-bit loop ever reaches n if and only if n is at most 2^63. |
| `Merkle.ComputeProofRoot` | crypto/merkle/src/lib.rs:109-125 | The loop over index bits computes the bottom-up fold. |
| `Merkle.FoldLast` | crypto/merkle/src/lib.rs:109-125 | Re-association: the last sibling is combined last, on the side given by the top bit; this ties the bottom-up loop to the top-down tree. |
| `Merkle.PathFolds` | crypto/merkle/src/lib.rs:109-159 | In every perfect tree the path of sibling roots folds to the root. |
| `Merkle.FoldDetermines` | crypto/merkle/src/lib.rs:103-125 | In every perfect tree a fold that reaches the root is the true leaf and path, or exhibits a collision. |
| `MerkleGenerator.CollectSiblings` | crypto/merkle/src/lib.rs:179-208 | The loop as written emits the recursive description of its output. |
| `MerkleGenerator.GeneratorDomain` | crypto/merkle/src/lib.rs:162-176 | A proof is generated if and only if the index is in range, for that index and leaf. |
| `MerkleGenerator.EmittedClosedForm` | crypto/merkle/src/lib.rs:179-208 | On 2^k leaves the loop as written emits k hashes, the one at position j being the leaf whose index differs in bit k-1-j. |
| `MerkleGenerator.GeneratedMeansPath` | crypto/merkle/src/lib.rs:162-208 | For every hash function: a generated proof verifies if the loop's output is the path of sibling roots, and only then unless it exhibits a collision with the tree. |
| `MerkleGenerator.GeneratedNeeds` | crypto/merkle/src/lib.rs:162-208 | For every hash function and padded lists of four or more: a generated proof that verifies has equal leaves next to and across from its index, or exhibits a collision. |
| `MerkleGenerator.EveryHashFails` | crypto/merkle/src/lib.rs:162-208 | For every hash function and every n above two, a list of n hashes whose generated proof for index 0 is rejected or exhibits a collision. |
| `MerkleGenerator.GeneratorCorrectIff` | crypto/merkle/src/lib.rs:162-208 | The proofs generated for lists of n hashes verify for every hash function, list and index if and only if n is at most two. |
| `MerkleGenerator.LargeListFails` | crypto/merkle/src/lib.rs:162-208 | For every n above two, a list and a hash function on which the generated proof for index 1 is rejected. |
| `Storage.InterleavingsAreSequential` | node/storage/src/lib.rs:82-125 | In every interleaving of the three lock sections of any number of calls, once none is in flight and hashes determine blocks: with one block a height the store is the one the sequential history gives; with one block at the head's height the head is what that height looks up. |
| `Storage.LookupsAreSound` | node/storage/src/lib.rs:82-110 | In every interleaving, with two separate reads at two moments, a height lookup returns nothing or a submitted block of that height, and the head height never falls. |
| `Storage.QuietHead` | node/storage/src/lib.rs:97-125 | Whenever no call is in flight the head is a submitted block of maximal height; no assumption on forks. |
| `Storage.StoreRefinesHistory` | node/storage/src/lib.rs:82-125 | After any sequential history: the index holds the last hash at each height, the cache the last block with each hash, the head the first of the highest blocks. |
| `Storage.ForkSplitsHead` | node/storage/src/lib.rs:82-125 | Two blocks at one height, one after the other: the head stays with the first and the height lookup gives the second. |
| `StorageForks.HeadFoundIff` | node/storage/src/lib.rs:82-125 | For a set of blocks that their hashes determine: in every run that comes to rest with these blocks the head is what its height looks up, if and only if one block has the greatest height. |
| `StorageForks.SerialisableIff` | node/storage/src/lib.rs:82-104 | For a list of submitted blocks that their hashes determine: every run that comes to rest leaves a store that some order of the calls leaves, if and only if no block of greatest height is submitted just once beside another of that height. |
| `StorageForks.StoreSerialisableIff` | node/storage/src/lib.rs:82-104 | Of one store at rest: it is the result of some order of the calls unless its head was submitted once, has a rival at its height and is what that height looks up. |
| `StorageForks.SequentialStores` | node/storage/src/lib.rs:82-104 | Running calls one after another is an interleaving, and leaves the store of the history. |
| `StorageForks.SectionOrder` | node/storage/src/lib.rs:82-104 | A call fills the index first, then the cache, last the head. |
| `StorageForks.FindsNothingIff` | node/storage/src/lib.rs:82-110 | In every interleaving, with two reads at two moments: a height lookup finds nothing if and only if no call at the height has run its index section at the first, or no call for a block with the hash it read has run its cache section at the second. |
| `StorageForks.HiddenAgain` | node/storage/src/lib.rs:82-110 | A fully stored height finds nothing again while a second call at that height has run its index section only. |
| `Storage.StepKeeps` | node/storage/src/lib.rs:82-104 | Every single lock section keeps the invariant of the running system. |
| `Storage.StorageManager.constructor` | node/storage/src/lib.rs:65-72 | A new manager holds nothing. |
| `Storage.StorageManager.StoreBlock` | node/storage/src/lib.rs:82-104 | Storing appends the block to the history the fields stand for. |
| `Storage.StorageManager.GetByHash` | node/storage/src/lib.rs:113-115 | The last block stored with that hash, or nothing. |
| `Storage.StorageManager.GetByHeight` | node/storage/src/lib.rs:107-110 | The last block stored with the hash of the last block at that height, or nothing. |
| `Storage.StorageManager.Head` | node/storage/src/lib.rs:118-120 | The first stored among the highest blocks, or nothing exactly when nothing was stored. |
| `Storage.StorageManager.Height` | node/storage/src/lib.rs:123-125 | The head's height, or 0 when nothing was stored. |
| `WireFrame.StreamRoundTrip` | node/p2p/src/protocol.rs:136-168 | Decoding frame after frame recovers every sequence of well-formed frames from the concatenation of their encodings. |
| `WireFrame.StreamReencodes` | node/p2p/src/protocol.rs:136-168 | Any byte string that decodes to the end re-encodes to itself. |
| `WireFrame.PayloadsArrive` | node/p2p/src/protocol.rs:109-168 | Payloads under 2^32 bytes sent as new frames arrive, in order and each valid. |
| `WireFrame.AcceptedBytesIff` | node/p2p/src/protocol.rs:109-168 | Decoding and validating succeed if and only if the bytes begin with a new frame of some payload under 2^32 bytes, and that frame is the one read. |
| `WireFrame.DecodeEncode` | node/p2p/src/protocol.rs:136-168 | A well-formed frame in front of any bytes is read back exactly. |
| `WireFrame.EncodeDecode` | node/p2p/src/protocol.rs:136-168 | What decodes re-encodes to exactly the prefix it was read from. |
| `WireFrame.EncodeLayout` | node/p2p/src/protocol.rs:136-143 | Where each field of an encoded frame stands: magic in bytes 0-3, big-endian length in 4-7, checksum in 8-39, payload from 40. |
| `WireFrame.DecodeLayout` | node/p2p/src/protocol.rs:146-168 | What decodes is read from those offsets. |
| `WireFrame.NewFrameBytes` | node/p2p/src/protocol.rs:109-143 | A new frame on the wire: CCP1, the payload length modulo 2^32, the checksum of the payload, the payload. |
| `WireFrame.ValidationReason` | node/p2p/src/protocol.rs:121-133 | Which error an invalid frame gets, in both directions: that of the first of magic, length and checksum in which it differs from a new frame of its payload. |
| `WireFrame.DecodeFailsIff` | node/p2p/src/protocol.rs:146-168 | Decoding fails if and only if no well-formed frame is a prefix of the bytes. |
| `WireFrame.NewFrameRoundTripIff` | node/p2p/src/protocol.rs:109-118 | A new frame survives the trip if and only if its payload is under 2^32 bytes. |
| `WireFrame.ToBytes` | node/p2p/src/protocol.rs:136-143 | The buffer built step by step is the encoding, with magic at 0, length at 4, checksum at 8 and payload from 40 to the end. |
| `WireFrame.FromBytes` | node/p2p/src/protocol.rs:146-168 | The reader with its copied checksum array computes the decoding, with its error cases; what it returns stands at those offsets and is as long as the length says. |

## Left out

- ConsensusEngine: metrics, round start times, timeout lengths and the running of the next round inside a handler are not fields of the model.
- Progress.CanAlwaysDecide: in the last rounds below 2^64, between the states it covers and those of `NeverDecides`, `CanDecideIn` is sufficient and no necessary condition is given; eventual decision after a global stabilisation time is not modelled, since the code has no timing behaviour to reason about.
- EngineObject.ConsensusEngine.StartNextRound: an unbounded round; `StartNextRoundAsWritten` is the code.
- EngineObject.ConsensusEngine.OnViewChange: an unbounded next round; `OnViewChangeAsWritten` is the code.
- Validators.SomeCorrectProposer: does not say which windows across round 2^63 have a correct proposer when the active count does not divide 2^64.
- Protocol.Agreement: for the handlers under the readings, and for one height; for the handlers as written see `TestedRunsAreSafe` and `FinalRulesIff`.
- EngineObject.ConsensusEngine.FindQuorum: counts one hash, where the code tests all senders and takes the first; `FindFirstValue` is the code.
- EngineObject.ConsensusEngine.OnProposal: answers once and wants the polka behind a claimed valid round; `OnProposalAsWritten` is the code.
- EngineObject.ConsensusEngine.OnPrevote: acts once, on a one-hash polka; `OnPrevoteAsWritten` is the code.
- EngineObject.ConsensusEngine.OnPrecommit: acts on a one-hash quorum; `OnPrecommitAsWritten` is the code.
- EngineObject.ConsensusEngine.OnNewView: follows higher views only; `OnNewViewAsWritten` is the code.
- EngineObject.ConsensusEngine.OfferBlock: tests the propose step; `OfferBlockAsWritten` is the code.
- Storage.InterleavingsAreSequential: assumes that hashes determine blocks; what a cache does with two blocks under one hash is stated for sequential histories only.
- LedgerChain.ChainConserves: needs each exact output total to fit 64 bits, since the code's own sum wraps; `TransactionConservesIff` gives the exact condition for one transaction, for every UTxO set.
- HeaderChain.TipFixesHistory: fixes transaction roots, the body root function being a parameter; `TipFixesBodies` goes on to the hashes in the bodies, for bodies of equal sizes.
- superMajorityCount, quorum counting by heads: not used by any handler.
- Commit certificates, view-change evidence and the message payloads other than those the handlers read.
- Signing, verification, key derivation and hashing themselves.
- The state root of a header, which validation never compares; fees, nonces, input proofs, output data, and what the votes in a body mean.
- Serialisation of transactions, votes, bodies and consensus messages.
- The Haskell Merkle module, whose proof format does not fit its own builder; floating-point tree depth.
- PBFT, random beacon and checkpoint types, which have no transition code.
- Pruning (a stub), peer discovery, transport, the API server, node configuration and task plumbing.
