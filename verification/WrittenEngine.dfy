/**
 The handlers of Consensus/Engine.hs as they are written, each departure from the handlers of
 module Engine behind its own switch, so that departures can be studied one at a time.
 */
module WrittenEngine {
  import opened Wrappers
  import opened Bytes
  import opened Validators
  import opened Engine

  /**
   jump(round, view): an announced view is followed in that round. byNumber: a claimed valid
   round is compared as a number alone. firstValue: two thirds are tested over the senders of all
   votes, and the first vote's value is taken. nilLocks: a nil polka is recorded as a lock on
   nothing. again: proposals are answered any number of times a round. lateProposals,
   latePrevotes: these are answered in every step, prevotes any number of times. lateOffers: a
   proposer that is undecided offers in every step. wraps: the round is a 64-bit counter that
   starts again at 0.
   */
  datatype Rules = Rules(
    jump: (nat, nat) -> bool,
    byNumber: bool,
    firstValue: bool,
    nilLocks: bool,
    again: bool,
    lateProposals: bool,
    latePrevotes: bool,
    lateOffers: bool,
    wraps: bool)

  /** The code as it stands: it follows every announced view, a 64-bit number. */
  function Written(): Rules
  {
    Rules((round, view) => view < WORD64, true, true, true, true, true, true, true, true)
  }

  /** The handlers of module Engine. */
  function Model(): Rules
  {
    Rules((round, view) => view > round, false, false, false, false, false, false, false, false)
  }

  // ---------------------------------------------------------------- handlers

  /** The lock test as written. */
  predicate NumberTest(n: Node, p: Message)
    requires p.Proposal?
  {
    match n.state.lockedBlock
    case None => true
    case Some(h) => p.block == h || Above(p.validRound, n.state.lockedRound)
  }

  predicate WillAnswer(r: Rules, vset: ValidatorSet, self: Address, n: Node, p: Message)
    requires p.Proposal?
  {
    && p.round == n.state.round && IsRoundProposer(vset, n.state.round, p.sender)
    && (r.lateProposals || BeforePrecommit(n)) && (r.again || !HasPrevoted(n.queue, self, n.state.round))
    && (if r.byNumber then NumberTest(n, p) else PassesLock(vset, n, p))
  }

  function AnswerProposal(r: Rules, vset: ValidatorSet, self: Address, n: Node, p: Message): Node
    requires p.Proposal?
  {
    if WillAnswer(r, vset, self, n, p) then CastPrevote(n, self, Some(p.block)) else n
  }

  function FindValue(r: Rules, vset: ValidatorSet, queue: seq<Message>, phase: Phase, round: nat): Option<Value>
  {
    if r.firstValue then FirstValueRule(vset, CollectVotes(queue, phase, round))
    else QuorumValue(vset, queue, phase, round)
  }

  /** The lock as written: also a nil value is recorded, with its round. */
  function LockAs(s: State, value: Value): State
  {
    s.(lockedBlock := value, lockedRound := Some(s.round), validBlock := value, validRound := Some(s.round))
  }

  function AnswerPrevotes(r: Rules, vset: ValidatorSet, self: Address, n: Node): Node
  {
    if !r.latePrevotes && !BeforePrecommit(n) then n else
    match FindValue(r, vset, n.queue, PrevotePhase, n.state.round)
    case Some(value) =>
      if r.nilLocks || value.Some? then CastPrecommit(n.(state := LockAs(n.state, value)), self, value)
      else CastPrecommit(n, self, None)
    case None =>
      var votes := CollectVotes(n.queue, PrevotePhase, n.state.round);
      if r.firstValue && SuperMajority(vset, VotesFor(votes, None)) then CastPrecommit(n, self, None) else n
  }

  /** The number of the next round. */
  function Successor(r: Rules, round: nat): nat
  {
    if r.wraps && round + 1 >= WORD64 then 0 else round + 1
  }

  function Advance(r: Rules, n: Node): Node
  {
    JumpToView(n, Successor(r, n.state.round))
  }

  function AnswerPrecommits(r: Rules, vset: ValidatorSet, n: Node): Node
  {
    match FindValue(r, vset, n.queue, PrecommitPhase, n.state.round)
    case None => n
    case Some(None) => Advance(r, n)
    case Some(Some(h)) => n.(state := n.state.(decision := Some(h), step := Commit))
  }

  function AnswerViewChange(r: Rules, vset: ValidatorSet, n: Node, view: nat): Node
  {
    if SuperMajority(vset, ViewChangeSenders(n.queue, view)) then Advance(r, n) else n
  }

  function AnswerNewView(r: Rules, n: Node, view: nat): Node
  {
    if r.jump(n.state.round, view) then JumpToView(n, view) else n
  }

  function Queued(n: Node, m: Message): Node
  {
    n.(queue := [m] + n.queue)
  }

  /** proposeBlock, which tests no step and is started again while there is no decision. */
  predicate WillOffer(r: Rules, vset: ValidatorSet, self: Address, n: Node)
  {
    (n.state.step == Propose || (r.lateOffers && n.state.decision.None?)) && IsRoundProposer(vset, n.state.round, self)
  }

  function OfferUnder(r: Rules, vset: ValidatorSet, self: Address, n: Node, candidate: Hash): Node
  {
    if WillOffer(r, vset, self, n) then
      var block := match n.state.validBlock case Some(h) => h case None => candidate;
      Broadcast(n, Proposal(block, n.state.round, n.state.validRound, self))
        .(state := n.state.(proposedBlock := Some(block), step := Prevote))
    else n
  }

  /** A message that has just been queued is dispatched. */
  function Answer(r: Rules, vset: ValidatorSet, self: Address, n: Node, m: Message): Node
  {
    match m
    case Proposal(_, _, _, _) => AnswerProposal(r, vset, self, n, m)
    case Vote(PrevotePhase, _, _, _) => AnswerPrevotes(r, vset, self, n)
    case Vote(PrecommitPhase, _, _, _) => AnswerPrecommits(r, vset, n)
    case CommitMsg(b, _, _) => HandleCommit(n, b)
    case ViewChange(v, _) => AnswerViewChange(r, vset, n, v)
    case NewView(v, _) => AnswerNewView(r, n, v)
  }

  function ReceiveUnder(r: Rules, vset: ValidatorSet, self: Address, n: Node, m: Message): Node
  {
    Answer(r, vset, self, Queued(n, m), m)
  }

  /** With every switch off, the rules are the handlers of module Engine. */
  lemma ModelReceives(vset: ValidatorSet, self: Address, n: Node, m: Message)
    ensures ReceiveUnder(Model(), vset, self, n, m) == Receive(vset, self, n, m)
  {
    var n1 := Queued(n, m);
    match m {
      case Proposal(_, _, _, _) => assert AnswerProposal(Model(), vset, self, n1, m) == HandleProposal(vset, self, n1, m);
      case Vote(PrevotePhase, _, _, _) => assert AnswerPrevotes(Model(), vset, self, n1) == HandlePrevote(vset, self, n1);
      case _ => assert Advance(Model(), n1) == NextRound(n1);
    }
  }

  // ---------------------------------------------------------------- tests a validator can make

  /** Every voter of the phase and round voted for the value at the head of the list. */
  predicate Unanimous(queue: seq<Message>, phase: Phase, round: nat)
  {
    var votes := CollectVotes(queue, phase, round);
    votes != [] && Senders(votes) <= VotesFor(votes, votes[0].value)
  }

  predicate OwnBlockVote(self: Address, m: Message)
  {
    m.Vote? && m.sender == self && m.value.Some?
  }

  /**
   The view is not below a round of an own vote for a block or of the lock; where proposals may be
   answered more than once, it is above every own precommit for a block.
   */
  predicate JumpAllowed(once: bool, self: Address, n: Node, view: nat)
  {
    && (forall m :: m in n.queue && OwnBlockVote(self, m) ==> m.round <= view)
    && (!once ==> forall m :: m in n.queue && OwnBlockVote(self, m) && m.phase == PrecommitPhase ==> m.round < view)
    && (n.state.lockedRound.Some? ==> n.state.lockedRound.value <= view)
  }

  /** The counter does not start again. */
  predicate AdvanceAllowed(r: Rules, n: Node)
  {
    r.wraps ==> n.state.round + 1 < WORD64
  }

  /**
   What a validator can test, before it handles a message it has just queued, to stay safe. It
   either answers proposals once a round (once), or votes and offers before its precommit only. It
   prevotes against its lock only with the polka of an earlier round at hand. It acts on a first
   value only when the votes are unanimous, and records no nil lock. It follows a view as
   JumpAllowed says, and starts no round after round 2^64 - 1.
   */
  predicate Tested(r: Rules, once: bool, vset: ValidatorSet, self: Address, n: Node, m: Message)
  {
    match m
    case Proposal(_, _, _, _) =>
      WillAnswer(r, vset, self, n, m) ==>
        PassesLock(vset, n, m) && (if once then !HasPrevoted(n.queue, self, n.state.round) else BeforePrecommit(n))
    case Vote(PrevotePhase, _, _, _) =>
      var found := FindValue(r, vset, n.queue, PrevotePhase, n.state.round);
      found.Some? && (r.latePrevotes || BeforePrecommit(n)) ==>
        && (once || BeforePrecommit(n))
        && (r.nilLocks ==> found.value.Some?) && (r.firstValue ==> Unanimous(n.queue, PrevotePhase, n.state.round))
    case Vote(PrecommitPhase, _, _, _) =>
      var found := FindValue(r, vset, n.queue, PrecommitPhase, n.state.round);
      && (r.firstValue && found.Some? ==> Unanimous(n.queue, PrecommitPhase, n.state.round))
      && (found == Some(None) ==> AdvanceAllowed(r, n))
    case ViewChange(v, _) => SuperMajority(vset, ViewChangeSenders(n.queue, v)) ==> AdvanceAllowed(r, n)
    case NewView(v, _) => r.jump(n.state.round, v) ==> JumpAllowed(once, self, n, v)
    case CommitMsg(_, _, _) => true
  }

  /** A proposer's test before it offers. */
  predicate OfferAllowed(r: Rules, once: bool, vset: ValidatorSet, self: Address, n: Node)
  {
    WillOffer(r, vset, self, n) ==> once || BeforePrecommit(n)
  }

  /** A value that is found, by the one test or from unanimous votes by the other, passes the test for itself. */
  lemma FoundPasses(r: Rules, vset: ValidatorSet, queue: seq<Message>, phase: Phase, round: nat)
    requires FindValue(r, vset, queue, phase, round).Some? && (r.firstValue ==> Unanimous(queue, phase, round))
    ensures Passes(vset, Pool(queue), phase, FindValue(r, vset, queue, phase, round).value, round)
  {
    var votes, v := CollectVotes(queue, phase, round), FindValue(r, vset, queue, phase, round).value;
    if r.firstValue {
      assert VotesFor(votes, v) == Senders(votes);
      assert forall m :: m in Pool(queue) <==> m in queue;
      assert Voters(Pool(queue), phase, v, round) == VotesFor(votes, v);
    } else {
      QuorumValueCorrect(vset, queue, phase, round);
    }
  }

  /** On tested prevotes a validator does nothing, precommits nil, or locks and precommits a block whose votes pass. */
  lemma TestedPrevotes(r: Rules, once: bool, vset: ValidatorSet, self: Address, n: Node, m: Message)
    requires m.Vote? && m.phase == PrevotePhase && Tested(r, once, vset, self, n, m)
    ensures var n', found := AnswerPrevotes(r, vset, self, n), FindValue(r, vset, n.queue, PrevotePhase, n.state.round);
      || n' == n
      || n' == CastPrecommit(n, self, None)
      || ((once || BeforePrecommit(n)) && found.Some? && found.value.Some?
            && Passes(vset, Pool(n.queue), PrevotePhase, found.value, n.state.round)
            && n' == CastPrecommit(n.(state := LockOn(n.state, found.value.value)), self, found.value))
  {
    if (r.latePrevotes || BeforePrecommit(n)) && FindValue(r, vset, n.queue, PrevotePhase, n.state.round).Some? {
      FoundPasses(r, vset, n.queue, PrevotePhase, n.state.round);
    }
  }
}
