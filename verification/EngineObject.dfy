/**
 The engine object of Consensus/Engine.hs: its state and message queue are variables that the
 handlers update one assignment at a time. The methods named AsWritten follow the code branch
 by branch and are proved against module WrittenEngine; the others follow the readings of module
 Engine, and the code where that is no different, and are proved against module Engine.
 */
module EngineObject {
  import opened Wrappers
  import opened Bytes
  import opened Validators
  import opened Engine
  import opened WrittenEngine

  class ConsensusEngine {
    const vset: ValidatorSet
    const self: Address
    var round: nat
    var step: Step
    var proposedBlock: Option<Hash>
    var lockedBlock: Option<Hash>
    var lockedRound: Option<nat>
    var validBlock: Option<Hash>
    var validRound: Option<nat>
    var decision: Option<Hash>
    var queue: seq<Message>

    /** The value of the object as the protocol sees it. */
    function View(): Node
      reads this
    {
      Node(State(round, step, proposedBlock, lockedBlock, lockedRound, validBlock, validRound, decision), queue)
    }

    constructor (vset: ValidatorSet, self: Address)
      ensures View() == INITIAL && this.vset == vset && this.self == self
    {
      this.vset, this.self := vset, self;
      round, step, queue := 0, Propose, [];
      proposedBlock, lockedBlock, lockedRound := None, None, None;
      validBlock, validRound, decision := None, None, None;
    }

    method Send(m: Message)
      modifies this`queue
      ensures View() == Broadcast(old(View()), m)
    {
      queue := [m] + queue;
    }

    /** Scan the votes of a phase for a value that two thirds of the power agree on. */
    method FindQuorum(phase: Phase) returns (value: Option<Value>)
      ensures value == QuorumValue(vset, queue, phase, round)
    {
      var votes := CollectVotes(queue, phase, round);
      var i := 0;
      while i < |votes|
        invariant 0 <= i <= |votes|
        invariant QuorumValue(vset, queue, phase, round) == QuorumValueFrom(vset, votes, i)
      {
        if SuperMajority(vset, VotesFor(votes, votes[i].value)) {
          return Some(votes[i].value);
        }
        i := i + 1;
      }
      value := None;
    }

    method OnProposal(p: Message)
      requires p.Proposal?
      modifies this
      ensures View() == HandleProposal(vset, self, old(View()), p)
    {
      if p.round == round && IsRoundProposer(vset, round, p.sender) {
        if (step == Propose || step == Prevote) && !HasPrevoted(queue, self, round) {
          var shouldVote := true;
          if lockedBlock.Some? && p.block != lockedBlock.value {
            var justified := JustifiedRound(vset, queue, p);
            shouldVote := Above(justified, lockedRound);
          }
          if shouldVote {
            Send(Vote(PrevotePhase, Some(p.block), round, self));
            step := Prevote;
          }
        }
      }
    }

    method OnPrevote()
      modifies this
      ensures View() == HandlePrevote(vset, self, old(View()))
    {
      if step == Propose || step == Prevote {
        var value := FindQuorum(PrevotePhase);
        if value.Some? {
          if value.value.Some? {
            lockedBlock, lockedRound := value.value, Some(round);
            validBlock, validRound := value.value, Some(round);
          }
          step := Precommit;
          Send(Vote(PrecommitPhase, value.value, round, self));
        }
      }
    }

    method StartNextRound()
      modifies this
      ensures View() == NextRound(old(View()))
    {
      round := round + 1;
      step := Propose;
    }

    method OnPrecommit()
      modifies this
      ensures View() == HandlePrecommit(vset, old(View()))
    {
      var value := FindQuorum(PrecommitPhase);
      if value.Some? {
        if value.value.Some? {
          decision := value.value;
          step := Commit;
        } else {
          StartNextRound();
        }
      }
    }

    method OnCommit(block: Hash)
      modifies this
      ensures View() == HandleCommit(old(View()), block)
    {
      if step == Commit {
        if decision.None? || decision.value == block {
          decision := Some(block);
        }
      }
    }

    method OnViewChange(view: nat)
      modifies this
      ensures View() == HandleViewChange(vset, old(View()), view)
    {
      if SuperMajority(vset, ViewChangeSenders(queue, view)) {
        StartNextRound();
      }
    }

    method OnNewView(view: nat)
      modifies this
      ensures View() == HandleNewView(old(View()), view)
    {
      if view > round {
        round := view;
        step := Propose;
      }
    }

    /** processMessages: queue the message and dispatch it. */
    method OnMessage(m: Message)
      modifies this
      ensures View() == Receive(vset, self, old(View()), m)
    {
      Send(m);
      match m {
        case Proposal(_, _, _, _) => OnProposal(m);
        case Vote(PrevotePhase, _, _, _) => OnPrevote();
        case Vote(PrecommitPhase, _, _, _) => OnPrecommit();
        case CommitMsg(b, _, _) => OnCommit(b);
        case ViewChange(v, _) => OnViewChange(v);
        case NewView(v, _) => OnNewView(v);
      }
    }

    method OfferBlock(candidate: Hash)
      modifies this
      ensures View() == ProposeBlock(vset, self, old(View()), candidate)
    {
      if step == Propose && IsRoundProposer(vset, round, self) {
        var block := candidate;
        if validBlock.Some? {
          block := validBlock.value;
        }
        Send(Proposal(block, round, validRound, self));
        proposedBlock := Some(block);
        step := Prevote;
      }
    }

    // -------------------------------------------------------------- as written

    /** Two thirds over the senders of all votes, then the value of the first. */
    method FindFirstValue(phase: Phase) returns (value: Option<Value>)
      ensures value == FindValue(Written(), vset, queue, phase, round)
    {
      var votes := CollectVotes(queue, phase, round);
      if SuperMajority(vset, Senders(votes)) {
        var first: Value := None;
        if votes != [] {
          first := votes[0].value;
        }
        return Some(first);
      }
      value := None;
    }

    method OnProposalAsWritten(p: Message)
      requires p.Proposal?
      modifies this
      ensures View() == AnswerProposal(Written(), vset, self, old(View()), p)
    {
      if p.round == round {
        if IsRoundProposer(vset, round, p.sender) {
          var shouldVote := true;
          if lockedBlock.Some? && p.block != lockedBlock.value {
            shouldVote := Above(p.validRound, lockedRound);
          }
          if shouldVote {
            Send(Vote(PrevotePhase, Some(p.block), round, self));
            step := Prevote;
          }
        }
      }
    }

    method OnPrevoteAsWritten()
      modifies this
      ensures View() == AnswerPrevotes(Written(), vset, self, old(View()))
    {
      var value := FindFirstValue(PrevotePhase);
      if value.Some? {
        lockedBlock, lockedRound := value.value, Some(round);
        validBlock, validRound := value.value, Some(round);
        step := Precommit;
        Send(Vote(PrecommitPhase, value.value, round, self));
      } else {
        var votes := CollectVotes(queue, PrevotePhase, round);
        if SuperMajority(vset, VotesFor(votes, None)) {
          Send(Vote(PrecommitPhase, None, round, self));
          step := Precommit;
        }
      }
    }

    /** The round is a 64-bit word. */
    method StartNextRoundAsWritten()
      modifies this
      ensures View() == Advance(Written(), old(View()))
    {
      round := if round + 1 < WORD64 then round + 1 else 0;
      step := Propose;
    }

    method OnPrecommitAsWritten()
      modifies this
      ensures View() == AnswerPrecommits(Written(), vset, old(View()))
    {
      var value := FindFirstValue(PrecommitPhase);
      if value.Some? {
        if value.value.Some? {
          decision := value.value;
          step := Commit;
        } else {
          StartNextRoundAsWritten();
        }
      }
    }

    method OnViewChangeAsWritten(view: nat)
      modifies this
      ensures View() == AnswerViewChange(Written(), vset, old(View()), view)
    {
      if SuperMajority(vset, ViewChangeSenders(queue, view)) {
        StartNextRoundAsWritten();
      }
    }

    method OnNewViewAsWritten(view: Word64)
      modifies this
      ensures View() == AnswerNewView(Written(), old(View()), view)
    {
      round := view;
      step := Propose;
    }

    /** proposeBlock as it can be started again while there is no decision. */
    method OfferBlockAsWritten(candidate: Hash)
      modifies this
      ensures View() == OfferUnder(Written(), vset, self, old(View()), candidate)
    {
      if (decision.None? || step == Propose) && IsRoundProposer(vset, round, self) {
        var block := candidate;
        if validBlock.Some? {
          block := validBlock.value;
        }
        Send(Proposal(block, round, validRound, self));
        proposedBlock := Some(block);
        step := Prevote;
      }
    }

    method OnMessageAsWritten(m: Message)
      requires m.NewView? ==> m.view < WORD64
      modifies this
      ensures View() == ReceiveUnder(Written(), vset, self, old(View()), m)
    {
      Send(m);
      match m {
        case Proposal(_, _, _, _) => OnProposalAsWritten(m);
        case Vote(PrevotePhase, _, _, _) => OnPrevoteAsWritten();
        case Vote(PrecommitPhase, _, _, _) => OnPrecommitAsWritten();
        case CommitMsg(b, _, _) => OnCommit(b);
        case ViewChange(v, _) => OnViewChangeAsWritten(v);
        case NewView(v, _) => OnNewViewAsWritten(v);
      }
    }
  }
}
