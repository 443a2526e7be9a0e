/**
 What single handlers do to a validator, stated by the fields they change and not through the
 functions they share: proposals from others than the proposer, nil quorums, view changes and
 commit messages, for the model and for every choice of rules.
 */
module Handlers {
  import opened Wrappers
  import opened Bytes
  import opened Validators
  import opened Engine
  import opened WrittenEngine
  import opened Protocol

  /** The proposer of a round: the active validator whose position is the signed round modulo their number. */
  predicate Leads(vset: ValidatorSet, round: nat, a: Address)
  {
    var active := ActiveValidators(vset.validators);
    active != [] && round < WORD64
    && a == active[(if round < WORD64 / 2 then round else round - WORD64) % |active|].address
  }

  lemma LeadsIsProposer(vset: ValidatorSet, round: nat, a: Address)
    ensures Leads(vset, round, a) <==> IsRoundProposer(vset, round, a)
  {
  }

  // ---------------------------------------------------------------- proposals

  /** A proposal of another round, or from anybody but the proposer, is only queued. */
  lemma OthersIgnored(vset: ValidatorSet, self: Address, n: Node, m: Message)
    requires m.Proposal? && (m.round != n.state.round || !Leads(vset, n.state.round, m.sender))
    ensures Receive(vset, self, n, m) == Node(n.state, [m] + n.queue)
    ensures forall r: Rules :: ReceiveUnder(r, vset, self, n, m) == Node(n.state, [m] + n.queue)
  {
    LeadsIsProposer(vset, n.state.round, m.sender);
    forall r: Rules ensures ReceiveUnder(r, vset, self, n, m) == Node(n.state, [m] + n.queue) {
      assert AnswerProposal(r, vset, self, Queued(n, m), m) == Queued(n, m);
    }
  }

  /** An acceptable proposal from the proposer is answered by a prevote for its block, and nothing else changes. */
  lemma ProposalAnswered(vset: ValidatorSet, self: Address, n: Node, m: Message)
    requires m.Proposal? && m.round == n.state.round && Leads(vset, n.state.round, m.sender) && n.state.lockedBlock.None?
    requires n.state.step == Propose || n.state.step == Prevote
    requires forall x :: x in n.queue && x.Vote? && x.phase == PrevotePhase && x.sender == self ==> x.round != n.state.round
    ensures Receive(vset, self, n, m) ==
      Node(n.state.(step := Prevote), [Vote(PrevotePhase, Some(m.block), n.state.round, self), m] + n.queue)
    ensures ReceiveUnder(Written(), vset, self, n, m) == Receive(vset, self, n, m)
  {
    LeadsIsProposer(vset, n.state.round, m.sender);
    assert !HasPrevoted([m] + n.queue, self, n.state.round);
    assert [Vote(PrevotePhase, Some(m.block), n.state.round, self)] + ([m] + n.queue)
        == [Vote(PrevotePhase, Some(m.block), n.state.round, self), m] + n.queue;
  }

  ghost predicate Answered(self: Address, n: Node, m: Message, n': Node)
    requires m.Proposal?
  {
    n' == Node(n.state.(step := Prevote), [Vote(PrevotePhase, Some(m.block), n.state.round, self), m] + n.queue)
  }

  /** Locked on another block: the code as written answers exactly when the claimed valid round is a later number. */
  lemma LockedAsWritten(vset: ValidatorSet, self: Address, n: Node, m: Message, h: Hash, locked: nat)
    requires m.Proposal? && m.round == n.state.round && Leads(vset, n.state.round, m.sender)
    requires n.state.lockedBlock == Some(h) && n.state.lockedRound == Some(locked) && m.block != h
    ensures var n' := ReceiveUnder(Written(), vset, self, n, m);
      if m.validRound.Some? && m.validRound.value > locked then Answered(self, n, m, n') else n' == Node(n.state, [m] + n.queue)
  {
    LeadsIsProposer(vset, n.state.round, m.sender);
    assert [Vote(PrevotePhase, Some(m.block), n.state.round, self)] + ([m] + n.queue)
        == [Vote(PrevotePhase, Some(m.block), n.state.round, self), m] + n.queue;
  }

  /** In the model exactly when it is a later round, before this one, whose received prevotes for the block pass. */
  lemma LockedInModel(vset: ValidatorSet, self: Address, n: Node, m: Message, h: Hash, locked: nat)
    requires m.Proposal? && m.round == n.state.round && Leads(vset, n.state.round, m.sender)
    requires n.state.lockedBlock == Some(h) && n.state.lockedRound == Some(locked) && m.block != h
    requires n.state.step == Propose || n.state.step == Prevote
    requires forall x :: x in n.queue && x.Vote? && x.phase == PrevotePhase && x.sender == self ==> x.round != n.state.round
    ensures var n' := Receive(vset, self, n, m);
      if m.validRound.Some? && locked < m.validRound.value < m.round
         && Passes(vset, Pool([m] + n.queue), PrevotePhase, Some(m.block), m.validRound.value)
      then Answered(self, n, m, n') else n' == Node(n.state, [m] + n.queue)
  {
    LeadsIsProposer(vset, n.state.round, m.sender);
    assert !HasPrevoted([m] + n.queue, self, n.state.round);
    if m.validRound.Some? { QueueVoters([m] + n.queue, PrevotePhase, Some(m.block), m.validRound.value); }
    assert [Vote(PrevotePhase, Some(m.block), n.state.round, self)] + ([m] + n.queue)
        == [Vote(PrevotePhase, Some(m.block), n.state.round, self), m] + n.queue;
  }

  /** Only the proposer offers, in every choice of rules. */
  lemma OthersDoNotOffer(r: Rules, vset: ValidatorSet, self: Address, n: Node, candidate: Hash)
    requires !Leads(vset, n.state.round, self)
    ensures OfferUnder(r, vset, self, n, candidate) == n && ProposeBlock(vset, self, n, candidate) == n
  {
    LeadsIsProposer(vset, n.state.round, self);
  }

  // ---------------------------------------------------------------- nil quorums

  /** Received nil precommits that pass the test start the next round, and change nothing else. */
  lemma NilQuorumAdvances(c: Config, w: World, p: Address, m: Message)
    requires ValidConfig(c) && Inv(c, w) && p in w.nodes && m in w.sent && m.Vote? && m.phase == PrecommitPhase
    requires Passes(c.vset, Pool([m] + w.nodes[p].queue), PrecommitPhase, None, w.nodes[p].state.round)
    ensures var s := w.nodes[p].state;
      Act(c, w, Deliver(p, m)).nodes[p] == Node(s.(round := s.round + 1, step := Propose), [m] + w.nodes[p].queue)
  {
    Arrived(c, w, p, m);
    QuorumFound(c, w, [m] + w.nodes[p].queue, PrecommitPhase, None, w.nodes[p].state.round);
  }

  lemma Arrived(c: Config, w: World, p: Address, m: Message)
    requires Inv(c, w) && p in w.nodes && m in w.sent
    ensures Pool([m] + w.nodes[p].queue) <= w.sent
  {
    assert Pool(w.nodes[p].queue) <= w.sent by { assert NodeInv(c, w.sent, p, w.nodes[p]); }
    assert forall x :: x in [m] + w.nodes[p].queue ==> x == m || x in Pool(w.nodes[p].queue);
  }

  /** The same for every choice of rules; a counter that wraps counts modulo 2^64. */
  lemma NilValueAdvances(r: Rules, vset: ValidatorSet, self: Address, n: Node, m: Message)
    requires m.Vote? && m.phase == PrecommitPhase && (r.wraps ==> n.state.round < WORD64)
    requires FindValue(r, vset, [m] + n.queue, PrecommitPhase, n.state.round) == Some(None)
    ensures var next := if r.wraps then (n.state.round + 1) % WORD64 else n.state.round + 1;
      ReceiveUnder(r, vset, self, n, m) == Node(n.state.(round := next, step := Propose), [m] + n.queue)
  {
  }

  /** Received nil prevotes that pass the test: precommit nil, keep lock and valid block. */
  lemma NilPolkaKeepsLock(c: Config, w: World, p: Address, m: Message)
    requires ValidConfig(c) && Inv(c, w) && p in w.nodes && m in w.sent && m.Vote? && m.phase == PrevotePhase
    requires w.nodes[p].state.step == Propose || w.nodes[p].state.step == Prevote
    requires Passes(c.vset, Pool([m] + w.nodes[p].queue), PrevotePhase, None, w.nodes[p].state.round)
    ensures var s := w.nodes[p].state;
      Act(c, w, Deliver(p, m)).nodes[p]
      == Node(s.(step := Precommit), [Vote(PrecommitPhase, None, s.round, p), m] + w.nodes[p].queue)
  {
    var n := w.nodes[p];
    Arrived(c, w, p, m);
    QuorumFound(c, w, [m] + n.queue, PrevotePhase, None, n.state.round);
    assert [Vote(PrecommitPhase, None, n.state.round, p)] + ([m] + n.queue)
        == [Vote(PrecommitPhase, None, n.state.round, p), m] + n.queue;
  }

  /** Received prevotes for a block that pass: lock and valid block are that block at this round, and it is precommitted. */
  lemma PolkaFields(c: Config, w: World, p: Address, m: Message, h: Hash)
    requires ValidConfig(c) && Inv(c, w) && p in w.nodes && m in w.sent && m.Vote? && m.phase == PrevotePhase
    requires w.nodes[p].state.step == Propose || w.nodes[p].state.step == Prevote
    requires Passes(c.vset, Pool([m] + w.nodes[p].queue), PrevotePhase, Some(h), w.nodes[p].state.round)
    ensures var s := w.nodes[p].state;
      Act(c, w, Deliver(p, m)).nodes[p].state ==
      s.(lockedBlock := Some(h), lockedRound := Some(s.round), validBlock := Some(h), validRound := Some(s.round), step := Precommit)
  {
    PolkaLocks(c, w, p, m, h);
  }

  /** The code as written, when all senders pass: whatever comes first is locked and precommitted, nil too. */
  lemma FirstIsLocked(vset: ValidatorSet, self: Address, n: Node, m: Message)
    requires m.Vote? && m.phase == PrevotePhase && m.round == n.state.round
    requires SuperMajority(vset, Senders(CollectVotes([m] + n.queue, PrevotePhase, n.state.round)))
    ensures var s := n.state;
      ReceiveUnder(Written(), vset, self, n, m) ==
      Node(s.(lockedBlock := m.value, lockedRound := Some(s.round), validBlock := m.value, validRound := Some(s.round),
              step := Precommit), [Vote(PrecommitPhase, m.value, s.round, self), m] + n.queue)
  {
    var votes := CollectVotes([m] + n.queue, PrevotePhase, n.state.round);
    assert ([m] + n.queue)[0] == m && votes[0] == m;
    assert [Vote(PrecommitPhase, m.value, n.state.round, self)] + ([m] + n.queue)
        == [Vote(PrecommitPhase, m.value, n.state.round, self), m] + n.queue;
  }

  /** And when they do not, but those who voted nil do: precommit nil, keep the lock. */
  lemma NilBranch(vset: ValidatorSet, self: Address, n: Node, m: Message)
    requires m.Vote? && m.phase == PrevotePhase
    requires var votes := CollectVotes([m] + n.queue, PrevotePhase, n.state.round);
      !SuperMajority(vset, Senders(votes)) && SuperMajority(vset, VotesFor(votes, None))
    ensures ReceiveUnder(Written(), vset, self, n, m) ==
      Node(n.state.(step := Precommit), [Vote(PrecommitPhase, None, n.state.round, self), m] + n.queue)
  {
    assert [Vote(PrecommitPhase, None, n.state.round, self)] + ([m] + n.queue)
        == [Vote(PrecommitPhase, None, n.state.round, self), m] + n.queue;
  }

  // ---------------------------------------------------------------- view changes and commit messages

  /** The senders of view changes to a view are exactly these. */
  ghost predicate AreViewChangers(queue: seq<Message>, view: nat, senders: set<Address>)
  {
    forall a :: a in senders <==> ViewChange(view, a) in queue
  }

  /** A view change starts the next round, not the announced one, exactly when its senders pass the test. */
  lemma ViewChangeAdvances(r: Rules, vset: ValidatorSet, self: Address, n: Node, m: Message, senders: set<Address>)
    requires m.ViewChange? && AreViewChangers([m] + n.queue, m.newView, senders) && (r.wraps ==> n.state.round < WORD64)
    ensures var passes, s, queue := SuperMajority(vset, senders), n.state, [m] + n.queue;
      && Receive(vset, self, n, m) == Node(if passes then s.(round := s.round + 1, step := Propose) else s, queue)
      && var next := if r.wraps then (s.round + 1) % WORD64 else s.round + 1;
         ReceiveUnder(r, vset, self, n, m) == Node(if passes then s.(round := next, step := Propose) else s, queue)
  {
    var queue := [m] + n.queue;
    forall x | x in queue && x.ViewChange? && x.newView == m.newView ensures x.sender in senders {
      assert x == ViewChange(m.newView, x.sender);
    }
    forall a | a in senders ensures a in ViewChangeSenders(queue, m.newView) {
      var x := ViewChange(m.newView, a);
      assert x in queue && x.sender == a;
    }
    assert ViewChangeSenders(queue, m.newView) == senders;
  }

  /** A commit message completes a commit step that has no decision, and otherwise changes nothing. */
  lemma CommitMessage(r: Rules, vset: ValidatorSet, self: Address, n: Node, m: Message)
    requires m.CommitMsg?
    ensures var s := n.state; var open := s.step == Commit && s.decision.None?;
      && Receive(vset, self, n, m) == Node(if open then s.(decision := Some(m.block)) else s, [m] + n.queue)
      && ReceiveUnder(r, vset, self, n, m) == Receive(vset, self, n, m)
  {
  }

  /** An announced view: followed upwards in the model, everywhere in the code as written; the lock stays. */
  lemma NewViewFollowed(vset: ValidatorSet, self: Address, n: Node, m: Message)
    requires m.NewView? && m.view < WORD64
    ensures Receive(vset, self, n, m) ==
      Node(if m.view > n.state.round then n.state.(round := m.view, step := Propose) else n.state, [m] + n.queue)
    ensures ReceiveUnder(Written(), vset, self, n, m) == Node(n.state.(round := m.view, step := Propose), [m] + n.queue)
  {
  }
}
