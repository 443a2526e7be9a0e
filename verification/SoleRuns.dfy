/**
 Runs in which one correct validator acts that passes the two-thirds test by itself, under any
 rules: a small calculus for leading it from one node to the next while the others stand still.
 */
module SoleRuns {
  import opened Wrappers
  import opened Bytes
  import opened Validators
  import opened Engine
  import opened WrittenEngine
  import opened Protocol
  import opened Settling
  import opened Deviations

  // ---------------------------------------------------------------- one validator acts

  /** A correct validator that passes the test by itself. */
  ghost predicate Sole(c: Config, p: Address)
  {
    p in Correct(c) && SuperMajority(c.vset, {p})
  }

  /** More voters pass too, or there are no votes but its own. */
  ghost predicate Heard(c: Config, p: Address, queue: seq<Message>)
  {
    WellSized(c.vset) || forall m :: m in queue && m.Vote? ==> m.sender == p
  }

  /** From a world on, only the node of p has changed: it is n, and what it has queued has been sent. */
  ghost predicate At(from: World, w: World, p: Address, n: Node)
  {
    w.nodes == from.nodes[p := n] && from.sent <= w.sent && Pool(n.queue) <= w.sent
  }

  /** No nil votes, which are steps of the specification and not of the code. */
  predicate Plain(run: seq<Action>)
  {
    forall a :: a in run ==> !a.ProposeTimeout? && !a.PrevoteTimeout?
  }

  /** Some continuation, without nil votes if it is to be plain, takes the validator to this node. */
  ghost predicate Leads(plain: bool, r: Rules, c: Config, w: World, p: Address, n: Node)
  {
    exists more :: (plain ==> Plain(more)) && At(w, ExecUnder(r, c, w, more), p, n)
  }

  lemma OneStep(r: Rules, c: Config, w: World, run: seq<Action>, a: Action)
    ensures ExecUnder(r, c, w, run + [a]) == ActUnder(r, c, ExecUnder(r, c, w, run), a)
  {
    ExecUnderAppend(r, c, w, run, [a]);
    assert [a][1..] == [];
  }

  lemma StepAt(r: Rules, c: Config, from: World, w: World, p: Address, n: Node, a: Action)
    requires At(from, w, p, n) && !a.Forge? && a.p == p && (a.Deliver? ==> a.m in w.sent)
    ensures At(from, ActUnder(r, c, w, a), p, StepUnder(r, c, n, a))
  {
    assert w.nodes[p] == n;
  }

  /** A step of its own, the delivery of a message queued or sent before, or of a faulty sender's message. */
  lemma LeadsStep(plain: bool, r: Rules, c: Config, w: World, p: Address, n: Node, a: Action)
    requires Leads(plain, r, c, w, p, n) && !a.Forge? && a.p == p
    requires (plain ==> Plain([a])) && (a.Deliver? ==> a.m in n.queue || a.m in w.sent || a.m.sender !in Correct(c))
    ensures Leads(plain, r, c, w, p, StepUnder(r, c, n, a))
  {
    var more :| (plain ==> Plain(more)) && At(w, ExecUnder(r, c, w, more), p, n);
    assert a in [a];
    var w1 := ExecUnder(r, c, w, more);
    if a.Deliver? && a.m.sender !in Correct(c) {
      OneStep(r, c, w, more, Forge(a.m));
      OneStep(r, c, w, more + [Forge(a.m)], a);
      StepAt(r, c, w, ActUnder(r, c, w1, Forge(a.m)), p, n, a);
    } else {
      OneStep(r, c, w, more, a);
      if a.Deliver? && a.m in n.queue { assert a.m in Pool(n.queue); }
      StepAt(r, c, w, w1, p, n, a);
    }
  }

  lemma LeadsStart(plain: bool, r: Rules, c: Config, p: Address)
    requires Sole(c, p)
    ensures Leads(plain, r, c, Init(c), p, INITIAL)
  {
    assert ExecUnder(r, c, Init(c), []) == Init(c) && Plain([]);
    assert Init(c).nodes[p := INITIAL] == Init(c).nodes;
    assert At(Init(c), Init(c), p, INITIAL);
  }

  /** Round timeouts take the validator to any later round that the counter reaches. */
  lemma {:induction false} LeadsRound(plain: bool, r: Rules, c: Config, w: World, p: Address, n: Node, round: nat)
    requires Sole(c, p) && Leads(plain, r, c, w, p, n) && n.state.round < round && (r.wraps ==> round < WORD64)
    ensures Leads(plain, r, c, w, p, JumpToView(n, round))
    decreases round - n.state.round
  {
    LeadsStep(plain, r, c, w, p, n, RoundTimeout(p));
    var next := JumpToView(n, n.state.round + 1);
    assert StepUnder(r, c, n, RoundTimeout(p)) == next;
    if n.state.round + 1 < round {
      LeadsRound(plain, r, c, w, p, next, round);
      assert JumpToView(next, round) == JumpToView(n, round);
    }
  }

  // ---------------------------------------------------------------- its votes

  /** A vote it has just received from itself decides the value, under the one test and the other. */
  lemma OwnVoteFound(r: Rules, c: Config, p: Address, queue: seq<Message>, phase: Phase, value: Value, round: nat)
    requires Sole(c, p) && Heard(c, p, queue) && queue != [] && queue[0] == Vote(phase, value, round, p)
    ensures FindValue(r, c.vset, queue, phase, round) == Some(value)
  {
    var votes := CollectVotes(queue, phase, round);
    assert votes[0] == queue[0];
    assert p in VotesFor(votes, value) && p in Senders(votes);
    if WellSized(c.vset) {
      SuperMajorityMonotone(c.vset, {p}, VotesFor(votes, value));
      SuperMajorityMonotone(c.vset, {p}, Senders(votes));
    } else {
      assert VotesFor(votes, value) == {p} == Senders(votes);
    }
  }

  function Locked(n: Node, p: Address, h: Hash): Node
  {
    var vote := Vote(PrevotePhase, Some(h), n.state.round, p);
    CastPrecommit(Queued(n, vote).(state := LockOn(n.state, h)), p, Some(h))
  }

  function DecidedOn(n: Node, p: Address, h: Hash): Node
  {
    var vote := Vote(PrecommitPhase, Some(h), n.state.round, p);
    Queued(n, vote).(state := n.state.(decision := Some(h), step := Commit))
  }

  /** Its own prevote makes it lock and precommit. */
  lemma LeadsLocked(plain: bool, r: Rules, c: Config, w: World, p: Address, n: Node, h: Hash)
    requires Sole(c, p) && Leads(plain, r, c, w, p, n) && Heard(c, p, n.queue) && (r.latePrevotes || BeforePrecommit(n))
    requires Vote(PrevotePhase, Some(h), n.state.round, p) in n.queue
    ensures Leads(plain, r, c, w, p, Locked(n, p, h))
  {
    var vote := Vote(PrevotePhase, Some(h), n.state.round, p);
    LeadsStep(plain, r, c, w, p, n, Deliver(p, vote));
    OwnVoteFound(r, c, p, [vote] + n.queue, PrevotePhase, Some(h), n.state.round);
    assert ReceiveUnder(r, c.vset, p, n, vote) == Locked(n, p, h);
  }

  /** Its own precommit makes it decide. */
  lemma LeadsDecided(plain: bool, r: Rules, c: Config, w: World, p: Address, n: Node, h: Hash)
    requires Sole(c, p) && Leads(plain, r, c, w, p, n) && Heard(c, p, n.queue) && Vote(PrecommitPhase, Some(h), n.state.round, p) in n.queue
    ensures Leads(plain, r, c, w, p, DecidedOn(n, p, h))
  {
    var vote := Vote(PrecommitPhase, Some(h), n.state.round, p);
    LeadsStep(plain, r, c, w, p, n, Deliver(p, vote));
    OwnVoteFound(r, c, p, [vote] + n.queue, PrecommitPhase, Some(h), n.state.round);
    assert ReceiveUnder(r, c.vset, p, n, vote) == DecidedOn(n, p, h);
  }

  lemma {:induction false} LeadsLockedDecided(plain: bool, r: Rules, c: Config, w: World, p: Address, n: Node, h: Hash)
    requires Sole(c, p) && Leads(plain, r, c, w, p, n) && Heard(c, p, n.queue) && (r.latePrevotes || BeforePrecommit(n))
    requires Vote(PrevotePhase, Some(h), n.state.round, p) in n.queue
    ensures Leads(plain, r, c, w, p, DecidedOn(Locked(n, p, h), p, h))
  {
    LeadsLocked(plain, r, c, w, p, n, h);
    assert Locked(n, p, h).queue[0] == Vote(PrecommitPhase, Some(h), n.state.round, p);
    LeadsDecided(plain, r, c, w, p, Locked(n, p, h), h);
  }

  /** A proposal arrives and is prevoted. */
  function PrevotedFor(n: Node, p: Address, m: Message): Node
    requires m.Proposal?
  {
    CastPrevote(Queued(n, m), p, Some(m.block))
  }

  lemma LeadsPrevoted(plain: bool, r: Rules, c: Config, w: World, p: Address, n: Node, m: Message)
    requires Leads(plain, r, c, w, p, n) && m.Proposal? && (m in n.queue || m in w.sent || m.sender !in Correct(c))
    requires m.round == n.state.round && IsRoundProposer(c.vset, m.round, m.sender)
    requires (r.lateProposals || BeforePrecommit(n)) && (r.again || !HasPrevoted(n.queue, p, m.round))
    requires n.state.lockedBlock.None? || n.state.lockedBlock == Some(m.block) || (r.byNumber && NumberTest(n, m))
    ensures Leads(plain, r, c, w, p, PrevotedFor(n, p, m))
    ensures Vote(PrevotePhase, Some(m.block), n.state.round, p) in PrevotedFor(n, p, m).queue
  {
    LeadsStep(plain, r, c, w, p, n, Deliver(p, m));
    assert HasPrevoted([m] + n.queue, p, m.round) <==> HasPrevoted(n.queue, p, m.round);
    assert PrevotedFor(n, p, m).queue[0] == Vote(PrevotePhase, Some(m.block), n.state.round, p);
    assert ReceiveUnder(r, c.vset, p, n, m) == PrevotedFor(n, p, m);
  }

  /** It proposes a block of its own. */
  function Offered(n: Node, p: Address, h: Hash): Node
  {
    Node(n.state.(proposedBlock := Some(h), step := Prevote), [Proposal(h, n.state.round, n.state.validRound, p)] + n.queue)
  }

  lemma LeadsOffered(plain: bool, r: Rules, c: Config, w: World, p: Address, n: Node, h: Hash)
    requires Sole(c, p) && Leads(plain, r, c, w, p, n) && WillOffer(r, c.vset, p, n)
    requires n.state.validBlock.None? || n.state.validBlock == Some(h)
    ensures Leads(plain, r, c, w, p, Offered(n, p, h))
  {
    LeadsStep(plain, r, c, w, p, n, ProposeBy(p, h));
    assert OfferUnder(r, c.vset, p, n, h) == Offered(n, p, h);
  }

  /** Proposing a block and prevoting it. */
  function OfferedAndPrevoted(n: Node, p: Address, h: Hash): Node
  {
    PrevotedFor(Offered(n, p, h), p, Proposal(h, n.state.round, n.state.validRound, p))
  }

  lemma LeadsOfferedAndPrevoted(plain: bool, r: Rules, c: Config, w: World, p: Address, n: Node, h: Hash)
    requires Sole(c, p) && Leads(plain, r, c, w, p, n) && WillOffer(r, c.vset, p, n)
    requires n.state.validBlock.None? && n.state.lockedBlock.None?
    requires r.again || !HasPrevoted(n.queue, p, n.state.round)
    ensures Leads(plain, r, c, w, p, OfferedAndPrevoted(n, p, h))
    ensures Vote(PrevotePhase, Some(h), n.state.round, p) in OfferedAndPrevoted(n, p, h).queue
  {
    var m := Proposal(h, n.state.round, n.state.validRound, p);
    LeadsOffered(plain, r, c, w, p, n, h);
    assert Offered(n, p, h).queue[0] == m;
    assert HasPrevoted(Offered(n, p, h).queue, p, m.round) <==> HasPrevoted(n.queue, p, m.round);
    LeadsPrevoted(plain, r, c, w, p, Offered(n, p, h), m);
  }

  // ---------------------------------------------------------------- finality and its failure

  /** Decided on one block and then on another. */
  lemma Redecided(plain: bool, r: Rules, c: Config, p: Address, n: Node, n': Node)
    returns (run: seq<Action>, more: seq<Action>)
    requires Leads(plain, r, c, Init(c), p, n) && n.state.decision.Some? && n'.state.decision != n.state.decision
    requires forall w :: At(Init(c), w, p, n) ==> Leads(plain, r, c, w, p, n')
    ensures (plain ==> Plain(run) && Plain(more)) && !FinalIn(r, c, run, more)
  {
    run :| (plain ==> Plain(run)) && At(Init(c), ExecUnder(r, c, Init(c), run), p, n);
    var w := ExecUnder(r, c, Init(c), run);
    assert Leads(plain, r, c, w, p, n');
    more :| (plain ==> Plain(more)) && At(w, ExecUnder(r, c, w, more), p, n');
    ExecUnderAppend(r, c, Init(c), run, more);
    assert p in w.nodes && w.nodes[p] == n;
    assert !Settled(w, ExecUnder(r, c, Init(c), run + more), p, p);
  }

  lemma LeadsHere(plain: bool, r: Rules, c: Config, w: World, p: Address, n: Node)
    requires p in w.nodes && w.nodes[p] == n && Pool(n.queue) <= w.sent
    ensures Leads(plain, r, c, w, p, n)
  {
    assert ExecUnder(r, c, w, []) == w && Plain([]);
    assert w.nodes[p := n] == w.nodes;
  }
}
