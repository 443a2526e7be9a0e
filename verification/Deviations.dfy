/**
 Runs of the engine under any of the rules, the code as written included: agreement and finality
 hold as long as every step passes tests that the acting validator can make.
 */
module Deviations {
  import opened Wrappers
  import opened Bytes
  import opened Validators
  import opened Engine
  import opened WrittenEngine
  import opened Protocol
  import opened Settling

  // ---------------------------------------------------------------- runs under other rules

  predicate Enabled(w: World, a: Action)
  {
    !a.Forge? && a.p in w.nodes && (a.Deliver? ==> a.m in w.sent)
  }

  /** What the acting validator does. */
  function StepUnder(r: Rules, c: Config, n: Node, a: Action): Node
    requires !a.Forge?
  {
    match a
    case Deliver(p, m) => ReceiveUnder(r, c.vset, p, n, m)
    case RoundTimeout(_) => Advance(r, n)
    case ProposeBy(p, b) => OfferUnder(r, c.vset, p, n, b)
    case _ => LocalStep(c, n, a)
  }

  /** A step of the protocol under the given rules. */
  ghost function ActUnder(r: Rules, c: Config, w: World, a: Action): World
  {
    if a.Forge? then Act(c, w, a)
    else if Enabled(w, a) then Put(w, a.p, StepUnder(r, c, w.nodes[a.p], a)) else w
  }

  ghost function ExecUnder(r: Rules, c: Config, w: World, run: seq<Action>): World
    decreases |run|
  {
    if run == [] then w else ExecUnder(r, c, ActUnder(r, c, w, run[0]), run[1..])
  }

  predicate StepTested(r: Rules, once: bool, c: Config, w: World, a: Action)
  {
    Enabled(w, a) ==>
      match a
      case Deliver(p, m) => Tested(r, once, c.vset, p, Queued(w.nodes[p], m), m)
      case RoundTimeout(p) => AdvanceAllowed(r, w.nodes[p])
      case ProposeBy(p, _) => OfferAllowed(r, once, c.vset, p, w.nodes[p])
      case _ => true
  }

  /** Every step of the run passes the acting validator's test. */
  ghost predicate RunTested(r: Rules, once: bool, c: Config, w: World, run: seq<Action>)
    decreases |run|
  {
    run == [] || (StepTested(r, once, c, w, run[0]) && RunTested(r, once, c, ActUnder(r, c, w, run[0]), run[1..]))
  }

  lemma {:induction false} ExecUnderAppend(r: Rules, c: Config, w: World, run: seq<Action>, more: seq<Action>)
    ensures ExecUnder(r, c, w, run + more) == ExecUnder(r, c, ExecUnder(r, c, w, run), more)
    decreases |run|
  {
    if run == [] {
      assert run + more == more;
    } else {
      assert (run + more)[1..] == run[1..] + more;
      ExecUnderAppend(r, c, ActUnder(r, c, w, run[0]), run[1..], more);
    }
  }

  lemma {:induction false} RunTestedAppend(r: Rules, once: bool, c: Config, w: World, run: seq<Action>, more: seq<Action>)
    requires RunTested(r, once, c, w, run + more)
    ensures RunTested(r, once, c, w, run) && RunTested(r, once, c, ExecUnder(r, c, w, run), more)
    decreases |run|
  {
    if run == [] {
      assert run + more == more;
    } else {
      assert (run + more)[1..] == run[1..] + more;
      RunTestedAppend(r, once, c, ActUnder(r, c, w, run[0]), run[1..], more);
    }
  }

  /** Under the rules of the model, runs are the runs of the protocol. */
  lemma {:induction false} ModelRuns(c: Config, w: World, run: seq<Action>)
    ensures ExecUnder(Model(), c, w, run) == Exec(c, w, run)
    decreases |run|
  {
    if run != [] {
      ModelSteps(c, w, run[0]);
      ModelRuns(c, Act(c, w, run[0]), run[1..]);
    }
  }

  lemma ModelSteps(c: Config, w: World, a: Action)
    ensures ActUnder(Model(), c, w, a) == Act(c, w, a)
  {
    if Enabled(w, a) && a.Deliver? {
      ModelReceives(c.vset, a.p, w.nodes[a.p], a.m);
    } else if Enabled(w, a) && a.RoundTimeout? {
      assert Advance(Model(), w.nodes[a.p]) == NextRound(w.nodes[a.p]);
    } else if Enabled(w, a) && a.ProposeBy? {
      assert OfferUnder(Model(), c.vset, a.p, w.nodes[a.p], a.candidate) == ProposeBlock(c.vset, a.p, w.nodes[a.p], a.candidate);
    }
  }

  // ---------------------------------------------------------------- tested steps of one validator

  lemma QueuedOk(once: bool, c: Config, sent: set<Message>, p: Address, n: Node, m: Message)
    requires ValidConfig(c) && NodeOk(once, c, sent, p, n) && m in sent
    ensures NodeOk(once, c, sent, p, Queued(n, m)) && sent + Pool(Queued(n, m).queue) == sent
  {
    QueuePool(n, m);
    assert sent + Pool(Queued(n, m).queue) == sent;
    QuietOk(once, c, sent, p, n, Queued(n, m));
  }

  /** A step that sends nothing and keeps lock and decision. */
  lemma MovedOk(once: bool, c: Config, sent: set<Message>, p: Address, n: Node, round: nat)
    requires ValidConfig(c) && NodeOk(once, c, sent, p, n)
    requires n.state.lockedRound.Some? ==> n.state.lockedRound.value <= round
    requires forall m, phase :: BlockVote(sent, m, p, phase) ==> m.round <= round
    requires !once ==> forall m :: BlockVote(sent, m, p, PrecommitPhase) ==> m.round < round
    ensures StepOk(once, c, sent, p, JumpToView(n, round))
  {
    assert forall m :: m in JumpToView(n, round).queue ==> m in Pool(n.queue);
    QuietOk(once, c, sent, p, n, JumpToView(n, round));
  }

  lemma AdvanceOk(r: Rules, once: bool, c: Config, sent: set<Message>, p: Address, n: Node)
    requires ValidConfig(c) && NodeOk(once, c, sent, p, n) && AdvanceAllowed(r, n)
    ensures StepOk(once, c, sent, p, Advance(r, n))
  {
    MovedOk(once, c, sent, p, n, n.state.round + 1);
  }

  lemma JumpOk(once: bool, c: Config, sent: set<Message>, p: Address, n: Node, view: nat)
    requires ValidConfig(c) && NodeOk(once, c, sent, p, n) && JumpAllowed(once, p, n, view)
    ensures StepOk(once, c, sent, p, JumpToView(n, view))
  {
    forall m, phase | BlockVote(sent, m, p, phase) ensures m in n.queue && OwnBlockVote(p, m) && m.phase == phase {
      assert VoteBy(sent, m, p, phase);
    }
    MovedOk(once, c, sent, p, n, view);
  }

  lemma UnchangedOk(once: bool, c: Config, sent: set<Message>, p: Address, n: Node)
    requires ValidConfig(c) && NodeOk(once, c, sent, p, n)
    ensures StepOk(once, c, sent, p, n)
  {
    assert forall m :: m in n.queue ==> m in Pool(n.queue);
    QuietOk(once, c, sent, p, n, n);
  }

  lemma ProposalOk(r: Rules, once: bool, c: Config, w: World, p: Address, n: Node, m: Message)
    requires ValidConfig(c) && WorldOk(once, c, w) && NodeOk(once, c, w.sent, p, n) && m.Proposal?
    requires Tested(r, once, c.vset, p, n, m)
    ensures StepOk(once, c, w.sent, p, AnswerProposal(r, c.vset, p, n, m))
  {
    if WillAnswer(r, c.vset, p, n, m) {
      if Polka(c, w.sent, Some(m.block), n.state.round) { JustQuorum(once, c, w, m.block, n.state.round); }
      if n.state.lockedBlock.Some? && m.block != n.state.lockedBlock.value {
        JustifiedPolka(c, w.sent, n, m);
        assert PolkaBetween(c, w.sent, Some(m.block), n.state.lockedRound.value, n.state.round);
      }
      LockTestJustifies(c, w.sent, p, n, m.block);
      PrevoteOk(once, c, w.sent, p, n, m.block);
    } else {
      UnchangedOk(once, c, w.sent, p, n);
    }
  }

  lemma PrevotesOk(r: Rules, once: bool, c: Config, w: World, p: Address, n: Node, m: Message)
    requires ValidConfig(c) && WorldOk(once, c, w) && NodeOk(once, c, w.sent, p, n) && m.Vote? && m.phase == PrevotePhase
    requires Tested(r, once, c.vset, p, n, m)
    ensures StepOk(once, c, w.sent, p, AnswerPrevotes(r, c.vset, p, n))
  {
    TestedPrevotes(r, once, c.vset, p, n, m);
    var n', found := AnswerPrevotes(r, c.vset, p, n), FindValue(r, c.vset, n.queue, PrevotePhase, n.state.round);
    if n' == n {
      UnchangedOk(once, c, w.sent, p, n);
    } else if n' == CastPrecommit(n, p, None) {
      NilPrecommitOk(once, c, w.sent, p, n);
    } else {
      var h := found.value.value;
      PassesQuorum(c, Pool(n.queue), w.sent, PrevotePhase, Some(h), n.state.round);
      PolkaRound(once, c, w, h, n.state.round);
      if once {
        forall h' | Polka(c, w.sent, Some(h'), n.state.round) ensures h' == h {
          PolkaSingle(c, w, h, h', n.state.round);
        }
      }
      LockOk(once, c, w.sent, p, n, h);
    }
  }

  lemma NilPrecommitOk(once: bool, c: Config, sent: set<Message>, p: Address, n: Node)
    requires ValidConfig(c) && NodeOk(once, c, sent, p, n)
    ensures StepOk(once, c, sent, p, CastPrecommit(n, p, None))
  {
    NilVoteOk(once, c, sent, p, n, Vote(PrecommitPhase, None, n.state.round, p), Precommit);
  }

  lemma NilPrevoteOk(once: bool, c: Config, sent: set<Message>, p: Address, n: Node)
    requires ValidConfig(c) && NodeOk(once, c, sent, p, n) && BeforePrecommit(n)
    ensures StepOk(once, c, sent, p, CastPrevote(n, p, None))
  {
    NilVoteOk(once, c, sent, p, n, Vote(PrevotePhase, None, n.state.round, p), Prevote);
  }

  lemma NilVoteOk(once: bool, c: Config, sent: set<Message>, p: Address, n: Node, m: Message, step: Step)
    requires ValidConfig(c) && NodeOk(once, c, sent, p, n) && Harmless(m, p) && step != Commit
    requires step != Precommit ==> BeforePrecommit(n)
    ensures StepOk(once, c, sent, p, Node(n.state.(step := step), [m] + n.queue))
  {
    QueuePool(n, m);
    assert forall x :: x in [m] + n.queue ==> x == m || x in Pool(n.queue);
    QuietOk(once, c, sent, p, n, Node(n.state.(step := step), [m] + n.queue));
  }

  lemma PrecommitsOk(r: Rules, once: bool, c: Config, sent: set<Message>, p: Address, n: Node, m: Message)
    requires ValidConfig(c) && NodeOk(once, c, sent, p, n) && m.Vote? && m.phase == PrecommitPhase
    requires Tested(r, once, c.vset, p, n, m)
    ensures StepOk(once, c, sent, p, AnswerPrecommits(r, c.vset, n))
  {
    match FindValue(r, c.vset, n.queue, PrecommitPhase, n.state.round) {
      case None => UnchangedOk(once, c, sent, p, n);
      case Some(None) => AdvanceOk(r, once, c, sent, p, n);
      case Some(Some(h)) =>
        FoundPasses(r, c.vset, n.queue, PrecommitPhase, n.state.round);
        PassesQuorum(c, Pool(n.queue), sent, PrecommitPhase, Some(h), n.state.round);
        DecideOk(once, c, sent, p, n, h);
    }
  }

  lemma CommitMsgOk(once: bool, c: Config, sent: set<Message>, p: Address, n: Node, b: Hash)
    requires ValidConfig(c) && NodeOk(once, c, sent, p, n)
    ensures StepOk(once, c, sent, p, HandleCommit(n, b))
  {
    assert DecisionBacked(c, sent, n);
    assert HandleCommit(n, b) == n;
    UnchangedOk(once, c, sent, p, n);
  }

  lemma ProposeOk(r: Rules, once: bool, c: Config, sent: set<Message>, p: Address, n: Node, candidate: Hash)
    requires ValidConfig(c) && NodeOk(once, c, sent, p, n) && OfferAllowed(r, once, c.vset, p, n)
    ensures StepOk(once, c, sent, p, OfferUnder(r, c.vset, p, n, candidate))
  {
    var n' := OfferUnder(r, c.vset, p, n, candidate);
    if n' == n {
      UnchangedOk(once, c, sent, p, n);
    } else {
      QueuePool(n, n'.queue[0]);
      assert forall x :: x in n'.queue ==> x == n'.queue[0] || x in Pool(n.queue);
      QuietOk(once, c, sent, p, n, n');
    }
  }

  lemma DeliverOk(r: Rules, once: bool, c: Config, w: World, p: Address, n: Node, m: Message)
    requires ValidConfig(c) && WorldOk(once, c, w) && NodeOk(once, c, w.sent, p, n) && Tested(r, once, c.vset, p, n, m)
    ensures StepOk(once, c, w.sent, p, Answer(r, c.vset, p, n, m))
  {
    match m {
      case Proposal(_, _, _, _) => ProposalOk(r, once, c, w, p, n, m);
      case Vote(PrevotePhase, _, _, _) => PrevotesOk(r, once, c, w, p, n, m);
      case Vote(PrecommitPhase, _, _, _) => PrecommitsOk(r, once, c, w.sent, p, n, m);
      case CommitMsg(b, _, _) => CommitMsgOk(once, c, w.sent, p, n, b);
      case ViewChange(v, _) =>
        if SuperMajority(c.vset, ViewChangeSenders(n.queue, v)) { AdvanceOk(r, once, c, w.sent, p, n); }
        else { UnchangedOk(once, c, w.sent, p, n); }
      case NewView(v, _) =>
        if r.jump(n.state.round, v) { JumpOk(once, c, w.sent, p, n, v); }
        else { UnchangedOk(once, c, w.sent, p, n); }
    }
  }

  lemma OwnStepOk(r: Rules, once: bool, c: Config, w: World, a: Action)
    requires ValidConfig(c) && WorldOk(once, c, w) && Enabled(w, a) && StepTested(r, once, c, w, a)
    ensures StepOk(once, c, w.sent, a.p, StepUnder(r, c, w.nodes[a.p], a))
  {
    var n := w.nodes[a.p];
    match a {
      case Deliver(p, m) =>
        QueuedOk(once, c, w.sent, p, n, m);
        DeliverOk(r, once, c, w, p, Queued(n, m), m);
      case ProposeBy(p, b) => ProposeOk(r, once, c, w.sent, p, n, b);
      case ProposeTimeout(p) =>
        if TimeoutPropose(p, n) == n { UnchangedOk(once, c, w.sent, p, n); } else { NilPrevoteOk(once, c, w.sent, p, n); }
      case PrevoteTimeout(p) =>
        if TimeoutPrevote(p, n) == n { UnchangedOk(once, c, w.sent, p, n); } else { NilPrecommitOk(once, c, w.sent, p, n); }
      case RoundTimeout(p) => AdvanceOk(r, once, c, w.sent, p, n);
    }
  }

  // ---------------------------------------------------------------- tested runs are safe

  ghost predicate KeepsDecisions(w: World, w': World)
  {
    w'.nodes.Keys == w.nodes.Keys && w.sent <= w'.sent
    && forall q :: q in w.nodes && w.nodes[q].state.decision.Some? ==> w'.nodes[q].state.decision.Some?
  }

  /** Whatever the rules, no step drops a decision, a message or a validator. */
  lemma StepKeepsDecisions(r: Rules, c: Config, w: World, a: Action)
    ensures KeepsDecisions(w, ActUnder(r, c, w, a))
  {
    if Enabled(w, a) { DecisionNotDropped(r, c, w.nodes[a.p], a); }
  }

  lemma DecisionNotDropped(r: Rules, c: Config, n: Node, a: Action)
    requires !a.Forge?
    ensures n.state.decision.Some? ==> StepUnder(r, c, n, a).state.decision.Some?
  {
    if a.Deliver? {
      var n1 := Queued(n, a.m);
      match a.m {
        case Proposal(_, _, _, _) => assert AnswerProposal(r, c.vset, a.p, n1, a.m).state.decision == n.state.decision;
        case Vote(PrevotePhase, _, _, _) => assert AnswerPrevotes(r, c.vset, a.p, n1).state.decision == n.state.decision;
        case _ =>
      }
    }
  }

  lemma TestedStepKeeps(r: Rules, once: bool, c: Config, w: World, a: Action)
    requires ValidConfig(c) && WorldOk(once, c, w) && StepTested(r, once, c, w, a)
    ensures WorldOk(once, c, ActUnder(r, c, w, a))
  {
    if Enabled(w, a) {
      OwnStepOk(r, once, c, w, a);
      NetworkStepOk(once, c, w, a.p, StepUnder(r, c, w.nodes[a.p], a));
    } else if a.Forge? && a.m.sender !in Correct(c) {
      ForgeOk(once, c, w, a.m);
    }
  }

  lemma {:induction false} TestedRunKeeps(r: Rules, once: bool, c: Config, w: World, run: seq<Action>)
    requires ValidConfig(c) && WorldOk(once, c, w) && RunTested(r, once, c, w, run)
    ensures WorldOk(once, c, ExecUnder(r, c, w, run))
    decreases |run|
  {
    if run != [] {
      TestedStepKeeps(r, once, c, w, run[0]);
      TestedRunKeeps(r, once, c, ActUnder(r, c, w, run[0]), run[1..]);
    }
  }

  lemma {:induction false} RunKeepsDecisions(r: Rules, c: Config, w: World, run: seq<Action>)
    ensures KeepsDecisions(w, ExecUnder(r, c, w, run))
    decreases |run|
  {
    if run != [] {
      StepKeepsDecisions(r, c, w, run[0]);
      RunKeepsDecisions(r, c, ActUnder(r, c, w, run[0]), run[1..]);
    }
  }

  lemma InitOk(once: bool, c: Config)
    ensures WorldOk(once, c, Init(c))
  {
  }

  /** What p has decided in one world it has decided in a later one, and q has decided nothing else there. */
  ghost predicate Settled(w: World, w': World, p: Address, q: Address)
  {
    p in w.nodes && p in w'.nodes && q in w'.nodes && w.nodes[p].state.decision.Some? ==>
      && w'.nodes[p].state.decision == w.nodes[p].state.decision
      && (w'.nodes[q].state.decision.Some? ==> w'.nodes[q].state.decision == w.nodes[p].state.decision)
  }

  /** Finality and agreement in a run that is looked at in two moments. */
  ghost predicate FinalIn(r: Rules, c: Config, run: seq<Action>, more: seq<Action>)
  {
    forall p, q :: Settled(ExecUnder(r, c, Init(c), run), ExecUnder(r, c, Init(c), run + more), p, q)
  }

  lemma OkSettles(once: bool, c: Config, w: World, w': World, p: Address, q: Address)
    requires ValidConfig(c) && WorldOk(once, c, w) && WorldOk(once, c, w') && KeepsDecisions(w, w')
    ensures Settled(w, w', p, q)
  {
    if p in w.nodes && q in w'.nodes && w.nodes[p].state.decision.Some? {
      DecisionsSettle(once, c, w, w', p, p);
      if w'.nodes[q].state.decision.Some? { DecisionsSettle(once, c, w, w', p, q); }
    }
  }

  lemma TestedWorlds(r: Rules, once: bool, c: Config, run: seq<Action>, more: seq<Action>)
    requires ValidConfig(c) && RunTested(r, once, c, Init(c), run + more)
    ensures var w, w' := ExecUnder(r, c, Init(c), run), ExecUnder(r, c, Init(c), run + more);
      WorldOk(once, c, w) && WorldOk(once, c, w') && KeepsDecisions(w, w')
  {
    InitOk(once, c);
    ExecUnderAppend(r, c, Init(c), run, more);
    RunTestedAppend(r, once, c, Init(c), run, more);
    TestedRunKeeps(r, once, c, Init(c), run);
    TestedRunKeeps(r, once, c, ExecUnder(r, c, Init(c), run), more);
    RunKeepsDecisions(r, c, ExecUnder(r, c, Init(c), run), more);
  }

  /**
   Agreement and finality of the engine under any rules, the code as written included: they hold
   in every run whose steps all pass the acting validators' tests.
   */
  lemma TestedRunsAreSafe(r: Rules, once: bool, c: Config, run: seq<Action>, more: seq<Action>)
    requires ValidConfig(c) && RunTested(r, once, c, Init(c), run + more)
    ensures FinalIn(r, c, run, more)
  {
    var w, w' := ExecUnder(r, c, Init(c), run), ExecUnder(r, c, Init(c), run + more);
    TestedWorlds(r, once, c, run, more);
    forall p, q ensures Settled(w, w', p, q) {
      OkSettles(once, c, w, w', p, q);
    }
  }
}
