/**
 Exactly which rules let a correct validator vote twice in a phase of a round. The property is
 local: it rests on the validator's own queue and step, not on quorums.
 */
module SingleVotes {
  import opened Wrappers
  import opened Bytes
  import opened Validators
  import opened Engine
  import opened WrittenEngine
  import opened Protocol
  import opened Settling
  import opened Deviations
  import opened SoleRuns
  import opened DeviationRuns

  /** In this run nobody correct votes twice in a phase of a 64-bit round. */
  ghost predicate SingleIn(r: Rules, c: Config, run: seq<Action>)
  {
    forall p :: p in Correct(c) ==> SingleBy(ExecUnder(r, c, Init(c), run).sent, p)
  }

  ghost predicate SingleBy(sent: set<Message>, p: Address)
  {
    forall m, m', phase ::
      VoteBy(sent, m, p, phase) && VoteBy(sent, m', p, phase) && m.round == m'.round < WORD64 ==> m == m'
  }

  /** Votes and offers before the precommit, a counter that only rises. */
  ghost predicate Timely(r: Rules)
  {
    !r.lateProposals && !r.latePrevotes && !r.lateOffers && !r.wraps && Rising(r)
  }

  /** And proposals answered once a round. */
  ghost predicate Careful(r: Rules)
  {
    !r.again && Timely(r)
  }

  // ---------------------------------------------------------------- careful rules vote once

  ghost predicate Behind(sent: set<Message>, p: Address, n: Node)
  {
    forall m, phase :: VoteBy(sent, m, p, phase) && m.round < WORD64 ==>
      m.round <= n.state.round && (phase == PrecommitPhase ==> m.round < n.state.round || !BeforePrecommit(n))
  }

  ghost predicate VoterOk(sent: set<Message>, p: Address, n: Node)
  {
    VotesKept(sent, p, n) && Behind(sent, p, n) && SingleBy(sent, p)
  }

  /** After a step: all messages are queued or sent, all new ones are its own. */
  ghost predicate VoterStepOk(sent: set<Message>, p: Address, n: Node)
  {
    VoterOk(sent + Pool(n.queue), p, n) && forall m :: m in n.queue ==> m in sent || m.sender == p
  }

  /** A step without a new vote. */
  lemma SilentOk(sent: set<Message>, p: Address, n: Node, n': Node)
    requires VoterOk(sent, p, n) && Pool(n.queue) <= Pool(n'.queue)
    requires forall m :: m in n'.queue ==> m in sent || (m.sender == p && !m.Vote?)
    requires Behind(sent, p, n')
    ensures VoterStepOk(sent, p, n')
  {
    var sent' := sent + Pool(n'.queue);
    forall m, phase | VoteBy(sent', m, p, phase) ensures VoteBy(sent, m, p, phase) {
      assert m in sent || m in n'.queue;
    }
  }

  /** A step that ends in a vote of the current round, the first of its phase there. */
  lemma NewVoteOk(sent: set<Message>, p: Address, n: Node, phase: Phase, value: Value, state: State)
    requires VoterOk(sent, p, n) && state.round == n.state.round
    requires phase == PrevotePhase ==> BeforePrecommit(n) && !HasPrevoted(n.queue, p, n.state.round)
    requires phase == PrecommitPhase ==> BeforePrecommit(n) && state.step == Precommit
    ensures VoterStepOk(sent, p, Node(state, [Vote(phase, value, n.state.round, p)] + n.queue))
  {
    var vote := Vote(phase, value, n.state.round, p);
    var n' := Node(state, [vote] + n.queue);
    QueuePool(n, vote);
    assert sent + Pool(n'.queue) == sent + {vote};
    forall m, phase' | VoteBy(sent + {vote}, m, p, phase') && m != vote
      ensures VoteBy(sent, m, p, phase') && (phase' == phase && m.round < WORD64 ==> m.round != n.state.round)
    {
      assert VoteBy(sent, m, p, phase');
      assert m in Pool(n.queue);
    }
    assert forall m :: m in n'.queue ==> m == vote || m in Pool(n.queue);
  }

  lemma HeardOk(sent: set<Message>, p: Address, n: Node, m: Message)
    requires VoterOk(sent, p, n) && m in sent
    ensures VoterOk(sent, p, Queued(n, m))
  {
    QueuePool(n, m);
  }

  lemma SameOk(sent: set<Message>, p: Address, n: Node, n': Node)
    requires VoterOk(sent, p, n) && n'.queue == n.queue && Behind(sent, p, n')
    ensures VoterStepOk(sent, p, n')
  {
    assert forall m :: m in n.queue ==> m in Pool(n.queue);
    SilentOk(sent, p, n, n');
  }

  lemma CarefulAnswer(r: Rules, c: Config, sent: set<Message>, p: Address, n: Node, m: Message)
    requires Careful(r) && VoterOk(sent, p, n)
    ensures VoterStepOk(sent, p, Answer(r, c.vset, p, n, m))
  {
    var n' := Answer(r, c.vset, p, n, m);
    if m.Proposal? && n' != n {
      NewVoteOk(sent, p, n, PrevotePhase, Some(m.block), n'.state);
    } else if m.Vote? && m.phase == PrevotePhase && n' != n {
      CarefulPrecommit(r, c, sent, p, n);
    } else {
      SameOk(sent, p, n, n');
    }
  }

  lemma CarefulPrecommit(r: Rules, c: Config, sent: set<Message>, p: Address, n: Node)
    requires Careful(r) && VoterOk(sent, p, n) && AnswerPrevotes(r, c.vset, p, n) != n
    ensures VoterStepOk(sent, p, AnswerPrevotes(r, c.vset, p, n))
  {
    var n' := AnswerPrevotes(r, c.vset, p, n);
    match FindValue(r, c.vset, n.queue, PrevotePhase, n.state.round) {
      case Some(value) => NewVoteOk(sent, p, n, PrecommitPhase, value, n'.state);
      case None => NewVoteOk(sent, p, n, PrecommitPhase, None, n'.state);
    }
  }

  lemma CarefulStep(r: Rules, c: Config, w: World, a: Action)
    requires Careful(r) && Enabled(w, a) && VoterOk(w.sent, a.p, w.nodes[a.p])
    ensures VoterStepOk(w.sent, a.p, StepUnder(r, c, w.nodes[a.p], a))
  {
    var n := w.nodes[a.p];
    match a {
      case Deliver(p, m) =>
        HeardOk(w.sent, p, n, m);
        CarefulAnswer(r, c, w.sent, p, Queued(n, m), m);
      case ProposeBy(p, b) =>
        var n' := OfferUnder(r, c.vset, p, n, b);
        if n' == n {
          SameOk(w.sent, p, n, n);
        } else {
          QueuePool(n, n'.queue[0]);
          assert forall m :: m in n'.queue ==> m == n'.queue[0] || m in Pool(n.queue);
          SilentOk(w.sent, p, n, n');
        }
      case ProposeTimeout(p) =>
        if TimeoutPropose(p, n) == n { SameOk(w.sent, p, n, n); }
        else { NewVoteOk(w.sent, p, n, PrevotePhase, None, n.state.(step := Prevote)); }
      case PrevoteTimeout(p) =>
        if TimeoutPrevote(p, n) == n { SameOk(w.sent, p, n, n); }
        else { NewVoteOk(w.sent, p, n, PrecommitPhase, None, n.state.(step := Precommit)); }
      case RoundTimeout(p) => SameOk(w.sent, p, n, Advance(r, n));
    }
  }

  ghost predicate VotersOk(c: Config, w: World)
  {
    w.nodes.Keys == Correct(c) && forall p :: p in w.nodes ==> VoterOk(w.sent, p, w.nodes[p])
  }

  lemma SameVoter(sent: set<Message>, sent': set<Message>, p: Address, n: Node)
    requires VoterOk(sent, p, n) && sent <= sent' && forall m :: m in sent' ==> m in sent || m.sender != p
    ensures VoterOk(sent', p, n)
  {
    assert forall m, phase :: VoteBy(sent', m, p, phase) ==> VoteBy(sent, m, p, phase);
  }

  lemma CarefulAct(r: Rules, c: Config, w: World, a: Action)
    requires Careful(r) && VotersOk(c, w)
    ensures VotersOk(c, ActUnder(r, c, w, a))
  {
    var w' := ActUnder(r, c, w, a);
    if Enabled(w, a) { CarefulStep(r, c, w, a); }
    forall p | p in w'.nodes ensures VoterOk(w'.sent, p, w'.nodes[p]) {
      if a.Forge? || p != a.p || !Enabled(w, a) { SameVoter(w.sent, w'.sent, p, w.nodes[p]); }
    }
  }

  lemma {:induction false} CarefulRun(r: Rules, c: Config, w: World, run: seq<Action>)
    requires Careful(r) && VotersOk(c, w)
    ensures VotersOk(c, ExecUnder(r, c, w, run))
    decreases |run|
  {
    if run != [] {
      CarefulAct(r, c, w, run[0]);
      CarefulRun(r, c, ActUnder(r, c, w, run[0]), run[1..]);
    }
  }

  // ---------------------------------------------------------------- other rules do not

  /** A node whose queue holds two votes of one phase and round. */
  lemma VotesTwice(plain: bool, r: Rules, c: Config, w: World, p: Address, n: Node, m: Message, m': Message)
    returns (more: seq<Action>)
    requires Leads(plain, r, c, w, p, n) && m in n.queue && m' in n.queue && m != m'
    requires m.Vote? && m'.Vote? && m.phase == m'.phase && m.round == m'.round < WORD64 && m.sender == m'.sender == p
    ensures (plain ==> Plain(more)) && !SingleBy(ExecUnder(r, c, w, more).sent, p)
  {
    more :| (plain ==> Plain(more)) && At(w, ExecUnder(r, c, w, more), p, n);
    var sent := ExecUnder(r, c, w, more).sent;
    assert m in Pool(n.queue) && m' in Pool(n.queue);
    assert VoteBy(sent, m, p, m.phase) && VoteBy(sent, m', p, m.phase);
  }

  /** In the network of one validator: it votes twice. */
  lemma LoneVotesTwice(plain: bool, r: Rules, p: Address, n: Node, phase: Phase, value: Value, value': Value)
    returns (run: seq<Action>)
    requires Leads(plain, r, Lone(p), Init(Lone(p)), p, n) && n.state.round < WORD64 && value != value'
    requires Vote(phase, value, n.state.round, p) in n.queue && Vote(phase, value', n.state.round, p) in n.queue
    ensures ValidConfig(Lone(p)) && (plain ==> Plain(run)) && !SingleIn(r, Lone(p), run)
  {
    LoneIsSole(p);
    run := VotesTwice(plain, r, Lone(p), Init(Lone(p)), p, n, Vote(phase, value, n.state.round, p), Vote(phase, value', n.state.round, p));
  }

  // With nil votes: prevote a block, precommit nil, come back, precommit the block.

  lemma NilThenBlock(r: Rules, p: Address, n: Node, a: Hash) returns (run: seq<Action>)
    requires Leads(false, r, Lone(p), Init(Lone(p)), p, n) && (r.latePrevotes || BeforePrecommit(n))
    requires Vote(PrevotePhase, Some(a), n.state.round, p) in n.queue && n.state.round < WORD64
    requires Vote(PrecommitPhase, None, n.state.round, p) in n.queue
    ensures ValidConfig(Lone(p)) && !SingleIn(r, Lone(p), run)
  {
    LoneIsSole(p);
    LeadsLocked(false, r, Lone(p), Init(Lone(p)), p, n, a);
    var n' := Locked(n, p, a);
    assert n'.queue[0] == Vote(PrecommitPhase, Some(a), n.state.round, p);
    run := LoneVotesTwice(false, r, p, n', PrecommitPhase, Some(a), None);
  }

  /** Round view: prevote a, then precommit nil. */
  lemma LeadsNil(r: Rules, p: Address, a: Hash, view: nat) returns (n: Node)
    requires view < WORD64
    ensures Leads(false, r, Lone(p), Init(Lone(p)), p, n) && n.state.round == view
    ensures n.state.validBlock.None? && n.state.decision.None?
    ensures Vote(PrevotePhase, Some(a), view, p) in n.queue && Vote(PrecommitPhase, None, view, p) in n.queue
  {
    var c := Lone(p);
    LoneIsSole(p);
    LeadsFirstRound(false, r, p, a, view);
    LeadsStep(false, r, c, Init(c), p, FirstRound(p, a, view), PrevoteTimeout(p));
    n := CastPrecommit(FirstRound(p, a, view), p, None);
    assert n.queue[0] == Vote(PrecommitPhase, None, view, p);
  }

  /** Any way back to voting in a round that has been left or finished. */
  lemma LeadsReturn(plain: bool, r: Rules, p: Address, s: Address, n: Node, h: Hash, round: nat) returns (n': Node)
    requires Leads(plain, r, Lone(p), Init(Lone(p)), p, n) && p != s && n.state.decision.None?
    requires n.state.validBlock.None? || n.state.validBlock == Some(h)
    requires
      || (r.latePrevotes && n.state.round < WORD64)
      || (r.lateOffers && n.state.round < WORD64)
      || (r.wraps && n.state.round == 0)
      || (!r.wraps && n.state.round < WORD64 && n.state.round <= round && r.jump(round, n.state.round))
    ensures Leads(plain, r, Lone(p), Init(Lone(p)), p, n') && n'.state.round == n.state.round
    ensures (r.latePrevotes || BeforePrecommit(n')) && forall m :: m in n.queue ==> m in n'.queue
  {
    var c := Lone(p);
    LoneIsSole(p);
    if r.latePrevotes {
      n' := n;
    } else if r.lateOffers {
      LeadsOffered(plain, r, c, Init(c), p, n, h);
      n' := Offered(n, p, h);
    } else if r.wraps {
      LeadsRestart(plain, r, c, Init(c), p, n);
      n' := JumpToView(n, 0);
    } else {
      LeadsLater(plain, r, c, Init(c), p, n, round);
      LeadsBack(plain, r, c, Init(c), p, Later(n, round), s, n.state.round);
      n' := Back(Later(n, round), s, n.state.round);
    }
  }

  /** The round in which a way back other than a late proposal exists. */
  lemma WayBack(r: Rules) returns (round: nat, view: nat)
    requires !Timely(r) && !r.lateProposals
    ensures view < WORD64
    ensures r.latePrevotes || r.lateOffers || (r.wraps && view == 0) || (!r.wraps && view <= round && r.jump(round, view))
  {
    round, view := 0, 0;
    if !r.latePrevotes && !r.lateOffers && !r.wraps {
      var x: nat, y: nat :| r.jump(x, y) && y < WORD64 && y <= x;
      round, view := x, y;
    }
  }

  lemma ReturnRevotes(r: Rules, p: Address, s: Address, a: Hash) returns (run: seq<Action>)
    requires !Timely(r) && !r.lateProposals && p != s
    ensures ValidConfig(Lone(p)) && !SingleIn(r, Lone(p), run)
  {
    var round, view := WayBack(r);
    var n := LeadsNil(r, p, a, view);
    var n' := LeadsReturn(false, r, p, s, n, a, round);
    run := NilThenBlock(r, p, n', a);
  }

  lemma LateProposalRevotes(r: Rules, p: Address, q: Address, a: Hash) returns (run: seq<Action>)
    requires r.lateProposals && p != q
    ensures ValidConfig(Pair(p, q)) && !SingleIn(r, Pair(p, q), run)
  {
    var c := Pair(p, q);
    PairIsSole(p, q);
    LeadsStart(false, r, c, p);
    LeadsRound(false, r, c, Init(c), p, INITIAL, 1);
    var n1 := JumpToView(INITIAL, 1);
    LeadsStep(false, r, c, Init(c), p, n1, PrevoteTimeout(p));
    var n2 := CastPrecommit(n1, p, None);
    assert n2.queue == [Vote(PrecommitPhase, None, 1, p)];
    LeadsPrevoted(false, r, c, Init(c), p, n2, Proposal(a, 1, None, q));
    var n3 := PrevotedFor(n2, p, Proposal(a, 1, None, q));
    LeadsLocked(false, r, c, Init(c), p, n3, a);
    var n4 := Locked(n3, p, a);
    assert n4.queue[0] == Vote(PrecommitPhase, Some(a), 1, p);
    run := VotesTwice(false, r, c, Init(c), p, n4, n4.queue[0], Vote(PrecommitPhase, None, 1, p));
  }

  lemma AgainRevotes(r: Rules, p: Address, q: Address, a: Hash, b: Hash) returns (run: seq<Action>)
    requires r.again && p != q && a != b
    ensures ValidConfig(Pair(p, q)) && Plain(run) && !SingleIn(r, Pair(p, q), run)
  {
    PairIsSole(p, q);
    LeadsPrevoted2(true, r, p, q, a, b);
    run := VotesTwice(true, r, Pair(p, q), Init(Pair(p, q)), p, Prevoted2(p, q, a, b),
      Vote(PrevotePhase, Some(a), 1, p), Vote(PrevotePhase, Some(b), 1, p));
  }

  // Without nil votes, by the first value: precommit a block, come back, and a stray vote at the
  // head of the list makes it another.

  /** A prevote arrives at the head of the list and its value is taken. */
  function Taken(n: Node, p: Address, m: Message): Node
    requires m.Vote?
  {
    CastPrecommit(Queued(n, m).(state := LockAs(n.state, m.value)), p, m.value)
  }

  lemma LeadsTaken(r: Rules, c: Config, w: World, p: Address, x: Address, n: Node, m: Message, own: Value)
    requires Sole(c, x) && WellSized(c.vset) && Leads(true, r, c, w, p, n) && r.firstValue && (r.latePrevotes || BeforePrecommit(n))
    requires m.Vote? && m.phase == PrevotePhase && m.round == n.state.round && m.value.Some?
    requires m in n.queue || m in w.sent || m.sender !in Correct(c)
    requires Vote(PrevotePhase, own, n.state.round, x) in [m] + n.queue
    ensures Leads(true, r, c, w, p, Taken(n, p, m))
    ensures Vote(PrecommitPhase, m.value, n.state.round, p) in Taken(n, p, m).queue
  {
    LeadsStep(true, r, c, w, p, n, Deliver(p, m));
    ForeignVoteFound(r, c, x, [m] + n.queue, PrevotePhase, own, n.state.round);
    assert ReceiveUnder(r, c.vset, p, n, m) == Taken(n, p, m);
    assert Taken(n, p, m).queue[0] == Vote(PrecommitPhase, m.value, n.state.round, p);
  }

  lemma FirstValueRevotes(r: Rules, p: Address, s: Address, a: Hash, b: Hash) returns (run: seq<Action>)
    requires r.firstValue && !Timely(r) && !r.lateProposals && p != s && a != b
    ensures ValidConfig(Lone(p)) && Plain(run) && !SingleIn(r, Lone(p), run)
  {
    var c := Lone(p);
    LoneIsSole(p);
    var round, view := WayBack(r);
    LeadsFirstRound(true, r, p, a, view);
    LeadsLocked(true, r, c, Init(c), p, FirstRound(p, a, view), a);
    var n := Locked(FirstRound(p, a, view), p, a);
    assert n.queue[0] == Vote(PrecommitPhase, Some(a), view, p);
    var n1 := LeadsReturn(true, r, p, s, n, a, round);
    LeadsTaken(r, c, Init(c), p, p, n1, Vote(PrevotePhase, Some(b), view, s), Some(a));
    var n2 := Taken(n1, p, Vote(PrevotePhase, Some(b), view, s));
    run := LoneVotesTwice(true, r, p, n2, PrecommitPhase, Some(a), Some(b));
  }

  /** A heavy correct validator, a light one and a faulty one. */
  function Trio(): Config
  {
    Config(ValidatorSet([ValidatorInfo([0], 6, Active), ValidatorInfo([1], 1, Active), ValidatorInfo([2], 1, Active)], 8), {[2]})
  }

  lemma TrioIsSole()
    ensures var c := Trio();
      && ValidConfig(c) && WellSized(c.vset) && Sole(c, [0]) && [1] in Correct(c) && [2] !in Correct(c)
      && IsRoundProposer(c.vset, 0, [0])
  {
    var x, y, z := ValidatorInfo([0], 6, Active), ValidatorInfo([1], 1, Active), ValidatorInfo([2], 1, Active);
    assert x.address[0] != y.address[0] && x.address[0] != z.address[0] && y.address[0] != z.address[0];
    ThreePowers(x, y, z, {[0]});
    ThreePowers(x, y, z, {[2]});
    TrioActive(x, y, z);
    assert [x, y, z][0] == x && [x, y, z][1] == y && [x, y, z][2] == z;
  }

  lemma TrioActive(x: ValidatorInfo, y: ValidatorInfo, z: ValidatorInfo)
    requires x.status == y.status == z.status == Active
    ensures ActiveValidators([x, y, z]) == [x, y, z]
  {
    assert [x, y, z][1..] == [y, z] && [y, z][1..] == [z] && [z][1..] == [];
    assert ActiveValidators([z]) == [z] && ActiveValidators([y, z]) == [y, z];
  }

  /** The heavy validator proposes and prevotes a; the light one has not moved. */
  lemma HeavyVotes(r: Rules, a: Hash) returns (run: seq<Action>)
    ensures var c := Trio(); var w := ExecUnder(r, c, Init(c), run);
      && Plain(run) && [1] in w.nodes && w.nodes[[1]] == INITIAL
      && Proposal(a, 0, None, [0]) in w.sent && Vote(PrevotePhase, Some(a), 0, [0]) in w.sent
  {
    var c := Trio();
    var x: Address, p: Address := [0], [1];
    assert x[0] != p[0];
    TrioIsSole();
    LeadsStart(true, r, c, x);
    LeadsOfferedAndPrevoted(true, r, c, Init(c), x, INITIAL, a);
    var n := OfferedAndPrevoted(INITIAL, x, a);
    run :| Plain(run) && At(Init(c), ExecUnder(r, c, Init(c), run), x, n);
    assert n.queue[1] == Proposal(a, 0, None, x);
    assert n.queue[1] in Pool(n.queue) && Vote(PrevotePhase, Some(a), 0, x) in Pool(n.queue);
  }

  /** It precommits a on the heavy vote, then answers the late proposal, then takes a stray vote. */
  lemma LightRevotes(r: Rules, w: World, a: Hash, b: Hash) returns (more: seq<Action>)
    requires r.firstValue && r.lateProposals && a != b && [1] in w.nodes && w.nodes[[1]] == INITIAL
    requires Proposal(a, 0, None, [0]) in w.sent && Vote(PrevotePhase, Some(a), 0, [0]) in w.sent
    ensures Plain(more) && !SingleBy(ExecUnder(r, Trio(), w, more).sent, [1])
  {
    var c := Trio();
    var x: Address, p: Address, q: Address := [0], [1], [2];
    assert x[0] != p[0] && p[0] != q[0];
    TrioIsSole();
    var heavy, stray := Vote(PrevotePhase, Some(a), 0, x), Vote(PrevotePhase, Some(b), 0, q);
    LeadsHere(true, r, c, w, p, INITIAL);
    LeadsTaken(r, c, w, p, x, INITIAL, heavy, Some(a));
    var n1 := Taken(INITIAL, p, heavy);
    assert n1.queue == [Vote(PrecommitPhase, Some(a), 0, p), heavy];
    LeadsPrevoted(true, r, c, w, p, n1, Proposal(a, 0, None, x));
    var n2 := PrevotedFor(n1, p, Proposal(a, 0, None, x));
    assert n2.queue == [Vote(PrevotePhase, Some(a), 0, p), Proposal(a, 0, None, x)] + n1.queue;
    LeadsTaken(r, c, w, p, x, n2, stray, Some(a));
    more := VotesTwice(true, r, c, w, p, Taken(n2, p, stray), Vote(PrecommitPhase, Some(a), 0, p), Vote(PrecommitPhase, Some(b), 0, p));
  }

  lemma FirstValueLateRevotes(r: Rules, a: Hash, b: Hash) returns (run: seq<Action>)
    requires r.firstValue && r.lateProposals && a != b
    ensures ValidConfig(Trio()) && Plain(run) && !SingleIn(r, Trio(), run)
  {
    TrioIsSole();
    var first := HeavyVotes(r, a);
    var w := ExecUnder(r, Trio(), Init(Trio()), first);
    var more := LightRevotes(r, w, a, b);
    ExecUnderAppend(r, Trio(), Init(Trio()), first, more);
    run := first + more;
  }

  // ---------------------------------------------------------------- without nil votes, by quorums

  ghost predicate PrevotesSingle(sent: set<Message>, p: Address)
  {
    forall m, m' :: VoteBy(sent, m, p, PrevotePhase) && VoteBy(sent, m', p, PrevotePhase) && m.round == m'.round ==> m == m'
  }

  ghost predicate PrecommitsBacked(c: Config, sent: set<Message>, p: Address)
  {
    forall m :: VoteBy(sent, m, p, PrecommitPhase) ==> Polka(c, sent, m.value, m.round)
  }

  ghost predicate BackedVoter(c: Config, sent: set<Message>, p: Address, n: Node)
  {
    VotesKept(sent, p, n) && PrevotesSingle(sent, p) && PrecommitsBacked(c, sent, p)
  }

  ghost predicate BackedWorld(c: Config, w: World)
  {
    w.nodes.Keys == Correct(c) && forall p :: p in w.nodes ==> BackedVoter(c, w.sent, p, w.nodes[p])
  }

  /** Single prevotes make polkas, and with them precommits, single. */
  lemma BackedIsSingle(c: Config, w: World, p: Address)
    requires ValidConfig(c) && BackedWorld(c, w) && p in Correct(c)
    ensures SingleBy(w.sent, p)
  {
    assert BackedVoter(c, w.sent, p, w.nodes[p]);
    forall m, m' | VoteBy(w.sent, m, p, PrecommitPhase) && VoteBy(w.sent, m', p, PrecommitPhase) && m.round == m'.round
      ensures m == m'
    {
      var a, b := Voters(w.sent, PrevotePhase, m.value, m.round), Voters(w.sent, PrevotePhase, m'.value, m.round);
      var q := SharedVoter(c, w, a, b);
      assert BackedVoter(c, w.sent, q, w.nodes[q]);
      assert VoteBy(w.sent, Vote(PrevotePhase, m.value, m.round, q), q, PrevotePhase);
      assert VoteBy(w.sent, Vote(PrevotePhase, m'.value, m.round, q), q, PrevotePhase);
    }
  }

  /** What a step may add: nothing of its own but a proposal, the round's first prevote, or a precommit with a polka. */
  ghost predicate Fresh(c: Config, sent: set<Message>, p: Address, n: Node, m: Message)
  {
    && m.sender == p
    && (m.Vote? && m.phase == PrevotePhase ==> !HasPrevoted(n.queue, p, m.round))
    && (m.Vote? && m.phase == PrecommitPhase ==> Polka(c, sent, m.value, m.round))
  }

  lemma FreshKeeps(c: Config, sent: set<Message>, p: Address, n: Node, n': Node, m: Message)
    requires ValidConfig(c) && BackedVoter(c, sent, p, n) && Fresh(c, sent, p, n, m) && n'.queue == [m] + n.queue
    ensures BackedVoter(c, sent + Pool(n'.queue), p, n') && forall x :: x in n'.queue ==> x in sent || x.sender == p
  {
    var sent' := sent + Pool(n'.queue);
    QueuePool(n, m);
    assert Pool(n'.queue) == Pool(n.queue) + {m} && sent' == sent + {m};
    QuorumsGrow(c, sent, sent');
    forall x, phase | VoteBy(sent', x, p, phase) && x != m ensures VoteBy(sent, x, p, phase) {}
    forall x | VoteBy(sent, x, p, PrevotePhase) && m.Vote? && m.phase == PrevotePhase ensures x.round != m.round {
      assert x in Pool(n.queue);
    }
    assert forall x :: x in n'.queue ==> x in Pool(n'.queue);
  }

  lemma QuietKeepsBacked(c: Config, sent: set<Message>, p: Address, n: Node, n': Node)
    requires BackedVoter(c, sent, p, n) && n'.queue == n.queue
    ensures BackedVoter(c, sent + Pool(n'.queue), p, n') && forall x :: x in n'.queue ==> x in sent || x.sender == p
  {
    assert Pool(n'.queue) == Pool(n.queue) && sent + Pool(n'.queue) == sent;
    assert forall x :: x in n'.queue ==> x in Pool(n'.queue);
  }

  lemma BackedAnswer(r: Rules, c: Config, sent: set<Message>, p: Address, n: Node, m: Message)
    requires ValidConfig(c) && !r.again && !r.firstValue && BackedVoter(c, sent, p, n)
    ensures var n' := Answer(r, c.vset, p, n, m);
      BackedVoter(c, sent + Pool(n'.queue), p, n') && forall x :: x in n'.queue ==> x in sent || x.sender == p
  {
    var n' := Answer(r, c.vset, p, n, m);
    if m.Proposal? && n' != n {
      FreshKeeps(c, sent, p, n, n', Vote(PrevotePhase, Some(m.block), n.state.round, p));
    } else if m.Vote? && m.phase == PrevotePhase && n' != n {
      var value := FindValue(r, c.vset, n.queue, PrevotePhase, n.state.round).value;
      QueueQuorum(c, sent, n, PrevotePhase, n.state.round);
      FreshKeeps(c, sent, p, n, n', Vote(PrecommitPhase, value, n.state.round, p));
    } else {
      QuietKeepsBacked(c, sent, p, n, n');
    }
  }

  lemma HeardBacked(c: Config, sent: set<Message>, p: Address, n: Node, m: Message)
    requires BackedVoter(c, sent, p, n) && m in sent
    ensures BackedVoter(c, sent, p, Queued(n, m))
  {
    QueuePool(n, m);
  }

  lemma BackedStep(r: Rules, c: Config, w: World, a: Action)
    requires ValidConfig(c) && !r.again && !r.firstValue && Enabled(w, a) && Plain([a])
    requires BackedVoter(c, w.sent, a.p, w.nodes[a.p])
    ensures var n := StepUnder(r, c, w.nodes[a.p], a);
      BackedVoter(c, w.sent + Pool(n.queue), a.p, n) && forall x :: x in n.queue ==> x in w.sent || x.sender == a.p
  {
    assert a in [a];
    var n := w.nodes[a.p];
    match a {
      case Deliver(p, m) =>
        HeardBacked(c, w.sent, p, n, m);
        BackedAnswer(r, c, w.sent, p, Queued(n, m), m);
      case ProposeBy(p, b) =>
        var n' := OfferUnder(r, c.vset, p, n, b);
        if n' == n { QuietKeepsBacked(c, w.sent, p, n, n'); } else { FreshKeeps(c, w.sent, p, n, n', n'.queue[0]); }
      case RoundTimeout(p) => QuietKeepsBacked(c, w.sent, p, n, Advance(r, n));
    }
  }

  lemma OtherBacked(c: Config, sent: set<Message>, sent': set<Message>, p: Address, n: Node)
    requires ValidConfig(c) && BackedVoter(c, sent, p, n) && sent <= sent' && forall m :: m in sent' ==> m in sent || m.sender != p
    ensures BackedVoter(c, sent', p, n)
  {
    QuorumsGrow(c, sent, sent');
    assert forall m, phase :: VoteBy(sent', m, p, phase) ==> VoteBy(sent, m, p, phase);
  }

  lemma BackedAct(r: Rules, c: Config, w: World, a: Action)
    requires ValidConfig(c) && !r.again && !r.firstValue && BackedWorld(c, w) && Plain([a])
    ensures BackedWorld(c, ActUnder(r, c, w, a))
  {
    var w' := ActUnder(r, c, w, a);
    if Enabled(w, a) { BackedStep(r, c, w, a); }
    forall p | p in w'.nodes ensures BackedVoter(c, w'.sent, p, w'.nodes[p]) {
      if a.Forge? || p != a.p || !Enabled(w, a) { OtherBacked(c, w.sent, w'.sent, p, w.nodes[p]); }
    }
  }

  lemma {:induction false} BackedRun(r: Rules, c: Config, w: World, run: seq<Action>)
    requires ValidConfig(c) && !r.again && !r.firstValue && BackedWorld(c, w) && Plain(run)
    ensures BackedWorld(c, ExecUnder(r, c, w, run))
    decreases |run|
  {
    if run != [] {
      assert Plain([run[0]]) && Plain(run[1..]);
      BackedAct(r, c, w, run[0]);
      BackedRun(r, c, ActUnder(r, c, w, run[0]), run[1..]);
    }
  }

  // ---------------------------------------------------------------- exactly the single rules

  ghost predicate SingleRules(r: Rules)
  {
    forall c, run :: ValidConfig(c) ==> SingleIn(r, c, run)
  }

  /** Without nil votes, counting for one value makes up for everything but answering again. */
  ghost predicate CarefulPlain(r: Rules)
  {
    !r.again && (!r.firstValue || Timely(r))
  }

  lemma CarefulSingle(r: Rules, c: Config, run: seq<Action>)
    requires Careful(r)
    ensures SingleIn(r, c, run)
  {
    assert VotersOk(c, Init(c));
    CarefulRun(r, c, Init(c), run);
  }

  lemma CarefulPlainSingle(r: Rules, c: Config, run: seq<Action>)
    requires CarefulPlain(r) && ValidConfig(c) && Plain(run)
    ensures SingleIn(r, c, run)
  {
    if r.firstValue {
      CarefulSingle(r, c, run);
    } else {
      assert BackedWorld(c, Init(c));
      BackedRun(r, c, Init(c), run);
      forall p | p in Correct(c) ensures SingleBy(ExecUnder(r, c, Init(c), run).sent, p) {
        BackedIsSingle(c, ExecUnder(r, c, Init(c), run), p);
      }
    }
  }

  lemma CarelessRevotes(r: Rules) returns (c: Config, run: seq<Action>)
    requires !Careful(r)
    ensures ValidConfig(c) && (!CarefulPlain(r) ==> Plain(run)) && !SingleIn(r, c, run)
  {
    var p: Address, q: Address := [0], [1];
    var a, b := ZERO_HASH, ZERO_HASH[0 := 1];
    assert p[0] != q[0] && a[0] != b[0];
    if r.again {
      c := Pair(p, q);
      run := AgainRevotes(r, p, q, a, b);
    } else if r.firstValue && r.lateProposals {
      c := Trio();
      run := FirstValueLateRevotes(r, a, b);
    } else if r.firstValue {
      c := Lone(p);
      run := FirstValueRevotes(r, p, q, a, b);
    } else if r.lateProposals {
      c := Pair(p, q);
      run := LateProposalRevotes(r, p, q, a);
    } else {
      c := Lone(p);
      run := ReturnRevotes(r, p, q, a);
    }
  }

  /**
   Exactly when no correct validator ever votes twice in a phase of a round, in all runs and in
   those without nil votes.
   */
  lemma SingleRulesIff(r: Rules)
    ensures SingleRules(r) <==> Careful(r)
    ensures (forall c, run :: ValidConfig(c) && Plain(run) ==> SingleIn(r, c, run)) <==> CarefulPlain(r)
  {
    if Careful(r) {
      forall c, run ensures SingleIn(r, c, run) {
        CarefulSingle(r, c, run);
      }
    } else {
      var c, run := CarelessRevotes(r);
      if CarefulPlain(r) {
        forall c, run | ValidConfig(c) && Plain(run) ensures SingleIn(r, c, run) {
          CarefulPlainSingle(r, c, run);
        }
      }
    }
  }
}
