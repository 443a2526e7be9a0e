/**
 The consensus protocol for one height: correct validators running the engine's handlers,
 Byzantine validators sending anything under their own names, and a network that may
 delay, reorder and repeat messages. Every theorem is about every run.
 */
module Protocol {
  import opened Wrappers
  import opened Bytes
  import opened Validators
  import opened Engine

  datatype Config = Config(vset: ValidatorSet, byzantine: set<Address>)

  /** The stored total is right and below 2^63, and at most a third of the power is Byzantine. */
  predicate ValidConfig(c: Config)
  {
    SafelySized(c.vset) && 3 * Power(c.vset.validators, c.byzantine) <= c.vset.totalPower
  }

  function Correct(c: Config): set<Address>
  {
    set v | v in c.vset.validators && v.address !in c.byzantine :: v.address
  }

  /** The correct validators, and every message sent so far. */
  datatype World = World(nodes: map<Address, Node>, sent: set<Message>)

  datatype Action =
    | Deliver(p: Address, m: Message)
    | ProposeBy(p: Address, candidate: Hash)
    | ProposeTimeout(p: Address)
    | PrevoteTimeout(p: Address)
    | RoundTimeout(p: Address)
    | Forge(m: Message)

  function Init(c: Config): World
  {
    World(map p | p in Correct(c) :: INITIAL, {})
  }

  /** Node p becomes n; whatever it put on its queue has been sent. */
  ghost function Put(w: World, p: Address, n: Node): World
  {
    World(w.nodes[p := n], w.sent + Pool(n.queue))
  }

  /** What the acting validator does. */
  function LocalStep(c: Config, n: Node, a: Action): Node
    requires !a.Forge?
  {
    match a
    case Deliver(p, m) => Receive(c.vset, p, n, m)
    case ProposeBy(p, b) => ProposeBlock(c.vset, p, n, b)
    case ProposeTimeout(p) => TimeoutPropose(p, n)
    case PrevoteTimeout(p) => TimeoutPrevote(p, n)
    case RoundTimeout(_) => NextRound(n)
  }

  /** One step of the system. An action that is not possible changes nothing. */
  ghost function Act(c: Config, w: World, a: Action): World
  {
    if a.Forge? then
      if a.m.sender in Correct(c) then w else w.(sent := w.sent + {a.m})
    else if a.p in w.nodes && (a.Deliver? ==> a.m in w.sent) then
      Put(w, a.p, LocalStep(c, w.nodes[a.p], a))
    else w
  }

  ghost function Exec(c: Config, w: World, run: seq<Action>): World
    decreases |run|
  {
    if run == [] then w else Exec(c, Act(c, w, run[0]), run[1..])
  }

  // ---------------------------------------------------------------- invariant

  ghost predicate Polka(c: Config, sent: set<Message>, value: Value, round: nat)
  {
    Quorum(c.vset, sent, PrevotePhase, value, round)
  }

  ghost predicate CommitQuorum(c: Config, sent: set<Message>, h: Hash, round: nat)
  {
    Quorum(c.vset, sent, PrecommitPhase, Some(h), round)
  }

  ghost predicate VoteBy(sent: set<Message>, m: Message, p: Address, phase: Phase)
  {
    m in sent && m.Vote? && m.phase == phase && m.sender == p
  }

  /** Votes stay in the queue, are never cast ahead of the round, and each phase of a round votes one value. */
  ghost predicate VotesOnce(sent: set<Message>, p: Address, n: Node)
  {
    && (forall m :: VoteBy(sent, m, p, PrevotePhase) ==> m in Pool(n.queue) && m.round <= n.state.round)
    && (forall m :: VoteBy(sent, m, p, PrecommitPhase) ==> m in Pool(n.queue))
    && (forall m :: VoteBy(sent, m, p, PrecommitPhase) ==>
          m.round < n.state.round || (m.round == n.state.round && !BeforePrecommit(n)))
    && (forall m, m', phase :: VoteBy(sent, m, p, phase) && VoteBy(sent, m', p, phase) && m.round == m'.round ==> m == m')
  }

  /** The lock is backed by a polka of its round and is also the valid block. */
  ghost predicate LockBacked(c: Config, sent: set<Message>, n: Node)
  {
    var s := n.state;
    && s.validBlock == s.lockedBlock && s.validRound == s.lockedRound
    && (s.lockedBlock.Some? <==> s.lockedRound.Some?)
    && (s.lockedRound.Some? ==>
          && Polka(c, sent, s.lockedBlock, s.lockedRound.value)
          && (s.lockedRound.value < s.round || (s.lockedRound.value == s.round && !BeforePrecommit(n))))
  }

  /** A precommit for a block follows a polka, and the lock is as recent as the precommit. */
  ghost predicate PrecommitsLocked(c: Config, sent: set<Message>, p: Address, n: Node)
  {
    forall m :: VoteBy(sent, m, p, PrecommitPhase) && m.value.Some? ==>
      && Polka(c, sent, m.value, m.round)
      && n.state.lockedRound.Some? && m.round <= n.state.lockedRound.value
      && (m.round == n.state.lockedRound.value ==> m.value == n.state.lockedBlock)
  }

  /** A polka for the value in a round strictly between lo and hi. */
  ghost predicate PolkaBetween(c: Config, sent: set<Message>, value: Value, lo: nat, hi: nat)
  {
    exists r :: lo < r < hi && Polka(c, sent, value, r)
  }

  /** A prevote that departs from an earlier precommit is justified by a polka in between. */
  ghost predicate PrevotesJustified(c: Config, sent: set<Message>, p: Address)
  {
    forall m, m' :: VoteBy(sent, m, p, PrevotePhase) && VoteBy(sent, m', p, PrecommitPhase)
      && m.value.Some? && m'.value.Some? && m'.round < m.round
      ==> m.value == m'.value || PolkaBetween(c, sent, m.value, m'.round, m.round)
  }

  ghost predicate DecisionBacked(c: Config, sent: set<Message>, n: Node)
  {
    && (n.state.step == Commit ==> n.state.decision.Some?)
    && (n.state.decision.Some? ==> exists r :: CommitQuorum(c, sent, n.state.decision.value, r))
  }

  ghost predicate NodeInv(c: Config, sent: set<Message>, p: Address, n: Node)
  {
    && Pool(n.queue) <= sent
    && VotesOnce(sent, p, n)
    && LockBacked(c, sent, n)
    && PrecommitsLocked(c, sent, p, n)
    && PrevotesJustified(c, sent, p)
    && DecisionBacked(c, sent, n)
  }

  ghost predicate Inv(c: Config, w: World)
  {
    && w.nodes.Keys == Correct(c)
    && forall p :: p in w.nodes ==> NodeInv(c, w.sent, p, w.nodes[p])
  }

  lemma QuorumMonotone(vset: ValidatorSet, pool: set<Message>, pool': set<Message>, phase: Phase, value: Value, round: nat)
    requires pool <= pool' && Quorum(vset, pool, phase, value, round)
    ensures Quorum(vset, pool', phase, value, round)
  {
    ExactMonotone(vset, Voters(pool, phase, value, round), Voters(pool', phase, value, round));
  }

  /** Votes that pass the code's test are a quorum, and stay one among more messages. */
  lemma PassesQuorum(c: Config, pool: set<Message>, sent: set<Message>, phase: Phase, value: Value, round: nat)
    requires ValidConfig(c) && pool <= sent && Passes(c.vset, pool, phase, value, round)
    ensures Quorum(c.vset, sent, phase, value, round)
  {
    PassingIsExact(c.vset, Voters(pool, phase, value, round));
    QuorumMonotone(c.vset, pool, sent, phase, value, round);
  }

  lemma QuorumsGrow(c: Config, sent: set<Message>, sent': set<Message>)
    requires ValidConfig(c) && sent <= sent'
    ensures forall v, r :: Polka(c, sent, v, r) ==> Polka(c, sent', v, r)
    ensures forall h, r :: CommitQuorum(c, sent, h, r) ==> CommitQuorum(c, sent', h, r)
    ensures forall v, lo, hi :: PolkaBetween(c, sent, v, lo, hi) ==> PolkaBetween(c, sent', v, lo, hi)
  {
    forall v, r | Polka(c, sent, v, r) ensures Polka(c, sent', v, r) {
      QuorumMonotone(c.vset, sent, sent', PrevotePhase, v, r);
    }
    forall h, r | CommitQuorum(c, sent, h, r) ensures CommitQuorum(c, sent', h, r) {
      QuorumMonotone(c.vset, sent, sent', PrecommitPhase, Some(h), r);
    }
  }

  /** Messages of others do not disturb a node. */
  lemma OthersKeep(c: Config, sent: set<Message>, sent': set<Message>, p: Address, n: Node)
    requires ValidConfig(c) && NodeInv(c, sent, p, n)
    requires sent <= sent' && forall m :: m in sent' && m.Vote? && m.sender == p ==> m in sent
    ensures NodeInv(c, sent', p, n)
  {
    QuorumsGrow(c, sent, sent');
    assert forall m, phase :: VoteBy(sent', m, p, phase) <==> VoteBy(sent, m, p, phase);
  }

  /** Queueing a sent message, or changing only the round (upwards), the step or the proposal. */
  lemma QuietKeeps(c: Config, sent: set<Message>, p: Address, n: Node, n': Node)
    requires NodeInv(c, sent, p, n)
    requires Pool(n.queue) <= Pool(n'.queue) <= sent
    requires n'.state == n.state.(round := n'.state.round, step := n'.state.step, proposedBlock := n'.state.proposedBlock)
    requires n'.state.round >= n.state.round && (n'.state.step == Commit ==> n.state.step == Commit)
    requires n'.state.round == n.state.round ==> (BeforePrecommit(n') ==> BeforePrecommit(n))
    ensures NodeInv(c, sent, p, n')
  {
  }

  /** Casting the round's prevote, for nil or for a block that passes the lock test. */
  lemma PrevoteKeeps(c: Config, sent: set<Message>, p: Address, n: Node, value: Value)
    requires ValidConfig(c) && NodeInv(c, sent, p, n)
    requires BeforePrecommit(n) && !HasPrevoted(n.queue, p, n.state.round)
    requires value.Some? ==>
      || n.state.lockedBlock.None?
      || value == n.state.lockedBlock
      || PolkaBetween(c, sent, value, n.state.lockedRound.value, n.state.round)
    ensures NodeInv(c, sent + Pool(CastPrevote(n, p, value).queue), p, CastPrevote(n, p, value))
  {
    var n' := CastPrevote(n, p, value);
    var sent' := sent + Pool(n'.queue);
    var v := Vote(PrevotePhase, value, n.state.round, p);
    assert Pool(n'.queue) == Pool(n.queue) + {v};
    assert sent' == sent + {v};
    QuorumsGrow(c, sent, sent');
    assert forall m, phase :: VoteBy(sent', m, p, phase) <==> VoteBy(sent, m, p, phase) || (m == v && phase == PrevotePhase);
    forall m | VoteBy(sent, m, p, PrevotePhase) ensures m.round < n.state.round {
      assert m in n.queue;
    }
    forall m' | VoteBy(sent, m', p, PrecommitPhase) && value.Some? && m'.value.Some? && m'.round < n.state.round
      ensures value == m'.value || PolkaBetween(c, sent, value, m'.round, n.state.round)
    {
      var lr := n.state.lockedRound.value;
      if value == n.state.lockedBlock && m'.round < lr {
        assert Polka(c, sent, value, lr);
      }
    }
  }

  /** Precommitting a block on its polka, together with the lock. */
  lemma PrecommitKeeps(c: Config, sent: set<Message>, p: Address, n: Node, h: Hash)
    requires ValidConfig(c) && NodeInv(c, sent, p, n)
    requires BeforePrecommit(n) && Polka(c, sent, Some(h), n.state.round)
    ensures var n' := CastPrecommit(n.(state := LockOn(n.state, h)), p, Some(h)); NodeInv(c, sent + Pool(n'.queue), p, n')
  {
    var n' := CastPrecommit(n.(state := LockOn(n.state, h)), p, Some(h));
    var sent' := sent + Pool(n'.queue);
    var v := Vote(PrecommitPhase, Some(h), n.state.round, p);
    assert Pool(n'.queue) == Pool(n.queue) + {v};
    assert sent' == sent + {v};
    QuorumsGrow(c, sent, sent');
    assert forall m, phase :: VoteBy(sent', m, p, phase) <==> VoteBy(sent, m, p, phase) || (m == v && phase == PrecommitPhase);
  }

  lemma NilPrecommitKeeps(c: Config, sent: set<Message>, p: Address, n: Node)
    requires ValidConfig(c) && NodeInv(c, sent, p, n) && BeforePrecommit(n)
    ensures NodeInv(c, sent + Pool(CastPrecommit(n, p, None).queue), p, CastPrecommit(n, p, None))
  {
    var n' := CastPrecommit(n, p, None);
    var sent' := sent + Pool(n'.queue);
    var v := Vote(PrecommitPhase, None, n.state.round, p);
    assert Pool(n'.queue) == Pool(n.queue) + {v};
    assert sent' == sent + {v};
    QuorumsGrow(c, sent, sent');
    assert forall m, phase :: VoteBy(sent', m, p, phase) <==> VoteBy(sent, m, p, phase) || (m == v && phase == PrecommitPhase);
  }

  /** A quorum found in the queue is a quorum among the sent messages. */
  lemma QueueQuorum(c: Config, sent: set<Message>, n: Node, phase: Phase, round: nat)
    requires ValidConfig(c) && Pool(n.queue) <= sent
    requires QuorumValue(c.vset, n.queue, phase, round).Some?
    ensures Quorum(c.vset, sent, phase, QuorumValue(c.vset, n.queue, phase, round).value, round)
  {
    QuorumValueCorrect(c.vset, n.queue, phase, round);
    PassesQuorum(c, Pool(n.queue), sent, phase, QuorumValue(c.vset, n.queue, phase, round).value, round);
  }

  /** The receiver of a justified proposal has seen the polka it claims. */
  lemma JustifiedPolka(c: Config, sent: set<Message>, n: Node, m: Message)
    requires ValidConfig(c) && Pool(n.queue) <= sent && m.Proposal?
    requires JustifiedRound(c.vset, n.queue, m).Some?
    ensures m.validRound.value < m.round && Polka(c, sent, Some(m.block), m.validRound.value)
  {
    var votes := CollectVotes(n.queue, PrevotePhase, m.validRound.value);
    assert VotesFor(votes, Some(m.block)) == Voters(Pool(n.queue), PrevotePhase, Some(m.block), m.validRound.value);
    PassesQuorum(c, Pool(n.queue), sent, PrevotePhase, Some(m.block), m.validRound.value);
  }

  lemma HandleProposalKeeps(c: Config, sent: set<Message>, p: Address, n: Node, m: Message)
    requires ValidConfig(c) && NodeInv(c, sent, p, n) && m.Proposal?
    ensures var n' := HandleProposal(c.vset, p, n, m); NodeInv(c, sent + Pool(n'.queue), p, n')
  {
    if HandleProposal(c.vset, p, n, m) != n {
      if n.state.lockedBlock.Some? && m.block != n.state.lockedBlock.value {
        JustifiedPolka(c, sent, n, m);
        assert PolkaBetween(c, sent, Some(m.block), n.state.lockedRound.value, n.state.round);
      }
      PrevoteKeeps(c, sent, p, n, Some(m.block));
    } else {
      assert sent + Pool(n.queue) == sent;
    }
  }

  lemma HandlePrevoteKeeps(c: Config, sent: set<Message>, p: Address, n: Node)
    requires ValidConfig(c) && NodeInv(c, sent, p, n)
    ensures var n' := HandlePrevote(c.vset, p, n); NodeInv(c, sent + Pool(n'.queue), p, n')
  {
    assert sent + Pool(n.queue) == sent;
    if HandlePrevote(c.vset, p, n) != n {
      QueueQuorum(c, sent, n, PrevotePhase, n.state.round);
      match QuorumValue(c.vset, n.queue, PrevotePhase, n.state.round).value {
        case None => NilPrecommitKeeps(c, sent, p, n);
        case Some(h) => PrecommitKeeps(c, sent, p, n, h);
      }
    }
  }

  lemma DecideKeeps(c: Config, sent: set<Message>, p: Address, n: Node, h: Hash)
    requires NodeInv(c, sent, p, n) && CommitQuorum(c, sent, h, n.state.round)
    ensures NodeInv(c, sent, p, n.(state := n.state.(decision := Some(h), step := Commit)))
  {
  }

  lemma HandlePrecommitKeeps(c: Config, sent: set<Message>, p: Address, n: Node)
    requires ValidConfig(c) && NodeInv(c, sent, p, n)
    ensures var n' := HandlePrecommit(c.vset, n); NodeInv(c, sent + Pool(n'.queue), p, n')
  {
    assert sent + Pool(n.queue) == sent;
    if QuorumValue(c.vset, n.queue, PrecommitPhase, n.state.round).Some? {
      QueueQuorum(c, sent, n, PrecommitPhase, n.state.round);
      match QuorumValue(c.vset, n.queue, PrecommitPhase, n.state.round).value {
        case None => QuietKeeps(c, sent, p, n, NextRound(n));
        case Some(h) => DecideKeeps(c, sent, p, n, h);
      }
    }
  }

  lemma QueueKeeps(c: Config, sent: set<Message>, p: Address, n: Node, m: Message)
    requires NodeInv(c, sent, p, n) && m in sent
    ensures var n' := n.(queue := [m] + n.queue); NodeInv(c, sent, p, n') && sent + Pool(n'.queue) == sent
  {
    var n' := n.(queue := [m] + n.queue);
    assert Pool(n'.queue) == Pool(n.queue) + {m};
    QuietKeeps(c, sent, p, n, n');
  }

  lemma ReceiveKeeps(c: Config, sent: set<Message>, p: Address, n0: Node, m: Message)
    requires ValidConfig(c) && NodeInv(c, sent, p, n0) && m in sent
    ensures var n' := Receive(c.vset, p, n0, m); NodeInv(c, sent + Pool(n'.queue), p, n')
  {
    var n := n0.(queue := [m] + n0.queue);
    QueueKeeps(c, sent, p, n0, m);
    match m {
      case Proposal(_, _, _, _) => HandleProposalKeeps(c, sent, p, n, m);
      case Vote(PrevotePhase, _, _, _) => HandlePrevoteKeeps(c, sent, p, n);
      case Vote(PrecommitPhase, _, _, _) => HandlePrecommitKeeps(c, sent, p, n);
      case CommitMsg(b, _, _) => assert HandleCommit(n, b) == n;
      case ViewChange(v, _) => QuietKeeps(c, sent, p, n, HandleViewChange(c.vset, n, v));
      case NewView(v, _) => QuietKeeps(c, sent, p, n, HandleNewView(n, v));
    }
  }

  /** Offering a block sends a proposal and no vote. */
  lemma ProposeKeeps(c: Config, sent: set<Message>, p: Address, n: Node, b: Hash)
    requires ValidConfig(c) && NodeInv(c, sent, p, n)
    ensures var n' := ProposeBlock(c.vset, p, n, b); NodeInv(c, sent + Pool(n'.queue), p, n')
  {
    var n' := ProposeBlock(c.vset, p, n, b);
    if n' == n {
      assert sent + Pool(n.queue) == sent;
    } else {
      assert Pool(n'.queue) == Pool(n.queue) + {n'.queue[0]};
      OthersKeep(c, sent, sent + Pool(n'.queue), p, n);
      QuietKeeps(c, sent + Pool(n'.queue), p, n, n');
    }
  }

  /** Every kind of step by a node keeps that node's invariant. */
  lemma OwnStepKeeps(c: Config, w: World, a: Action)
    requires ValidConfig(c) && Inv(c, w) && !a.Forge? && a.p in w.nodes
    ensures var w' := Act(c, w, a); NodeInv(c, w'.sent, a.p, w'.nodes[a.p])
  {
    var n := w.nodes[a.p];
    assert w.sent + Pool(n.queue) == w.sent;
    match a {
      case Deliver(p, m) => if m in w.sent { ReceiveKeeps(c, w.sent, p, n, m); }
      case ProposeBy(p, b) => ProposeKeeps(c, w.sent, p, n, b);
      case ProposeTimeout(p) => if TimeoutPropose(p, n) != n { PrevoteKeeps(c, w.sent, p, n, None); }
      case PrevoteTimeout(p) => if TimeoutPrevote(p, n) != n { NilPrecommitKeeps(c, w.sent, p, n); }
      case RoundTimeout(p) => QuietKeeps(c, w.sent, p, n, NextRound(n));
    }
  }

  /** A validator puts on its queue what it received and messages under its own name; decisions are not dropped. */
  lemma LocalFrame(c: Config, n: Node, a: Action)
    requires !a.Forge?
    ensures forall m :: m in LocalStep(c, n, a).queue ==> m in n.queue || m.sender == a.p || (a.Deliver? && m == a.m)
    ensures n.state.decision.Some? ==> LocalStep(c, n, a).state.decision.Some?
  {
    if a.Deliver? {
      ReceiveFrame(c.vset, a.p, n, a.m);
    }
  }

  /** A step touches one node. */
  lemma ActNodes(c: Config, w: World, a: Action)
    ensures Act(c, w, a).nodes.Keys == w.nodes.Keys && w.sent <= Act(c, w, a).sent
    ensures forall q :: q in w.nodes ==>
      (w.nodes[q].state.decision.Some? ==> Act(c, w, a).nodes[q].state.decision.Some?)
    ensures forall q :: q in w.nodes && (a.Forge? || q != a.p) ==> Act(c, w, a).nodes[q] == w.nodes[q]
  {
    if !a.Forge? && a.p in w.nodes {
      LocalFrame(c, w.nodes[a.p], a);
    }
  }

  /** A step sends messages under nobody else's name. */
  lemma ActSends(c: Config, w: World, a: Action)
    requires Inv(c, w)
    ensures forall m :: m in Act(c, w, a).sent ==>
      m in w.sent || (if a.Forge? then m.sender !in Correct(c) else m.sender == a.p)
  {
    if !a.Forge? && a.p in w.nodes {
      LocalFrame(c, w.nodes[a.p], a);
      assert Pool(w.nodes[a.p].queue) <= w.sent by { assert NodeInv(c, w.sent, a.p, w.nodes[a.p]); }
      assert forall m :: m in w.nodes[a.p].queue ==> m in Pool(w.nodes[a.p].queue);
    }
  }

  lemma StepKeepsNode(c: Config, w: World, a: Action, q: Address)
    requires ValidConfig(c) && Inv(c, w) && q in w.nodes
    ensures q in Act(c, w, a).nodes && NodeInv(c, Act(c, w, a).sent, q, Act(c, w, a).nodes[q])
  {
    ActNodes(c, w, a);
    ActSends(c, w, a);
    if a.Forge? || q != a.p {
      OthersKeep(c, w.sent, Act(c, w, a).sent, q, w.nodes[q]);
    } else {
      OwnStepKeeps(c, w, a);
    }
  }

  lemma ActKeepsInv(c: Config, w: World, a: Action)
    requires ValidConfig(c) && Inv(c, w)
    ensures Inv(c, Act(c, w, a))
    ensures w.sent <= Act(c, w, a).sent
  {
    var w' := Act(c, w, a);
    ActNodes(c, w, a);
    forall q | q in w'.nodes ensures NodeInv(c, w'.sent, q, w'.nodes[q]) {
      StepKeepsNode(c, w, a, q);
    }
  }

  /** The invariant holds throughout every run. */
  lemma {:induction false} ExecKeepsInv(c: Config, w: World, run: seq<Action>)
    requires ValidConfig(c) && Inv(c, w)
    ensures Inv(c, Exec(c, w, run))
    ensures w.sent <= Exec(c, w, run).sent
    decreases |run|
  {
    if run != [] {
      ActKeepsInv(c, w, run[0]);
      ExecKeepsInv(c, Act(c, w, run[0]), run[1..]);
    }
  }

  lemma RunInv(c: Config, run: seq<Action>)
    requires ValidConfig(c)
    ensures Inv(c, Exec(c, Init(c), run))
  {
    assert Inv(c, Init(c));
    ExecKeepsInv(c, Init(c), run);
  }

  // ---------------------------------------------------------------- safety of single worlds

  /** Two quorums have a correct voter in common. */
  lemma CommonVoter(c: Config, w: World, phase: Phase, v: Value, r: nat, phase': Phase, v': Value, r': nat)
    returns (p: Address)
    requires ValidConfig(c) && Inv(c, w)
    requires Quorum(c.vset, w.sent, phase, v, r) && Quorum(c.vset, w.sent, phase', v', r')
    ensures p in w.nodes
    ensures Vote(phase, v, r, p) in w.sent && Vote(phase', v', r', p) in w.sent
  {
    p := QuorumsShareCorrect(c.vset, c.byzantine, Voters(w.sent, phase, v, r), Voters(w.sent, phase', v', r'));
    assert p in Correct(c);
  }

  /** A round has at most one quorum value in each phase, nil included. */
  lemma QuorumUnique(c: Config, w: World, phase: Phase, v: Value, v': Value, r: nat)
    requires ValidConfig(c) && Inv(c, w)
    requires Quorum(c.vset, w.sent, phase, v, r) && Quorum(c.vset, w.sent, phase, v', r)
    ensures v == v'
  {
    var p := CommonVoter(c, w, phase, v, r, phase, v', r);
    assert VoteBy(w.sent, Vote(phase, v, r, p), p, phase);
    assert VoteBy(w.sent, Vote(phase, v', r, p), p, phase);
  }

  /** Once a block has a commit quorum, no later round has a polka for another block. */
  lemma {:induction false} LockPersists(c: Config, w: World, h: Hash, r: nat, h': Hash, r': nat)
    requires ValidConfig(c) && Inv(c, w)
    requires CommitQuorum(c, w.sent, h, r) && r < r' && Polka(c, w.sent, Some(h'), r')
    ensures h' == h
    decreases r'
  {
    var p := CommonVoter(c, w, PrecommitPhase, Some(h), r, PrevotePhase, Some(h'), r');
    var m, m' := Vote(PrevotePhase, Some(h'), r', p), Vote(PrecommitPhase, Some(h), r, p);
    assert VoteBy(w.sent, m, p, PrevotePhase) && VoteBy(w.sent, m', p, PrecommitPhase);
    if h' != h {
      assert PolkaBetween(c, w.sent, Some(h'), r, r');
      var between :| r < between < r' && Polka(c, w.sent, Some(h'), between);
      LockPersists(c, w, h, r, h', between);
    }
  }

  /** A commit quorum follows a polka. */
  lemma CommitHasPolka(c: Config, w: World, h: Hash, r: nat)
    requires ValidConfig(c) && Inv(c, w) && CommitQuorum(c, w.sent, h, r)
    ensures Polka(c, w.sent, Some(h), r)
  {
    var p := CommonVoter(c, w, PrecommitPhase, Some(h), r, PrecommitPhase, Some(h), r);
    assert VoteBy(w.sent, Vote(PrecommitPhase, Some(h), r, p), p, PrecommitPhase);
  }

  /** All commit quorums of all rounds are for one block. */
  lemma CommitUnique(c: Config, w: World, h: Hash, r: nat, h': Hash, r': nat)
    requires ValidConfig(c) && Inv(c, w)
    requires CommitQuorum(c, w.sent, h, r) && CommitQuorum(c, w.sent, h', r')
    ensures h == h'
  {
    CommitHasPolka(c, w, h, r);
    CommitHasPolka(c, w, h', r');
    if r < r' {
      LockPersists(c, w, h, r, h', r');
    } else if r' < r {
      LockPersists(c, w, h', r', h, r);
    } else {
      QuorumUnique(c, w, PrecommitPhase, Some(h), Some(h'), r);
    }
  }

  // ---------------------------------------------------------------- theorems about runs

  lemma {:induction false} ExecAppend(c: Config, w: World, run: seq<Action>, more: seq<Action>)
    ensures Exec(c, w, run + more) == Exec(c, Exec(c, w, run), more)
    decreases |run|
  {
    if run == [] {
      assert run + more == more;
    } else {
      assert (run + more)[1..] == run[1..] + more;
      ExecAppend(c, Act(c, w, run[0]), run[1..], more);
    }
  }

  /** Polka uniqueness: in no run does a round have polkas for two values, nil included. */
  lemma PolkaUniqueness(c: Config, run: seq<Action>, v: Value, v': Value, r: nat)
    requires ValidConfig(c)
    requires Polka(c, Exec(c, Init(c), run).sent, v, r) && Polka(c, Exec(c, Init(c), run).sent, v', r)
    ensures v == v'
  {
    RunInv(c, run);
    QuorumUnique(c, Exec(c, Init(c), run), PrevotePhase, v, v', r);
  }

  /** Every lock, and every precommit for a block, of a correct validator has its round's polka behind it. */
  lemma LocksHavePolkas(c: Config, run: seq<Action>, p: Address, m: Message)
    requires ValidConfig(c) && p in Correct(c)
    ensures var w := Exec(c, Init(c), run);
      && p in w.nodes && var s := w.nodes[p].state;
      && (s.lockedBlock.Some? <==> s.lockedRound.Some?)
      && (s.lockedRound.Some? ==> s.lockedRound.value <= s.round && Polka(c, w.sent, s.lockedBlock, s.lockedRound.value))
      && (VoteBy(w.sent, m, p, PrecommitPhase) && m.value.Some? ==> Polka(c, w.sent, m.value, m.round))
  {
    RunInv(c, run);
    var w := Exec(c, Init(c), run);
    assert NodeInv(c, w.sent, p, w.nodes[p]);
  }

  lemma RunGrows(c: Config, run: seq<Action>, more: seq<Action>)
    requires ValidConfig(c)
    ensures Exec(c, Init(c), run).sent <= Exec(c, Init(c), run + more).sent
  {
    RunInv(c, run);
    ExecAppend(c, Init(c), run, more);
    ExecKeepsInv(c, Exec(c, Init(c), run), more);
  }

  /** Lock persistence: after a commit quorum no continuation has a later polka for another block. */
  lemma LockPersistence(c: Config, run: seq<Action>, more: seq<Action>, h: Hash, r: nat, h': Hash, r': nat)
    requires ValidConfig(c) && r < r' && CommitQuorum(c, Exec(c, Init(c), run).sent, h, r)
    requires Polka(c, Exec(c, Init(c), run + more).sent, Some(h'), r')
    ensures h' == h
  {
    var w, w' := Exec(c, Init(c), run), Exec(c, Init(c), run + more);
    RunInv(c, run + more);
    RunGrows(c, run, more);
    QuorumsGrow(c, w.sent, w'.sent);
    LockPersists(c, w', h, r, h', r');
  }

  /** Decisions in a world and in a later one are for the same block. */
  lemma DecisionsAgree(c: Config, w: World, w': World, p: Address, q: Address)
    requires ValidConfig(c) && Inv(c, w) && Inv(c, w') && w.sent <= w'.sent
    requires p in w.nodes && w.nodes[p].state.decision.Some?
    requires q in w'.nodes && w'.nodes[q].state.decision.Some?
    ensures w.nodes[p].state.decision == w'.nodes[q].state.decision
  {
    var h, h' := w.nodes[p].state.decision.value, w'.nodes[q].state.decision.value;
    assert DecisionBacked(c, w.sent, w.nodes[p]) by { assert NodeInv(c, w.sent, p, w.nodes[p]); }
    assert DecisionBacked(c, w'.sent, w'.nodes[q]) by { assert NodeInv(c, w'.sent, q, w'.nodes[q]); }
    var r :| CommitQuorum(c, w.sent, h, r);
    var r' :| CommitQuorum(c, w'.sent, h', r');
    QuorumsGrow(c, w.sent, w'.sent);
    CommitUnique(c, w', h, r, h', r');
  }

  /** Agreement: whenever, in whatever rounds, two correct validators decide, they decide one block. */
  lemma Agreement(c: Config, run: seq<Action>, more: seq<Action>, p: Address, q: Address)
    requires ValidConfig(c) && p in Correct(c) && q in Correct(c)
    ensures var w, w' := Exec(c, Init(c), run), Exec(c, Init(c), run + more);
      p in w.nodes && q in w'.nodes &&
      var d, d' := w.nodes[p].state.decision, w'.nodes[q].state.decision;
      d.Some? && d'.Some? ==> d == d'
  {
    var w, w' := Exec(c, Init(c), run), Exec(c, Init(c), run + more);
    RunInv(c, run);
    RunInv(c, run + more);
    RunGrows(c, run, more);
    if w.nodes[p].state.decision.Some? && w'.nodes[q].state.decision.Some? { DecisionsAgree(c, w, w', p, q); }
  }

  /** No step by anybody changes or drops a decision. */
  lemma DecisionStays(c: Config, w: World, a: Action, p: Address)
    requires ValidConfig(c) && Inv(c, w) && p in w.nodes && w.nodes[p].state.decision.Some?
    ensures p in Act(c, w, a).nodes && Act(c, w, a).nodes[p].state.decision == w.nodes[p].state.decision
  {
    ActNodes(c, w, a);
    ActKeepsInv(c, w, a);
    DecisionsAgree(c, w, Act(c, w, a), p, p);
  }

  /** Finality: a decision survives every continuation of the run. */
  lemma {:induction false} DecisionSurvives(c: Config, w: World, run: seq<Action>, p: Address)
    requires ValidConfig(c) && Inv(c, w) && p in w.nodes && w.nodes[p].state.decision.Some?
    ensures var w' := Exec(c, w, run); p in w'.nodes && w'.nodes[p].state.decision == w.nodes[p].state.decision
    decreases |run|
  {
    if run != [] {
      DecisionStays(c, w, run[0], p);
      ActKeepsInv(c, w, run[0]);
      DecisionSurvives(c, Act(c, w, run[0]), run[1..], p);
    }
  }

  lemma Finality(c: Config, run: seq<Action>, more: seq<Action>, p: Address)
    requires ValidConfig(c) && p in Correct(c)
    ensures var w, w' := Exec(c, Init(c), run), Exec(c, Init(c), run + more);
      p in w.nodes && p in w'.nodes &&
      (w.nodes[p].state.step == Commit ==> w.nodes[p].state.decision.Some?) &&
      (w.nodes[p].state.decision.Some? ==> w'.nodes[p].state.decision == w.nodes[p].state.decision)
  {
    var w := Exec(c, Init(c), run);
    RunInv(c, run);
    RunInv(c, run + more);
    ExecAppend(c, Init(c), run, more);
    assert NodeInv(c, w.sent, p, w.nodes[p]);
    if w.nodes[p].state.decision.Some? { DecisionSurvives(c, w, more, p); }
  }

  /** The round and the lock of a node never go back, and a lock round holds one block. */
  ghost predicate Forward(s: State, s': State)
  {
    && s.round <= s'.round
    && (s.lockedRound.Some? ==> s'.lockedRound.Some? && s.lockedRound.value <= s'.lockedRound.value)
    && (s'.lockedRound == s.lockedRound ==> s'.lockedBlock == s.lockedBlock)
    && (s.round < s'.round ==> s'.step == Propose && s'.lockedBlock == s.lockedBlock)
  }

  lemma LocalForward(c: Config, sent: set<Message>, p: Address, n: Node, a: Action)
    requires !a.Forge? && a.p == p && LockBacked(c, sent, n)
    ensures Forward(n.state, LocalStep(c, n, a).state)
  {
    match a {
      case Deliver(_, m) => ReceiveForward(c, sent, p, n, m);
      case _ =>
    }
  }

  lemma ReceiveForward(c: Config, sent: set<Message>, p: Address, n: Node, m: Message)
    requires LockBacked(c, sent, n)
    ensures Forward(n.state, Receive(c.vset, p, n, m).state)
  {
    var n1 := n.(queue := [m] + n.queue);
    match m {
      case Proposal(_, _, _, _) => assert Forward(n.state, HandleProposal(c.vset, p, n1, m).state);
      case Vote(PrevotePhase, _, _, _) => assert Forward(n.state, HandlePrevote(c.vset, p, n1).state);
      case Vote(PrecommitPhase, _, _, _) => assert Forward(n.state, HandlePrecommit(c.vset, n1).state);
      case _ =>
    }
  }

  /** In every run, one step at a time: rounds and locks only move forward. */
  lemma StepsMoveForward(c: Config, run: seq<Action>, a: Action, p: Address)
    requires ValidConfig(c) && p in Correct(c)
    ensures var w := Exec(c, Init(c), run); var w' := Act(c, w, a);
      p in w.nodes && p in w'.nodes && Forward(w.nodes[p].state, w'.nodes[p].state)
  {
    RunInv(c, run);
    var w := Exec(c, Init(c), run);
    ActNodes(c, w, a);
    assert LockBacked(c, w.sent, w.nodes[p]) by { assert NodeInv(c, w.sent, p, w.nodes[p]); }
    if !a.Forge? && a.p == p { LocalForward(c, w.sent, p, w.nodes[p], a); }
  }

  // ---------------------------------------------------------------- progress of single steps

  /** The receiver q knows the polka for p's valid block, from a round before the proposal's. */
  ghost predicate KnowsPolka(c: Config, w: World, p: Address, q: Address, round: nat)
    requires p in w.nodes && q in w.nodes && w.nodes[p].state.validRound.Some?
  {
    var s := w.nodes[p].state;
    s.validRound.value < round
    && Passes(c.vset, Pool(w.nodes[q].queue), PrevotePhase, s.validBlock, s.validRound.value)
  }

  /**
   Locks cannot block one another: a valid block whose round is not below a validator's lock is
   refused only by a validator locked on another block that has not yet received the polka. At
   equal rounds the two blocks are the same, so nothing need arrive.
   */
  lemma ValidBlockPassesLocks(c: Config, run: seq<Action>, p: Address, q: Address, round: nat)
    requires ValidConfig(c) && p in Correct(c) && q in Correct(c)
    requires var w := Exec(c, Init(c), run);
      && p in w.nodes && q in w.nodes && w.nodes[p].state.validBlock.Some? && w.nodes[p].state.validRound.Some?
      && (w.nodes[q].state.lockedRound.Some? ==> w.nodes[q].state.lockedRound.value <= w.nodes[p].state.validRound.value)
    ensures var w := Exec(c, Init(c), run);
      var s, t := w.nodes[p].state, w.nodes[q].state;
      && (PassesLock(c.vset, w.nodes[q], Proposal(s.validBlock.value, round, s.validRound, p)) <==>
            t.lockedBlock.None? || t.lockedBlock == s.validBlock || KnowsPolka(c, w, p, q, round))
      && (t.lockedRound == s.validRound ==> t.lockedBlock == s.validBlock)
  {
    RunInv(c, run);
    LockTest(c, Exec(c, Init(c), run), p, q, round);
  }

  lemma LockTest(c: Config, w: World, p: Address, q: Address, round: nat)
    requires ValidConfig(c) && Inv(c, w) && p in w.nodes && q in w.nodes
    requires w.nodes[p].state.validBlock.Some? && w.nodes[p].state.validRound.Some?
    requires w.nodes[q].state.lockedRound.Some? ==> w.nodes[q].state.lockedRound.value <= w.nodes[p].state.validRound.value
    ensures var s, t := w.nodes[p].state, w.nodes[q].state;
      && (PassesLock(c.vset, w.nodes[q], Proposal(s.validBlock.value, round, s.validRound, p)) <==>
            t.lockedBlock.None? || t.lockedBlock == s.validBlock || KnowsPolka(c, w, p, q, round))
      && (t.lockedRound == s.validRound ==> t.lockedBlock == s.validBlock)
  {
    var s, n := w.nodes[p].state, w.nodes[q];
    assert LockBacked(c, w.sent, w.nodes[p]) by { assert NodeInv(c, w.sent, p, w.nodes[p]); }
    assert LockBacked(c, w.sent, n) by { assert NodeInv(c, w.sent, q, n); }
    if n.state.lockedRound == s.validRound {
      QuorumUnique(c, w, PrevotePhase, s.validBlock, n.state.lockedBlock, s.validRound.value);
    }
    LockTestLocal(c, w, p, q, round);
  }

  lemma LockTestLocal(c: Config, w: World, p: Address, q: Address, round: nat)
    requires p in w.nodes && q in w.nodes && LockBacked(c, w.sent, w.nodes[q])
    requires w.nodes[p].state.validBlock.Some? && w.nodes[p].state.validRound.Some?
    requires var s, t := w.nodes[p].state, w.nodes[q].state;
      && (t.lockedRound.Some? ==> t.lockedRound.value <= s.validRound.value)
      && (t.lockedRound == s.validRound ==> t.lockedBlock == s.validBlock)
    ensures var s, t := w.nodes[p].state, w.nodes[q].state;
      PassesLock(c.vset, w.nodes[q], Proposal(s.validBlock.value, round, s.validRound, p)) <==>
        t.lockedBlock.None? || t.lockedBlock == s.validBlock || KnowsPolka(c, w, p, q, round)
  {
    var s := w.nodes[p].state;
    QueueVoters(w.nodes[q].queue, PrevotePhase, s.validBlock, s.validRound.value);
  }

  lemma QueueVoters(queue: seq<Message>, phase: Phase, value: Value, round: nat)
    ensures VotesFor(CollectVotes(queue, phase, round), value) == Voters(Pool(queue), phase, value, round)
  {
    assert forall m :: m in Pool(queue) <==> m in queue;
  }

  /** A quorum that has arrived is found, and it is the only one. */
  lemma QuorumFound(c: Config, w: World, queue: seq<Message>, phase: Phase, value: Value, round: nat)
    requires ValidConfig(c) && Inv(c, w) && Pool(queue) <= w.sent
    requires Passes(c.vset, Pool(queue), phase, value, round)
    ensures QuorumValue(c.vset, queue, phase, round) == Some(value)
  {
    QuorumValueCorrect(c.vset, queue, phase, round);
    var found := QuorumValue(c.vset, queue, phase, round).value;
    PassesQuorum(c, Pool(queue), w.sent, phase, value, round);
    PassesQuorum(c, Pool(queue), w.sent, phase, found, round);
    QuorumUnique(c, w, phase, value, found, round);
  }

  /** The prevote that completes a polka makes a waiting validator lock and precommit that block. */
  lemma PolkaLocks(c: Config, w: World, p: Address, m: Message, h: Hash)
    requires ValidConfig(c) && Inv(c, w) && p in w.nodes && m in w.sent && m.Vote? && m.phase == PrevotePhase
    requires BeforePrecommit(w.nodes[p])
    requires Passes(c.vset, Pool([m] + w.nodes[p].queue), PrevotePhase, Some(h), w.nodes[p].state.round)
    ensures var s, w' := w.nodes[p].state, Act(c, w, Deliver(p, m));
      && w'.nodes[p].state == LockOn(s, h).(step := Precommit)
      && Vote(PrecommitPhase, Some(h), s.round, p) in w'.sent
  {
    var n := w.nodes[p];
    assert Pool(n.queue) <= w.sent by { assert NodeInv(c, w.sent, p, n); }
    assert Pool([m] + n.queue) == Pool(n.queue) + {m};
    QuorumFound(c, w, [m] + n.queue, PrevotePhase, Some(h), n.state.round);
    PolkaStep(c.vset, p, n, m, h);
  }

  lemma PolkaStep(vset: ValidatorSet, p: Address, n: Node, m: Message, h: Hash)
    requires m.Vote? && m.phase == PrevotePhase && BeforePrecommit(n)
    requires QuorumValue(vset, [m] + n.queue, PrevotePhase, n.state.round) == Some(Some(h))
    ensures var n' := Receive(vset, p, n, m);
      n'.state == LockOn(n.state, h).(step := Precommit) && Vote(PrecommitPhase, Some(h), n.state.round, p) in Pool(n'.queue)
  {
    assert Receive(vset, p, n, m).queue[0] == Vote(PrecommitPhase, Some(h), n.state.round, p);
  }

  /** The precommit that completes a quorum makes a validator decide that block. */
  lemma QuorumDecides(c: Config, w: World, p: Address, m: Message, h: Hash)
    requires ValidConfig(c) && Inv(c, w) && p in w.nodes && m in w.sent && m.Vote? && m.phase == PrecommitPhase
    requires Passes(c.vset, Pool([m] + w.nodes[p].queue), PrecommitPhase, Some(h), w.nodes[p].state.round)
    ensures Act(c, w, Deliver(p, m)).nodes[p].state == w.nodes[p].state.(decision := Some(h), step := Commit)
  {
    var n := w.nodes[p];
    assert Pool(n.queue) <= w.sent by { assert NodeInv(c, w.sent, p, n); }
    assert Pool([m] + n.queue) == Pool(n.queue) + {m};
    QuorumFound(c, w, [m] + n.queue, PrecommitPhase, Some(h), n.state.round);
  }
}
