/**
 Locks never wedge the protocol: from every reachable world some schedule of timeouts and
 deliveries makes every correct validator decide, whatever has happened before.
 */
module Progress {
  import opened Wrappers
  import opened Bytes
  import opened Validators
  import opened Engine
  import opened Protocol

  /** Less than a third is Byzantine, and the correct validators take part in the rotation. */
  predicate LiveConfig(c: Config)
  {
    && ValidConfig(c) && WellSized(c.vset)
    && 3 * Power(c.vset.validators, c.byzantine) < c.vset.totalPower
    && forall v :: v in c.vset.validators && v.address in Correct(c) ==> v.status == Active
  }

  /** Deliveries, proposals and round timeouts of correct validators: nothing forged, no nil votes. */
  predicate Honest(actions: seq<Action>)
  {
    forall a :: a in actions ==> a.Deliver? || a.ProposeBy? || a.RoundTimeout?
  }

  /** A world that some honest continuation of the run leads to. */
  ghost predicate After(c: Config, run: seq<Action>, w: World)
  {
    exists more :: Honest(more) && Exec(c, Init(c), run + more) == w
  }

  lemma AfterSelf(c: Config, run: seq<Action>)
    ensures After(c, run, Exec(c, Init(c), run))
  {
    assert run + [] == run && Honest([]);
  }

  lemma AfterStep(c: Config, run: seq<Action>, w: World, a: Action)
    requires After(c, run, w) && Honest([a])
    ensures After(c, run, Act(c, w, a))
  {
    var more :| Honest(more) && Exec(c, Init(c), run + more) == w;
    ExecAppend(c, Init(c), run + more, [a]);
    assert [a][1..] == [];
    assert Exec(c, w, [a]) == Exec(c, Act(c, w, a), []);
    assert run + (more + [a]) == run + more + [a];
    assert a in [a] && Honest(more + [a]);
  }

  lemma AfterInv(c: Config, run: seq<Action>, w: World)
    requires ValidConfig(c) && After(c, run, w)
    ensures Inv(c, w)
  {
    var more :| Honest(more) && Exec(c, Init(c), run + more) == w;
    RunInv(c, run + more);
  }

  // ---------------------------------------------------------------- quorums of correct validators

  lemma {:induction false} PartsCover(vs: seq<ValidatorInfo>, a: set<Address>, b: set<Address>)
    requires forall v :: v in vs ==> v.address in a || v.address in b
    ensures Power(vs, a) + Power(vs, b) >= SumOfPowers(vs)
  {
    if vs != [] {
      assert vs[0] in vs;
      PartsCover(vs[1..], a, b);
    }
  }

  /** The correct validators are a quorum by themselves. */
  lemma CorrectQuorum(c: Config, voters: set<Address>)
    requires LiveConfig(c) && Correct(c) <= voters
    ensures SuperMajority(c.vset, voters)
  {
    PartsCover(c.vset.validators, Correct(c), c.byzantine);
    SuperMajorityIsExact(c.vset, Correct(c));
    SuperMajorityMonotone(c.vset, Correct(c), voters);
  }

  lemma AllVoted(c: Config, pool: set<Message>, phase: Phase, value: Value, round: nat)
    requires LiveConfig(c) && forall p :: p in Correct(c) ==> Vote(phase, value, round, p) in pool
    ensures Quorum(c.vset, pool, phase, value, round) && Passes(c.vset, pool, phase, value, round)
  {
    var voters := Voters(pool, phase, value, round);
    forall p | p in Correct(c) ensures p in voters {
      var m := Vote(phase, value, round, p);
      assert m in pool && m.sender == p;
    }
    CorrectQuorum(c, voters);
    PassingIsExact(c.vset, voters);
  }

  /** No correct validator has voted in this round or later. */
  ghost predicate Untouched(c: Config, w: World, round: nat)
  {
    forall m :: m in w.sent && m.Vote? && m.sender in Correct(c) ==> m.round < round
  }

  lemma UntouchedNoQuorum(c: Config, w: World, phase: Phase, value: Value, round: nat)
    requires ValidConfig(c) && Inv(c, w) && Untouched(c, w, round)
    ensures !Quorum(c.vset, w.sent, phase, value, round)
  {
    if Quorum(c.vset, w.sent, phase, value, round) {
      var p := CommonVoter(c, w, phase, value, round, phase, value, round);
      assert false;
    }
  }

  // ---------------------------------------------------------------- all into one fresh round

  /** The world with one node replaced. */
  function With(w: World, p: Address, n: Node): World
  {
    World(w.nodes[p := n], w.sent)
  }

  lemma QueueSent(c: Config, run: seq<Action>, w: World, p: Address)
    requires ValidConfig(c) && After(c, run, w) && p in w.nodes
    ensures Pool(w.nodes[p].queue) <= w.sent && w.sent + Pool(w.nodes[p].queue) == w.sent
  {
    AfterInv(c, run, w);
    assert NodeInv(c, w.sent, p, w.nodes[p]);
  }

  lemma TimeoutStep(c: Config, run: seq<Action>, w: World, p: Address)
    requires ValidConfig(c) && After(c, run, w) && p in w.nodes
    ensures After(c, run, With(w, p, NextRound(w.nodes[p])))
  {
    QueueSent(c, run, w, p);
    AfterStep(c, run, w, RoundTimeout(p));
  }

  lemma RaiseTwice(w: World, p: Address, round: nat)
    requires p in w.nodes
    ensures With(With(w, p, NextRound(w.nodes[p])), p, JumpToView(NextRound(w.nodes[p]), round)) == With(w, p, JumpToView(w.nodes[p], round))
  {
  }

  lemma {:induction false} RaiseOne(c: Config, run: seq<Action>, w: World, p: Address, round: nat)
    requires ValidConfig(c) && After(c, run, w) && p in w.nodes && w.nodes[p].state.round < round
    ensures After(c, run, With(w, p, JumpToView(w.nodes[p], round)))
    decreases round - w.nodes[p].state.round
  {
    TimeoutStep(c, run, w, p);
    if w.nodes[p].state.round + 1 < round {
      RaiseOne(c, run, With(w, p, NextRound(w.nodes[p])), p, round);
      RaiseTwice(w, p, round);
    }
  }

  /** Votes of correct validators lie below any round that all of them are still to enter. */
  lemma FutureUntouched(c: Config, run: seq<Action>, w: World, round: nat)
    requires ValidConfig(c) && After(c, run, w) && forall p :: p in w.nodes ==> w.nodes[p].state.round < round
    ensures Untouched(c, w, round)
  {
    AfterInv(c, run, w);
    forall m | m in w.sent && m.Vote? && m.sender in Correct(c) ensures m.round < round {
      assert NodeInv(c, w.sent, m.sender, w.nodes[m.sender]);
      assert VoteBy(w.sent, m, m.sender, m.phase);
    }
  }

  /** Everybody times out into the same later round. */
  lemma {:induction false} RaiseAll(c: Config, run: seq<Action>, w: World, todo: set<Address>, round: nat) returns (w': World)
    requires ValidConfig(c) && After(c, run, w) && todo <= w.nodes.Keys
    requires forall p :: p in todo ==> w.nodes[p].state.round < round
    ensures After(c, run, w') && w'.sent == w.sent && w'.nodes.Keys == w.nodes.Keys
    ensures forall p :: p in w.nodes ==> w'.nodes[p] == if p in todo then JumpToView(w.nodes[p], round) else w.nodes[p]
    decreases todo
  {
    if todo == {} {
      w' := w;
    } else {
      var p :| p in todo;
      RaiseOne(c, run, w, p, round);
      w' := RaiseAll(c, run, With(w, p, JumpToView(w.nodes[p], round)), todo - {p}, round);
    }
  }

  // ---------------------------------------------------------------- catching up on old prevotes

  /** A prevote that arrives before the round has any vote of a correct validator is only queued. */
  lemma DeliverOld(c: Config, run: seq<Action>, w: World, p: Address, m: Message)
    requires ValidConfig(c) && After(c, run, w) && p in w.nodes && Untouched(c, w, w.nodes[p].state.round)
    requires m in w.sent && m.Vote? && m.phase == PrevotePhase
    ensures After(c, run, With(w, p, w.nodes[p].(queue := [m] + w.nodes[p].queue)))
  {
    var n := w.nodes[p];
    var queue := [m] + n.queue;
    QueueSent(c, run, w, p);
    assert Pool(queue) == Pool(n.queue) + {m};
    assert w.sent + Pool(queue) == w.sent;
    if QuorumValue(c.vset, queue, PrevotePhase, n.state.round).Some? {
      AfterInv(c, run, w);
      QueueQuorum(c, w.sent, n.(queue := queue), PrevotePhase, n.state.round);
      UntouchedNoQuorum(c, w, PrevotePhase, QuorumValue(c.vset, queue, PrevotePhase, n.state.round).value, n.state.round);
    }
    AfterStep(c, run, w, Deliver(p, m));
  }

  lemma {:induction false} CatchUp(c: Config, run: seq<Action>, w: World, p: Address, ms: set<Message>) returns (n': Node)
    requires ValidConfig(c) && After(c, run, w) && p in w.nodes && Untouched(c, w, w.nodes[p].state.round)
    requires ms <= w.sent && forall m :: m in ms ==> m.Vote? && m.phase == PrevotePhase
    ensures After(c, run, With(w, p, n')) && n'.state == w.nodes[p].state
    ensures forall m :: m in ms || m in w.nodes[p].queue ==> m in n'.queue
    decreases ms
  {
    if ms == {} {
      n' := w.nodes[p];
      assert With(w, p, n') == w;
    } else {
      var m :| m in ms;
      var n := w.nodes[p].(queue := [m] + w.nodes[p].queue);
      DeliverOld(c, run, w, p, m);
      n' := CatchUp(c, run, With(w, p, n), p, ms - {m});
      assert With(With(w, p, n), p, n') == With(w, p, n');
    }
  }

  lemma {:induction false} CatchUpAll(c: Config, run: seq<Action>, w: World, todo: set<Address>, round: nat, ms: set<Message>)
    returns (w': World)
    requires ValidConfig(c) && After(c, run, w) && todo <= w.nodes.Keys && Untouched(c, w, round)
    requires forall p :: p in w.nodes ==> w.nodes[p].state.round == round
    requires ms <= w.sent && forall m :: m in ms ==> m.Vote? && m.phase == PrevotePhase
    ensures After(c, run, w') && w'.sent == w.sent && w'.nodes.Keys == w.nodes.Keys
    ensures forall p :: p in w.nodes ==> w'.nodes[p].state == w.nodes[p].state && (p !in todo ==> w'.nodes[p] == w.nodes[p])
    ensures forall p, m :: p in todo && m in ms ==> m in w'.nodes[p].queue
    decreases todo
  {
    if todo == {} {
      w' := w;
    } else {
      var p :| p in todo;
      var n := CatchUp(c, run, w, p, ms);
      var w1 := With(w, p, n);
      w' := CatchUpAll(c, run, w1, todo - {p}, round, ms);
      assert w'.nodes[p] == n;
    }
  }

  // ---------------------------------------------------------------- proposal and prevotes

  /** A step by p leaves the other nodes alone. */
  ghost predicate Only(p: Address, w: World, w': World)
  {
    && w'.nodes.Keys == w.nodes.Keys && w.sent <= w'.sent
    && forall q :: q in w.nodes && q != p ==> w'.nodes[q] == w.nodes[q]
  }

  /** A validator that will prevote for the proposal when it arrives. */
  ghost predicate Ready(c: Config, w: World, q: Address, p: Message)
    requires p.Proposal?
  {
    && q in w.nodes && w.nodes[q].state.round == p.round && BeforePrecommit(w.nodes[q])
    && !HasPrevoted(w.nodes[q].queue, q, p.round) && PassesLock(c.vset, w.nodes[q], p)
  }

  lemma ProposalChangesNoVotes(c: Config, n: Node, q: Address, p: Message)
    requires p.Proposal?
    ensures var n' := n.(queue := [p] + n.queue);
      && (PassesLock(c.vset, n', p) <==> PassesLock(c.vset, n, p))
      && (HasPrevoted(n'.queue, q, p.round) <==> HasPrevoted(n.queue, q, p.round))
  {
    var queue := [p] + n.queue;
    assert queue[1..] == n.queue;
    assert forall r :: CollectVotes(queue, PrevotePhase, r) == CollectVotes(n.queue, PrevotePhase, r);
  }

  lemma PrevoteStep(c: Config, run: seq<Action>, w: World, q: Address, p: Message)
    requires ValidConfig(c) && After(c, run, w) && p.Proposal? && p in w.sent
    requires Ready(c, w, q, p) && IsRoundProposer(c.vset, p.round, p.sender)
    ensures var w' := Act(c, w, Deliver(q, p));
      && After(c, run, w') && Only(q, w, w')
      && w'.nodes[q].state == w.nodes[q].state.(step := Prevote)
      && Vote(PrevotePhase, Some(p.block), p.round, q) in w'.sent
  {
    var n := w.nodes[q];
    var n1 := n.(queue := [p] + n.queue);
    ProposalChangesNoVotes(c, n, q, p);
    AfterStep(c, run, w, Deliver(q, p));
    var v := Vote(PrevotePhase, Some(p.block), p.round, q);
    assert Receive(c.vset, q, n, p) == CastPrevote(n1, q, Some(p.block));
    assert v in Pool(CastPrevote(n1, q, Some(p.block)).queue);
  }

  lemma {:induction false} PrevoteAll(c: Config, run: seq<Action>, w: World, todo: set<Address>, p: Message) returns (w': World)
    requires ValidConfig(c) && After(c, run, w) && p.Proposal? && p in w.sent && IsRoundProposer(c.vset, p.round, p.sender)
    requires forall q :: q in todo ==> Ready(c, w, q, p)
    ensures After(c, run, w') && w'.nodes.Keys == w.nodes.Keys && w.sent <= w'.sent
    ensures forall q :: q in w.nodes ==> if q in todo
      then w'.nodes[q].state == w.nodes[q].state.(step := Prevote) else w'.nodes[q] == w.nodes[q]
    ensures forall q :: q in todo ==> Vote(PrevotePhase, Some(p.block), p.round, q) in w'.sent
    decreases todo
  {
    if todo == {} {
      w' := w;
    } else {
      var q :| q in todo;
      PrevoteStep(c, run, w, q, p);
      w' := PrevoteAll(c, run, Act(c, w, Deliver(q, p)), todo - {q}, p);
    }
  }

  // ---------------------------------------------------------------- precommits and decisions

  /** Every correct validator's vote for the block is out. */
  ghost predicate AllSent(c: Config, w: World, phase: Phase, h: Hash, round: nat)
  {
    forall p :: p in Correct(c) ==> Vote(phase, Some(h), round, p) in w.sent
  }

  /** What a delivered vote can complete is a quorum for that block and nothing else. */
  lemma OnlyThatBlock(c: Config, run: seq<Action>, w: World, q: Address, m: Message, phase: Phase, h: Hash)
    requires LiveConfig(c) && After(c, run, w) && q in w.nodes && m in w.sent
    requires AllSent(c, w, phase, h, w.nodes[q].state.round)
    ensures var found := QuorumValue(c.vset, [m] + w.nodes[q].queue, phase, w.nodes[q].state.round);
      found.Some? ==> found == Some(Some(h)) && Passes(c.vset, Pool([m] + w.nodes[q].queue), phase, Some(h), w.nodes[q].state.round)
  {
    var n, round := w.nodes[q], w.nodes[q].state.round;
    var queue := [m] + n.queue;
    if QuorumValue(c.vset, queue, phase, round).Some? {
      var v := QuorumValue(c.vset, queue, phase, round).value;
      QueueSent(c, run, w, q);
      assert Pool(queue) == Pool(n.queue) + {m};
      QueueQuorum(c, w.sent, n.(queue := queue), phase, round);
      AllVoted(c, w.sent, phase, Some(h), round);
      AfterInv(c, run, w);
      QuorumUnique(c, w, phase, v, Some(h), round);
      QuorumValueCorrect(c.vset, queue, phase, round);
    }
  }

  /** Validator q has precommitted the block in its round. */
  ghost predicate Precommitted(w: World, q: Address, h: Hash)
  {
    q in w.nodes && Vote(PrecommitPhase, Some(h), w.nodes[q].state.round, q) in w.sent
  }

  /** A vote that completes no quorum is only queued. */
  lemma VoteQueued(c: Config, run: seq<Action>, w: World, q: Address, m: Message)
    requires ValidConfig(c) && After(c, run, w) && q in w.nodes && m in w.sent && m.Vote?
    requires QuorumValue(c.vset, [m] + w.nodes[q].queue, m.phase, w.nodes[q].state.round).None?
    ensures Act(c, w, Deliver(q, m)) == With(w, q, w.nodes[q].(queue := [m] + w.nodes[q].queue))
  {
    var n := w.nodes[q];
    QueueSent(c, run, w, q);
    assert Receive(c.vset, q, n, m) == n.(queue := [m] + n.queue);
    assert Pool([m] + n.queue) == Pool(n.queue) + {m};
    assert w.sent + Pool([m] + n.queue) == w.sent;
  }

  lemma StepIsOnly(c: Config, w: World, q: Address, m: Message)
    requires q in w.nodes && m in w.sent
    ensures Only(q, w, Act(c, w, Deliver(q, m)))
  {
  }

  /** One prevote for the block arrives: it is queued, or it completes the polka. */
  lemma PrevoteArrives(c: Config, run: seq<Action>, w: World, q: Address, m: Message, h: Hash)
    requires LiveConfig(c) && After(c, run, w) && q in w.nodes && BeforePrecommit(w.nodes[q])
    requires m in w.sent && m.Vote? && m.phase == PrevotePhase
    requires AllSent(c, w, PrevotePhase, h, w.nodes[q].state.round)
    ensures var w' := Act(c, w, Deliver(q, m));
      && After(c, run, w') && Only(q, w, w') && w'.nodes[q].state.round == w.nodes[q].state.round
      && (Precommitted(w', q, h) || w'.nodes[q] == w.nodes[q].(queue := [m] + w.nodes[q].queue))
    ensures Passes(c.vset, Pool([m] + w.nodes[q].queue), PrevotePhase, Some(h), w.nodes[q].state.round)
      ==> Precommitted(Act(c, w, Deliver(q, m)), q, h)
  {
    var n := w.nodes[q];
    AfterStep(c, run, w, Deliver(q, m));
    StepIsOnly(c, w, q, m);
    OnlyThatBlock(c, run, w, q, m, PrevotePhase, h);
    if Passes(c.vset, Pool([m] + n.queue), PrevotePhase, Some(h), n.state.round) {
      AfterInv(c, run, w);
      PolkaLocks(c, w, q, m, h);
    } else {
      VoteQueued(c, run, w, q, m);
    }
  }

  /** The votes of these validators for the block have joined q's queue. */
  ghost predicate Gathered(w: World, w': World, q: Address, phase: Phase, h: Hash, voters: set<Address>)
    requires q in w.nodes && q in w'.nodes
  {
    && (forall m :: m in w.nodes[q].queue ==> m in w'.nodes[q].queue)
    && forall p :: p in voters ==> Vote(phase, Some(h), w.nodes[q].state.round, p) in w'.nodes[q].queue
  }

  lemma {:induction false} GatherPrevotes(c: Config, run: seq<Action>, w: World, q: Address, h: Hash, todo: set<Address>)
    returns (w': World)
    requires LiveConfig(c) && After(c, run, w) && q in w.nodes && BeforePrecommit(w.nodes[q]) && todo <= Correct(c)
    requires AllSent(c, w, PrevotePhase, h, w.nodes[q].state.round)
    ensures After(c, run, w') && Only(q, w, w') && w'.nodes[q].state.round == w.nodes[q].state.round
    ensures Precommitted(w', q, h) || (BeforePrecommit(w'.nodes[q]) && Gathered(w, w', q, PrevotePhase, h, todo))
    decreases todo
  {
    w' := w;
    if todo != {} {
      var p :| p in todo;
      var m := Vote(PrevotePhase, Some(h), w.nodes[q].state.round, p);
      PrevoteArrives(c, run, w, q, m, h);
      w' := Act(c, w, Deliver(q, m));
      if !Precommitted(w', q, h) {
        w' := GatherPrevotes(c, run, w', q, h, todo - {p});
      }
    }
  }

  lemma PrecommitOne(c: Config, run: seq<Action>, w: World, q: Address, h: Hash) returns (w': World)
    requires LiveConfig(c) && After(c, run, w) && q in w.nodes && q in Correct(c) && BeforePrecommit(w.nodes[q])
    requires AllSent(c, w, PrevotePhase, h, w.nodes[q].state.round)
    ensures After(c, run, w') && Only(q, w, w') && w'.nodes[q].state.round == w.nodes[q].state.round
    ensures Precommitted(w', q, h)
  {
    var round := w.nodes[q].state.round;
    w' := GatherPrevotes(c, run, w, q, h, Correct(c));
    if !Precommitted(w', q, h) {
      var m, n := Vote(PrevotePhase, Some(h), round, q), w'.nodes[q];
      forall p | p in Correct(c) ensures Vote(PrevotePhase, Some(h), round, p) in Pool([m] + n.queue) {
        assert Vote(PrevotePhase, Some(h), round, p) in n.queue;
      }
      AllVoted(c, Pool([m] + n.queue), PrevotePhase, Some(h), round);
      PrevoteArrives(c, run, w', q, m, h);
      w' := Act(c, w', Deliver(q, m));
    }
  }

  lemma {:induction false} PrecommitAll(c: Config, run: seq<Action>, w: World, todo: set<Address>, h: Hash, round: nat)
    returns (w': World)
    requires LiveConfig(c) && After(c, run, w) && w.nodes.Keys == Correct(c) && todo <= Correct(c)
    requires AllSent(c, w, PrevotePhase, h, round)
    requires forall q :: q in w.nodes ==> w.nodes[q].state.round == round && (q in todo ==> BeforePrecommit(w.nodes[q]))
    ensures After(c, run, w') && w'.nodes.Keys == Correct(c) && w.sent <= w'.sent
    ensures forall q :: q in w'.nodes ==> w'.nodes[q].state.round == round
    ensures forall q :: q in todo ==> Vote(PrecommitPhase, Some(h), round, q) in w'.sent
    decreases todo
  {
    w' := w;
    if todo != {} {
      var q :| q in todo;
      w' := PrecommitOne(c, run, w, q, h);
      w' := PrecommitAll(c, run, w', todo - {q}, h, round);
    }
  }

  ghost predicate Decided(w: World, q: Address, h: Hash)
  {
    q in w.nodes && w.nodes[q].state.decision == Some(h)
  }

  /** One precommit for the block arrives: it is queued, or it completes the commit quorum. */
  lemma PrecommitArrives(c: Config, run: seq<Action>, w: World, q: Address, m: Message, h: Hash)
    requires LiveConfig(c) && After(c, run, w) && q in w.nodes
    requires m in w.sent && m.Vote? && m.phase == PrecommitPhase
    requires AllSent(c, w, PrecommitPhase, h, w.nodes[q].state.round)
    ensures var w' := Act(c, w, Deliver(q, m));
      && After(c, run, w') && Only(q, w, w') && w'.nodes[q].state.round == w.nodes[q].state.round
      && (Decided(w', q, h) || w'.nodes[q] == w.nodes[q].(queue := [m] + w.nodes[q].queue))
    ensures Passes(c.vset, Pool([m] + w.nodes[q].queue), PrecommitPhase, Some(h), w.nodes[q].state.round)
      ==> Decided(Act(c, w, Deliver(q, m)), q, h)
  {
    var n := w.nodes[q];
    AfterStep(c, run, w, Deliver(q, m));
    StepIsOnly(c, w, q, m);
    OnlyThatBlock(c, run, w, q, m, PrecommitPhase, h);
    if Passes(c.vset, Pool([m] + n.queue), PrecommitPhase, Some(h), n.state.round) {
      AfterInv(c, run, w);
      QuorumDecides(c, w, q, m, h);
    } else {
      VoteQueued(c, run, w, q, m);
    }
  }

  lemma {:induction false} GatherPrecommits(c: Config, run: seq<Action>, w: World, q: Address, h: Hash, todo: set<Address>)
    returns (w': World)
    requires LiveConfig(c) && After(c, run, w) && q in w.nodes && todo <= Correct(c)
    requires AllSent(c, w, PrecommitPhase, h, w.nodes[q].state.round)
    ensures After(c, run, w') && Only(q, w, w') && w'.nodes[q].state.round == w.nodes[q].state.round
    ensures Decided(w', q, h) || Gathered(w, w', q, PrecommitPhase, h, todo)
    decreases todo
  {
    w' := w;
    if todo != {} {
      var p :| p in todo;
      var m := Vote(PrecommitPhase, Some(h), w.nodes[q].state.round, p);
      PrecommitArrives(c, run, w, q, m, h);
      w' := Act(c, w, Deliver(q, m));
      if !Decided(w', q, h) {
        w' := GatherPrecommits(c, run, w', q, h, todo - {p});
      }
    }
  }

  lemma DecideOne(c: Config, run: seq<Action>, w: World, q: Address, h: Hash) returns (w': World)
    requires LiveConfig(c) && After(c, run, w) && q in w.nodes && q in Correct(c)
    requires AllSent(c, w, PrecommitPhase, h, w.nodes[q].state.round)
    ensures After(c, run, w') && Only(q, w, w') && Decided(w', q, h)
  {
    var round := w.nodes[q].state.round;
    w' := GatherPrecommits(c, run, w, q, h, Correct(c));
    if !Decided(w', q, h) {
      var m, n := Vote(PrecommitPhase, Some(h), round, q), w'.nodes[q];
      forall p | p in Correct(c) ensures Vote(PrecommitPhase, Some(h), round, p) in Pool([m] + n.queue) {
        assert Vote(PrecommitPhase, Some(h), round, p) in n.queue;
      }
      AllVoted(c, Pool([m] + n.queue), PrecommitPhase, Some(h), round);
      PrecommitArrives(c, run, w', q, m, h);
      w' := Act(c, w', Deliver(q, m));
    }
  }

  lemma {:induction false} DecideAll(c: Config, run: seq<Action>, w: World, todo: set<Address>, h: Hash, round: nat)
    returns (w': World)
    requires LiveConfig(c) && After(c, run, w) && w.nodes.Keys == Correct(c) && todo <= Correct(c)
    requires AllSent(c, w, PrecommitPhase, h, round)
    requires forall q :: q in todo ==> w.nodes[q].state.round == round
    ensures After(c, run, w') && w'.nodes.Keys == Correct(c)
    ensures forall q :: q in w'.nodes && (q in todo || Decided(w, q, h)) ==> Decided(w', q, h)
    decreases todo
  {
    w' := w;
    if todo != {} {
      var q :| q in todo;
      w' := DecideOne(c, run, w, q, h);
      w' := DecideAll(c, run, w', todo - {q}, h, round);
    }
  }

  // ---------------------------------------------------------------- the theorem

  /** A correct validator whose lock is from the latest round. */
  ghost predicate LatestLock(w: World, leader: Address, others: set<Address>)
    requires others <= w.nodes.Keys
  {
    leader in w.nodes && forall q :: q in others ==> !Above(w.nodes[q].state.lockedRound, w.nodes[leader].state.lockedRound)
  }

  lemma {:induction false} FindLatestLock(w: World, among: set<Address>) returns (leader: Address)
    requires among != {} && among <= w.nodes.Keys
    ensures leader in among && LatestLock(w, leader, among)
    decreases among
  {
    var p :| p in among;
    leader := p;
    if among != {p} {
      var best := FindLatestLock(w, among - {p});
      if Above(w.nodes[best].state.lockedRound, w.nodes[p].state.lockedRound) { leader := best; }
    }
  }

  /** The correct validators are not an empty crowd. */
  lemma SomebodyCorrect(c: Config)
    requires LiveConfig(c)
    ensures Correct(c) != {}
  {
    if Correct(c) == {} {
      CorrectQuorum(c, {});
      NobodyIsNoQuorum(c.vset);
    }
  }

  /** The next turn of a correct validator, after all rounds below the bound. */
  lemma NextTurn(c: Config, p: Address, bound: nat) returns (round: nat)
    requires LiveConfig(c) && p in Correct(c)
    requires bound + |c.vset.validators| <= WORD64 && |c.vset.validators| <= WORD64 / 2
    ensures bound <= round && IsRoundProposer(c.vset, round, p)
  {
    var v :| v in c.vset.validators && v.address == p;
    var i := ActivePosition(c.vset.validators, v);
    var start := if bound + |c.vset.validators| <= WORD64 / 2 || bound >= WORD64 / 2 then bound else WORD64 / 2;
    round := TurnComes(c.vset, start, i);
  }

  /** The leader offers its block. */
  lemma OfferStep(c: Config, run: seq<Action>, w: World, p: Address, candidate: Hash) returns (m: Message)
    requires ValidConfig(c) && After(c, run, w) && p in w.nodes
    requires w.nodes[p].state.step == Propose && IsRoundProposer(c.vset, w.nodes[p].state.round, p)
    ensures var s, w' := w.nodes[p].state, Act(c, w, ProposeBy(p, candidate));
      && After(c, run, w') && Only(p, w, w')
      && m == Proposal(if s.validBlock.Some? then s.validBlock.value else candidate, s.round, s.validRound, p)
      && w'.sent == w.sent + {m}
      && w'.nodes[p] == Node(s.(proposedBlock := Some(m.block), step := Prevote), [m] + w.nodes[p].queue)
  {
    var n := w.nodes[p];
    m := Proposal(if n.state.validBlock.Some? then n.state.validBlock.value else candidate, n.state.round, n.state.validRound, p);
    QueueSent(c, run, w, p);
    AfterStep(c, run, w, ProposeBy(p, candidate));
    assert Pool([m] + n.queue) == Pool(n.queue) + {m};
    assert Act(c, w, ProposeBy(p, candidate)).sent == w.sent + {m};
  }

  /** The prevotes behind the leader's valid block, if it has one. */
  ghost function Backing(w: World, leader: Address): set<Message>
    requires leader in w.nodes
  {
    var vr := w.nodes[leader].state.validRound;
    set m | m in w.sent && m.Vote? && m.phase == PrevotePhase && vr.Some? && m.round == vr.value
  }

  /** The latest locked leader's block passes everybody's lock test. */
  lemma LeaderPasses(c: Config, run: seq<Action>, w: World, leader: Address, q: Address, candidate: Hash)
    requires ValidConfig(c) && WellSized(c.vset) && After(c, run, w) && leader in w.nodes && q in w.nodes && LatestLock(w, leader, {q})
    requires BeforePrecommit(w.nodes[leader]) && forall m :: m in Backing(w, leader) ==> m in w.nodes[q].queue
    ensures var s := w.nodes[leader].state;
      PassesLock(c.vset, w.nodes[q],
        Proposal(if s.validBlock.Some? then s.validBlock.value else candidate, s.round, s.validRound, leader))
  {
    var s := w.nodes[leader].state;
    AfterInv(c, run, w);
    assert LockBacked(c, w.sent, w.nodes[leader]) by { assert NodeInv(c, w.sent, leader, w.nodes[leader]); }
    assert LockBacked(c, w.sent, w.nodes[q]) by { assert NodeInv(c, w.sent, q, w.nodes[q]); }
    if w.nodes[q].state.lockedBlock.Some? {
      assert s.validRound.Some? && w.nodes[q].state.lockedRound.value <= s.validRound.value;
      BackingIsPolka(c, w, leader, q);
      LockTest(c, w, leader, q, s.round);
    }
  }

  lemma BackingIsPolka(c: Config, w: World, leader: Address, q: Address)
    requires ValidConfig(c) && WellSized(c.vset) && leader in w.nodes && q in w.nodes && LockBacked(c, w.sent, w.nodes[leader])
    requires w.nodes[leader].state.validRound.Some? && forall m :: m in Backing(w, leader) ==> m in w.nodes[q].queue
    ensures var s := w.nodes[leader].state;
      Passes(c.vset, Pool(w.nodes[q].queue), PrevotePhase, s.validBlock, s.validRound.value)
  {
    var s, pool := w.nodes[leader].state, Pool(w.nodes[q].queue);
    forall m | m in w.sent && m.Vote? && m.phase == PrevotePhase && m.round == s.validRound.value
      ensures m in pool
    {
      assert m in Backing(w, leader);
    }
    SuperMajorityIsExact(c.vset, Voters(w.sent, PrevotePhase, s.validBlock, s.validRound.value));
    SuperMajorityMonotone(c.vset, Voters(w.sent, PrevotePhase, s.validBlock, s.validRound.value),
      Voters(pool, PrevotePhase, s.validBlock, s.validRound.value));
  }

  lemma NotYetPrevoted(c: Config, run: seq<Action>, w: World, q: Address, round: nat)
    requires ValidConfig(c) && After(c, run, w) && q in w.nodes && q in Correct(c) && Untouched(c, w, round)
    ensures !HasPrevoted(w.nodes[q].queue, q, round)
  {
    QueueSent(c, run, w, q);
    assert forall m :: m in w.nodes[q].queue ==> m in Pool(w.nodes[q].queue);
  }

  /** All in one untouched round, briefed on the leader's polka. */
  ghost predicate Assembled(c: Config, w: World, leader: Address, round: nat)
  {
    && w.nodes.Keys == Correct(c) && leader in w.nodes && LatestLock(w, leader, w.nodes.Keys) && Untouched(c, w, round)
    && (forall q :: q in w.nodes ==> w.nodes[q].state.round == round && w.nodes[q].state.step == Propose)
    && forall q, m :: q in w.nodes && m in Backing(w, leader) ==> m in w.nodes[q].queue
  }

  /** Bring everybody there. */
  lemma Assemble(c: Config, run: seq<Action>, w: World, leader: Address, round: nat) returns (w': World)
    requires LiveConfig(c) && After(c, run, w) && leader in w.nodes && LatestLock(w, leader, w.nodes.Keys)
    requires w.nodes.Keys == Correct(c) && forall q :: q in w.nodes ==> w.nodes[q].state.round < round
    ensures After(c, run, w') && Assembled(c, w', leader, round)
  {
    FutureUntouched(c, run, w, round);
    var w1 := RaiseAll(c, run, w, w.nodes.Keys, round);
    assert Backing(w1, leader) == Backing(w, leader);
    w' := CatchUpAll(c, run, w1, w1.nodes.Keys, round, Backing(w1, leader));
    assert Backing(w', leader) == Backing(w1, leader);
  }

  /** The leader's proposal is out and everybody is ready to prevote for it. */
  lemma OfferToAll(c: Config, run: seq<Action>, w: World, leader: Address, round: nat, candidate: Hash)
    returns (w': World, m: Message)
    requires LiveConfig(c) && After(c, run, w) && Assembled(c, w, leader, round) && IsRoundProposer(c.vset, round, leader)
    ensures After(c, run, w') && w'.nodes.Keys == Correct(c) && m.Proposal? && m in w'.sent
    ensures m.round == round && m.sender == leader
    ensures forall q :: q in w'.nodes ==> Ready(c, w', q, m)
  {
    m := OfferStep(c, run, w, leader, candidate);
    w' := Act(c, w, ProposeBy(leader, candidate));
    forall q | q in w'.nodes ensures Ready(c, w', q, m) {
      LeaderPasses(c, run, w, leader, q, candidate);
      NotYetPrevoted(c, run, w, q, round);
      ProposalChangesNoVotes(c, w.nodes[q], q, m);
    }
  }

  /** One round led by the right validator decides. */
  lemma RoundDecides(c: Config, run: seq<Action>, w: World, leader: Address, round: nat) returns (w': World, h: Hash)
    requires LiveConfig(c) && After(c, run, w) && Assembled(c, w, leader, round) && IsRoundProposer(c.vset, round, leader)
    ensures After(c, run, w') && w'.nodes.Keys == Correct(c)
    ensures forall q :: q in w'.nodes ==> Decided(w', q, h)
  {
    var w1, m := OfferToAll(c, run, w, leader, round, ZERO_HASH);
    h := m.block;
    var w2 := PrevoteAll(c, run, w1, Correct(c), m);
    var w3 := PrecommitAll(c, run, w2, Correct(c), h, round);
    w' := DecideAll(c, run, w3, Correct(c), h, round);
  }

  /**
   From every reachable world: if a later round is the turn of a correct validator with the latest
   lock, the correct validators can go on by themselves so that all of them decide one block there.
   */
  lemma CanDecideIn(c: Config, run: seq<Action>, leader: Address, round: nat) returns (more: seq<Action>, h: Hash)
    requires LiveConfig(c) && IsRoundProposer(c.vset, round, leader)
    requires var w := Exec(c, Init(c), run);
      leader in w.nodes && LatestLock(w, leader, w.nodes.Keys) && forall p :: p in w.nodes ==> w.nodes[p].state.round < round
    ensures Honest(more)
    ensures var w := Exec(c, Init(c), run + more);
      w.nodes.Keys == Correct(c) && forall p :: p in w.nodes ==> w.nodes[p].state.decision == Some(h)
  {
    var w := Exec(c, Init(c), run);
    RunInv(c, run);
    AfterSelf(c, run);
    var w1 := Assemble(c, run, w, leader, round);
    var w2, block := RoundDecides(c, run, w1, leader, round);
    h := block;
    more :| Honest(more) && Exec(c, Init(c), run + more) == w2;
    forall p | p in w2.nodes ensures w2.nodes[p].state.decision == Some(h) {
      assert Decided(w2, p, h);
    }
  }

  /**
   No reachable world with as many rounds left below 2^64 as there are validators is stuck: the
   run can be continued by the correct validators alone so that all of them decide one block.
   */
  lemma CanAlwaysDecide(c: Config, run: seq<Action>, bound: nat) returns (more: seq<Action>, h: Hash)
    requires LiveConfig(c) && bound + |c.vset.validators| <= WORD64 && |c.vset.validators| <= WORD64 / 2
    requires forall p :: p in Exec(c, Init(c), run).nodes ==> Exec(c, Init(c), run).nodes[p].state.round < bound
    ensures Honest(more)
    ensures var w := Exec(c, Init(c), run + more);
      w.nodes.Keys == Correct(c) && forall p :: p in w.nodes ==> w.nodes[p].state.decision == Some(h)
  {
    var w := Exec(c, Init(c), run);
    RunInv(c, run);
    SomebodyCorrect(c);
    var leader := FindLatestLock(w, w.nodes.Keys);
    var round := NextTurn(c, leader, bound);
    more, h := CanDecideIn(c, run, leader, round);
  }
}
