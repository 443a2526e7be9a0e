/**
 Each departure of the engine as written that finality or single votes cannot bear, in a run from
 the start and whatever the other rules are; and the theorems that say exactly which these are.
 */
module DeviationRuns {
  import opened Wrappers
  import opened Bytes
  import opened Validators
  import opened Engine
  import opened WrittenEngine
  import opened Protocol
  import opened Settling
  import opened Deviations
  import opened SoleRuns

  // ---------------------------------------------------------------- two small networks

  /** One validator, nobody faulty. */
  function Lone(p: Address): Config
  {
    Config(ValidatorSet([ValidatorInfo(p, 1, Active)], 1), {})
  }

  lemma LoneIsSole(p: Address)
    ensures Sole(Lone(p), p) && ValidConfig(Lone(p)) && WellSized(Lone(p).vset) && Correct(Lone(p)) == {p}
    ensures forall round :: 0 <= round < WORD64 ==> IsRoundProposer(Lone(p).vset, round, p)
  {
    var v := ValidatorInfo(p, 1, Active);
    OneValidator(v, {p});
    NoPower1(v);
    assert ActiveValidators([v]) == [v] by { assert [v][1..] == []; }
    assert Correct(Lone(p)) == {p} by { assert v in [v]; }
  }

  lemma NoPower1(v: ValidatorInfo)
    ensures Power([v], {}) == 0
  {
    assert [v][1..] == [];
  }

  /** A correct validator of power 3 and a faulty one of power 1, proposing in turn. */
  function Pair(p: Address, q: Address): Config
  {
    Config(ValidatorSet([ValidatorInfo(p, 3, Active), ValidatorInfo(q, 1, Active)], 4), {q})
  }

  lemma PairPowers(x: ValidatorInfo, y: ValidatorInfo)
    requires x.address != y.address && x.power == 3 && y.power == 1
    ensures SumOfPowers([x, y]) == 4 && WrappedPower([x, y], {x.address}) == 3 && Power([x, y], {y.address}) == 1
  {
    TwoValidators(x, y, {x.address});
    assert [x, y][1..] == [y] && [y][1..] == [];
    assert Power([y], {y.address}) == 1;
  }

  lemma PairIsSole(p: Address, q: Address)
    requires p != q
    ensures Sole(Pair(p, q), p) && ValidConfig(Pair(p, q)) && WellSized(Pair(p, q).vset) && Correct(Pair(p, q)) == {p}
    ensures IsRoundProposer(Pair(p, q).vset, 0, p)
    ensures IsRoundProposer(Pair(p, q).vset, 1, q) && IsRoundProposer(Pair(p, q).vset, 3, q)
  {
    var x, y := ValidatorInfo(p, 3, Active), ValidatorInfo(q, 1, Active);
    PairPowers(x, y);
    assert ActiveValidators([x, y]) == [x, y] by {
      assert [x, y][1..] == [y] && [y][1..] == [];
      assert ActiveValidators([y]) == [y];
    }
    assert Correct(Pair(p, q)) == {p} by { assert [x, y][0] == x && [x, y][1] == y; }
  }

  // ---------------------------------------------------------------- jumping back

  /** In the round it is in, or in a later one. */
  function Later(n: Node, round: nat): Node
  {
    if n.state.round < round then JumpToView(n, round) else n
  }

  lemma LeadsLater(plain: bool, r: Rules, c: Config, w: World, p: Address, n: Node, round: nat)
    requires Sole(c, p) && Leads(plain, r, c, w, p, n) && (r.wraps ==> round < WORD64)
    ensures Leads(plain, r, c, w, p, Later(n, round))
  {
    if n.state.round < round { LeadsRound(plain, r, c, w, p, n, round); }
  }

  function Back(n: Node, s: Address, view: nat): Node
  {
    JumpToView(Queued(n, NewView(view, s)), view)
  }

  /** Somebody announces a view, and the rule follows it. */
  lemma LeadsBack(plain: bool, r: Rules, c: Config, w: World, p: Address, n: Node, s: Address, view: nat)
    requires Sole(c, p) && Leads(plain, r, c, w, p, n) && s !in Correct(c) && r.jump(n.state.round, view)
    ensures Leads(plain, r, c, w, p, Back(n, s, view))
  {
    LeadsStep(plain, r, c, w, p, n, Deliver(p, NewView(view, s)));
    assert ReceiveUnder(r, c.vset, p, n, NewView(view, s)) == Back(n, s, view);
  }

  /** It goes back to a view, and decides there by a prevote it has cast before. */
  function Redone(n: Node, p: Address, s: Address, h: Hash, round: nat, view: nat): Node
  {
    DecidedOn(Locked(Back(Later(n, round), s, view), p, h), p, h)
  }

  lemma LeadsRedone(r: Rules, c: Config, w: World, p: Address, n: Node, s: Address, h: Hash, round: nat, view: nat)
    requires Sole(c, p) && WellSized(c.vset) && s !in Correct(c) && (r.wraps ==> round < WORD64)
    requires p in w.nodes && w.nodes[p] == n && Pool(n.queue) <= w.sent
    requires n.state.round <= round && r.jump(round, view) && Vote(PrevotePhase, Some(h), view, p) in n.queue
    ensures Leads(true, r, c, w, p, Redone(n, p, s, h, round, view))
  {
    LeadsHere(true, r, c, w, p, n);
    LeadsLater(true, r, c, w, p, n, round);
    LeadsBack(true, r, c, w, p, Later(n, round), s, view);
    LeadsLockedDecided(true, r, c, w, p, Back(Later(n, round), s, view), h);
  }

  /** Round view: propose a and prevote it. */
  function FirstRound(p: Address, a: Hash, view: nat): Node
  {
    OfferedAndPrevoted(Later(INITIAL, view), p, a)
  }

  lemma LeadsFirstRound(plain: bool, r: Rules, p: Address, a: Hash, view: nat)
    requires view < WORD64
    ensures Leads(plain, r, Lone(p), Init(Lone(p)), p, FirstRound(p, a, view))
    ensures var n := FirstRound(p, a, view);
      && Vote(PrevotePhase, Some(a), view, p) in n.queue && (forall m :: m in n.queue && m.Vote? ==> m.round == view)
      && n.state == Later(INITIAL, view).state.(proposedBlock := Some(a), step := Prevote) && n.state.round == view
  {
    LoneIsSole(p);
    LeadsStart(plain, r, Lone(p), p);
    LeadsLater(plain, r, Lone(p), Init(Lone(p)), p, INITIAL, view);
    LeadsOfferedAndPrevoted(plain, r, Lone(p), Init(Lone(p)), p, Later(INITIAL, view), a);
  }

  /** One round later: propose b, prevote it, lock it, precommit it and decide it. */
  function SecondRound(p: Address, a: Hash, b: Hash, view: nat): Node
  {
    var n := OfferedAndPrevoted(JumpToView(FirstRound(p, a, view), view + 1), p, b);
    DecidedOn(Locked(n, p, b), p, b)
  }

  lemma LeadsSecondRound(plain: bool, r: Rules, p: Address, a: Hash, b: Hash, view: nat)
    requires view + 1 < WORD64
    ensures Leads(plain, r, Lone(p), Init(Lone(p)), p, SecondRound(p, a, b, view))
    ensures var n := SecondRound(p, a, b, view);
      && Vote(PrevotePhase, Some(a), view, p) in n.queue && n.state.decision == Some(b) && n.state.round == view + 1
  {
    var c := Lone(p);
    LoneIsSole(p);
    LeadsFirstRound(plain, r, p, a, view);
    var n1 := FirstRound(p, a, view);
    LeadsRound(plain, r, c, Init(c), p, n1, view + 1);
    var n2 := JumpToView(n1, view + 1);
    assert !HasPrevoted(n2.queue, p, view + 1);
    LeadsOfferedAndPrevoted(plain, r, c, Init(c), p, n2, b);
    LeadsLockedDecided(plain, r, c, Init(c), p, OfferedAndPrevoted(n2, p, b), b);
  }

  /**
   A rule that ever follows a view below its round: a validator that has decided b goes back and,
   on its own old prevote, locks, precommits and decides a.
   */
  lemma JumpBackRedecides(r: Rules, p: Address, s: Address, a: Hash, b: Hash, round: nat, view: nat)
    returns (run: seq<Action>, more: seq<Action>)
    requires view < round && view + 1 < WORD64 && r.jump(round, view) && (r.wraps ==> round < WORD64) && p != s && a != b
    ensures ValidConfig(Lone(p)) && Plain(run) && Plain(more) && !FinalIn(r, Lone(p), run, more)
  {
    var c := Lone(p);
    LoneIsSole(p);
    LeadsSecondRound(true, r, p, a, b, view);
    var n := SecondRound(p, a, b, view);
    var n' := Redone(n, p, s, a, round, view);
    forall w | At(Init(c), w, p, n) ensures Leads(true, r, c, w, p, n') {
      LeadsRedone(r, c, w, p, n, s, a, round, view);
    }
    run, more := Redecided(true, r, c, p, n, n');
  }

  /** A timeout in the last round of a counter that wraps. */
  lemma LeadsRestart(plain: bool, r: Rules, c: Config, w: World, p: Address, n: Node)
    requires Sole(c, p) && Leads(plain, r, c, w, p, n) && r.wraps && n.state.round < WORD64
    ensures Leads(plain, r, c, w, p, JumpToView(n, 0))
  {
    var last := Later(n, WORD64 - 1);
    LeadsLater(plain, r, c, w, p, n, WORD64 - 1);
    LeadsStep(plain, r, c, w, p, last, RoundTimeout(p));
    assert StepUnder(r, c, last, RoundTimeout(p)) == JumpToView(n, 0);
  }

  /** A round counter that wraps: the validator comes back to round 0 and decides by its old prevote. */
  lemma WrapRedecides(r: Rules, p: Address, a: Hash, b: Hash) returns (run: seq<Action>, more: seq<Action>)
    requires r.wraps && a != b
    ensures ValidConfig(Lone(p)) && Plain(run) && Plain(more) && !FinalIn(r, Lone(p), run, more)
  {
    var c := Lone(p);
    LoneIsSole(p);
    LeadsSecondRound(true, r, p, a, b, 0);
    var n := SecondRound(p, a, b, 0);
    var back := JumpToView(n, 0);
    var n' := DecidedOn(Locked(back, p, a), p, a);
    forall w | At(Init(c), w, p, n) ensures Leads(true, r, c, w, p, n') {
      LeadsHere(true, r, c, w, p, n);
      LeadsRestart(true, r, c, w, p, n);
      LeadsLockedDecided(true, r, c, w, p, back, a);
    }
    run, more := Redecided(true, r, c, p, n, n');
  }

  // ---------------------------------------------------------------- the other departures

  /** Round 0: propose a, prevote it, lock it and precommit it. */
  function LockedFirst(p: Address, a: Hash): Node
  {
    Locked(OfferedAndPrevoted(INITIAL, p, a), p, a)
  }

  lemma LeadsLockedFirst(plain: bool, r: Rules, p: Address, q: Address, a: Hash)
    requires p != q
    ensures Leads(plain, r, Pair(p, q), Init(Pair(p, q)), p, LockedFirst(p, a))
    ensures var n := LockedFirst(p, a);
      && n.queue[0] == Vote(PrecommitPhase, Some(a), 0, p) && (forall m :: m in n.queue && m.Vote? ==> m.round == 0)
      && n.state == LockOn(State(0, Precommit, Some(a), None, None, None, None, None), a)
  {
    var c := Pair(p, q);
    PairIsSole(p, q);
    LeadsStart(plain, r, c, p);
    LeadsOfferedAndPrevoted(plain, r, c, Init(c), p, INITIAL, a);
    LeadsLocked(plain, r, c, Init(c), p, OfferedAndPrevoted(INITIAL, p, a), a);
  }

  /** Round 3: the faulty proposer claims round 1 for b. */
  function Misled(n: Node, p: Address, q: Address, b: Hash): Node
  {
    PrevotedFor(JumpToView(n, 3), p, Proposal(b, 3, Some(1), q))
  }

  lemma LeadsMisled(plain: bool, r: Rules, w: World, p: Address, q: Address, n: Node, a: Hash, b: Hash)
    requires p != q && r.byNumber && Leads(plain, r, Pair(p, q), w, p, n) && n.state.round == 0
    requires n.state.lockedBlock == Some(a) && n.state.lockedRound == Some(0)
    requires forall m :: m in n.queue && m.Vote? ==> m.round == 0
    ensures Leads(plain, r, Pair(p, q), w, p, Misled(n, p, q, b))
    ensures Vote(PrevotePhase, Some(b), 3, p) in Misled(n, p, q, b).queue
  {
    PairIsSole(p, q);
    LeadsRound(plain, r, Pair(p, q), w, p, n, 3);
    LeadsPrevoted(plain, r, Pair(p, q), w, p, JumpToView(n, 3), Proposal(b, 3, Some(1), q));
  }

  /**
   A rule that compares the claimed valid round as a number: with precommits for a past two thirds
   in round 0, a polka for b arises in round 3, on a claim of round 1, which had no votes at all.
   */
  lemma NumberBreaksLocks(r: Rules, p: Address, q: Address, a: Hash, b: Hash) returns (run: seq<Action>)
    requires r.byNumber && p != q
    ensures var c, sent := Pair(p, q), ExecUnder(r, Pair(p, q), Init(Pair(p, q)), run).sent;
      ValidConfig(c) && Plain(run) && CommitQuorum(c, sent, a, 0) && Polka(c, sent, Some(b), 3)
  {
    var c := Pair(p, q);
    PairIsSole(p, q);
    LeadsLockedFirst(true, r, p, q, a);
    var n := LockedFirst(p, a);
    LeadsMisled(true, r, Init(c), p, q, n, a, b);
    var n' := Misled(n, p, q, b);
    run :| Plain(run) && At(Init(c), ExecUnder(r, c, Init(c), run), p, n');
    var sent := ExecUnder(r, c, Init(c), run).sent;
    assert n.queue[0] in n'.queue;
    OwnQuorum(c, p, n', sent, PrecommitPhase, a, 0);
    OwnQuorum(c, p, n', sent, PrevotePhase, b, 3);
  }

  lemma OwnQuorum(c: Config, p: Address, n: Node, sent: set<Message>, phase: Phase, h: Hash, round: nat)
    requires Sole(c, p) && WellSized(c.vset) && Pool(n.queue) <= sent && Vote(phase, Some(h), round, p) in n.queue
    ensures Quorum(c.vset, sent, phase, Some(h), round)
  {
    assert Vote(phase, Some(h), round, p) in Pool(n.queue);
    SuperMajorityMonotone(c.vset, {p}, Voters(sent, phase, Some(h), round));
    SuperMajorityIsExact(c.vset, Voters(sent, phase, Some(h), round));
  }

  /** The same validator goes on to decide b after a. */
  lemma NumberRedecides(r: Rules, p: Address, q: Address, a: Hash, b: Hash)
    returns (run: seq<Action>, more: seq<Action>)
    requires r.byNumber && p != q && a != b
    ensures ValidConfig(Pair(p, q)) && Plain(run) && Plain(more) && !FinalIn(r, Pair(p, q), run, more)
  {
    var c := Pair(p, q);
    PairIsSole(p, q);
    LeadsLockedFirst(true, r, p, q, a);
    LeadsDecided(true, r, c, Init(c), p, LockedFirst(p, a), a);
    var n := DecidedOn(LockedFirst(p, a), p, a);
    var misled := Misled(n, p, q, b);
    var n' := DecidedOn(Locked(misled, p, b), p, b);
    forall w | At(Init(c), w, p, n) ensures Leads(true, r, c, w, p, n') {
      LeadsHere(true, r, c, w, p, n);
      LeadsMisled(true, r, w, p, q, n, a, b);
      LeadsLockedDecided(true, r, c, w, p, misled, b);
    }
    run, more := Redecided(true, r, c, p, n, n');
  }

  /** A faulty vote at the head of the list is taken for the value of all. */
  lemma ForeignVoteFound(r: Rules, c: Config, p: Address, queue: seq<Message>, phase: Phase, own: Value, round: nat)
    requires Sole(c, p) && WellSized(c.vset) && r.firstValue && queue != [] && queue[0].Vote? && queue[0].phase == phase
    requires queue[0].round == round && Vote(phase, own, round, p) in queue
    ensures FindValue(r, c.vset, queue, phase, round) == Some(queue[0].value)
  {
    var votes := CollectVotes(queue, phase, round);
    assert Vote(phase, own, round, p) in votes && votes[0] == queue[0];
    SuperMajorityMonotone(c.vset, {p}, Senders(votes));
  }

  /** A rule that takes the first value: the faulty precommit decides b, the own one then a. */
  lemma FirstValueRedecides(r: Rules, p: Address, q: Address, a: Hash, b: Hash)
    returns (run: seq<Action>, more: seq<Action>)
    requires r.firstValue && p != q && a != b
    ensures ValidConfig(Pair(p, q)) && Plain(run) && Plain(more) && !FinalIn(r, Pair(p, q), run, more)
  {
    var c := Pair(p, q);
    PairIsSole(p, q);
    LeadsLockedFirst(true, r, p, q, a);
    var n0 := LockedFirst(p, a);
    var vote := Vote(PrecommitPhase, Some(b), 0, q);
    LeadsStep(true, r, c, Init(c), p, n0, Deliver(p, vote));
    ForeignVoteFound(r, c, p, [vote] + n0.queue, PrecommitPhase, Some(a), 0);
    var n := ReceiveUnder(r, c.vset, p, n0, vote);
    assert n == Queued(n0, vote).(state := n0.state.(decision := Some(b), step := Commit));
    assert n.queue[1] == Vote(PrecommitPhase, Some(a), 0, p);
    var n' := DecidedOn(n, p, a);
    forall w | At(Init(c), w, p, n) ensures Leads(true, r, c, w, p, n') {
      LeadsHere(true, r, c, w, p, n);
      LeadsDecided(true, r, c, w, p, n, a);
    }
    run, more := Redecided(true, r, c, p, n, n');
  }

  // ---------------------------------------------------------------- answering again

  /** The faulty proposer of round 1 sends two proposals, and both are answered. */
  function Prevoted2(p: Address, q: Address, a: Hash, b: Hash): Node
  {
    var n := PrevotedFor(JumpToView(INITIAL, 1), p, Proposal(a, 1, None, q));
    PrevotedFor(n, p, Proposal(b, 1, None, q))
  }

  lemma LeadsPrevoted2(plain: bool, r: Rules, p: Address, q: Address, a: Hash, b: Hash)
    requires r.again && p != q
    ensures Leads(plain, r, Pair(p, q), Init(Pair(p, q)), p, Prevoted2(p, q, a, b))
    ensures var n := Prevoted2(p, q, a, b);
      && Vote(PrevotePhase, Some(a), 1, p) in n.queue && Vote(PrevotePhase, Some(b), 1, p) in n.queue
      && n.state.round == 1 && n.state.step == Prevote && n.state.lockedBlock.None?
  {
    var c := Pair(p, q);
    PairIsSole(p, q);
    LeadsStart(plain, r, c, p);
    LeadsRound(plain, r, c, Init(c), p, INITIAL, 1);
    var n1 := JumpToView(INITIAL, 1);
    LeadsPrevoted(plain, r, c, Init(c), p, n1, Proposal(a, 1, None, q));
    LeadsPrevoted(plain, r, c, Init(c), p, PrevotedFor(n1, p, Proposal(a, 1, None, q)), Proposal(b, 1, None, q));
  }

  /** Proposals answered again, and prevotes, or proposals once more, after the precommit. */
  lemma AgainLateRedecides(r: Rules, p: Address, q: Address, a: Hash, b: Hash)
    returns (run: seq<Action>, more: seq<Action>)
    requires r.again && (r.lateProposals || r.latePrevotes) && p != q && a != b
    ensures ValidConfig(Pair(p, q)) && Plain(run) && Plain(more) && !FinalIn(r, Pair(p, q), run, more)
  {
    var c := Pair(p, q);
    PairIsSole(p, q);
    LeadsPrevoted2(true, r, p, q, a, b);
    LeadsLockedDecided(true, r, c, Init(c), p, Prevoted2(p, q, a, b), a);
    var n := DecidedOn(Locked(Prevoted2(p, q, a, b), p, a), p, a);
    var m := Proposal(a, 1, None, q);
    var n1 := if r.latePrevotes then n else PrevotedFor(n, p, m);
    var n' := DecidedOn(Locked(n1, p, b), p, b);
    forall w | At(Init(c), w, p, n) ensures Leads(true, r, c, w, p, n') {
      LeadsHere(true, r, c, w, p, n);
      if !r.latePrevotes { LeadsPrevoted(true, r, c, w, p, n, m); }
      LeadsLockedDecided(true, r, c, w, p, n1, b);
    }
    run, more := Redecided(true, r, c, p, n, n');
  }

  /** In round view: propose and prevote a, come back, propose and prevote b. */
  function Offered2(p: Address, s: Address, a: Hash, b: Hash, round: nat, view: nat): Node
  {
    OfferedAndPrevoted(Back(Later(FirstRound(p, a, view), round), s, view), p, b)
  }

  lemma LeadsOffered2(r: Rules, p: Address, s: Address, a: Hash, b: Hash, round: nat, view: nat)
    requires r.again && view <= round && view < WORD64 && r.jump(round, view) && !r.wraps && p != s
    ensures Leads(true, r, Lone(p), Init(Lone(p)), p, Offered2(p, s, a, b, round, view))
    ensures var n := Offered2(p, s, a, b, round, view);
      && Vote(PrevotePhase, Some(a), view, p) in n.queue && Vote(PrevotePhase, Some(b), view, p) in n.queue
      && n.state.round == view && n.state.step == Prevote
  {
    var c := Lone(p);
    LoneIsSole(p);
    LeadsFirstRound(true, r, p, a, view);
    var n := FirstRound(p, a, view);
    LeadsLater(true, r, c, Init(c), p, n, round);
    LeadsBack(true, r, c, Init(c), p, Later(n, round), s, view);
    LeadsOfferedAndPrevoted(true, r, c, Init(c), p, Back(Later(n, round), s, view), b);
  }

  /** Proposals answered again, and a view followed that is not above the round. */
  lemma AgainBackRedecides(r: Rules, p: Address, s: Address, a: Hash, b: Hash, round: nat, view: nat)
    returns (run: seq<Action>, more: seq<Action>)
    requires r.again && view <= round && view < WORD64 && r.jump(round, view) && !r.wraps && p != s && a != b
    ensures ValidConfig(Lone(p)) && Plain(run) && Plain(more) && !FinalIn(r, Lone(p), run, more)
  {
    var c := Lone(p);
    LoneIsSole(p);
    LeadsOffered2(r, p, s, a, b, round, view);
    var n0 := Offered2(p, s, a, b, round, view);
    LeadsLockedDecided(true, r, c, Init(c), p, n0, a);
    var n := DecidedOn(Locked(n0, p, a), p, a);
    var n' := Redone(n, p, s, b, round, view);
    forall w | At(Init(c), w, p, n) ensures Leads(true, r, c, w, p, n') {
      LeadsRedone(r, c, w, p, n, s, b, round, view);
    }
    run, more := Redecided(true, r, c, p, n, n');
  }

  /** Proposals answered again, and a proposer that offers again after its precommit. */
  lemma AgainOfferRedecides(r: Rules, p: Address, a: Hash, b: Hash) returns (run: seq<Action>, more: seq<Action>)
    requires r.again && r.lateOffers && a != b
    ensures ValidConfig(Lone(p)) && Plain(run) && Plain(more) && !FinalIn(r, Lone(p), run, more)
  {
    var c := Lone(p);
    var w0 := Init(c);
    LoneIsSole(p);
    LeadsFirstRound(true, r, p, a, 0);
    var n1 := FirstRound(p, a, 0);
    LeadsOfferedAndPrevoted(true, r, c, w0, p, n1, b);
    var n2 := OfferedAndPrevoted(n1, p, b);
    LeadsLocked(true, r, c, w0, p, n2, a);
    LeadsOffered(true, r, c, w0, p, Locked(n2, p, a), a);
    var n3 := Offered(Locked(n2, p, a), p, a);
    LeadsLocked(true, r, c, w0, p, n3, b);
    var n4 := Locked(n3, p, b);
    assert Locked(n2, p, a).queue[0] == Vote(PrecommitPhase, Some(a), 0, p) && n4.queue[0] == Vote(PrecommitPhase, Some(b), 0, p);
    assert Vote(PrecommitPhase, Some(a), 0, p) in n3.queue;
    LeadsDecided(true, r, c, w0, p, n4, a);
    var n := DecidedOn(n4, p, a);
    var n' := DecidedOn(n, p, b);
    forall w | At(w0, w, p, n) ensures Leads(true, r, c, w, p, n') {
      LeadsHere(true, r, c, w, p, n);
      LeadsDecided(true, r, c, w, p, n, b);
    }
    run, more := Redecided(true, r, c, p, n, n');
  }

  // ---------------------------------------------------------------- recording a nil lock

  /** The next round, a nil prevote for want of a proposal, and the nil polka it is. */
  function Dropped(n: Node, p: Address): Node
  {
    var next := CastPrevote(JumpToView(n, n.state.round + 1), p, None);
    var vote := Vote(PrevotePhase, None, next.state.round, p);
    CastPrecommit(Queued(next, vote).(state := LockAs(next.state, None)), p, None)
  }

  lemma LeadsDropped(r: Rules, c: Config, w: World, p: Address, n: Node)
    requires Sole(c, p) && WellSized(c.vset) && Leads(false, r, c, w, p, n) && r.nilLocks && n.state.round + 1 < WORD64
    requires !HasPrevoted(n.queue, p, n.state.round + 1)
    ensures Leads(false, r, c, w, p, Dropped(n, p))
  {
    var n1 := JumpToView(n, n.state.round + 1);
    LeadsRound(false, r, c, w, p, n, n.state.round + 1);
    LeadsStep(false, r, c, w, p, n1, ProposeTimeout(p));
    var n2 := CastPrevote(n1, p, None);
    var vote := Vote(PrevotePhase, None, n2.state.round, p);
    assert n2.queue[0] == vote;
    LeadsStep(false, r, c, w, p, n2, Deliver(p, vote));
    OwnVoteFound(r, c, p, [vote] + n2.queue, PrevotePhase, None, n2.state.round);
    assert ReceiveUnder(r, c.vset, p, n2, vote) == Dropped(n, p);
  }

  /** A lock on nothing: decide a in round 0, drop the lock on a nil polka in round 1, decide b in round 2. */
  lemma NilLockRedecides(r: Rules, p: Address, a: Hash, b: Hash) returns (run: seq<Action>, more: seq<Action>)
    requires r.nilLocks && a != b
    ensures ValidConfig(Lone(p)) && !FinalIn(r, Lone(p), run, more)
  {
    var c := Lone(p);
    LoneIsSole(p);
    LeadsFirstRound(false, r, p, a, 0);
    LeadsLockedDecided(false, r, c, Init(c), p, FirstRound(p, a, 0), a);
    var n := DecidedOn(Locked(FirstRound(p, a, 0), p, a), p, a);
    var n2 := JumpToView(Dropped(n, p), 2);
    var n' := DecidedOn(Locked(OfferedAndPrevoted(n2, p, b), p, b), p, b);
    assert forall m :: m in n.queue && m.Vote? ==> m.round == 0;
    assert forall m :: m in n2.queue && m.Vote? ==> m.round <= 1;
    forall w | At(Init(c), w, p, n) ensures Leads(false, r, c, w, p, n') {
      LeadsHere(false, r, c, w, p, n);
      LeadsDropped(r, c, w, p, n);
      LeadsRound(false, r, c, w, p, Dropped(n, p), 2);
      LeadsOfferedAndPrevoted(false, r, c, w, p, n2, b);
      LeadsLockedDecided(false, r, c, w, p, OfferedAndPrevoted(n2, p, b), b);
    }
    run, more := Redecided(false, r, c, p, n, n');
  }

  // ---------------------------------------------------------------- exactly the final rules

  /** No view below the round is followed, except where no later round has a proposer. */
  ghost predicate NeverLower(r: Rules)
  {
    forall round: nat, view: nat :: r.jump(round, view) && view + 1 < WORD64 ==> view >= round
  }

  /** Only higher views are followed, among the rounds that have a proposer. */
  ghost predicate Rising(r: Rules)
  {
    forall round: nat, view: nat :: r.jump(round, view) && view < WORD64 ==> view > round
  }

  /**
   Votes count for one value, a claimed valid round needs its polka, the counter does not wrap, no
   lower view is followed; and proposals are answered once a round, or else votes and offers are
   made before the precommit only and views followed upwards only.
   */
  ghost predicate SoundPlain(r: Rules)
  {
    && !r.byNumber && !r.firstValue && !r.wraps && NeverLower(r)
    && (!r.again || (!r.lateProposals && !r.latePrevotes && !r.lateOffers && Rising(r)))
  }

  /** And no nil lock is recorded. */
  ghost predicate Sound(r: Rules)
  {
    SoundPlain(r) && !r.nilLocks
  }

  lemma SoundJump(r: Rules, c: Config, sent: set<Message>, p: Address, n: Node, view: nat)
    requires Sound(r) && NodeOk(!r.again, c, sent, p, n) && r.jump(n.state.round, view)
    ensures JumpAllowed(!r.again, p, n, view)
  {
    forall m | m in n.queue && OwnBlockVote(p, m)
      ensures m.round <= view && (r.again && m.phase == PrecommitPhase ==> m.round < view)
    {
      assert m in Pool(n.queue) && BlockVote(sent, m, p, m.phase);
    }
  }

  lemma SoundStepTested(r: Rules, c: Config, w: World, a: Action)
    requires Sound(r) && ValidConfig(c) && WorldOk(!r.again, c, w)
    ensures StepTested(r, !r.again, c, w, a)
  {
    if Enabled(w, a) && a.Deliver? && a.m.NewView? {
      var n := Queued(w.nodes[a.p], a.m);
      QueuedOk(!r.again, c, w.sent, a.p, w.nodes[a.p], a.m);
      if r.jump(n.state.round, a.m.view) { SoundJump(r, c, w.sent, a.p, n, a.m.view); }
    }
  }

  lemma {:induction false} SoundRunTested(r: Rules, c: Config, w: World, run: seq<Action>)
    requires Sound(r) && ValidConfig(c) && WorldOk(!r.again, c, w)
    ensures RunTested(r, !r.again, c, w, run)
    decreases |run|
  {
    if run != [] {
      SoundStepTested(r, c, w, run[0]);
      TestedStepKeeps(r, !r.again, c, w, run[0]);
      SoundRunTested(r, c, ActUnder(r, c, w, run[0]), run[1..]);
    }
  }

  /** In every network with at most a third faulty and in every run, decisions agree and stay. */
  ghost predicate FinalRules(r: Rules)
  {
    forall c, run, more :: ValidConfig(c) ==> FinalIn(r, c, run, more)
  }

  lemma SoundIsFinal(r: Rules, c: Config, run: seq<Action>, more: seq<Action>)
    requires Sound(r) && ValidConfig(c)
    ensures FinalIn(r, c, run, more)
  {
    InitOk(!r.again, c);
    SoundRunTested(r, c, Init(c), run + more);
    TestedRunsAreSafe(r, !r.again, c, run, more);
  }

  /** Rules that are not sound have a run in which a decision changes, without nil votes unless only nil locks are at fault. */
  lemma UnsoundRedecides(r: Rules) returns (c: Config, run: seq<Action>, more: seq<Action>)
    requires !Sound(r)
    ensures ValidConfig(c) && (!SoundPlain(r) ==> Plain(run) && Plain(more)) && !FinalIn(r, c, run, more)
  {
    var p: Address, q: Address := [0], [1];
    var a, b := ZERO_HASH, ZERO_HASH[0 := 1];
    assert p[0] != q[0] && a[0] != b[0];
    c := Pair(p, q);
    if r.byNumber {
      run, more := NumberRedecides(r, p, q, a, b);
    } else if r.firstValue {
      run, more := FirstValueRedecides(r, p, q, a, b);
    } else if r.wraps {
      c := Lone(p);
      run, more := WrapRedecides(r, p, a, b);
    } else if round: nat, view: nat :| r.jump(round, view) && view + 1 < WORD64 && view < round {
      c := Lone(p);
      run, more := JumpBackRedecides(r, p, q, a, b, round, view);
    } else if r.again && (r.lateProposals || r.latePrevotes) {
      run, more := AgainLateRedecides(r, p, q, a, b);
    } else if r.again && r.lateOffers {
      c := Lone(p);
      run, more := AgainOfferRedecides(r, p, a, b);
    } else if round: nat, view: nat :| r.again && r.jump(round, view) && view < WORD64 && view <= round {
      c := Lone(p);
      run, more := AgainBackRedecides(r, p, q, a, b, round, view);
    } else {
      c := Lone(p);
      run, more := NilLockRedecides(r, p, a, b);
    }
  }

  // ---------------------------------------------------------------- runs without nil votes

  /** No correct validator has prevoted nil. */
  ghost predicate NoNil(c: Config, sent: set<Message>)
  {
    forall m, p :: p in Correct(c) && VoteBy(sent, m, p, PrevotePhase) ==> m.value.Some?
  }

  function WithoutNilLocks(r: Rules): Rules
  {
    r.(nilLocks := false)
  }

  lemma NoNilFound(r: Rules, c: Config, w: World, n: Node)
    requires ValidConfig(c) && w.nodes.Keys == Correct(c) && NoNil(c, w.sent) && Pool(n.queue) <= w.sent && !r.firstValue
    ensures FindValue(r, c.vset, n.queue, PrevotePhase, n.state.round) != Some(None)
  {
    if FindValue(r, c.vset, n.queue, PrevotePhase, n.state.round) == Some(None) {
      QueueQuorum(c, w.sent, n, PrevotePhase, n.state.round);
      var voters := Voters(w.sent, PrevotePhase, None, n.state.round);
      var p := SharedVoter(c, w, voters, voters);
      assert VoteBy(w.sent, Vote(PrevotePhase, None, n.state.round, p), p, PrevotePhase);
    }
  }

  lemma SameAnswer(r: Rules, c: Config, n: Node, a: Action)
    requires !a.Forge?
    requires a.Deliver? && a.m.Vote? && a.m.phase == PrevotePhase ==>
      FindValue(r, c.vset, Queued(n, a.m).queue, PrevotePhase, n.state.round) != Some(None)
    ensures StepUnder(r, c, n, a) == StepUnder(WithoutNilLocks(r), c, n, a)
  {
    if a.Deliver? && a.m.Vote? && a.m.phase == PrevotePhase {
      var n1 := Queued(n, a.m);
      assert AnswerPrevotes(r, c.vset, a.p, n1) == AnswerPrevotes(WithoutNilLocks(r), c.vset, a.p, n1);
    }
  }

  lemma PlainStepSame(r: Rules, once: bool, c: Config, w: World, a: Action)
    requires ValidConfig(c) && WorldOk(once, c, w) && NoNil(c, w.sent) && !r.firstValue
    ensures ActUnder(r, c, w, a) == ActUnder(WithoutNilLocks(r), c, w, a)
  {
    if Enabled(w, a) {
      if a.Deliver? {
        QueuedOk(once, c, w.sent, a.p, w.nodes[a.p], a.m);
        NoNilFound(r, c, w, Queued(w.nodes[a.p], a.m));
      }
      SameAnswer(r, c, w.nodes[a.p], a);
    }
  }

  lemma NewVotes(r: Rules, c: Config, n: Node, a: Action, m: Message)
    requires !a.Forge? && Plain([a]) && m in StepUnder(r, c, n, a).queue
    ensures m in n.queue || (a.Deliver? && m == a.m) || (m.sender == a.p && (m.Vote? && m.phase == PrevotePhase ==> m.value.Some?))
  {
    assert a in [a];
    if a.Deliver? {
      var n1 := Queued(n, a.m);
      match a.m {
        case Proposal(_, _, _, _) => assert m in AnswerProposal(r, c.vset, a.p, n1, a.m).queue;
        case Vote(PrevotePhase, _, _, _) => assert m in AnswerPrevotes(r, c.vset, a.p, n1).queue;
        case _ =>
      }
    }
  }

  lemma NoNilStep(r: Rules, once: bool, c: Config, w: World, a: Action)
    requires WorldOk(once, c, w) && NoNil(c, w.sent) && Plain([a])
    ensures NoNil(c, ActUnder(r, c, w, a).sent)
  {
    var sent' := ActUnder(r, c, w, a).sent;
    forall m, p | p in Correct(c) && VoteBy(sent', m, p, PrevotePhase) ensures m.value.Some? {
      if m in w.sent {
        assert VoteBy(w.sent, m, p, PrevotePhase);
      } else if !a.Forge? {
        assert Pool(w.nodes[a.p].queue) <= w.sent by { assert NodeOk(once, c, w.sent, a.p, w.nodes[a.p]); }
        assert m !in Pool(w.nodes[a.p].queue);
        NewVotes(r, c, w.nodes[a.p], a, m);
      }
    }
  }

  /** In a run without nil votes it makes no difference whether nil locks would be recorded. */
  lemma {:induction false} PlainRunsSame(r: Rules, c: Config, w: World, run: seq<Action>)
    requires SoundPlain(r) && ValidConfig(c) && WorldOk(!r.again, c, w) && NoNil(c, w.sent) && Plain(run)
    ensures ExecUnder(r, c, w, run) == ExecUnder(WithoutNilLocks(r), c, w, run)
    decreases |run|
  {
    if run != [] {
      var r', a := WithoutNilLocks(r), run[0];
      assert Plain([a]) && Plain(run[1..]);
      PlainStepSame(r, !r.again, c, w, a);
      SoundStepTested(r', c, w, a);
      TestedStepKeeps(r', !r.again, c, w, a);
      NoNilStep(r', !r.again, c, w, a);
      PlainRunsSame(r, c, ActUnder(r, c, w, a), run[1..]);
    }
  }

  lemma SoundPlainIsFinal(r: Rules, c: Config, run: seq<Action>, more: seq<Action>)
    requires SoundPlain(r) && ValidConfig(c) && Plain(run) && Plain(more)
    ensures FinalIn(r, c, run, more)
  {
    InitOk(!r.again, c);
    assert Plain(run + more);
    PlainRunsSame(r, c, Init(c), run);
    PlainRunsSame(r, c, Init(c), run + more);
    SoundIsFinal(WithoutNilLocks(r), c, run, more);
  }

  /**
   Exactly when agreement and finality hold in every network of right total below 2^63 with at
   most a third faulty and in every run; and in every run without nil votes, which the code does
   not send. Step guards are not needed as long as proposals are answered once a round, nor does a
   jump to one's own round do harm then.
   */
  lemma FinalRulesIff(r: Rules)
    ensures FinalRules(r) <==> Sound(r)
    ensures (forall c, run, more :: ValidConfig(c) && Plain(run) && Plain(more) ==> FinalIn(r, c, run, more)) <==> SoundPlain(r)
  {
    if Sound(r) {
      forall c, run, more | ValidConfig(c) ensures FinalIn(r, c, run, more) {
        SoundIsFinal(r, c, run, more);
      }
    } else {
      var c, run, more := UnsoundRedecides(r);
      if SoundPlain(r) {
        forall c, run, more | ValidConfig(c) && Plain(run) && Plain(more) ensures FinalIn(r, c, run, more) {
          SoundPlainIsFinal(r, c, run, more);
        }
      }
    }
  }

  lemma ModelIsSound()
    ensures Sound(Model()) && !SoundPlain(Written())
  {
  }
}
