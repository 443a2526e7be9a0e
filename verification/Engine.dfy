/**
 One validator of the Tendermint-style engine: its state, the votes it collects and its
 message handlers (Consensus/Engine.hs). The handlers are functions on values; the class
 ConsensusEngine updates its fields in place and is proved against them.
 */
module Engine {
  import opened Wrappers
  import opened Bytes
  import opened Validators

  datatype Step = Propose | Prevote | Precommit | Commit

  /** A vote's value: a block hash, or None for nil. */
  type Value = Option<Hash>

  datatype State = State(
    round: nat,
    step: Step,
    proposedBlock: Option<Hash>,
    lockedBlock: Option<Hash>,
    lockedRound: Option<nat>,
    validBlock: Option<Hash>,
    validRound: Option<nat>,
    decision: Option<Hash>)

  datatype Phase = PrevotePhase | PrecommitPhase

  datatype Message =
    | Proposal(block: Hash, round: nat, validRound: Option<nat>, sender: Address)
    | Vote(phase: Phase, value: Value, round: nat, sender: Address)
    | CommitMsg(block: Hash, round: nat, sender: Address)
    | ViewChange(newView: nat, sender: Address)
    | NewView(view: nat, sender: Address)

  /** A validator's state with its message queue, newest message first. */
  datatype Node = Node(state: State, queue: seq<Message>)

  const INITIAL := Node(State(0, Propose, None, None, None, None, None, None), [])

  // ---------------------------------------------------------------- collecting votes

  /** The votes of one phase and round, in queue order. */
  function CollectVotes(queue: seq<Message>, phase: Phase, round: nat): (votes: seq<Message>)
    ensures forall m :: m in votes <==> m in queue && m.Vote? && m.phase == phase && m.round == round
  {
    if queue == [] then []
    else (
      var rest := CollectVotes(queue[1..], phase, round);
      var m := queue[0];
      if m.Vote? && m.phase == phase && m.round == round then [m] + rest else rest
    )
  }

  function Senders(votes: seq<Message>): set<Address>
  {
    set m | m in votes :: m.sender
  }

  /** The senders in a pool of messages that voted for one value. */
  ghost function Voters(pool: set<Message>, phase: Phase, value: Value, round: nat): set<Address>
  {
    set m | m in pool && m.Vote? && m.phase == phase && m.value == value && m.round == round :: m.sender
  }

  /** More than two thirds of the power voted for one value: a polka, or a commit quorum. */
  ghost predicate Quorum(vset: ValidatorSet, pool: set<Message>, phase: Phase, value: Value, round: nat)
  {
    ExactSuperMajority(vset, Voters(pool, phase, value, round))
  }

  /** The votes for one value pass the code's test, which wraps. */
  ghost predicate Passes(vset: ValidatorSet, pool: set<Message>, phase: Phase, value: Value, round: nat)
  {
    SuperMajority(vset, Voters(pool, phase, value, round))
  }

  ghost function Pool(queue: seq<Message>): set<Message>
  {
    set m | m in queue
  }

  function VotesFor(votes: seq<Message>, value: Value): set<Address>
  {
    set m | m in votes && m.Vote? && m.value == value :: m.sender
  }

  /** The value of the first vote, from position i on, that has a quorum in the whole list. */
  function QuorumValueFrom(vset: ValidatorSet, votes: seq<Message>, i: nat): Option<Value>
    requires i <= |votes| && forall m :: m in votes ==> m.Vote?
    decreases |votes| - i
  {
    if i == |votes| then None
    else if SuperMajority(vset, VotesFor(votes, votes[i].value)) then Some(votes[i].value)
    else QuorumValueFrom(vset, votes, i + 1)
  }

  /** The value the votes of a phase and round agree on, if two thirds of the power do. */
  function QuorumValue(vset: ValidatorSet, queue: seq<Message>, phase: Phase, round: nat): Option<Value>
  {
    QuorumValueFrom(vset, CollectVotes(queue, phase, round), 0)
  }

  lemma {:induction false} QuorumValueFromCorrect(vset: ValidatorSet, votes: seq<Message>, i: nat)
    requires i <= |votes| && forall m :: m in votes ==> m.Vote?
    ensures match QuorumValueFrom(vset, votes, i)
      case Some(v) => SuperMajority(vset, VotesFor(votes, v))
      case None => forall k :: i <= k < |votes| ==> !SuperMajority(vset, VotesFor(votes, votes[k].value))
    decreases |votes| - i
  {
    if i < |votes| { QuorumValueFromCorrect(vset, votes, i + 1); }
  }

  lemma {:induction false} NobodyIsNoQuorum(vset: ValidatorSet)
    ensures !SuperMajority(vset, {})
  {
    NoPower(vset.validators);
  }

  lemma {:induction false} NoPower(vs: seq<ValidatorInfo>)
    ensures WrappedPower(vs, {}) == 0
  {
    if vs != [] { NoPower(vs[1..]); }
  }

  /** A value is found exactly when the votes for some value pass, and those for the value found do. */
  lemma QuorumValueCorrect(vset: ValidatorSet, queue: seq<Message>, phase: Phase, round: nat)
    ensures match QuorumValue(vset, queue, phase, round)
      case Some(v) => Passes(vset, Pool(queue), phase, v, round)
      case None => forall v :: !Passes(vset, Pool(queue), phase, v, round)
  {
    var votes := CollectVotes(queue, phase, round);
    QuorumValueFromCorrect(vset, votes, 0);
    NobodyIsNoQuorum(vset);
    forall v
      ensures Voters(Pool(queue), phase, v, round) == VotesFor(votes, v)
      ensures VotesFor(votes, v) == {} || exists k :: 0 <= k < |votes| && votes[k].value == v
    {
      assert forall m :: m in votes && m.value == v ==> m in Pool(queue);
      if VotesFor(votes, v) != {} {
        var a :| a in VotesFor(votes, v);
        var m :| m in votes && m.value == v && m.sender == a;
      }
    }
  }

  // ---------------------------------------------------------------- the vote test as written

  /**
   The test as the handlers spell it: two thirds over the senders of all votes, then the
   value of the first vote in the list.
   */
  function FirstValueRule(vset: ValidatorSet, votes: seq<Message>): Option<Value>
    requires forall m :: m in votes ==> m.Vote?
  {
    if SuperMajority(vset, Senders(votes)) then Some(if votes == [] then None else votes[0].value) else None
  }

  /** The rule as written finds the one-value quorum on these votes, whatever the powers. */
  ghost predicate FirstValueRuleSound(votes: seq<Message>)
    requires forall m :: m in votes ==> m.Vote?
  {
    forall vset :: WellSized(vset) ==> FirstValueRule(vset, votes) == QuorumValueFrom(vset, votes, 0)
  }

  /** That holds exactly when every sender voted for the value at the head of the list. */
  lemma FirstValueRuleIff(votes: seq<Message>)
    requires votes != [] && forall m :: m in votes ==> m.Vote?
    ensures FirstValueRuleSound(votes) <==> Senders(votes) <= VotesFor(votes, votes[0].value)
  {
    var head := VotesFor(votes, votes[0].value);
    assert head <= Senders(votes);
    if Senders(votes) <= head {
      forall vset | WellSized(vset)
        ensures FirstValueRule(vset, votes) == QuorumValueFrom(vset, votes, 0)
      {
        assert head == Senders(votes);
        QuorumValueFromCorrect(vset, votes, 0);
        forall v | SuperMajority(vset, VotesFor(votes, v))
          ensures SuperMajority(vset, Senders(votes))
        {
          SuperMajorityMonotone(vset, VotesFor(votes, v), Senders(votes));
        }
      }
    } else {
      var a :| a in Senders(votes) && a !in head;
      var info := ValidatorInfo(a, 1, Active);
      var vset := ValidatorSet([info], 1);
      OneValidator(info, Senders(votes));
      assert [info][1..] == [];
      assert WrappedPower([info], head) == 0;
      assert !SuperMajority(vset, head);
      assert FirstValueRule(vset, votes) == Some(votes[0].value);
      QuorumValueFromCorrect(vset, votes, 0);
    }
  }

  lemma EqualPair(x: ValidatorInfo, y: ValidatorInfo, voters: set<Address>)
    requires x.power == y.power == 1
    ensures SumOfPowers([x, y]) == 2
    ensures WrappedPower([x, y], voters) ==
      (if x.address in voters then 1 else 0) + (if y.address in voters then 1 else 0)
  {
    assert [x, y][1..] == [y] && [y][1..] == [];
    assert SumOfPowers([y]) == 1;
    assert WrappedPower([y], voters) == if y.address in voters then 1 else 0;
  }

  /**
   Two votes in two arrival orders: two validators of equal power, one voting for a and one for b.
   The rule as written takes a in one order and b in the other; neither has two thirds.
   */
  lemma FirstValueRuleSplits(phase: Phase, round: nat, a: Hash, b: Hash)
    requires a != b
    ensures var vset := ValidatorSet([ValidatorInfo([0], 1, Active), ValidatorInfo([1], 1, Active)], 2);
      var va, vb := Vote(phase, Some(a), round, [0]), Vote(phase, Some(b), round, [1]);
      && WellSized(vset) && QuorumValueFrom(vset, [va, vb], 0) == None
      && FirstValueRule(vset, [va, vb]) == Some(Some(a)) && FirstValueRule(vset, [vb, va]) == Some(Some(b))
  {
    var x, y := ValidatorInfo([0], 1, Active), ValidatorInfo([1], 1, Active);
    var vset := ValidatorSet([x, y], 2);
    var va, vb := Vote(phase, Some(a), round, [0]), Vote(phase, Some(b), round, [1]);
    assert x.address[0] != y.address[0];
    assert Senders([va, vb]) == {[0], [1]} == Senders([vb, va]);
    assert VotesFor([va, vb], Some(a)) == {[0]} && VotesFor([va, vb], Some(b)) == {[1]};
    EqualPair(x, y, {[0], [1]});
    EqualPair(x, y, {[0]});
    EqualPair(x, y, {[1]});
    assert QuorumValueFrom(vset, [va, vb], 2) == None;
    assert QuorumValueFrom(vset, [va, vb], 1) == None;
  }

  // ---------------------------------------------------------------- handlers

  predicate HasPrevoted(queue: seq<Message>, self: Address, round: nat)
  {
    exists m :: m in queue && m.Vote? && m.phase == PrevotePhase && m.round == round && m.sender == self
  }

  /** Haskell's order on Maybe: Nothing is below every Just. */
  predicate Above(a: Option<nat>, b: Option<nat>)
  {
    a.Some? && (b.None? || a.value > b.value)
  }

  /** The claimed valid round, if it is earlier and its polka for this block has been received. */
  function JustifiedRound(vset: ValidatorSet, queue: seq<Message>, p: Message): Option<nat>
    requires p.Proposal?
  {
    if p.validRound.Some? && p.validRound.value < p.round
       && SuperMajority(vset, VotesFor(CollectVotes(queue, PrevotePhase, p.validRound.value), Some(p.block)))
    then p.validRound else None
  }

  /** The lock test of handleProposal. */
  predicate PassesLock(vset: ValidatorSet, n: Node, p: Message)
    requires p.Proposal?
  {
    match n.state.lockedBlock
    case None => true
    case Some(h) => p.block == h || Above(JustifiedRound(vset, n.queue, p), n.state.lockedRound)
  }

  predicate IsRoundProposer(vset: ValidatorSet, round: nat, a: Address)
  {
    ActiveValidators(vset.validators) != [] && round < WORD64 && RoundProposer(round, vset) == a
  }

  /** Broadcasting puts the message on the sender's own queue. */
  function Broadcast(n: Node, m: Message): Node
  {
    n.(queue := [m] + n.queue)
  }

  predicate BeforePrecommit(n: Node)
  {
    n.state.step == Propose || n.state.step == Prevote
  }

  function CastPrevote(n: Node, self: Address, value: Value): Node
  {
    Broadcast(n, Vote(PrevotePhase, value, n.state.round, self)).(state := n.state.(step := Prevote))
  }

  function CastPrecommit(n: Node, self: Address, value: Value): Node
  {
    Broadcast(n, Vote(PrecommitPhase, value, n.state.round, self)).(state := n.state.(step := Precommit))
  }

  function HandleProposal(vset: ValidatorSet, self: Address, n: Node, p: Message): Node
    requires p.Proposal?
  {
    if p.round == n.state.round && IsRoundProposer(vset, n.state.round, p.sender)
       && BeforePrecommit(n) && !HasPrevoted(n.queue, self, n.state.round) && PassesLock(vset, n, p)
    then CastPrevote(n, self, Some(p.block)) else n
  }

  function LockOn(s: State, h: Hash): State
  {
    s.(lockedBlock := Some(h), lockedRound := Some(s.round), validBlock := Some(h), validRound := Some(s.round))
  }

  function HandlePrevote(vset: ValidatorSet, self: Address, n: Node): Node
  {
    if !BeforePrecommit(n) then n else
    match QuorumValue(vset, n.queue, PrevotePhase, n.state.round)
    case None => n
    case Some(None) => CastPrecommit(n, self, None)
    case Some(Some(h)) => CastPrecommit(n.(state := LockOn(n.state, h)), self, Some(h))
  }

  /** startNextRound, also the timeout: the lock, the valid block and the decision stay. */
  function NextRound(n: Node): Node
  {
    n.(state := n.state.(round := n.state.round + 1, step := Propose))
  }

  /** No guard on an earlier decision: that it cannot change is a theorem about runs. */
  function HandlePrecommit(vset: ValidatorSet, n: Node): Node
  {
    match QuorumValue(vset, n.queue, PrecommitPhase, n.state.round)
    case None => n
    case Some(None) => NextRound(n)
    case Some(Some(h)) => n.(state := n.state.(decision := Some(h), step := Commit))
  }

  function HandleCommit(n: Node, block: Hash): Node
  {
    if n.state.step == Commit && (n.state.decision.None? || n.state.decision.value == block)
    then n.(state := n.state.(decision := Some(block))) else n
  }

  function ViewChangeSenders(queue: seq<Message>, view: nat): set<Address>
  {
    set m | m in queue && m.ViewChange? && m.newView == view :: m.sender
  }

  function HandleViewChange(vset: ValidatorSet, n: Node, view: nat): Node
  {
    if SuperMajority(vset, ViewChangeSenders(n.queue, view)) then NextRound(n) else n
  }

  /** handleNewView as written: jump to the announced view, even backwards. */
  function JumpToView(n: Node, view: nat): Node
  {
    n.(state := n.state.(round := view, step := Propose))
  }

  function HandleNewView(n: Node, view: nat): Node
  {
    if view > n.state.round then JumpToView(n, view) else n
  }

  /** A message arrives: it is queued, then dispatched to its handler. */
  function Receive(vset: ValidatorSet, self: Address, n0: Node, m: Message): Node
  {
    var n := n0.(queue := [m] + n0.queue);
    match m
    case Proposal(_, _, _, _) => HandleProposal(vset, self, n, m)
    case Vote(PrevotePhase, _, _, _) => HandlePrevote(vset, self, n)
    case Vote(PrecommitPhase, _, _, _) => HandlePrecommit(vset, n)
    case CommitMsg(b, _, _) => HandleCommit(n, b)
    case ViewChange(v, _) => HandleViewChange(vset, n, v)
    case NewView(v, _) => HandleNewView(n, v)
  }

  /** Receiving queues the message and at most votes of one's own; a decision is not dropped. */
  lemma ReceiveFrame(vset: ValidatorSet, self: Address, n: Node, m: Message)
    ensures var n' := Receive(vset, self, n, m);
      && (forall x :: x in n'.queue ==> x == m || x in n.queue || x.sender == self)
      && (n.state.decision.Some? ==> n'.state.decision.Some?)
  {
    var n1 := n.(queue := [m] + n.queue);
    match m {
      case Proposal(_, _, _, _) => assert HandleProposal(vset, self, n1, m).state.decision == n.state.decision;
      case Vote(PrevotePhase, _, _, _) => assert HandlePrevote(vset, self, n1).state.decision == n.state.decision;
      case _ =>
    }
  }

  /** proposeBlock offers the valid block, or the candidate when there is none. */
  function ProposeBlock(vset: ValidatorSet, self: Address, n: Node, candidate: Hash): Node
  {
    if n.state.step == Propose && IsRoundProposer(vset, n.state.round, self) then
      var block := match n.state.validBlock case Some(h) => h case None => candidate;
      Broadcast(n, Proposal(block, n.state.round, n.state.validRound, self))
        .(state := n.state.(proposedBlock := Some(block), step := Prevote))
    else n
  }

  /** No acceptable proposal in time: prevote nil. */
  function TimeoutPropose(self: Address, n: Node): Node
  {
    if BeforePrecommit(n) && !HasPrevoted(n.queue, self, n.state.round) then CastPrevote(n, self, None) else n
  }

  /** No polka in time: precommit nil. */
  function TimeoutPrevote(self: Address, n: Node): Node
  {
    if BeforePrecommit(n) then CastPrecommit(n, self, None) else n
  }
}
