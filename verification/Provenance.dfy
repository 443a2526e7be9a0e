/**
 Where blocks come from: in every run, whatever the rules, a correct validator prevotes only blocks
 that the proposer of the round has proposed; under sound rules only such blocks are decided.
 */
module Provenance {
  import opened Wrappers
  import opened Bytes
  import opened Validators
  import opened Engine
  import opened WrittenEngine
  import opened Protocol
  import opened Settling
  import opened Deviations
  import opened DeviationRuns
  import opened Handlers

  /** The proposer of the round has sent a proposal for the block. */
  ghost predicate Proposed(vset: ValidatorSet, sent: set<Message>, h: Hash, round: nat)
  {
    exists m :: m in sent && m.Proposal? && m.block == h && m.round == round && Leads(vset, round, m.sender)
  }

  /** What p has sent: prevotes for proposed blocks, and proposals in its own rounds. */
  ghost predicate Honours(vset: ValidatorSet, sent: set<Message>, p: Address)
  {
    && (forall m :: BlockVote(sent, m, p, PrevotePhase) ==> Proposed(vset, sent, m.value.value, m.round))
    && (forall m :: m in sent && m.Proposal? && m.sender == p ==> Leads(vset, m.round, p))
  }

  ghost predicate AllHonour(c: Config, w: World)
  {
    && w.nodes.Keys == Correct(c)
    && forall p :: p in w.nodes ==> Pool(w.nodes[p].queue) <= w.sent && Honours(c.vset, w.sent, p)
  }

  /** A message that a step may add. */
  ghost predicate Sendable(vset: ValidatorSet, sent: set<Message>, p: Address, m: Message)
  {
    && m.sender == p
    && (m.Vote? && m.phase == PrevotePhase && m.value.Some? ==> Proposed(vset, sent, m.value.value, m.round))
    && (m.Proposal? ==> Leads(vset, m.round, p))
  }

  lemma AnswerSends(r: Rules, vset: ValidatorSet, sent: set<Message>, p: Address, n: Node, m: Message, x: Message)
    requires m in sent && x in Answer(r, vset, p, n, m).queue
    ensures x in n.queue || Sendable(vset, sent, p, x)
  {
    if m.Proposal? {
      if WillAnswer(r, vset, p, n, m) { LeadsIsProposer(vset, n.state.round, m.sender); }
      assert x in n.queue || x == Vote(PrevotePhase, Some(m.block), n.state.round, p);
    } else if m.Vote? && m.phase == PrevotePhase {
      assert x in AnswerPrevotes(r, vset, p, n).queue;
    }
  }

  lemma StepSends(r: Rules, c: Config, w: World, a: Action, x: Message)
    requires Enabled(w, a) && Pool(w.nodes[a.p].queue) <= w.sent && x in StepUnder(r, c, w.nodes[a.p], a).queue
    ensures x in w.sent || Sendable(c.vset, w.sent, a.p, x)
  {
    var n := w.nodes[a.p];
    if a.Deliver? {
      AnswerSends(r, c.vset, w.sent, a.p, Queued(n, a.m), a.m, x);
      if x in Queued(n, a.m).queue && x != a.m { assert x in Pool(n.queue); }
    } else {
      LeadsIsProposer(c.vset, n.state.round, a.p);
      if x in n.queue { assert x in Pool(n.queue); }
    }
  }

  lemma HonoursGrows(vset: ValidatorSet, sent: set<Message>, sent': set<Message>, p: Address)
    requires Honours(vset, sent, p) && sent <= sent'
    requires forall m :: m in sent' && m !in sent && m.sender == p ==> Sendable(vset, sent, p, m)
    ensures Honours(vset, sent', p)
  {
    forall m | BlockVote(sent', m, p, PrevotePhase) ensures Proposed(vset, sent', m.value.value, m.round) {
      if m in sent { assert BlockVote(sent, m, p, PrevotePhase); }
      assert Proposed(vset, sent, m.value.value, m.round);
    }
  }

  lemma ActHonours(r: Rules, c: Config, w: World, a: Action)
    requires AllHonour(c, w)
    ensures AllHonour(c, ActUnder(r, c, w, a))
  {
    var w' := ActUnder(r, c, w, a);
    forall m | Enabled(w, a) && m in w'.sent ensures m in w.sent || Sendable(c.vset, w.sent, a.p, m) {
      if m !in w.sent { StepSends(r, c, w, a, m); }
    }
    forall p | p in w'.nodes ensures Pool(w'.nodes[p].queue) <= w'.sent && Honours(c.vset, w'.sent, p) {
      HonoursGrows(c.vset, w.sent, w'.sent, p);
    }
  }

  lemma {:induction false} ExecHonours(r: Rules, c: Config, w: World, run: seq<Action>)
    requires AllHonour(c, w)
    ensures AllHonour(c, ExecUnder(r, c, w, run))
    decreases |run|
  {
    if run != [] {
      ActHonours(r, c, w, run[0]);
      ExecHonours(r, c, ActUnder(r, c, w, run[0]), run[1..]);
    }
  }

  /**
   In every run, whatever the network and the rules, the code as written included: a correct
   validator's prevote for a block has a proposal for it, of the same round and from that round's
   proposer, among the sent messages; and a correct validator proposes in its own rounds only.
   */
  lemma PrevotesAnswerProposer(r: Rules, c: Config, run: seq<Action>, p: Address)
    requires p in Correct(c)
    ensures Honours(c.vset, ExecUnder(r, c, Init(c), run).sent, p)
  {
    assert AllHonour(c, Init(c));
    ExecHonours(r, c, Init(c), run);
  }

  /** Under sound rules every block that is decided was proposed by the proposer of some round. */
  lemma Validity(r: Rules, c: Config, run: seq<Action>, p: Address)
    requires Sound(r) && ValidConfig(c) && p in Correct(c)
    ensures var w := ExecUnder(r, c, Init(c), run);
      && p in w.nodes
      && (w.nodes[p].state.decision.Some? ==>
            exists round :: Proposed(c.vset, w.sent, w.nodes[p].state.decision.value, round))
  {
    var w := ExecUnder(r, c, Init(c), run);
    InitOk(!r.again, c);
    SoundRunTested(r, c, Init(c), run);
    TestedRunKeeps(r, !r.again, c, Init(c), run);
    if w.nodes[p].state.decision.Some? {
      var h := w.nodes[p].state.decision.value;
      assert DecisionBacked(c, w.sent, w.nodes[p]) by { assert NodeOk(!r.again, c, w.sent, p, w.nodes[p]); }
      var round :| CommitQuorum(c, w.sent, h, round);
      QuorumProposed(r, c, run, h, round);
    }
  }

  lemma QuorumProposed(r: Rules, c: Config, run: seq<Action>, h: Hash, round: nat)
    requires ValidConfig(c)
    requires var w := ExecUnder(r, c, Init(c), run); WorldOk(!r.again, c, w) && CommitQuorum(c, w.sent, h, round)
    ensures Proposed(c.vset, ExecUnder(r, c, Init(c), run).sent, h, round)
  {
    var w := ExecUnder(r, c, Init(c), run);
    CommitPolka(!r.again, c, w, h, round);
    var voters := Voters(w.sent, PrevotePhase, Some(h), round);
    var q := SharedVoter(c, w, voters, voters);
    PrevotesAnswerProposer(r, c, run, q);
    assert BlockVote(w.sent, Vote(PrevotePhase, Some(h), round, q), q, PrevotePhase);
  }

  /** In particular in every run of the model. */
  lemma ModelValidity(c: Config, run: seq<Action>, p: Address)
    requires ValidConfig(c) && p in Correct(c)
    ensures var w := Exec(c, Init(c), run);
      && p in w.nodes && Honours(c.vset, w.sent, p)
      && (w.nodes[p].state.decision.Some? ==>
            exists round :: Proposed(c.vset, w.sent, w.nodes[p].state.decision.value, round))
  {
    ModelRuns(c, Init(c), run);
    ModelIsSound();
    PrevotesAnswerProposer(Model(), c, run, p);
    Validity(Model(), c, run, p);
  }
}
