/**
 The other half of progress: past the last round that has a proposer nobody decides any more, and
 one faulty announcement of a view can take a validator there.
 */
module Exhaustion {
  import opened Wrappers
  import opened Bytes
  import opened Validators
  import opened Engine
  import opened WrittenEngine
  import opened Protocol
  import opened Settling
  import opened Deviations
  import opened DeviationRuns
  import opened SoleRuns
  import opened Progress

  /** The weaker invariant, and with it the bound on rounds of votes for blocks, in every run of the model. */
  lemma ModelOk(c: Config, run: seq<Action>)
    requires ValidConfig(c)
    ensures WorldOk(true, c, Exec(c, Init(c), run))
  {
    InitOk(true, c);
    ModelIsSound();
    SoundRunTested(Model(), c, Init(c), run);
    TestedRunKeeps(Model(), true, c, Init(c), run);
    ModelRuns(c, Init(c), run);
  }

  /** Undecided, in a round that no 64-bit round number names. */
  ghost predicate Exhausted(w: World, p: Address)
  {
    p in w.nodes && w.nodes[p].state.round >= WORD64 && w.nodes[p].state.decision.None?
  }

  lemma NoQuorumThere(c: Config, w: World, n: Node, p: Address)
    requires ValidConfig(c) && WorldOk(true, c, w) && NodeOk(true, c, w.sent, p, n) && n.state.round >= WORD64
    ensures var found := QuorumValue(c.vset, n.queue, PrecommitPhase, n.state.round); found.None? || found == Some(None)
  {
    var found := QuorumValue(c.vset, n.queue, PrecommitPhase, n.state.round);
    if found.Some? && found.value.Some? {
      var h := found.value.value;
      QueueQuorum(c, w.sent, n, PrecommitPhase, n.state.round);
      CommitPolka(true, c, w, h, n.state.round);
      PolkaRound(true, c, w, h, n.state.round);
    }
  }

  lemma ReceiveExhausted(c: Config, w: World, p: Address, m: Message)
    requires ValidConfig(c) && WorldOk(true, c, w) && Exhausted(w, p) && m in w.sent
    ensures var n := Receive(c.vset, p, w.nodes[p], m); n.state.round >= WORD64 && n.state.decision.None?
  {
    var n := Queued(w.nodes[p], m);
    QueuedOk(true, c, w.sent, p, w.nodes[p], m);
    if m.Vote? && m.phase == PrecommitPhase {
      NoQuorumThere(c, w, n, p);
    } else if m.Proposal? {
      assert HandleProposal(c.vset, p, n, m).state.decision == n.state.decision;
    } else if m.Vote? {
      assert HandlePrevote(c.vset, p, n).state.decision == n.state.decision;
    } else {
      assert DecisionBacked(c, w.sent, n);
    }
  }

  lemma StepExhausted(c: Config, w: World, a: Action, p: Address)
    requires ValidConfig(c) && WorldOk(true, c, w) && Exhausted(w, p)
    ensures Exhausted(Act(c, w, a), p)
  {
    if a.Deliver? && a.p == p && a.m in w.sent { ReceiveExhausted(c, w, p, a.m); }
  }

  /** A validator past the last round with a proposer that has not decided never decides, whatever happens. */
  lemma {:induction false} NeverDecides(c: Config, run: seq<Action>, more: seq<Action>, p: Address)
    requires ValidConfig(c) && Exhausted(Exec(c, Init(c), run), p)
    ensures Exhausted(Exec(c, Init(c), run + more), p)
    decreases |more|
  {
    if more == [] {
      assert run + more == run;
    } else {
      var w := Exec(c, Init(c), run);
      ModelOk(c, run);
      StepExhausted(c, w, more[0], p);
      ExecAppend(c, Init(c), run, [more[0]]);
      assert [more[0]][1..] == [];
      assert Exec(c, w, [more[0]]) == Act(c, w, more[0]);
      assert run + more == (run + [more[0]]) + more[1..];
      NeverDecides(c, run + [more[0]], more[1..], p);
    }
  }

  lemma PairIsLive(p: Address, q: Address)
    requires p != q
    ensures LiveConfig(Pair(p, q))
  {
    PairIsSole(p, q);
    PairPowers(ValidatorInfo(p, 3, Active), ValidatorInfo(q, 1, Active));
  }

  /** A live network: one faulty announcement and one timeout, and no continuation ever decides. */
  lemma OneMessageExhausts(p: Address, q: Address, more: seq<Action>)
    requires p != q
    ensures var c, m := Pair(p, q), NewView(WORD64 - 1, q);
      var run := [Forge(m), Deliver(p, m), RoundTimeout(p)];
      LiveConfig(c) && Exhausted(Exec(c, Init(c), run + more), p)
  {
    var c, m := Pair(p, q), NewView(WORD64 - 1, q);
    var run := [Forge(m), Deliver(p, m), RoundTimeout(p)];
    PairIsLive(p, q);
    PairIsSole(p, q);
    var w0 := Init(c);
    var w1 := Act(c, w0, run[0]);
    var w2 := Act(c, w1, run[1]);
    var w3 := Act(c, w2, run[2]);
    assert w1 == World(w0.nodes, {m}) && w0.nodes == map[p := INITIAL];
    assert w2.nodes[p].state == INITIAL.state.(round := WORD64 - 1);
    assert w3.nodes[p].state == INITIAL.state.(round := WORD64);
    assert run[1..] == [Deliver(p, m), RoundTimeout(p)] && run[1..][1..] == [RoundTimeout(p)] && run[1..][1..][1..] == [];
    assert Exec(c, w2, [RoundTimeout(p)]) == w3;
    assert Exec(c, w1, run[1..]) == w3;
    assert Exec(c, w0, run) == w3;
    NeverDecides(c, run, more, p);
  }
}
