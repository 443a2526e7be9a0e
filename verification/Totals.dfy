/**
 What the size of the total power does, since the two-thirds test multiplies 64-bit words: below
 2^64 / 3 it is exact, below 2^63 it never passes wrongly, and from there on it can pass for two
 validators apart.
 */
module Totals {
  import opened Wrappers
  import opened Bytes
  import opened Validators
  import opened Engine
  import opened WrittenEngine
  import opened Protocol
  import opened Settling
  import opened Deviations
  import opened SoleRuns
  import opened DeviationRuns

  /** The stored total is right and t, and at most a third of the power is faulty. */
  ghost predicate OfTotal(c: Config, t: Word64)
  {
    c.vset.totalPower == t == SumOfPowers(c.vset.validators) && 3 * Power(c.vset.validators, c.byzantine) <= t
  }

  // ---------------------------------------------------------------- from 2^63 on

  /** Two validators that pass the test alone, and nobody faulty. */
  function SplitConfig(t: Word64): Config
    requires 2 * t >= WORD64
  {
    Config(SplitSet(t), {})
  }

  lemma SplitIsSole(t: Word64)
    requires 2 * t >= WORD64
    ensures var c, p, q := SplitConfig(t), [0], [1];
      && OfTotal(c, t) && Sole(c, p) && Sole(c, q) && p != q
      && IsRoundProposer(c.vset, 0, p) && IsRoundProposer(c.vset, 1, q)
  {
    SplitPasses(t);
    var vs := SplitSet(t).validators;
    var p: Address, q: Address := [0], [1];
    assert p[0] != q[0];
    assert vs[0].address == p && vs[1].address == q;
    SplitActive(vs[0], vs[1], vs[2]);
  }

  lemma SplitActive(x: ValidatorInfo, y: ValidatorInfo, z: ValidatorInfo)
    requires x.status == y.status == Active && z.status == Inactive
    ensures ActiveValidators([x, y, z]) == [x, y]
  {
    assert [x, y, z][1..] == [y, z] && [y, z][1..] == [z] && [z][1..] == [];
    assert ActiveValidators([z]) == [] && ActiveValidators([y, z]) == [y];
  }

  /** Round timeouts, then a proposal of its own, its prevote, its lock and its decision, all by itself. */
  function DecidedAlone(p: Address, h: Hash, round: nat): Node
  {
    var n := OfferedAndPrevoted(Later(INITIAL, round), p, h);
    DecidedOn(Locked(n, p, h), p, h)
  }

  lemma LeadsDecidedAlone(r: Rules, c: Config, w: World, p: Address, h: Hash, round: nat)
    requires Sole(c, p) && p in w.nodes && w.nodes[p] == INITIAL && round < WORD64 && IsRoundProposer(c.vset, round, p)
    ensures Leads(true, r, c, w, p, DecidedAlone(p, h, round)) && DecidedAlone(p, h, round).state.decision == Some(h)
  {
    LeadsHere(true, r, c, w, p, INITIAL);
    LeadsLater(true, r, c, w, p, INITIAL, round);
    LeadsOfferedAndPrevoted(true, r, c, w, p, Later(INITIAL, round), h);
    LeadsLockedDecided(true, r, c, w, p, OfferedAndPrevoted(Later(INITIAL, round), p, h), h);
  }

  /**
   Nobody faulty, whatever the rules, the readings included: for every total from 2^63 on there is a
   network in which one correct validator decides a in round 0 and another decides b in round 1.
   */
  lemma SplitDisagrees(r: Rules, t: Word64, a: Hash, b: Hash) returns (run: seq<Action>, more: seq<Action>)
    requires 2 * t >= WORD64 && a != b
    ensures OfTotal(SplitConfig(t), t) && SplitConfig(t).byzantine == {} && Plain(run) && Plain(more)
    ensures var w := ExecUnder(r, SplitConfig(t), Init(SplitConfig(t)), run + more);
      && [0] in w.nodes && [1] in w.nodes
      && w.nodes[[0]].state.decision == Some(a) && w.nodes[[1]].state.decision == Some(b)
    ensures !FinalIn(r, SplitConfig(t), run, more)
  {
    var c: Config, p: Address, q: Address := SplitConfig(t), [0], [1];
    SplitIsSole(t);
    var np, nq := DecidedAlone(p, a, 0), DecidedAlone(q, b, 1);
    LeadsDecidedAlone(r, c, Init(c), p, a, 0);
    run :| Plain(run) && At(Init(c), ExecUnder(r, c, Init(c), run), p, np);
    var w1 := ExecUnder(r, c, Init(c), run);
    assert w1.nodes[q] == INITIAL;
    LeadsDecidedAlone(r, c, w1, q, b, 1);
    more :| Plain(more) && At(w1, ExecUnder(r, c, w1, more), q, nq);
    ExecUnderAppend(r, c, Init(c), run, more);
    assert w1.nodes[p] == np;
    assert !Settled(w1, ExecUnder(r, c, Init(c), run + more), p, q);
  }

  /** In every network of total t with at most a third faulty and in every run, decisions agree and stay. */
  ghost predicate FinalAt(r: Rules, t: Word64)
  {
    forall c, run, more :: OfTotal(c, t) ==> FinalIn(r, c, run, more)
  }

  /** For sound rules, those of the model among them, that is so exactly for totals below 2^63. */
  lemma FinalAtIff(r: Rules, t: Word64)
    requires Sound(r)
    ensures FinalAt(r, t) <==> 2 * t < WORD64
  {
    if 2 * t < WORD64 {
      forall c, run, more | OfTotal(c, t) ensures FinalIn(r, c, run, more) {
        SoundIsFinal(r, c, run, more);
      }
    } else {
      var a, b := ZERO_HASH, ZERO_HASH[0 := 1];
      assert a[0] != b[0];
      var run, more := SplitDisagrees(r, t, a, b);
    }
  }

  // ---------------------------------------------------------------- between 2^64 / 3 and 2^63

  function LoneOf(p: Address, t: Word64): Config
  {
    Config(ValidatorSet([ValidatorInfo(p, t, Active)], t), {})
  }

  /** There the only validator of a network does not pass the test, whoever else votes. */
  lemma NeverPasses(p: Address, t: Word64, voters: set<Address>)
    requires 3 * t >= WORD64 > 2 * t
    ensures OfTotal(LoneOf(p, t), t) && ValidConfig(LoneOf(p, t)) && !SuperMajority(LoneOf(p, t).vset, voters)
  {
    var v := ValidatorInfo(p, t, Active);
    OneValidator(v, {p});
    NoPower1(v);
    assert [v][1..] == [];
    assert WrappedPower([v], voters) == if p in voters then t else 0;
    SmallMod(2 * t);
    assert (t * 3) % WORD64 == 3 * t - WORD64;
  }

  /** And so it never decides, in no run at all. */
  lemma LargeNeverDecides(p: Address, t: Word64, run: seq<Action>)
    requires 3 * t >= WORD64 > 2 * t
    ensures OfTotal(LoneOf(p, t), t) && Undecided(Exec(LoneOf(p, t), Init(LoneOf(p, t)), run))
  {
    NeverPasses(p, t, {});
    LargeStaysUndecided(p, t, Init(LoneOf(p, t)), run);
  }

  lemma {:induction false} LargeStaysUndecided(p: Address, t: Word64, w: World, run: seq<Action>)
    requires 3 * t >= WORD64 > 2 * t && Undecided(w)
    ensures Undecided(Exec(LoneOf(p, t), w, run))
    decreases |run|
  {
    if run != [] {
      LargeStep(p, t, w, run[0]);
      LargeStaysUndecided(p, t, Act(LoneOf(p, t), w, run[0]), run[1..]);
    }
  }

  ghost predicate Undecided(w: World)
  {
    forall q :: q in w.nodes ==> w.nodes[q].state.decision.None? && w.nodes[q].state.step != Commit
  }

  lemma NothingFound(p: Address, t: Word64, queue: seq<Message>, phase: Phase, round: nat)
    requires 3 * t >= WORD64 > 2 * t
    ensures QuorumValue(LoneOf(p, t).vset, queue, phase, round).None?
  {
    QuorumValueCorrect(LoneOf(p, t).vset, queue, phase, round);
    if QuorumValue(LoneOf(p, t).vset, queue, phase, round).Some? {
      var v := QuorumValue(LoneOf(p, t).vset, queue, phase, round).value;
      NeverPasses(p, t, Voters(Pool(queue), phase, v, round));
    }
  }

  lemma LargeStep(p: Address, t: Word64, w: World, a: Action)
    requires 3 * t >= WORD64 > 2 * t && Undecided(w)
    ensures Undecided(Act(LoneOf(p, t), w, a))
  {
    if !a.Forge? && a.p in w.nodes { LargeLocal(p, t, w.nodes[a.p], a); }
  }

  lemma LargeLocal(p: Address, t: Word64, n: Node, a: Action)
    requires 3 * t >= WORD64 > 2 * t && !a.Forge? && n.state.decision.None? && n.state.step != Commit
    ensures var s := LocalStep(LoneOf(p, t), n, a).state; s.decision.None? && s.step != Commit
  {
    if a.Deliver? {
      NothingFound(p, t, [a.m] + n.queue, PrevotePhase, n.state.round);
      NothingFound(p, t, [a.m] + n.queue, PrecommitPhase, n.state.round);
    }
  }
}
