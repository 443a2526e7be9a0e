/**
 A weaker invariant than that of module Protocol, enough for agreement and finality. Validators
 may precommit more than once a round, act in any step and stay in a round they jump to; they
 either prevote one block a round (once), or precommit one block a round before they go on.
 */
module Settling {
  import opened Wrappers
  import opened Bytes
  import opened Validators
  import opened Engine
  import opened Protocol

  ghost predicate BlockVote(sent: set<Message>, m: Message, p: Address, phase: Phase)
  {
    VoteBy(sent, m, p, phase) && m.value.Some?
  }

  /** A prevote that departs from no earlier precommit, or only with a polka in between. */
  ghost predicate Justified(c: Config, sent: set<Message>, q: Address, value: Value, round: nat)
  {
    q in Correct(c) ==> forall m :: BlockVote(sent, m, q, PrecommitPhase) && m.round < round ==>
      m.value == value || PolkaBetween(c, sent, value, m.round, round)
  }

  ghost function JustVoters(c: Config, sent: set<Message>, value: Value, round: nat): set<Address>
  {
    set q | q in Voters(sent, PrevotePhase, value, round) && Justified(c, sent, q, value, round)
  }

  /** A prevote is justified, or joins a quorum of justified ones. */
  ghost predicate WellJustified(c: Config, sent: set<Message>, q: Address, value: Value, round: nat)
  {
    Justified(c, sent, q, value, round) || ExactSuperMajority(c.vset, JustVoters(c, sent, value, round))
  }

  // ---------------------------------------------------------------- the invariant

  ghost predicate VotesKept(sent: set<Message>, p: Address, n: Node)
  {
    Pool(n.queue) <= sent && forall m, phase :: VoteBy(sent, m, p, phase) ==> m in Pool(n.queue)
  }

  /** Votes for blocks are not ahead of the round, and only in rounds that have a proposer. */
  ghost predicate Bounded(sent: set<Message>, p: Address, n: Node)
  {
    forall m, phase :: BlockVote(sent, m, p, phase) ==> m.round <= n.state.round && m.round < WORD64
  }

  ghost predicate SameRoundSame(sent: set<Message>, p: Address, phase: Phase)
  {
    forall m, m' :: BlockVote(sent, m, p, phase) && BlockVote(sent, m', p, phase) && m.round == m'.round ==> m == m'
  }

  ghost predicate PrecommitsBehind(sent: set<Message>, p: Address, n: Node)
  {
    forall m :: BlockVote(sent, m, p, PrecommitPhase) ==> m.round < n.state.round || !BeforePrecommit(n)
  }

  ghost predicate Singly(once: bool, sent: set<Message>, p: Address, n: Node)
  {
    if once then SameRoundSame(sent, p, PrevotePhase)
    else SameRoundSame(sent, p, PrecommitPhase) && PrecommitsBehind(sent, p, n)
  }

  ghost predicate LockKept(c: Config, sent: set<Message>, n: Node)
  {
    var s := n.state;
    && s.validBlock == s.lockedBlock && s.validRound == s.lockedRound
    && (s.lockedBlock.Some? <==> s.lockedRound.Some?)
    && (s.lockedRound.Some? ==>
          s.lockedRound.value <= s.round && s.lockedRound.value < WORD64
          && Polka(c, sent, s.lockedBlock, s.lockedRound.value))
  }

  ghost predicate AllJustified(c: Config, sent: set<Message>, p: Address)
  {
    forall m :: BlockVote(sent, m, p, PrevotePhase) ==> WellJustified(c, sent, p, m.value, m.round)
  }

  ghost predicate NodeOk(once: bool, c: Config, sent: set<Message>, p: Address, n: Node)
  {
    && VotesKept(sent, p, n)
    && Bounded(sent, p, n)
    && Singly(once, sent, p, n)
    && LockKept(c, sent, n)
    && PrecommitsLocked(c, sent, p, n)
    && AllJustified(c, sent, p)
    && DecisionBacked(c, sent, n)
  }

  ghost predicate WorldOk(once: bool, c: Config, w: World)
  {
    w.nodes.Keys == Correct(c) && forall p :: p in w.nodes ==> NodeOk(once, c, w.sent, p, w.nodes[p])
  }

  // ---------------------------------------------------------------- growing message sets

  /** New precommits for blocks are not behind their sender's prevotes for blocks. */
  ghost predicate LatePrecommits(c: Config, sent: set<Message>, sent': set<Message>)
  {
    forall q, m, m' ::
      q in Correct(c) && BlockVote(sent', m', q, PrecommitPhase) && m' !in sent && BlockVote(sent', m, q, PrevotePhase)
      ==> m.round <= m'.round
  }

  lemma JustifiedGrows(c: Config, sent: set<Message>, sent': set<Message>, q: Address, value: Value, round: nat)
    requires ValidConfig(c) && sent <= sent' && LatePrecommits(c, sent, sent') && value.Some?
    requires Vote(PrevotePhase, value, round, q) in sent && Justified(c, sent, q, value, round)
    ensures Justified(c, sent', q, value, round)
  {
    QuorumsGrow(c, sent, sent');
    if q in Correct(c) {
      forall m | BlockVote(sent', m, q, PrecommitPhase) && m.round < round
        ensures m.value == value || PolkaBetween(c, sent', value, m.round, round)
      {
        assert BlockVote(sent', Vote(PrevotePhase, value, round, q), q, PrevotePhase);
        assert BlockVote(sent, m, q, PrecommitPhase);
      }
    }
  }

  lemma JustVotersGrow(c: Config, sent: set<Message>, sent': set<Message>, value: Value, round: nat)
    requires ValidConfig(c) && sent <= sent' && LatePrecommits(c, sent, sent') && value.Some?
    ensures JustVoters(c, sent, value, round) <= JustVoters(c, sent', value, round)
  {
    forall q | q in JustVoters(c, sent, value, round) ensures q in JustVoters(c, sent', value, round) {
      assert Vote(PrevotePhase, value, round, q) in sent;
      JustifiedGrows(c, sent, sent', q, value, round);
    }
  }

  lemma WellJustifiedGrows(c: Config, sent: set<Message>, sent': set<Message>, q: Address, value: Value, round: nat)
    requires ValidConfig(c) && sent <= sent' && LatePrecommits(c, sent, sent') && value.Some?
    requires Vote(PrevotePhase, value, round, q) in sent && WellJustified(c, sent, q, value, round)
    ensures WellJustified(c, sent', q, value, round)
  {
    if Justified(c, sent, q, value, round) {
      JustifiedGrows(c, sent, sent', q, value, round);
    } else {
      JustVotersGrow(c, sent, sent', value, round);
      ExactMonotone(c.vset, JustVoters(c, sent, value, round), JustVoters(c, sent', value, round));
    }
  }

  lemma AllJustifiedGrows(c: Config, sent: set<Message>, sent': set<Message>, p: Address)
    requires ValidConfig(c) && sent <= sent' && LatePrecommits(c, sent, sent') && AllJustified(c, sent, p)
    ensures forall m :: BlockVote(sent, m, p, PrevotePhase) ==> WellJustified(c, sent', p, m.value, m.round)
  {
    forall m | BlockVote(sent, m, p, PrevotePhase) ensures WellJustified(c, sent', p, m.value, m.round) {
      WellJustifiedGrows(c, sent, sent', p, m.value, m.round);
    }
  }

  ghost predicate SameBlockVotes(sent: set<Message>, sent': set<Message>, p: Address)
  {
    forall m, phase :: BlockVote(sent', m, p, phase) ==> m in sent
  }

  lemma BackedGrows(c: Config, sent: set<Message>, sent': set<Message>, p: Address, n: Node, n': Node)
    requires ValidConfig(c) && sent <= sent' && SameBlockVotes(sent, sent', p)
    requires LockKept(c, sent, n) && PrecommitsLocked(c, sent, p, n) && DecisionBacked(c, sent, n)
    requires n'.state == n.state.(round := n'.state.round, step := n'.state.step, proposedBlock := n'.state.proposedBlock)
    requires n.state.lockedRound.Some? ==> n.state.lockedRound.value <= n'.state.round
    requires n'.state.step == Commit ==> n.state.step == Commit
    ensures LockKept(c, sent', n') && PrecommitsLocked(c, sent', p, n') && DecisionBacked(c, sent', n')
  {
    QuorumsGrow(c, sent, sent');
    forall m | VoteBy(sent', m, p, PrecommitPhase) && m.value.Some? ensures VoteBy(sent, m, p, PrecommitPhase) {
      assert BlockVote(sent', m, p, PrecommitPhase);
    }
  }

  /** A node that votes for no block and keeps lock and decision, while others may send anything. */
  lemma StableOk(once: bool, c: Config, sent: set<Message>, sent': set<Message>, p: Address, n: Node, n': Node)
    requires ValidConfig(c) && NodeOk(once, c, sent, p, n)
    requires sent <= sent' && LatePrecommits(c, sent, sent') && SameBlockVotes(sent, sent', p) && VotesKept(sent', p, n')
    requires n'.state == n.state.(round := n'.state.round, step := n'.state.step, proposedBlock := n'.state.proposedBlock)
    requires n.state.lockedRound.Some? ==> n.state.lockedRound.value <= n'.state.round
    requires forall m, phase :: BlockVote(sent, m, p, phase) ==> m.round <= n'.state.round
    requires n'.state.step == Commit ==> n.state.step == Commit
    requires !once ==> PrecommitsBehind(sent, p, n')
    ensures NodeOk(once, c, sent', p, n')
  {
    forall m, phase | BlockVote(sent', m, p, phase) ensures BlockVote(sent, m, p, phase) {}
    BackedGrows(c, sent, sent', p, n, n');
    AllJustifiedGrows(c, sent, sent', p);
  }

  // ---------------------------------------------------------------- the steps of one validator

  /** The node is in order after a step, whose messages are its own. */
  ghost predicate StepOk(once: bool, c: Config, sent: set<Message>, p: Address, n: Node)
  {
    var sent' := sent + Pool(n.queue);
    && NodeOk(once, c, sent', p, n) && LatePrecommits(c, sent, sent')
    && forall m :: m in n.queue ==> m in sent || m.sender == p
  }

  ghost predicate Harmless(m: Message, p: Address)
  {
    m.sender == p && !(m.Vote? && m.value.Some?)
  }

  /** Queueing a message, and sending something other than a vote for a block. */
  lemma QuietOk(once: bool, c: Config, sent: set<Message>, p: Address, n: Node, n': Node)
    requires ValidConfig(c) && NodeOk(once, c, sent, p, n)
    requires Pool(n.queue) <= Pool(n'.queue) && forall m :: m in n'.queue ==> m in sent || Harmless(m, p)
    requires n'.state == n.state.(round := n'.state.round, step := n'.state.step, proposedBlock := n'.state.proposedBlock)
    requires n.state.lockedRound.Some? ==> n.state.lockedRound.value <= n'.state.round
    requires forall m, phase :: BlockVote(sent, m, p, phase) ==> m.round <= n'.state.round
    requires n'.state.step == Commit ==> n.state.step == Commit
    requires !once ==> PrecommitsBehind(sent, p, n')
    ensures StepOk(once, c, sent, p, n')
  {
    var sent' := sent + Pool(n'.queue);
    forall q, m, phase | BlockVote(sent', m, q, phase) ensures m in sent {
      assert m in sent || m in n'.queue;
    }
    forall m, phase | VoteBy(sent', m, p, phase) ensures m in Pool(n'.queue) {
      if m in sent { assert VoteBy(sent, m, p, phase); }
    }
    StableOk(once, c, sent, sent', p, n, n');
  }

  lemma QueuePool(n: Node, m: Message)
    ensures Pool([m] + n.queue) == Pool(n.queue) + {m}
  {
  }

  /** A prevote for a block that passes the lock test is justified, or joins a justified quorum. */
  lemma LockTestJustifies(c: Config, sent: set<Message>, p: Address, n: Node, h: Hash)
    requires LockKept(c, sent, n) && PrecommitsLocked(c, sent, p, n)
    requires
      || n.state.lockedBlock.None? || n.state.lockedBlock == Some(h)
      || PolkaBetween(c, sent, Some(h), n.state.lockedRound.value, n.state.round)
    requires Polka(c, sent, Some(h), n.state.round) ==> ExactSuperMajority(c.vset, JustVoters(c, sent, Some(h), n.state.round))
    ensures WellJustified(c, sent, p, Some(h), n.state.round)
  {
    var s := n.state;
    if !(s.lockedBlock == Some(h) && s.lockedRound == Some(s.round)) {
      forall m | BlockVote(sent, m, p, PrecommitPhase) && m.round < s.round
        ensures m.value == Some(h) || PolkaBetween(c, sent, Some(h), m.round, s.round)
      {
        assert VoteBy(sent, m, p, PrecommitPhase);
        if s.lockedBlock == Some(h) {
          if m.round < s.lockedRound.value { assert PolkaBetween(c, sent, Some(h), m.round, s.round); }
        } else {
          var r :| s.lockedRound.value < r < s.round && Polka(c, sent, Some(h), r);
          assert PolkaBetween(c, sent, Some(h), m.round, s.round);
        }
      }
    }
  }

  lemma PrevoteOk(once: bool, c: Config, sent: set<Message>, p: Address, n: Node, h: Hash)
    requires ValidConfig(c) && NodeOk(once, c, sent, p, n) && n.state.round < WORD64
    requires once ==> !HasPrevoted(n.queue, p, n.state.round)
    requires !once ==> PrecommitsBehind(sent, p, CastPrevote(n, p, Some(h)))
    requires WellJustified(c, sent, p, Some(h), n.state.round)
    ensures StepOk(once, c, sent, p, CastPrevote(n, p, Some(h)))
  {
    var n', vote := CastPrevote(n, p, Some(h)), Vote(PrevotePhase, Some(h), n.state.round, p);
    var sent' := sent + Pool(n'.queue);
    QueuePool(n, vote);
    assert sent' == sent + {vote};
    assert LatePrecommits(c, sent, sent');
    PrevoteVotes(once, sent, p, n, h);
    PrevoteBacked(c, sent, p, n, h);
    AllJustifiedGrows(c, sent, sent', p);
    NewPrevoteJustified(c, sent, sent', p, Some(h), n.state.round);
  }

  lemma NewPrevoteJustified(c: Config, sent: set<Message>, sent': set<Message>, p: Address, value: Value, round: nat)
    requires ValidConfig(c) && value.Some? && sent' == sent + {Vote(PrevotePhase, value, round, p)}
    requires WellJustified(c, sent, p, value, round)
    ensures WellJustified(c, sent', p, value, round)
  {
    QuorumsGrow(c, sent, sent');
    if Justified(c, sent, p, value, round) {
      forall m | p in Correct(c) && BlockVote(sent', m, p, PrecommitPhase) && m.round < round
        ensures m.value == value || PolkaBetween(c, sent', value, m.round, round)
      {
        assert BlockVote(sent, m, p, PrecommitPhase);
      }
    } else {
      JustVotersGrow(c, sent, sent', value, round);
      ExactMonotone(c.vset, JustVoters(c, sent, value, round), JustVoters(c, sent', value, round));
    }
  }

  lemma PrevoteVotes(once: bool, sent: set<Message>, p: Address, n: Node, h: Hash)
    requires VotesKept(sent, p, n) && Bounded(sent, p, n) && Singly(once, sent, p, n) && n.state.round < WORD64
    requires once ==> !HasPrevoted(n.queue, p, n.state.round)
    requires !once ==> PrecommitsBehind(sent, p, CastPrevote(n, p, Some(h)))
    ensures var n', sent' := CastPrevote(n, p, Some(h)), sent + {Vote(PrevotePhase, Some(h), n.state.round, p)};
      VotesKept(sent', p, n') && Bounded(sent', p, n') && Singly(once, sent', p, n')
  {
    var n', vote := CastPrevote(n, p, Some(h)), Vote(PrevotePhase, Some(h), n.state.round, p);
    var sent' := sent + {vote};
    QueuePool(n, vote);
    assert forall m, phase :: VoteBy(sent', m, p, phase) ==> m == vote || VoteBy(sent, m, p, phase);
    assert forall m, phase :: BlockVote(sent', m, p, phase) ==> m == vote || BlockVote(sent, m, p, phase);
    if once {
      forall m | BlockVote(sent, m, p, PrevotePhase) ensures m.round != n.state.round {
        assert VoteBy(sent, m, p, PrevotePhase);
      }
    }
  }

  lemma PrevoteBacked(c: Config, sent: set<Message>, p: Address, n: Node, h: Hash)
    requires ValidConfig(c) && LockKept(c, sent, n) && PrecommitsLocked(c, sent, p, n) && DecisionBacked(c, sent, n)
    ensures var n', sent' := CastPrevote(n, p, Some(h)), sent + {Vote(PrevotePhase, Some(h), n.state.round, p)};
      LockKept(c, sent', n') && PrecommitsLocked(c, sent', p, n') && DecisionBacked(c, sent', n')
  {
    var sent' := sent + {Vote(PrevotePhase, Some(h), n.state.round, p)};
    QuorumsGrow(c, sent, sent');
    assert forall m :: VoteBy(sent', m, p, PrecommitPhase) ==> VoteBy(sent, m, p, PrecommitPhase);
  }

  function LockedOn(n: Node, p: Address, h: Hash): Node
  {
    CastPrecommit(n.(state := LockOn(n.state, h)), p, Some(h))
  }

  /** Locking and precommitting a block with a polka; where prevotes are single, it is the round's only one. */
  lemma LockOk(once: bool, c: Config, sent: set<Message>, p: Address, n: Node, h: Hash)
    requires ValidConfig(c) && NodeOk(once, c, sent, p, n) && n.state.round < WORD64
    requires Polka(c, sent, Some(h), n.state.round) && (once || BeforePrecommit(n))
    requires once ==> forall h' :: Polka(c, sent, Some(h'), n.state.round) ==> h' == h
    ensures StepOk(once, c, sent, p, LockedOn(n, p, h))
  {
    var n', vote := LockedOn(n, p, h), Vote(PrecommitPhase, Some(h), n.state.round, p);
    var sent' := sent + Pool(n'.queue);
    QueuePool(n, vote);
    assert sent' == sent + {vote};
    assert LatePrecommits(c, sent, sent') by {
      forall q, m, m' | q in Correct(c) && BlockVote(sent', m', q, PrecommitPhase) && m' !in sent && BlockVote(sent', m, q, PrevotePhase)
        ensures m.round <= m'.round
      {
        assert m' == vote && BlockVote(sent, m, p, PrevotePhase);
      }
    }
    LockVotes(once, c, sent, p, n, h);
    LockBackedOk(once, c, sent, p, n, h);
    AllJustifiedGrows(c, sent, sent', p);
    assert forall m :: BlockVote(sent', m, p, PrevotePhase) ==> BlockVote(sent, m, p, PrevotePhase);
  }

  lemma LockVotes(once: bool, c: Config, sent: set<Message>, p: Address, n: Node, h: Hash)
    requires VotesKept(sent, p, n) && Bounded(sent, p, n) && Singly(once, sent, p, n) && n.state.round < WORD64
    requires once || BeforePrecommit(n)
    ensures var n', sent' := LockedOn(n, p, h), sent + {Vote(PrecommitPhase, Some(h), n.state.round, p)};
      VotesKept(sent', p, n') && Bounded(sent', p, n') && Singly(once, sent', p, n')
  {
    var n', vote := LockedOn(n, p, h), Vote(PrecommitPhase, Some(h), n.state.round, p);
    var sent' := sent + {vote};
    QueuePool(n, vote);
    assert forall m, phase :: VoteBy(sent', m, p, phase) ==> m == vote || VoteBy(sent, m, p, phase);
    assert forall m, phase :: BlockVote(sent', m, p, phase) ==> m == vote || BlockVote(sent, m, p, phase);
  }

  lemma LockBackedOk(once: bool, c: Config, sent: set<Message>, p: Address, n: Node, h: Hash)
    requires ValidConfig(c) && NodeOk(once, c, sent, p, n) && n.state.round < WORD64
    requires Polka(c, sent, Some(h), n.state.round) && (once || BeforePrecommit(n))
    requires once ==> forall h' :: Polka(c, sent, Some(h'), n.state.round) ==> h' == h
    ensures var n', sent' := LockedOn(n, p, h), sent + {Vote(PrecommitPhase, Some(h), n.state.round, p)};
      LockKept(c, sent', n') && PrecommitsLocked(c, sent', p, n') && DecisionBacked(c, sent', n')
  {
    var n', vote := LockedOn(n, p, h), Vote(PrecommitPhase, Some(h), n.state.round, p);
    var sent' := sent + {vote};
    QuorumsGrow(c, sent, sent');
    forall m | VoteBy(sent', m, p, PrecommitPhase) && m.value.Some?
      ensures Polka(c, sent', m.value, m.round) && m.round <= n.state.round && (m.round == n.state.round ==> m.value == Some(h))
    {
      if m != vote {
        assert BlockVote(sent, m, p, PrecommitPhase);
        assert Polka(c, sent, m.value, m.round);
      }
    }
  }

  lemma DecideOk(once: bool, c: Config, sent: set<Message>, p: Address, n: Node, h: Hash)
    requires NodeOk(once, c, sent, p, n) && CommitQuorum(c, sent, h, n.state.round)
    ensures StepOk(once, c, sent, p, n.(state := n.state.(decision := Some(h), step := Commit)))
  {
    var n' := n.(state := n.state.(decision := Some(h), step := Commit));
    assert Pool(n'.queue) == Pool(n.queue) && sent + Pool(n'.queue) == sent;
  }

  // ---------------------------------------------------------------- what the invariant gives

  /** Two quorums of votes have a correct voter in common. */
  lemma SharedVoter(c: Config, w: World, a: set<Address>, b: set<Address>) returns (p: Address)
    requires ValidConfig(c) && w.nodes.Keys == Correct(c) && ExactSuperMajority(c.vset, a) && ExactSuperMajority(c.vset, b)
    ensures p in w.nodes && p in a && p in b && p in Correct(c)
  {
    p := QuorumsShareCorrect(c.vset, c.byzantine, a, b);
  }

  /** A polka for a block is in a round that has a proposer. */
  lemma PolkaRound(once: bool, c: Config, w: World, h: Hash, r: nat)
    requires ValidConfig(c) && WorldOk(once, c, w) && Polka(c, w.sent, Some(h), r)
    ensures r < WORD64
  {
    var voters := Voters(w.sent, PrevotePhase, Some(h), r);
    var p := SharedVoter(c, w, voters, voters);
    assert Bounded(w.sent, p, w.nodes[p]) by { assert NodeOk(once, c, w.sent, p, w.nodes[p]); }
    assert BlockVote(w.sent, Vote(PrevotePhase, Some(h), r, p), p, PrevotePhase);
  }

  /** Where prevotes are single, a round has a polka for at most one block. */
  lemma PolkaSingle(c: Config, w: World, h: Hash, h': Hash, r: nat)
    requires ValidConfig(c) && WorldOk(true, c, w) && Polka(c, w.sent, Some(h), r) && Polka(c, w.sent, Some(h'), r)
    ensures h == h'
  {
    var p := SharedVoter(c, w, Voters(w.sent, PrevotePhase, Some(h), r), Voters(w.sent, PrevotePhase, Some(h'), r));
    assert Singly(true, w.sent, p, w.nodes[p]) by { assert NodeOk(true, c, w.sent, p, w.nodes[p]); }
    assert BlockVote(w.sent, Vote(PrevotePhase, Some(h), r, p), p, PrevotePhase);
    assert BlockVote(w.sent, Vote(PrevotePhase, Some(h'), r, p), p, PrevotePhase);
  }

  /** Every polka for a block has a quorum of justified prevotes in it. */
  lemma JustQuorum(once: bool, c: Config, w: World, h: Hash, r: nat)
    requires ValidConfig(c) && WorldOk(once, c, w) && Polka(c, w.sent, Some(h), r)
    ensures ExactSuperMajority(c.vset, JustVoters(c, w.sent, Some(h), r))
  {
    var voters := Voters(w.sent, PrevotePhase, Some(h), r);
    if q :| q in voters && !Justified(c, w.sent, q, Some(h), r) {
      assert AllJustified(c, w.sent, q) by { assert NodeOk(once, c, w.sent, q, w.nodes[q]); }
      assert BlockVote(w.sent, Vote(PrevotePhase, Some(h), r, q), q, PrevotePhase);
    } else {
      assert voters == JustVoters(c, w.sent, Some(h), r);
    }
  }

  /** Once a block has a commit quorum, no later round has a polka for another block. */
  lemma {:induction false} LockStays(once: bool, c: Config, w: World, h: Hash, r: nat, h': Hash, r': nat)
    requires ValidConfig(c) && WorldOk(once, c, w)
    requires CommitQuorum(c, w.sent, h, r) && r < r' && Polka(c, w.sent, Some(h'), r')
    ensures h' == h
    decreases r'
  {
    JustQuorum(once, c, w, h', r');
    var p := SharedVoter(c, w, Voters(w.sent, PrecommitPhase, Some(h), r), JustVoters(c, w.sent, Some(h'), r'));
    assert BlockVote(w.sent, Vote(PrecommitPhase, Some(h), r, p), p, PrecommitPhase);
    if h' != h {
      assert PolkaBetween(c, w.sent, Some(h'), r, r');
      var between :| r < between < r' && Polka(c, w.sent, Some(h'), between);
      LockStays(once, c, w, h, r, h', between);
    }
  }

  lemma CommitPolka(once: bool, c: Config, w: World, h: Hash, r: nat)
    requires ValidConfig(c) && WorldOk(once, c, w) && CommitQuorum(c, w.sent, h, r)
    ensures Polka(c, w.sent, Some(h), r)
  {
    var voters := Voters(w.sent, PrecommitPhase, Some(h), r);
    var p := SharedVoter(c, w, voters, voters);
    assert PrecommitsLocked(c, w.sent, p, w.nodes[p]) by { assert NodeOk(once, c, w.sent, p, w.nodes[p]); }
    assert VoteBy(w.sent, Vote(PrecommitPhase, Some(h), r, p), p, PrecommitPhase);
  }

  /** Commit quorums of one round are for one block, by single prevotes or by single precommits. */
  lemma CommitSingle(once: bool, c: Config, w: World, h: Hash, h': Hash, r: nat)
    requires ValidConfig(c) && WorldOk(once, c, w) && CommitQuorum(c, w.sent, h, r) && CommitQuorum(c, w.sent, h', r)
    ensures h == h'
  {
    if once {
      CommitPolka(once, c, w, h, r);
      CommitPolka(once, c, w, h', r);
      PolkaSingle(c, w, h, h', r);
    } else {
      var p := SharedVoter(c, w, Voters(w.sent, PrecommitPhase, Some(h), r), Voters(w.sent, PrecommitPhase, Some(h'), r));
      assert Singly(once, w.sent, p, w.nodes[p]) by { assert NodeOk(once, c, w.sent, p, w.nodes[p]); }
      assert BlockVote(w.sent, Vote(PrecommitPhase, Some(h), r, p), p, PrecommitPhase);
      assert BlockVote(w.sent, Vote(PrecommitPhase, Some(h'), r, p), p, PrecommitPhase);
    }
  }

  lemma CommitsAgree(once: bool, c: Config, w: World, h: Hash, r: nat, h': Hash, r': nat)
    requires ValidConfig(c) && WorldOk(once, c, w)
    requires CommitQuorum(c, w.sent, h, r) && CommitQuorum(c, w.sent, h', r')
    ensures h == h'
  {
    CommitPolka(once, c, w, h, r);
    CommitPolka(once, c, w, h', r');
    if r < r' {
      LockStays(once, c, w, h, r, h', r');
    } else if r' < r {
      LockStays(once, c, w, h', r', h, r);
    } else {
      CommitSingle(once, c, w, h, h', r);
    }
  }

  /** Decisions in a world and in a later one are for the same block. */
  lemma DecisionsSettle(once: bool, c: Config, w: World, w': World, p: Address, q: Address)
    requires ValidConfig(c) && WorldOk(once, c, w) && WorldOk(once, c, w') && w.sent <= w'.sent
    requires p in w.nodes && w.nodes[p].state.decision.Some? && q in w'.nodes && w'.nodes[q].state.decision.Some?
    ensures w.nodes[p].state.decision == w'.nodes[q].state.decision
  {
    var h, h' := w.nodes[p].state.decision.value, w'.nodes[q].state.decision.value;
    assert DecisionBacked(c, w.sent, w.nodes[p]) by { assert NodeOk(once, c, w.sent, p, w.nodes[p]); }
    assert DecisionBacked(c, w'.sent, w'.nodes[q]) by { assert NodeOk(once, c, w'.sent, q, w'.nodes[q]); }
    var r :| CommitQuorum(c, w.sent, h, r);
    var r' :| CommitQuorum(c, w'.sent, h', r');
    QuorumsGrow(c, w.sent, w'.sent);
    CommitsAgree(once, c, w', h, r, h', r');
  }

  // ---------------------------------------------------------------- the step of the network

  lemma NetworkStepOk(once: bool, c: Config, w: World, p: Address, n: Node)
    requires ValidConfig(c) && WorldOk(once, c, w) && p in w.nodes && StepOk(once, c, w.sent, p, n)
    ensures WorldOk(once, c, Put(w, p, n))
  {
    var w' := Put(w, p, n);
    forall q | q in w'.nodes ensures NodeOk(once, c, w'.sent, q, w'.nodes[q]) {
      if q != p { OtherOk(once, c, w.sent, w'.sent, q, w.nodes[q]); }
    }
  }

  lemma OtherOk(once: bool, c: Config, sent: set<Message>, sent': set<Message>, q: Address, n: Node)
    requires ValidConfig(c) && NodeOk(once, c, sent, q, n) && sent <= sent' && LatePrecommits(c, sent, sent')
    requires forall m :: m in sent' ==> m in sent || m.sender != q
    ensures NodeOk(once, c, sent', q, n)
  {
    forall m, phase | VoteBy(sent', m, q, phase) ensures m in Pool(n.queue) {
      assert VoteBy(sent, m, q, phase);
    }
    StableOk(once, c, sent, sent', q, n, n);
  }

  lemma ForgeOk(once: bool, c: Config, w: World, m: Message)
    requires ValidConfig(c) && WorldOk(once, c, w) && m.sender !in Correct(c)
    ensures WorldOk(once, c, w.(sent := w.sent + {m}))
  {
    var w' := w.(sent := w.sent + {m});
    assert LatePrecommits(c, w.sent, w'.sent);
    forall q | q in w'.nodes ensures NodeOk(once, c, w'.sent, q, w'.nodes[q]) {
      OtherOk(once, c, w.sent, w'.sent, q, w.nodes[q]);
    }
  }
}
