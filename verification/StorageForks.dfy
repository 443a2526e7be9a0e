/**
 What forks, several blocks at one height, do to the storage manager: exactly when the head is
 what a lookup at its height finds, and exactly when interleaved calls can be put in an order.
 */
module StorageForks {
  import opened Wrappers
  import opened Bytes
  import opened Storage

  /** A run that has come to rest with exactly these blocks submitted. */
  ghost predicate Rests(events: seq<Event>, blocks: set<StoredBlock>)
  {
    Quiet(Run(START, events).calls) && Blocks(Run(START, events)) == blocks
  }

  ghost predicate Highest(blocks: set<StoredBlock>, b: StoredBlock)
  {
    b in blocks && forall x :: x in blocks ==> x.height <= b.height
  }

  ghost predicate OneHighest(blocks: set<StoredBlock>)
  {
    forall a, b :: Highest(blocks, a) && Highest(blocks, b) ==> a == b
  }

  /** The head, if there is one, is what a lookup at its height finds. */
  predicate HeadFound(s: Store)
  {
    s.head.Some? ==> LookupHeight(s, s, s.head.value.height) == s.head
  }

  // ---------------------------------------------------------------- running calls one after another

  function Alone(i: nat, b: StoredBlock): seq<Event>
  {
    [Start(b), Advance(i), Advance(i), Advance(i)]
  }

  function Sequential(history: seq<StoredBlock>): seq<Event>
  {
    if history == [] then [] else
    var last := |history| - 1;
    Sequential(history[..last]) + Alone(last, history[last])
  }

  function Section(s: Store, c: Call): Store
  {
    if c.done == 0 then IndexSection(s, c.block)
    else if c.done == 1 then CacheSection(s, c.block)
    else HeadSection(s, c.block)
  }

  lemma AdvanceLast(s: Store, calls: seq<Call>, c: Call)
    requires c.done < 3
    ensures Step(System(s, calls + [c]), Advance(|calls|)) == System(Section(s, c), calls + [c.(done := c.done + 1)])
  {
    assert (calls + [c])[|calls|] == c;
    assert (calls + [c])[|calls| := c.(done := c.done + 1)] == calls + [c.(done := c.done + 1)];
  }

  lemma Four(sys: System, e1: Event, e2: Event, e3: Event, e4: Event)
    ensures Run(sys, [e1, e2, e3, e4]) == Step(Step(Step(Step(sys, e1), e2), e3), e4)
  {
    var s3 := Step(Step(Step(sys, e1), e2), e3);
    assert [e1, e2, e3, e4] == [e1, e2] + [e3, e4];
    RunAppend(sys, [e1, e2], [e3, e4]);
    Two(sys, e1, e2);
    Two(Step(Step(sys, e1), e2), e3, e4);
  }

  lemma Two(sys: System, e1: Event, e2: Event)
    ensures Run(sys, [e1, e2]) == Step(Step(sys, e1), e2)
  {
    assert [e1, e2][1..] == [e2] && [e2][1..] == [];
    assert Run(Step(sys, e1), [e2]) == Step(Step(sys, e1), e2);
  }

  lemma AloneStores(sys: System, b: StoredBlock)
    ensures Run(sys, Alone(|sys.calls|, b)) == System(StoreOne(sys.store, b), sys.calls + [Call(b, 3)])
  {
    var e := Advance(|sys.calls|);
    Four(sys, Start(b), e, e, e);
    AdvanceLast(sys.store, sys.calls, Call(b, 0));
    AdvanceLast(IndexSection(sys.store, b), sys.calls, Call(b, 1));
    AdvanceLast(CacheSection(IndexSection(sys.store, b), b), sys.calls, Call(b, 2));
  }

  lemma SubmittedAppend(calls: seq<Call>, c: Call)
    ensures Submitted(calls + [c]) == Submitted(calls) + [c.block]
  {
  }

  lemma {:induction false} SequentialStores(history: seq<StoredBlock>)
    ensures var end := Run(START, Sequential(history));
      end.store == StoreAll(history) && Quiet(end.calls) && Submitted(end.calls) == history
  {
    if history != [] {
      var last := |history| - 1;
      var before := history[..last];
      SequentialStores(before);
      var sys := Run(START, Sequential(before));
      assert |sys.calls| == last by { assert |sys.calls| == |Submitted(sys.calls)|; }
      RunAppend(START, Sequential(before), Alone(last, history[last]));
      AloneStores(sys, history[last]);
      SubmittedAppend(sys.calls, Call(history[last], 3));
      assert before + [history[last]] == history;
    }
  }

  // ---------------------------------------------------------------- the head and its height

  /** Whatever happened at lower heights: one block at the greatest height is found there. */
  lemma OneHighestFound(s: Store, blocks: set<StoredBlock>)
    requires Holds(s, blocks) && HashFixesBlock(blocks) && OneHighest(blocks)
    ensures HeadFound(s)
  {
    if s.head.Some? {
      var top := s.head.value;
      assert Highest(blocks, top);
      assert HasBlock(blocks, top.height, s.index[top.height]);
      var b :| b in blocks && b.height == top.height && b.hash == s.index[top.height];
      assert Highest(blocks, b);
    }
  }

  lemma {:induction false} ListOf(blocks: set<StoredBlock>) returns (list: seq<StoredBlock>)
    ensures Members(list) == blocks
    decreases blocks
  {
    list := [];
    if blocks != {} {
      var b :| b in blocks;
      var rest := ListOf(blocks - {b});
      list := [b] + rest;
      assert Members(list) == {b} + Members(rest);
    }
  }

  lemma {:induction false} LastAtEnd(history: seq<StoredBlock>, b: StoredBlock)
    ensures LastAt(history + [b], b.height) == LastHashed(history + [b], b.hash) == Some(b)
  {
    assert (history + [b])[|history|] == b;
  }

  lemma StillOneHighest(history: seq<StoredBlock>, a: StoredBlock, b: StoredBlock)
    requires history != [] && history[0] == a && IsFirstHighest(history, b) && Highest(Members(history), a)
    ensures b == a
  {
    assert a in Members(history) && b in Members(history);
    assert b.height == a.height;
  }

  /** Two blocks share the greatest height: store one first and the other last. */
  lemma RivalHidesHead(blocks: set<StoredBlock>, a: StoredBlock, b: StoredBlock) returns (events: seq<Event>)
    requires HashFixesBlock(blocks) && Highest(blocks, a) && Highest(blocks, b) && a != b
    ensures Rests(events, blocks) && !HeadFound(Run(START, events).store)
  {
    var list := ListOf(blocks);
    var front := [a] + list;
    var history := front + [b];
    events := Sequential(history);
    SequentialStores(history);
    assert Members(history) == {a} + Members(list) + {b};
    assert Blocks(Run(START, events)) == blocks;
    var s := StoreAll(history);
    StoreRefinesHistory(history, b.height, b.hash);
    LastAtEnd(front, b);
    StillOneHighest(history, a, s.head.value);
    assert LookupHeight(s, s, a.height) == Some(b);
  }

  /**
   For a set of blocks that their hashes identify: in every run that comes to rest with these
   blocks submitted the head is what its height looks up, exactly when one block is highest.
   */
  lemma HeadFoundIff(blocks: set<StoredBlock>)
    requires HashFixesBlock(blocks)
    ensures (forall events :: Rests(events, blocks) ==> HeadFound(Run(START, events).store)) <==> OneHighest(blocks)
  {
    if OneHighest(blocks) {
      forall events | Rests(events, blocks) ensures HeadFound(Run(START, events).store) {
        RunKeeps(START, events);
        QuietHolds(Run(START, events));
        OneHighestFound(Run(START, events).store, blocks);
      }
    } else {
      var a, b :| Highest(blocks, a) && Highest(blocks, b) && a != b;
      var events := RivalHidesHead(blocks, a, b);
    }
  }

  // ---------------------------------------------------------------- putting interleaved calls in order

  /** The store is the one that some order of the submitted calls leaves. */
  ghost predicate Serialisable(s: Store, submitted: seq<StoredBlock>)
  {
    exists h :: multiset(h) == multiset(submitted) && StoreAll(h) == s
  }

  /** A block of greatest height, submitted once, with another block beside it. */
  ghost predicate LoneWithRival(submitted: seq<StoredBlock>, a: StoredBlock)
  {
    && multiset(submitted)[a] == 1 && Highest(Members(submitted), a)
    && exists c :: c != a && Highest(Members(submitted), c)
  }

  lemma {:induction false} LastAtAppend(x: seq<StoredBlock>, y: seq<StoredBlock>, height: Word64)
    ensures LastAt(x + y, height) == if LastAt(y, height).Some? then LastAt(y, height) else LastAt(x, height)
    decreases |y|
  {
    if y == [] {
      assert x + y == x;
    } else {
      LastAtAppend(x, y[..|y| - 1], height);
      assert (x + y)[..|x + y| - 1] == x + y[..|y| - 1];
    }
  }

  /** The last block at a height is one of them, and comes after every one of them. */
  lemma {:induction false} LastAtIsLast(h: seq<StoredBlock>, height: Word64, j: nat) returns (l: nat)
    requires j < |h| && h[j].height == height
    ensures j <= l < |h| && LastAt(h, height) == Some(h[l]) && h[l].height == height
  {
    l := |h| - 1;
    if h[l].height != height {
      l := LastAtIsLast(h[..l], height, j);
    }
  }

  lemma {:induction false} LastAtSome(h: seq<StoredBlock>, height: Word64)
    ensures LastAt(h, height).Some? ==> LastAt(h, height).value in h && LastAt(h, height).value.height == height
    ensures forall b :: b in h && b.height == height ==> LastAt(h, height).Some?
  {
    if h != [] {
      var last := |h| - 1;
      LastAtSome(h[..last], height);
      assert h == h[..last] + [h[last]];
    }
  }

  lemma TwoPositions(h: seq<StoredBlock>, i: nat, l: nat)
    requires i < l < |h| && h[i] == h[l]
    ensures multiset(h)[h[i]] >= 2
  {
    assert h == h[..l] + h[l..];
    assert h[i] in multiset(h[..l]) && h[l..][0] in multiset(h[l..]);
  }

  lemma SameBlocks(x: seq<StoredBlock>, y: seq<StoredBlock>)
    requires multiset(x) == multiset(y)
    ensures Members(x) == Members(y)
  {
    forall b ensures b in x <==> b in y {
      assert b in multiset(x) <==> b in multiset(y);
    }
  }

  /** First of the highest and last at its height, with another block at that height: it was stored twice. */
  lemma FirstAndLast(h: seq<StoredBlock>, a: StoredBlock, c: StoredBlock)
    requires IsFirstHighest(h, a) && LastAt(h, a.height) == Some(a) && c in h && c != a && c.height == a.height
    ensures multiset(h)[a] >= 2
  {
    var i :| 0 <= i < |h| && h[i] == a && forall j :: 0 <= j < i ==> h[j].height < a.height;
    var j :| 0 <= j < |h| && h[j] == c;
    var l := LastAtIsLast(h, a.height, j);
    TwoPositions(h, i, l);
  }

  lemma FoundWins(s: Store, blocks: set<StoredBlock>)
    requires Holds(s, blocks) && s.head.Some? && HeadFound(s)
    ensures Wins(s, s.head.value)
  {
  }

  lemma LoneNotSerialisable(s: Store, submitted: seq<StoredBlock>, h: seq<StoredBlock>)
    requires Holds(s, Members(submitted)) && HashFixesBlock(Members(submitted)) && s.head.Some? && HeadFound(s)
    requires multiset(h) == multiset(submitted) && LoneWithRival(submitted, s.head.value)
    ensures StoreAll(h) != s
  {
    if StoreAll(h) == s {
      var a := s.head.value;
      var c :| c != a && Highest(Members(submitted), c);
      SameBlocks(h, submitted);
      FoundWins(s, Members(submitted));
      assert c in h && c.height == a.height;
      LastIsHead(h, a, s);
      FirstAndLast(h, a, c);
      assert false;
    }
  }

  lemma LastIsHead(h: seq<StoredBlock>, a: StoredBlock, s: Store)
    requires StoreAll(h) == s && s.head == Some(a) && Wins(s, a) && HashFixesBlock(Members(h))
    ensures IsFirstHighest(h, a) && LastAt(h, a.height) == Some(a)
  {
    StoreRefinesHistory(h, a.height, a.hash);
    LastAtSome(h, a.height);
    assert LastAt(h, a.height).value in Members(h) && a in Members(h);
  }

  /** The block is the one its height is indexed under. */
  predicate Wins(s: Store, b: StoredBlock)
  {
    b.height in s.index && s.index[b.height] == b.hash
  }

  function Select(s: Store, wins: bool, bs: seq<StoredBlock>): seq<StoredBlock>
  {
    if bs == [] then []
    else if Wins(s, bs[0]) == wins then [bs[0]] + Select(s, wins, bs[1..])
    else Select(s, wins, bs[1..])
  }

  lemma {:induction false} SelectMembers(s: Store, wins: bool, bs: seq<StoredBlock>)
    ensures forall b :: b in Select(s, wins, bs) <==> b in bs && Wins(s, b) == wins
  {
    if bs != [] { SelectMembers(s, wins, bs[1..]); }
  }

  lemma {:induction false} SelectSplits(s: Store, bs: seq<StoredBlock>)
    ensures multiset(Select(s, false, bs) + Select(s, true, bs)) == multiset(bs)
  {
    if bs != [] {
      SelectSplits(s, bs[1..]);
      assert bs == [bs[0]] + bs[1..];
      assert multiset(Select(s, false, bs)) + multiset(Select(s, true, bs))
          == multiset{bs[0]} + multiset(Select(s, false, bs[1..])) + multiset(Select(s, true, bs[1..]));
    }
  }

  /** At every indexed height the history ends with a block of the indexed hash. */
  ghost predicate EndsRight(s: Store, h: seq<StoredBlock>)
  {
    forall k :: k in s.index ==> LastAt(h, k).Some? && LastAt(h, k).value.hash == s.index[k]
  }

  lemma SameIndex(s: Store, h: seq<StoredBlock>)
    requires Holds(s, Members(h)) && EndsRight(s, h)
    ensures StoreAll(h).index == s.index
  {
    var s' := StoreAll(h);
    forall k
      ensures k in s.index <==> k in s'.index
      ensures k in s.index ==> s.index[k] == s'.index[k]
    {
      StoreRefinesHistory(h, k, ZERO_HASH);
      LastAtSome(h, k);
      if k in s'.index { assert LastAt(h, k).value in Members(h); }
    }
  }

  lemma FirstIsHead(h: seq<StoredBlock>)
    requires h != [] && Highest(Members(h), h[0])
    ensures StoreAll(h).head == Some(h[0])
  {
    StoreRefinesHistory(h, 0, ZERO_HASH);
    StillOneHighest(h, h[0], StoreAll(h).head.value);
  }

  lemma SameCache(s: Store, s': Store, blocks: set<StoredBlock>)
    requires HashFixesBlock(blocks) && Holds(s, blocks) && Holds(s', blocks)
    ensures forall x :: x in s.cache ==> x in s'.cache && s'.cache[x] == s.cache[x]
  {
  }

  lemma EqualCaches(s: Store, s': Store, blocks: set<StoredBlock>)
    requires HashFixesBlock(blocks) && Holds(s, blocks) && Holds(s', blocks)
    ensures s.cache == s'.cache
  {
    SameCache(s, s', blocks);
    SameCache(s', s, blocks);
  }

  lemma HeadIsHighest(s: Store, blocks: set<StoredBlock>)
    requires Holds(s, blocks) && s.head.Some?
    ensures Highest(blocks, s.head.value)
  {
  }

  /** A store is the store of a history over its blocks that starts with the head and ends every height right. */
  lemma HistoryOfStore(s: Store, h: seq<StoredBlock>)
    requires h != [] && Holds(s, Members(h)) && HashFixesBlock(Members(h)) && s.head == Some(h[0]) && EndsRight(s, h)
    ensures StoreAll(h) == s
  {
    HeadIsHighest(s, Members(h));
    FirstIsHead(h);
    SameIndex(s, h);
    assert StoreAll(h).cache == s.cache by {
      StoreAllHolds(h);
      EqualCaches(s, StoreAll(h), Members(h));
    }
  }

  lemma WithoutBlock(bs: seq<StoredBlock>, a: StoredBlock) returns (rest: seq<StoredBlock>)
    requires a in bs
    ensures multiset([a] + rest) == multiset(bs)
    ensures a in rest ==> multiset(bs)[a] >= 2
  {
    var i :| 0 <= i < |bs| && bs[i] == a;
    rest := bs[..i] + bs[i + 1..];
    assert bs == bs[..i] + [a] + bs[i + 1..];
    if a in rest { assert multiset(rest)[a] >= 1; }
  }

  lemma SelectPermutes(s: Store, a: StoredBlock, rest: seq<StoredBlock>)
    ensures multiset([a] + (Select(s, false, rest) + Select(s, true, rest))) == multiset([a] + rest)
  {
    SelectSplits(s, rest);
  }

  /** The submitted blocks are the head and the rest; the head is in the rest only if submitted twice. */
  ghost predicate HeadAndRest(s: Store, submitted: seq<StoredBlock>, rest: seq<StoredBlock>)
  {
    && s.head.Some? && multiset([s.head.value] + rest) == multiset(submitted)
    && (s.head.value in rest ==> multiset(submitted)[s.head.value] >= 2)
  }

  /** Head first, then the blocks that lost their height, then those that won it. */
  function InOrder(s: Store, rest: seq<StoredBlock>): seq<StoredBlock>
    requires s.head.Some?
  {
    [s.head.value] + (Select(s, false, rest) + Select(s, true, rest))
  }

  lemma InOrderEndsRight(s: Store, submitted: seq<StoredBlock>, rest: seq<StoredBlock>)
    requires Holds(s, Members(submitted)) && HashFixesBlock(Members(submitted)) && HeadAndRest(s, submitted, rest)
    requires !(LoneWithRival(submitted, s.head.value) && HeadFound(s))
    ensures EndsRight(s, InOrder(s, rest))
  {
    var h := InOrder(s, rest);
    forall k | k in s.index ensures LastAt(h, k).Some? && LastAt(h, k).value.hash == s.index[k] {
      HeightsEndRight(s, submitted, rest, k);
    }
  }

  lemma OrderOfStore(s: Store, submitted: seq<StoredBlock>)
    requires Holds(s, Members(submitted)) && HashFixesBlock(Members(submitted)) && s.head.Some?
    requires !(LoneWithRival(submitted, s.head.value) && HeadFound(s))
    ensures Serialisable(s, submitted)
  {
    HeadIsHighest(s, Members(submitted));
    var rest := WithoutBlock(submitted, s.head.value);
    InOrderEndsRight(s, submitted, rest);
    InOrderStores(s, submitted, rest);
  }

  lemma InOrderStores(s: Store, submitted: seq<StoredBlock>, rest: seq<StoredBlock>)
    requires Holds(s, Members(submitted)) && HashFixesBlock(Members(submitted)) && HeadAndRest(s, submitted, rest)
    requires EndsRight(s, InOrder(s, rest))
    ensures Serialisable(s, submitted)
  {
    var h := InOrder(s, rest);
    SelectPermutes(s, s.head.value, rest);
    SameBlocks(h, submitted);
    assert h[0] == s.head.value;
    HistoryOfStore(s, h);
  }

  lemma HeightsEndRight(s: Store, submitted: seq<StoredBlock>, rest: seq<StoredBlock>, k: Word64)
    requires Holds(s, Members(submitted)) && HashFixesBlock(Members(submitted)) && s.head.Some? && k in s.index
    requires !(LoneWithRival(submitted, s.head.value) && HeadFound(s))
    requires HeadAndRest(s, submitted, rest)
    ensures var h := InOrder(s, rest);
      LastAt(h, k).Some? && LastAt(h, k).value.hash == s.index[k]
  {
    var a, losers, winners := s.head.value, Select(s, false, rest), Select(s, true, rest);
    SelectMembers(s, false, rest);
    SelectMembers(s, true, rest);
    LastAtAppend([a], losers + winners, k);
    LastAtAppend(losers, winners, k);
    LastAtSome(winners, k);
    if LastAt(winners, k).None? {
      SameBlocks([a] + rest, submitted);
      var b :| b in Members(submitted) && b.height == k && b.hash == s.index[k];
      assert b in [a] + rest;
      assert b == a && a !in rest;
      LoneHighest(s, submitted, rest);
      LastAtSome(losers, k);
    }
  }

  lemma LoneHighest(s: Store, submitted: seq<StoredBlock>, rest: seq<StoredBlock>)
    requires Holds(s, Members(submitted)) && HashFixesBlock(Members(submitted)) && s.head.Some? && Wins(s, s.head.value)
    requires !(LoneWithRival(submitted, s.head.value) && HeadFound(s))
    requires multiset([s.head.value] + rest) == multiset(submitted) && s.head.value !in rest
    ensures forall x :: x in rest ==> x.height != s.head.value.height
  {
    var a := s.head.value;
    SameBlocks([a] + rest, submitted);
    assert a in Members(submitted) && Highest(Members(submitted), a);
    assert multiset(submitted)[a] == multiset([a])[a] + multiset(rest)[a] == 1;
    assert HeadFound(s);
    forall x | x in rest ensures x.height != a.height {
      assert x in [a] + rest && x in Members(submitted);
      if x.height == a.height { assert Highest(Members(submitted), x); }
    }
  }

  // ---------------------------------------------------------------- a run that no order explains

  function Starts(bs: seq<StoredBlock>): seq<Event>
  {
    if bs == [] then [] else Starts(bs[..|bs| - 1]) + [Start(bs[|bs| - 1])]
  }

  lemma {:induction false} StartsRun(bs: seq<StoredBlock>)
    ensures var end := Run(START, Starts(bs));
      && end.store == EMPTY && |end.calls| == |bs|
      && forall j :: 0 <= j < |bs| ==> end.calls[j] == Call(bs[j], 0)
  {
    if bs != [] {
      var last := |bs| - 1;
      StartsRun(bs[..last]);
      OneMore(START, Starts(bs[..last]), Start(bs[last]));
    }
  }

  lemma OneMore(sys: System, events: seq<Event>, e: Event)
    ensures Run(sys, events + [e]) == Step(Run(sys, events), e)
  {
    RunAppend(sys, events, [e]);
    assert [e][1..] == [];
  }

  /** One more lock section for every call before n but one. */
  function Sweep(n: nat, skip: nat): seq<Event>
  {
    if n == 0 then [] else if n - 1 == skip then Sweep(n - 1, skip) else Sweep(n - 1, skip) + [Advance(n - 1)]
  }

  ghost predicate Swept(sys: System, end: System, n: nat, skip: nat)
  {
    && |end.calls| == |sys.calls|
    && forall j :: 0 <= j < |sys.calls| ==>
         end.calls[j] == if j < n && j != skip then sys.calls[j].(done := sys.calls[j].done + 1) else sys.calls[j]
  }

  /** The head is at least as high as every call's block. */
  ghost predicate HeadAbove(sys: System)
  {
    sys.store.head.Some? && forall c :: c in sys.calls ==> c.block.height <= sys.store.head.value.height
  }

  lemma {:induction false} SweepRuns(sys: System, n: nat, skip: nat, d: nat)
    requires n <= |sys.calls| && d < 3
    requires forall j :: 0 <= j < n && j != skip ==> sys.calls[j].done == d
    ensures var end := Run(sys, Sweep(n, skip));
      && Swept(sys, end, n, skip)
      && (d != 0 ==> end.store.index == sys.store.index)
      && (d != 2 ==> end.store.head == sys.store.head)
      && (HeadAbove(sys) ==> end.store.head == sys.store.head)
  {
    if n > 0 {
      SweepRuns(sys, n - 1, skip, d);
      var mid := Run(sys, Sweep(n - 1, skip));
      if n - 1 != skip {
        OneMore(sys, Sweep(n - 1, skip), Advance(n - 1));
        assert mid.calls[n - 1] == sys.calls[n - 1] && sys.calls[n - 1] in sys.calls;
      }
    }
  }

  /** One call runs all three of its sections. */
  lemma RunsThrough(sys: System, i: nat) returns (end: System)
    requires i < |sys.calls| && sys.calls[i].done == 0 && sys.store.head.None?
    ensures end == Run(sys, [Advance(i), Advance(i)] + [Advance(i)])
    ensures end.calls == sys.calls[i := sys.calls[i].(done := 3)]
    ensures end.store.head == Some(sys.calls[i].block) && Wins(end.store, sys.calls[i].block)
  {
    var e := Advance(i);
    OneMore(sys, [e, e], e);
    Two(sys, e, e);
    end := Step(Step(Step(sys, e), e), e);
    assert end.calls == sys.calls[i := sys.calls[i].(done := 3)];
  }

  /** Everyone else indexes, one call runs through, everyone else finishes. */
  function Overtaking(bs: seq<StoredBlock>, i: nat): seq<Event>
  {
    var n := |bs|;
    Starts(bs) + Sweep(n, i) + ([Advance(i), Advance(i)] + [Advance(i)]) + Sweep(n, i) + Sweep(n, i)
  }

  /** All calls for these blocks, each with d sections done, call i with all three. */
  ghost predicate Progressed(sys: System, bs: seq<StoredBlock>, i: nat, d: nat)
  {
    |sys.calls| == |bs| && forall j :: 0 <= j < |bs| ==> sys.calls[j] == Call(bs[j], if j == i then 3 else d)
  }

  lemma OvertakingStarts(bs: seq<StoredBlock>, i: nat) returns (s3: System)
    requires i < |bs|
    ensures s3 == Run(START, Starts(bs) + Sweep(|bs|, i) + ([Advance(i), Advance(i)] + [Advance(i)]))
    ensures Progressed(s3, bs, i, 1) && s3.store.head == Some(bs[i]) && Wins(s3.store, bs[i])
  {
    StartsRun(bs);
    var s1 := Run(START, Starts(bs));
    SweepRuns(s1, |bs|, i, 0);
    s3 := RunsThrough(Run(s1, Sweep(|bs|, i)), i);
    RunAppend(START, Starts(bs), Sweep(|bs|, i));
    RunAppend(START, Starts(bs) + Sweep(|bs|, i), [Advance(i), Advance(i)] + [Advance(i)]);
  }

  lemma OvertakingRuns(bs: seq<StoredBlock>, i: nat)
    requires i < |bs| && forall x :: x in bs ==> x.height <= bs[i].height
    ensures var end := Run(START, Overtaking(bs, i));
      && Quiet(end.calls) && Submitted(end.calls) == bs
      && end.store.head == Some(bs[i]) && Wins(end.store, bs[i])
  {
    var e3, sweep := Starts(bs) + Sweep(|bs|, i) + ([Advance(i), Advance(i)] + [Advance(i)]), Sweep(|bs|, i);
    var s3 := OvertakingStarts(bs, i);
    SweepRuns(s3, |bs|, i, 1);
    var s4 := Run(s3, sweep);
    assert Progressed(s4, bs, i, 2);
    assert HeadAbove(s4) by {
      forall c | c in s4.calls ensures c.block.height <= bs[i].height {
        var j :| 0 <= j < |bs| && s4.calls[j] == c;
        assert bs[j] in bs;
      }
    }
    SweepRuns(s4, |bs|, i, 2);
    RunAppend(START, e3, sweep);
    RunAppend(START, e3 + sweep, sweep);
    assert Progressed(Run(s4, sweep), bs, i, 3);
  }

  /** A run that has come to rest with exactly these calls, in any order of submission. */
  ghost predicate RestsWith(events: seq<Event>, submitted: seq<StoredBlock>)
  {
    Quiet(Run(START, events).calls) && multiset(Submitted(Run(START, events).calls)) == multiset(submitted)
  }

  lemma StoreSerialisableIff(s: Store, submitted: seq<StoredBlock>)
    requires Holds(s, Members(submitted)) && HashFixesBlock(Members(submitted))
    ensures Serialisable(s, submitted) <==> !(s.head.Some? && LoneWithRival(submitted, s.head.value) && HeadFound(s))
  {
    if submitted == [] {
      assert s == EMPTY == StoreAll(submitted);
    } else {
      assert submitted[0] in Members(submitted);
      if LoneWithRival(submitted, s.head.value) && HeadFound(s) {
        forall h | multiset(h) == multiset(submitted) ensures StoreAll(h) != s {
          LoneNotSerialisable(s, submitted, h);
        }
      } else {
        OrderOfStore(s, submitted);
      }
    }
  }

  /**
   For submitted blocks that their hashes identify: every run that comes to rest leaves a store
   that some order of the calls would leave, exactly when no block of greatest height is
   submitted only once while another block shares that height.
   */
  lemma SerialisableIff(submitted: seq<StoredBlock>)
    requires HashFixesBlock(Members(submitted))
    ensures (forall events :: RestsWith(events, submitted) ==> Serialisable(Run(START, events).store, submitted)) <==>
      (forall a :: !LoneWithRival(submitted, a))
  {
    if a :| LoneWithRival(submitted, a) {
      assert a in Members(submitted);
      var i :| 0 <= i < |submitted| && submitted[i] == a;
      var events := Overtaking(submitted, i);
      forall x | x in submitted ensures x.height <= a.height { assert x in Members(submitted); }
      OvertakingRuns(submitted, i);
      RunKeeps(START, events);
      QuietHolds(Run(START, events));
      assert RestsWith(events, submitted);
      var s := Run(START, events).store;
      assert s.cache[a.hash] == a;
      StoreSerialisableIff(s, submitted);
    } else {
      forall events | RestsWith(events, submitted) ensures Serialisable(Run(START, events).store, submitted) {
        RunKeeps(START, events);
        QuietHolds(Run(START, events));
        SameBlocks(Submitted(Run(START, events).calls), submitted);
        StoreSerialisableIff(Run(START, events).store, submitted);
      }
    }
  }

  /** A call alone, section by section: first the index, then the cache, last the head. */
  lemma SectionOrder(b: StoredBlock)
    ensures Run(START, [Start(b)]).store == Store(map[], map[], None)
    ensures Run(START, [Start(b), Advance(0)]).store == Store(map[b.height := b.hash], map[], None)
    ensures Run(START, [Start(b), Advance(0)] + [Advance(0)]).store == Store(map[b.height := b.hash], map[b.hash := b], None)
    ensures Run(START, Alone(0, b)).store == Store(map[b.height := b.hash], map[b.hash := b], Some(b))
  {
    assert [Start(b)][1..] == [];
    Two(START, Start(b), Advance(0));
    OneMore(START, [Start(b), Advance(0)], Advance(0));
    AloneStores(START, b);
    AdvanceLast(EMPTY, [], Call(b, 0));
    AdvanceLast(IndexSection(EMPTY, b), [], Call(b, 1));
    assert [] + [Call(b, 0)] == [Call(b, 0)] && [] + [Call(b, 1)] == [Call(b, 1)];
  }

  // ---------------------------------------------------------------- what a lookup misses

  /** Some call for a block at this height has run its index section. */
  ghost predicate Indexed(calls: seq<Call>, height: Word64)
  {
    exists i :: 0 <= i < |calls| && calls[i].block.height == height && calls[i].done >= 1
  }

  /** Some call for a block with this hash has run its cache section. */
  ghost predicate Cached(calls: seq<Call>, hash: Hash)
  {
    exists i :: 0 <= i < |calls| && calls[i].block.hash == hash && calls[i].done >= 2
  }

  /** Index and cache hold exactly what the calls have put there. */
  ghost predicate Traced(sys: System)
  {
    && (forall h :: h in sys.store.index <==> Indexed(sys.calls, h))
    && (forall x :: x in sys.store.cache <==> Cached(sys.calls, x))
  }

  lemma IndexedStep(sys: System, e: Event, h: Word64)
    requires Traced(sys)
    ensures h in Step(sys, e).store.index <==> Indexed(Step(sys, e).calls, h)
  {
    var sys' := Step(sys, e);
    if Indexed(sys.calls, h) {
      var i :| 0 <= i < |sys.calls| && sys.calls[i].block.height == h && sys.calls[i].done >= 1;
      assert sys'.calls[i].block.height == h && sys'.calls[i].done >= 1;
    }
    if e.Advance? && e.i < |sys.calls| && sys.calls[e.i].done < 3 {
      assert sys'.calls[e.i].block == sys.calls[e.i].block && sys'.calls[e.i].done >= 1;
    }
    if Indexed(sys'.calls, h) && !Indexed(sys.calls, h) {
      var i :| 0 <= i < |sys'.calls| && sys'.calls[i].block.height == h && sys'.calls[i].done >= 1;
      assert e.Advance? && i == e.i;
    }
  }

  lemma CachedStep(sys: System, e: Event, x: Hash)
    requires Traced(sys)
    ensures x in Step(sys, e).store.cache <==> Cached(Step(sys, e).calls, x)
  {
    var sys' := Step(sys, e);
    if Cached(sys.calls, x) {
      var i :| 0 <= i < |sys.calls| && sys.calls[i].block.hash == x && sys.calls[i].done >= 2;
      assert sys'.calls[i].block.hash == x && sys'.calls[i].done >= 2;
    }
    if e.Advance? && e.i < |sys.calls| && 1 <= sys.calls[e.i].done < 3 {
      assert sys'.calls[e.i].block == sys.calls[e.i].block && sys'.calls[e.i].done >= 2;
    }
    if Cached(sys'.calls, x) && !Cached(sys.calls, x) {
      var i :| 0 <= i < |sys'.calls| && sys'.calls[i].block.hash == x && sys'.calls[i].done >= 2;
      assert e.Advance? && i == e.i;
    }
  }

  lemma {:induction false} RunTraced(sys: System, events: seq<Event>)
    requires Traced(sys)
    ensures Traced(Run(sys, events))
    decreases |events|
  {
    if events != [] {
      forall h ensures h in Step(sys, events[0]).store.index <==> Indexed(Step(sys, events[0]).calls, h) {
        IndexedStep(sys, events[0], h);
      }
      forall x ensures x in Step(sys, events[0]).store.cache <==> Cached(Step(sys, events[0]).calls, x) {
        CachedStep(sys, events[0], x);
      }
      RunTraced(Step(sys, events[0]), events[1..]);
    }
  }

  /**
   In every interleaving a lookup finds nothing exactly when, at its first read, no call at the
   height has run its index section, or when, at its second, no call for a block with the hash it
   read has run its cache section, however completely other blocks of that height are stored.
   */
  lemma FindsNothingIff(events: seq<Event>, more: seq<Event>, height: Word64)
    ensures var first, second := Run(START, events), Run(START, events + more);
      LookupHeight(first.store, second.store, height).None? <==>
        !Indexed(first.calls, height) || (height in first.store.index && !Cached(second.calls, first.store.index[height]))
  {
    assert Traced(START);
    RunTraced(START, events);
    RunTraced(START, events + more);
  }

  /** One block is stored, a second call at its height has run its index section: the height finds nothing again. */
  lemma HiddenAgain(a: StoredBlock, b: StoredBlock)
    requires a.height == b.height && a.hash != b.hash
    ensures var before, after := Run(START, Alone(0, a)), Run(START, Alone(0, a) + [Start(b), Advance(1)]);
      && LookupHeight(before.store, before.store, a.height) == Some(a)
      && LookupHeight(after.store, after.store, a.height) == None
  {
    AloneStores(START, a);
    var sys := Run(START, Alone(0, a));
    RunAppend(START, Alone(0, a), [Start(b), Advance(1)]);
    Two(sys, Start(b), Advance(1));
    AdvanceLast(sys.store, sys.calls, Call(b, 0));
  }
}
