/**
 The storage manager of node/storage/src/lib.rs: a height index, a block cache and a head,
 each behind its own lock. Sequentially it refines the list of stored blocks; under every
 interleaving of the lock sections of concurrent calls it ends in the sequential state.
 */
module Storage {
  import opened Wrappers
  import opened Bytes

  datatype StoredBlock = StoredBlock(height: Word64, hash: Hash, data: seq<byte>, timestamp: int)

  datatype Store = Store(index: map<Word64, Hash>, cache: map<Hash, StoredBlock>, head: Option<StoredBlock>)

  const EMPTY := Store(map[], map[], None)

  // ---------------------------------------------------------------- lock sections

  function IndexSection(s: Store, b: StoredBlock): Store
  {
    s.(index := s.index[b.height := b.hash])
  }

  function CacheSection(s: Store, b: StoredBlock): Store
  {
    s.(cache := s.cache[b.hash := b])
  }

  function HeadSection(s: Store, b: StoredBlock): Store
  {
    if s.head.None? || b.height > s.head.value.height then s.(head := Some(b)) else s
  }

  /** A call that runs alone. */
  function StoreOne(s: Store, b: StoredBlock): Store
  {
    HeadSection(CacheSection(IndexSection(s, b), b), b)
  }

  function StoreAll(history: seq<StoredBlock>): Store
  {
    if history == [] then EMPTY else StoreOne(StoreAll(history[..|history| - 1]), history[|history| - 1])
  }

  /** A lookup reads the index and the cache in two sections; s' is the store at the second. */
  function LookupHeight(s: Store, s': Store, height: Word64): Option<StoredBlock>
  {
    if height in s.index then LookupHash(s', s.index[height]) else None
  }

  function LookupHash(s: Store, hash: Hash): Option<StoredBlock>
  {
    if hash in s.cache then Some(s.cache[hash]) else None
  }

  // ---------------------------------------------------------------- sequential history

  /** The last block stored at a height. */
  function LastAt(history: seq<StoredBlock>, height: Word64): Option<StoredBlock>
  {
    if history == [] then None
    else if history[|history| - 1].height == height then Some(history[|history| - 1])
    else LastAt(history[..|history| - 1], height)
  }

  /** The last block stored with a hash. */
  function LastHashed(history: seq<StoredBlock>, hash: Hash): Option<StoredBlock>
  {
    if history == [] then None
    else if history[|history| - 1].hash == hash then Some(history[|history| - 1])
    else LastHashed(history[..|history| - 1], hash)
  }

  /** The first block of greatest height. */
  ghost predicate IsFirstHighest(history: seq<StoredBlock>, b: StoredBlock)
  {
    exists i :: 0 <= i < |history| && history[i] == b
      && (forall j :: 0 <= j < |history| ==> history[j].height <= b.height)
      && (forall j :: 0 <= j < i ==> history[j].height < b.height)
  }

  /** What the store answers, in terms of the history alone. */
  lemma {:induction false} StoreRefinesHistory(history: seq<StoredBlock>, height: Word64, hash: Hash)
    ensures var s := StoreAll(history);
      && (height in s.index <==> LastAt(history, height).Some?)
      && (height in s.index ==> s.index[height] == LastAt(history, height).value.hash)
      && LookupHash(s, hash) == LastHashed(history, hash)
      && (s.head.None? <==> history == [])
      && (s.head.Some? ==> IsFirstHighest(history, s.head.value))
  {
    if history != [] {
      var last := |history| - 1;
      StoreRefinesHistory(history[..last], height, hash);
      var s := StoreAll(history[..last]);
      if s.head.Some? && history[last].height <= s.head.value.height {
        var i :| 0 <= i < last && history[..last][i] == s.head.value
          && (forall j :: 0 <= j < last ==> history[..last][j].height <= s.head.value.height)
          && (forall j :: 0 <= j < i ==> history[..last][j].height < s.head.value.height);
        assert history[i] == s.head.value;
        assert forall j :: 0 <= j < last ==> history[..last][j] == history[j];
      } else {
        assert forall j :: 0 <= j < last ==> history[..last][j] == history[j];
        assert StoreAll(history).head == Some(history[last]);
      }
    }
  }

  /** Two blocks at one height, stored one after the other: the head is the first, a lookup finds the second. */
  lemma ForkSplitsHead(a: StoredBlock, b: StoredBlock)
    requires a.height == b.height && a.hash != b.hash
    ensures var s := StoreAll([a, b]); s.head == Some(a) && LookupHeight(s, s, a.height) == Some(b)
  {
    assert [a, b][..1] == [a] && [a][..0] == [];
    assert StoreAll([a]) == StoreOne(EMPTY, a);
  }

  // ---------------------------------------------------------------- the object

  class StorageManager {
    var heightIndex: map<Word64, Hash>
    var blockCache: map<Hash, StoredBlock>
    var headBlock: Option<StoredBlock>
    /** The blocks stored so far, oldest first. */
    ghost var history: seq<StoredBlock>

    ghost predicate Valid()
      reads this
    {
      Store(heightIndex, blockCache, headBlock) == StoreAll(history)
    }

    constructor ()
      ensures Valid() && history == []
    {
      heightIndex, blockCache, headBlock := map[], map[], None;
      history := [];
    }

    method StoreBlock(block: StoredBlock)
      requires Valid()
      modifies this
      ensures Valid() && history == old(history) + [block]
    {
      var height, hash := block.height, block.hash;
      heightIndex := heightIndex[height := hash];
      blockCache := blockCache[hash := block];
      if headBlock.None? {
        headBlock := Some(block);
      } else if height > headBlock.value.height {
        headBlock := Some(block);
      }
      history := history + [block];
      assert history[..|history| - 1] == old(history);
    }

    method GetByHash(hash: Hash) returns (r: Option<StoredBlock>)
      requires Valid()
      ensures r == LastHashed(history, hash)
    {
      StoreRefinesHistory(history, 0, hash);
      r := if hash in blockCache then Some(blockCache[hash]) else None;
    }

    /** The block last stored under the hash that was last stored at the height. */
    method GetByHeight(height: Word64) returns (r: Option<StoredBlock>)
      requires Valid()
      ensures r == match LastAt(history, height) case None => None case Some(b) => LastHashed(history, b.hash)
    {
      StoreRefinesHistory(history, height, ZERO_HASH);
      if height !in heightIndex {
        return None;
      }
      r := GetByHash(heightIndex[height]);
    }

    method Head() returns (r: Option<StoredBlock>)
      requires Valid()
      ensures r.None? <==> history == []
      ensures r.Some? ==> IsFirstHighest(history, r.value)
    {
      StoreRefinesHistory(history, 0, ZERO_HASH);
      r := headBlock;
    }

    /** The greatest height stored, zero for an empty store. */
    method Height() returns (h: Word64)
      requires Valid()
      ensures history == [] ==> h == 0
      ensures history != [] ==> exists b :: IsFirstHighest(history, b) && b.height == h
    {
      StoreRefinesHistory(history, 0, ZERO_HASH);
      h := 0;
      if headBlock.Some? {
        h := headBlock.value.height;
      }
    }
  }

  // ---------------------------------------------------------------- interleaved calls

  /** A call to store_block and how many of its three lock sections it has run. */
  datatype Call = Call(block: StoredBlock, done: nat)

  datatype System = System(store: Store, calls: seq<Call>)

  datatype Event = Start(block: StoredBlock) | Advance(i: nat)

  /** One event: a call begins, or a call in flight runs its next lock section. */
  function Step(sys: System, e: Event): System
  {
    match e
    case Start(b) => sys.(calls := sys.calls + [Call(b, 0)])
    case Advance(i) =>
      if i >= |sys.calls| || sys.calls[i].done >= 3 then sys
      else (
        var c := sys.calls[i];
        var store' :=
          if c.done == 0 then IndexSection(sys.store, c.block)
          else if c.done == 1 then CacheSection(sys.store, c.block)
          else HeadSection(sys.store, c.block);
        System(store', sys.calls[i := c.(done := c.done + 1)])
      )
  }

  function Run(sys: System, events: seq<Event>): System
    decreases |events|
  {
    if events == [] then sys else Run(Step(sys, events[0]), events[1..])
  }

  const START := System(EMPTY, [])

  function Submitted(calls: seq<Call>): seq<StoredBlock>
  {
    seq(|calls|, i requires 0 <= i < |calls| => calls[i].block)
  }

  function Members(blocks: seq<StoredBlock>): set<StoredBlock>
  {
    set b | b in blocks
  }

  /** Equal hashes mean equal blocks: the blocks stored do not collide. */
  ghost predicate HashFixesBlock(blocks: set<StoredBlock>)
  {
    forall a, b :: a in blocks && b in blocks && a.hash == b.hash ==> a == b
  }

  ghost predicate HeightFixesBlock(blocks: set<StoredBlock>)
  {
    forall a, b :: a in blocks && b in blocks && a.height == b.height ==> a == b
  }

  predicate Quiet(calls: seq<Call>)
  {
    forall i :: 0 <= i < |calls| ==> calls[i].done == 3
  }

  ghost predicate HasBlock(blocks: set<StoredBlock>, height: Word64, hash: Hash)
  {
    exists b :: b in blocks && b.height == height && b.hash == hash
  }

  /** Everything in the store was submitted. */
  ghost predicate OnlySubmitted(s: Store, blocks: set<StoredBlock>)
  {
    && (forall h :: h in s.index ==> HasBlock(blocks, h, s.index[h]))
    && (forall x :: x in s.cache ==> s.cache[x] in blocks && s.cache[x].hash == x)
    && (s.head.Some? ==> s.head.value in blocks)
  }

  /** The sections a call has run have left their mark. */
  ghost predicate Marked(s: Store, c: Call)
  {
    && c.done <= 3
    && (c.done >= 1 ==> c.block.height in s.index)
    && (c.done >= 2 ==> c.block.hash in s.cache)
    && (c.done >= 3 ==> s.head.Some? && c.block.height <= s.head.value.height)
  }

  ghost function Blocks(sys: System): set<StoredBlock>
  {
    Members(Submitted(sys.calls))
  }

  ghost predicate Inv(sys: System)
  {
    && OnlySubmitted(sys.store, Blocks(sys))
    && forall i :: 0 <= i < |sys.calls| ==> Marked(sys.store, sys.calls[i])
  }

  /** Nothing is ever dropped and the head never gets lower. */
  ghost predicate Grows(s: Store, s': Store)
  {
    && s.index.Keys <= s'.index.Keys && s.cache.Keys <= s'.cache.Keys
    && (s.head.Some? ==> s'.head.Some? && s.head.value.height <= s'.head.value.height)
  }

  lemma MoreBlocks(s: Store, blocks: set<StoredBlock>, blocks': set<StoredBlock>)
    requires OnlySubmitted(s, blocks) && blocks <= blocks'
    ensures OnlySubmitted(s, blocks')
  {
    forall h | h in s.index ensures HasBlock(blocks', h, s.index[h]) {
      assert HasBlock(blocks, h, s.index[h]);
    }
  }

  /** A lock section run for a submitted block adds nothing else. */
  lemma SectionsKeep(s: Store, blocks: set<StoredBlock>, b: StoredBlock)
    requires OnlySubmitted(s, blocks) && b in blocks
    ensures OnlySubmitted(IndexSection(s, b), blocks)
    ensures OnlySubmitted(CacheSection(s, b), blocks)
    ensures OnlySubmitted(HeadSection(s, b), blocks)
  {
    assert HasBlock(blocks, b.height, b.hash);
  }

  lemma StepBlocks(sys: System, e: Event)
    ensures Blocks(Step(sys, e)) == Blocks(sys) + (if e.Start? then {e.block} else {})
  {
    if e.Start? {
      assert Submitted(Step(sys, e).calls) == Submitted(sys.calls) + [e.block];
    } else {
      assert Submitted(Step(sys, e).calls) == Submitted(sys.calls);
    }
  }

  /** A lock section loses no mark, and the call that ran it gains its own. */
  lemma SectionsMark(s: Store, b: StoredBlock, c: Call)
    requires Marked(s, c)
    ensures Marked(IndexSection(s, b), c) && Marked(CacheSection(s, b), c) && Marked(HeadSection(s, b), c)
  {
  }

  lemma StepKeeps(sys: System, e: Event)
    requires Inv(sys)
    ensures Inv(Step(sys, e)) && Grows(sys.store, Step(sys, e).store) && Blocks(sys) <= Blocks(Step(sys, e))
  {
    var sys' := Step(sys, e);
    StepBlocks(sys, e);
    if e.Start? {
      MoreBlocks(sys.store, Blocks(sys), Blocks(sys'));
    } else if e.i < |sys.calls| && sys.calls[e.i].done < 3 {
      var b := sys.calls[e.i].block;
      assert b in Blocks(sys) by { assert Submitted(sys.calls)[e.i] == b; }
      SectionsKeep(sys.store, Blocks(sys), b);
      forall j | 0 <= j < |sys'.calls| ensures Marked(sys'.store, sys'.calls[j]) {
        assert Marked(sys.store, sys.calls[j]);
        SectionsMark(sys.store, b, sys.calls[j]);
      }
    }
  }

  lemma {:induction false} RunKeeps(sys: System, events: seq<Event>)
    requires Inv(sys)
    ensures Inv(Run(sys, events)) && Grows(sys.store, Run(sys, events).store) && Blocks(sys) <= Blocks(Run(sys, events))
    decreases |events|
  {
    if events != [] {
      StepKeeps(sys, events[0]);
      RunKeeps(Step(sys, events[0]), events[1..]);
    }
  }

  lemma {:induction false} RunAppend(sys: System, events: seq<Event>, more: seq<Event>)
    ensures Run(sys, events + more) == Run(Run(sys, events), more)
    decreases |events|
  {
    if events == [] {
      assert events + more == more;
    } else {
      assert (events + more)[1..] == events[1..] + more;
      RunAppend(Step(sys, events[0]), events[1..], more);
    }
  }

  /**
   In every interleaving, with a lookup's two reads any number of events apart: a lookup by
   height finds nothing or a submitted block of that height, and the head height never falls.
   */
  lemma LookupsAreSound(events: seq<Event>, more: seq<Event>, height: Word64)
    requires HashFixesBlock(Blocks(Run(START, events + more)))
    ensures var s, end := Run(START, events).store, Run(START, events + more);
      && Grows(s, end.store)
      && var found := LookupHeight(s, end.store, height);
         found.Some? ==> found.value.height == height && found.value in Blocks(end)
  {
    var mid, end := Run(START, events), Run(START, events + more);
    RunAppend(START, events, more);
    RunKeeps(START, events);
    RunKeeps(mid, more);
    if height in mid.store.index {
      assert HasBlock(Blocks(mid), height, mid.store.index[height]);
    }
  }

  /** A store that holds exactly these blocks. */
  ghost predicate Holds(s: Store, blocks: set<StoredBlock>)
  {
    && OnlySubmitted(s, blocks)
    && (forall b :: b in blocks ==> b.height in s.index && b.hash in s.cache)
    && (forall b :: b in blocks ==> s.head.Some? && b.height <= s.head.value.height)
  }

  lemma QuietHolds(sys: System)
    requires Inv(sys) && Quiet(sys.calls)
    ensures Holds(sys.store, Blocks(sys))
  {
    forall b | b in Blocks(sys)
      ensures b.height in sys.store.index && b.hash in sys.store.cache
      ensures sys.store.head.Some? && b.height <= sys.store.head.value.height
    {
      var i :| 0 <= i < |sys.calls| && sys.calls[i].block == b;
      assert Marked(sys.store, sys.calls[i]);
    }
  }

  /** With no call in flight the head is a submitted block as high as every other. */
  lemma QuietHead(events: seq<Event>)
    requires Quiet(Run(START, events).calls)
    ensures var end := Run(START, events);
      && (end.store.head.Some? ==> end.store.head.value in Blocks(end))
      && forall b :: b in Blocks(end) ==> end.store.head.Some? && b.height <= end.store.head.value.height
  {
    RunKeeps(START, events);
    QuietHolds(Run(START, events));
  }

  lemma MembersLast(blocks: seq<StoredBlock>)
    requires blocks != []
    ensures Members(blocks) == Members(blocks[..|blocks| - 1]) + {blocks[|blocks| - 1]}
  {
    assert blocks == blocks[..|blocks| - 1] + [blocks[|blocks| - 1]];
  }

  lemma StoreOneSubmitted(s: Store, blocks: set<StoredBlock>, b: StoredBlock)
    requires OnlySubmitted(s, blocks)
    ensures OnlySubmitted(StoreOne(s, b), blocks + {b})
  {
    var s1 := IndexSection(s, b);
    MoreBlocks(s, blocks, blocks + {b});
    SectionsKeep(s, blocks + {b}, b);
    SectionsKeep(s1, blocks + {b}, b);
    SectionsKeep(CacheSection(s1, b), blocks + {b}, b);
  }

  lemma StoreOneHolds(s: Store, blocks: set<StoredBlock>, b: StoredBlock)
    requires Holds(s, blocks)
    ensures Holds(StoreOne(s, b), blocks + {b})
  {
    StoreOneSubmitted(s, blocks, b);
    var s' := StoreOne(s, b);
    forall x | x in blocks + {b}
      ensures x.height in s'.index && x.hash in s'.cache && s'.head.Some? && x.height <= s'.head.value.height
    {
      assert x == b || x in blocks;
    }
  }

  lemma {:induction false} StoreAllHolds(blocks: seq<StoredBlock>)
    ensures Holds(StoreAll(blocks), Members(blocks))
  {
    if blocks != [] {
      var last := |blocks| - 1;
      StoreAllHolds(blocks[..last]);
      StoreOneHolds(StoreAll(blocks[..last]), Members(blocks[..last]), blocks[last]);
      MembersLast(blocks);
    }
  }

  lemma SameIndexAndCache(s: Store, s': Store, blocks: set<StoredBlock>)
    requires HashFixesBlock(blocks) && HeightFixesBlock(blocks) && Holds(s, blocks) && Holds(s', blocks)
    ensures forall h :: h in s.index ==> h in s'.index && s'.index[h] == s.index[h]
    ensures forall x :: x in s.cache ==> x in s'.cache && s'.cache[x] == s.cache[x]
  {
    forall h | h in s.index ensures h in s'.index && s'.index[h] == s.index[h] {
      assert HasBlock(blocks, h, s.index[h]);
      assert HasBlock(blocks, h, s'.index[h]);
    }
  }

  /** When hashes and heights identify blocks, holding the same blocks is being the same store. */
  lemma HoldsDetermines(s: Store, s': Store, blocks: set<StoredBlock>)
    requires HashFixesBlock(blocks) && HeightFixesBlock(blocks) && Holds(s, blocks) && Holds(s', blocks)
    ensures s == s'
  {
    SameIndexAndCache(s, s', blocks);
    SameIndexAndCache(s', s, blocks);
    assert s.index == s'.index;
    assert s.cache == s'.cache;
  }

  /**
   With one block a hash, every interleaving that has come to rest: with one block a height it left
   the store that storing the submitted blocks one after another would leave, and with one block
   at the head's height, whatever forks lie below, the head is what a lookup there finds.
   */
  lemma InterleavingsAreSequential(events: seq<Event>)
    requires Quiet(Run(START, events).calls) && HashFixesBlock(Blocks(Run(START, events)))
    ensures var end := Run(START, events);
      && (HeightFixesBlock(Blocks(end)) ==> end.store == StoreAll(Submitted(end.calls)))
      && (end.store.head.Some? && (forall b :: b in Blocks(end) && b.height == end.store.head.value.height ==> Some(b) == end.store.head) ==>
            LookupHeight(end.store, end.store, end.store.head.value.height) == end.store.head)
  {
    var end := Run(START, events);
    RunKeeps(START, events);
    QuietHolds(end);
    StoreAllHolds(Submitted(end.calls));
    if HeightFixesBlock(Blocks(end)) {
      HoldsDetermines(end.store, StoreAll(Submitted(end.calls)), Blocks(end));
    }
    if end.store.head.Some? {
      var height := end.store.head.value.height;
      assert HasBlock(Blocks(end), height, end.store.index[height]);
    }
  }
}
