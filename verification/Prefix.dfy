/** The prefix cache: a hash map of chained blocks with an LRU list, pins and two limits. */
module Prefix {
  import opened Basics
  import opened Arith
  import opened BlockHash

  datatype Block = Block(handle: int, refs: nat)

  /** The cache's fields. `lru` lists resident hashes, most recently used first. */
  datatype Cache = Cache(blockSize: int, capacity: int, blockBytes: int, byteLimit: int,
                         nextID: nat, blocks: map<Word, Block>, lru: seq<Word>, hits: nat, misses: nat)

  function New(blockSize: int, capacity: int): Cache {
    Cache(if blockSize <= 0 then 16 else blockSize, capacity, 0, 0, 0, map[], [], 0, 0)
  }

  function NewMemoryAware(blockSize: int, blockBytes: int, byteLimit: int): Cache {
    if blockBytes > 0 && byteLimit > 0 then New(blockSize, 0).(blockBytes := blockBytes, byteLimit := byteLimit)
    else New(blockSize, 0)
  }

  // Chunking and chaining.

  /** The whole blocks of a token sequence; a partial tail is dropped. */
  function Chunks(size: int, tokens: seq<Token>): (chunks: seq<seq<Token>>)
    requires size > 0
    decreases |tokens|
  {
    if |tokens| < size then [] else [tokens[..size]] + Chunks(size, tokens[size..])
  }

  /** The chained hash of each block. */
  function Hashes(parent: Word, chunks: seq<seq<Token>>): (hs: seq<Word>)
    ensures |hs| == |chunks|
    decreases |chunks|
  {
    if chunks == [] then []
    else
      var h := Hash(parent, chunks[0]);
      [h] + Hashes(h, chunks[1..])
  }

  function Keys(size: int, tokens: seq<Token>): seq<Word>
    requires size > 0
  {
    Hashes(0, Chunks(size, tokens))
  }

  /** A scan at token `i`, under `parent`, has the hashes from the k-th on still ahead. */
  ghost predicate Walk(size: int, tokens: seq<Token>, i: nat, parent: Word, hs: seq<Word>, k: nat) {
    && size > 0 && i <= |tokens| && k <= |hs|
    && Hashes(parent, Chunks(size, tokens[i..])) == hs[k..]
  }

  lemma WalkStart(size: int, tokens: seq<Token>)
    requires size > 0
    ensures Walk(size, tokens, 0, 0, Keys(size, tokens), 0)
  {
    assert tokens[0..] == tokens;
    assert Keys(size, tokens)[0..] == Keys(size, tokens);
  }

  lemma WalkStep(size: int, tokens: seq<Token>, i: nat, parent: Word, hs: seq<Word>, k: nat)
    requires Walk(size, tokens, i, parent, hs, k) && i + size <= |tokens|
    ensures k < |hs| && hs[k] == Hash(parent, tokens[i..i + size])
    ensures Walk(size, tokens, i + size, hs[k], hs, k + 1)
  {
    hide Hash;
    assert tokens[i..][size..] == tokens[i + size..];
    assert tokens[i..][..size] == tokens[i..i + size];
    assert hs[k..][1..] == hs[k + 1..];
    assert hs[k..][0] == hs[k];
  }

  lemma WalkEnd(size: int, tokens: seq<Token>, i: nat, parent: Word, hs: seq<Word>, k: nat)
    requires Walk(size, tokens, i, parent, hs, k) && i + size > |tokens|
    ensures k == |hs|
  {
  }

  lemma MulPositive(k: nat, d: int)
    requires d > 0
    ensures k * d > 0 <==> k > 0
  {
    if k > 0 { MulAtLeast(k, d); }
  }

  // The LRU list and eviction.

  function Without(lru: seq<Word>, h: Word): (r: seq<Word>)
    ensures |r| <= |lru|
    ensures forall k :: k in r <==> k in lru && k != h
  {
    if lru == [] then []
    else if lru[0] == h then Without(lru[1..], h)
    else [lru[0]] + Without(lru[1..], h)
  }

  function Touched(c: Cache, h: Word): Cache {
    c.(lru := [h] + Without(c.lru, h))
  }

  predicate OverLimit(c: Cache) {
    || (c.capacity > 0 && |c.blocks| > c.capacity)
    || (c.byteLimit > 0 && |c.blocks| * c.blockBytes > c.byteLimit)
  }

  predicate Pinned(c: Cache, h: Word) { h in c.blocks && c.blocks[h].refs > 0 }

  /** The position of the least recently used unpinned block among the first `n`, or -1. */
  function VictimAt(c: Cache, n: nat): (at: int)
    requires n <= |c.lru|
    ensures -1 <= at < n
    ensures at >= 0 ==> !Pinned(c, c.lru[at])
    ensures forall i :: at < i < n ==> Pinned(c, c.lru[i])
  {
    if n == 0 then -1 else if Pinned(c, c.lru[n - 1]) then VictimAt(c, n - 1) else n - 1
  }

  function Removed(c: Cache, h: Word): Cache {
    c.(blocks := c.blocks - {h}, lru := Without(c.lru, h))
  }

  function Evicted(c: Cache): Cache
    decreases |c.lru|
  {
    if !OverLimit(c) then c
    else
      var at := VictimAt(c, |c.lru|);
      if at < 0 then c
      else
        WithoutShorter(c.lru, c.lru[at]);
        Evicted(Removed(c, c.lru[at]))
  }

  lemma EvictedStep(c: Cache)
    requires OverLimit(c) && VictimAt(c, |c.lru|) >= 0
    ensures Evicted(c) == Evicted(Removed(c, c.lru[VictimAt(c, |c.lru|)]))
  {
  }

  lemma EvictedStuck(c: Cache)
    requires VictimAt(c, |c.lru|) < 0
    ensures Evicted(c) == c
  {
  }

  lemma EvictedDone(c: Cache)
    requires !OverLimit(c)
    ensures Evicted(c) == c
  {
  }

  lemma {:induction false} WithoutShorter(lru: seq<Word>, h: Word)
    requires h in lru
    ensures |Without(lru, h)| < |lru|
  {
    if lru[0] != h {
      WithoutShorter(lru[1..], h);
    }
  }

  function Added(c: Cache, h: Word): Cache {
    c.(nextID := c.nextID + 1, blocks := c.blocks[h := Block(c.nextID + 1, 0)], lru := [h] + c.lru)
  }

  /** One block of an insertion. */
  function Used(c: Cache, h: Word): Cache {
    if h in c.blocks then Touched(c, h) else Evicted(Added(c, h))
  }

  function UsedAll(c: Cache, hs: seq<Word>): Cache
    decreases |hs|
  {
    if hs == [] then c else UsedAll(Used(c, hs[0]), hs[1..])
  }

  /** The handle an insertion reports for a block, which eviction may already have dropped. */
  function HandleFor(c: Cache, h: Word): int {
    if h in c.blocks then c.blocks[h].handle else c.nextID + 1
  }

  function InsertHandles(c: Cache, hs: seq<Word>): seq<int>
    decreases |hs|
  {
    if hs == [] then [] else [HandleFor(c, hs[0])] + InsertHandles(Used(c, hs[0]), hs[1..])
  }

  function InsertAdded(c: Cache, hs: seq<Word>): seq<bool>
    decreases |hs|
  {
    if hs == [] then [] else [hs[0] !in c.blocks] + InsertAdded(Used(c, hs[0]), hs[1..])
  }

  /** How many leading hashes are resident. */
  function MatchLen(c: Cache, hs: seq<Word>): (n: nat)
    ensures n <= |hs|
    ensures forall i :: 0 <= i < n ==> hs[i] in c.blocks
    ensures n < |hs| ==> hs[n] !in c.blocks
    decreases |hs|
  {
    if hs == [] || hs[0] !in c.blocks then 0 else 1 + MatchLen(c, hs[1..])
  }

  function Resident(c: Cache, hs: seq<Word>): seq<int>
    requires forall i :: 0 <= i < |hs| ==> hs[i] in c.blocks
  {
    seq(|hs|, i requires 0 <= i < |hs| => c.blocks[hs[i]].handle)
  }

  function MatchHandles(c: Cache, hs: seq<Word>): seq<int> {
    Resident(c, hs[..MatchLen(c, hs)])
  }

  function Matched(c: Cache, hs: seq<Word>): Cache {
    var d := UsedAll(c, hs[..MatchLen(c, hs)]);
    if MatchLen(c, hs) > 0 then d.(hits := d.hits + 1) else d.(misses := d.misses + 1)
  }

  function PinnedOne(c: Cache, h: int): Cache {
    c.(blocks := map k | k in c.blocks ::
      if c.blocks[k].handle == h then c.blocks[k].(refs := c.blocks[k].refs + 1) else c.blocks[k])
  }

  function UnpinnedOne(c: Cache, h: int): Cache {
    c.(blocks := map k | k in c.blocks ::
      if c.blocks[k].handle == h && c.blocks[k].refs > 0 then c.blocks[k].(refs := c.blocks[k].refs - 1)
      else c.blocks[k])
  }

  function PinnedAll(c: Cache, hs: seq<int>): Cache
    decreases |hs|
  {
    if hs == [] then c else PinnedAll(PinnedOne(c, hs[0]), hs[1..])
  }

  function UnpinnedAll(c: Cache, hs: seq<int>): Cache
    decreases |hs|
  {
    if hs == [] then c else UnpinnedAll(UnpinnedOne(c, hs[0]), hs[1..])
  }

  // Well-formedness.

  ghost predicate Distinct(lru: seq<Word>) {
    forall i, j :: 0 <= i < j < |lru| ==> lru[i] != lru[j]
  }

  /** Map and list hold the same blocks, each once, under distinct issued handles. */
  ghost predicate Wf(c: Cache) {
    && c.blockSize > 0
    && c.blockBytes >= 0
    && Distinct(c.lru)
    && (forall h :: h in c.lru <==> h in c.blocks)
    && (forall h :: h in c.blocks ==> 0 < c.blocks[h].handle <= c.nextID)
    && (forall g, h :: g in c.blocks && h in c.blocks && g != h ==> c.blocks[g].handle != c.blocks[h].handle)
  }

  lemma LruResident(c: Cache)
    requires Wf(c)
    ensures forall i :: 0 <= i < |c.lru| ==> c.lru[i] in c.blocks
  {
  }

  lemma WfSize(c: Cache)
    requires Wf(c)
    ensures c.blockSize > 0
  {
  }

  lemma {:induction false} WithoutDistinct(lru: seq<Word>, h: Word)
    requires Distinct(lru)
    ensures Distinct(Without(lru, h))
  {
    if lru != [] {
      WithoutDistinct(lru[1..], h);
      assert lru[0] !in lru[1..];
    }
  }

  lemma TouchedWf(c: Cache, h: Word)
    requires Wf(c) && h in c.blocks
    ensures Wf(Touched(c, h))
  {
    WithoutDistinct(c.lru, h);
  }

  lemma AddedWf(c: Cache, h: Word)
    requires Wf(c) && h !in c.blocks
    ensures Wf(Added(c, h))
  {
  }

  lemma RemovedWf(c: Cache, h: Word)
    requires Wf(c)
    ensures Wf(Removed(c, h))
  {
    WithoutDistinct(c.lru, h);
  }

  lemma {:induction false} EvictedWf(c: Cache)
    requires Wf(c)
    ensures Wf(Evicted(c))
    decreases |c.lru|
  {
    if OverLimit(c) {
      var at := VictimAt(c, |c.lru|);
      if at >= 0 {
        WithoutShorter(c.lru, c.lru[at]);
        RemovedWf(c, c.lru[at]);
        EvictedWf(Removed(c, c.lru[at]));
      }
    }
  }

  lemma UsedWf(c: Cache, h: Word)
    requires Wf(c)
    ensures Wf(Used(c, h))
  {
    if h in c.blocks {
      TouchedWf(c, h);
    } else {
      AddedWf(c, h);
      EvictedWf(Added(c, h));
    }
  }

  /** Changing nothing but reference counts keeps a cache well-formed. */
  ghost predicate SameBlocks(c: Cache, d: Cache) {
    && d == c.(blocks := d.blocks) && d.blocks.Keys == c.blocks.Keys
    && forall k :: k in c.blocks ==> d.blocks[k].handle == c.blocks[k].handle
  }

  lemma SameBlocksWf(c: Cache, d: Cache)
    requires Wf(c) && SameBlocks(c, d)
    ensures Wf(d)
  {
  }

  lemma PinsKeepBlocks(c: Cache, h: int)
    ensures SameBlocks(c, PinnedOne(c, h)) && SameBlocks(c, UnpinnedOne(c, h))
  {
  }

  lemma PinnedOneWf(c: Cache, h: int)
    requires Wf(c)
    ensures Wf(PinnedOne(c, h)) && Wf(UnpinnedOne(c, h))
  {
    hide Wf;
    hide PinnedOne;
    hide UnpinnedOne;
    PinsKeepBlocks(c, h);
    SameBlocksWf(c, PinnedOne(c, h));
    SameBlocksWf(c, UnpinnedOne(c, h));
  }

  function WithRefs(c: Cache, k: Word, refs: nat): Cache
    requires k in c.blocks
  {
    c.(blocks := c.blocks[k := c.blocks[k].(refs := refs)])
  }

  /** Pinning changes exactly the one resident block with that handle, if there is one. */
  lemma PinExact(c: Cache, h: int, found: bool, k: Word)
    requires Wf(c)
    requires found ==> k in c.blocks && c.blocks[k].handle == h
    requires !found ==> forall g :: g in c.blocks ==> c.blocks[g].handle != h
    ensures !found ==> PinnedOne(c, h) == c && UnpinnedOne(c, h) == c
    ensures found ==> PinnedOne(c, h) == WithRefs(c, k, c.blocks[k].refs + 1)
    ensures found ==> UnpinnedOne(c, h) == if c.blocks[k].refs > 0 then WithRefs(c, k, c.blocks[k].refs - 1) else c
  {
    hide Wf;
    hide PinnedOne;
    hide UnpinnedOne;
    if found {
      OneHolder(c, h, k);
      PinsOne(c, h, k);
      UnpinsOne(c, h, k);
    } else {
      PinsNone(c, h);
    }
  }

  lemma OneHolder(c: Cache, h: int, k: Word)
    requires Wf(c) && k in c.blocks && c.blocks[k].handle == h
    ensures forall g :: g in c.blocks && c.blocks[g].handle == h ==> g == k
  {
  }

  lemma PinsNone(c: Cache, h: int)
    requires forall g :: g in c.blocks ==> c.blocks[g].handle != h
    ensures PinnedOne(c, h) == c && UnpinnedOne(c, h) == c
  {
    assert PinnedOne(c, h).blocks == c.blocks && UnpinnedOne(c, h).blocks == c.blocks;
  }

  lemma PinsOne(c: Cache, h: int, k: Word)
    requires k in c.blocks && forall g :: g in c.blocks ==> (c.blocks[g].handle == h <==> g == k)
    ensures PinnedOne(c, h) == WithRefs(c, k, c.blocks[k].refs + 1)
  {
    assert PinnedOne(c, h).blocks == WithRefs(c, k, c.blocks[k].refs + 1).blocks;
  }

  lemma UnpinsOne(c: Cache, h: int, k: Word)
    requires k in c.blocks && forall g :: g in c.blocks ==> (c.blocks[g].handle == h <==> g == k)
    ensures UnpinnedOne(c, h) == if c.blocks[k].refs > 0 then WithRefs(c, k, c.blocks[k].refs - 1) else c
  {
    var d := if c.blocks[k].refs > 0 then WithRefs(c, k, c.blocks[k].refs - 1) else c;
    assert UnpinnedOne(c, h).blocks == d.blocks;
  }

  // The cache object.

  class PrefixCache {
    const blockSize: int
    const capacity: int
    const blockBytes: int
    const byteLimit: int
    var nextID: nat
    var blocks: map<Word, Block>
    var lru: seq<Word>
    var hits: nat
    var misses: nat

    function View(): Cache
      reads this
    {
      Cache(blockSize, capacity, blockBytes, byteLimit, nextID, blocks, lru, hits, misses)
    }

    constructor (blockSize: int, capacity: int)
      ensures View() == New(blockSize, capacity) && Wf(View())
    {
      this.blockSize := if blockSize <= 0 then 16 else blockSize;
      this.capacity := capacity;
      this.blockBytes, this.byteLimit := 0, 0;
      nextID, blocks, lru, hits, misses := 0, map[], [], 0, 0;
    }

    constructor MemoryAware(blockSize: int, blockBytes: int, byteLimit: int)
      ensures View() == NewMemoryAware(blockSize, blockBytes, byteLimit) && Wf(View())
    {
      this.blockSize := if blockSize <= 0 then 16 else blockSize;
      this.capacity := 0;
      this.blockBytes := if blockBytes > 0 && byteLimit > 0 then blockBytes else 0;
      this.byteLimit := if blockBytes > 0 && byteLimit > 0 then byteLimit else 0;
      nextID, blocks, lru, hits, misses := 0, map[], [], 0, 0;
    }

    method Touch(h: Word)
      requires Wf(View()) && h in blocks
      modifies this`lru
      ensures View() == Touched(old(View()), h) == Used(old(View()), h) && Wf(View())
    {
      TouchedWf(View(), h);
      lru := [h] + Without(lru, h);
    }

    /** Drops least-recently-used unpinned blocks until within the limits or out of candidates. */
    method Evict()
      requires Wf(View())
      modifies this`blocks, this`lru
      ensures View() == Evicted(old(View())) && Wf(View())
    {
      hide Wf;
      hide Evicted;
      hide OverLimit;
      hide Without;
      while OverLimit(View())
        invariant Wf(View())
        invariant Evicted(View()) == Evicted(old(View()))
        decreases |lru|
      {
        LruResident(View());
        var victim := |lru| - 1;
        while victim >= 0 && blocks[lru[victim]].refs > 0
          invariant -1 <= victim < |lru|
          invariant VictimAt(View(), victim + 1) == VictimAt(View(), |lru|)
        {
          victim := victim - 1;
        }
        if victim < 0 {
          EvictedStuck(View());
          return;
        }
        var h := lru[victim];
        WithoutShorter(lru, h);
        RemovedWf(View(), h);
        EvictedStep(View());
        lru := Without(lru, h);
        blocks := blocks - {h};
      }
      EvictedDone(View());
    }

    /** The longest resident prefix: matched tokens and the handle of each matched block. */
    method Match(tokens: seq<Token>) returns (matched: nat, handles: seq<int>)
      requires Wf(View())
      modifies this
      ensures Wf(View())
      ensures var hs := Keys(blockSize, tokens);
        && matched == MatchLen(old(View()), hs) * blockSize
        && handles == MatchHandles(old(View()), hs)
        && View() == Matched(old(View()), hs)
      ensures hits == old(hits) + (if matched > 0 then 1 else 0)
      ensures misses == old(misses) + (if matched > 0 then 0 else 1)
    {
      hide Hash;
      hide Keys;
      hide Walk;
      hide MatchLen;
      hide Touched;
      hide Wf;
      hide UsedAll;
      WfSize(View());
      ghost var hs := Keys(blockSize, tokens);
      ghost var start := View();
      var parent: Word, i := 0, 0;
      matched, handles := 0, [];
      WalkStart(blockSize, tokens);
      UsedNone(start, hs);
      ghost var k := 0;
      while i + blockSize <= |tokens|
        invariant 0 <= i <= |tokens| && k <= |hs| && matched == i == k * blockSize
        invariant Walk(blockSize, tokens, i, parent, hs, k)
        invariant Wf(View()) && blocks == start.blocks
        invariant View() == UsedAll(start, hs[..k])
        invariant hits == old(hits) && misses == old(misses)
        invariant |handles| == k
        invariant forall j :: 0 <= j < k ==> hs[j] in start.blocks && handles[j] == start.blocks[hs[j]].handle
        decreases |tokens| - i
      {
        WalkStep(blockSize, tokens, i, parent, hs, k);
        var h := BlockHash.BlockHash(parent, tokens[i..i + blockSize]);
        if h !in blocks {
          break;
        }
        UsedAllSnoc(start, hs, k);
        handles := handles + [blocks[h].handle];
        Touch(h);
        matched := matched + blockSize;
        parent := h;
        i := i + blockSize;
        MulNext(k, blockSize);
        k := k + 1;
      }
      if i + blockSize > |tokens| {
        WalkEnd(blockSize, tokens, i, parent, hs, k);
      }
      MatchLenIs(start, hs, k);
      MulPositive(k, blockSize);
      Count(matched > 0);
    }

    method Count(hit: bool)
      modifies this`hits, this`misses
      ensures hits == old(hits) + (if hit then 1 else 0)
      ensures misses == old(misses) + (if hit then 0 else 1)
      ensures Wf(old(View())) ==> Wf(View())
    {
      if hit {
        hits := hits + 1;
      } else {
        misses := misses + 1;
      }
    }

    /** Registers every whole block; reports each block's handle and whether it is new. */
    method Insert(tokens: seq<Token>) returns (handles: seq<int>, added: seq<bool>)
      requires Wf(View())
      modifies this
      ensures Wf(View())
      ensures var hs := Keys(blockSize, tokens);
        && handles == InsertHandles(old(View()), hs)
        && added == InsertAdded(old(View()), hs)
        && View() == UsedAll(old(View()), hs)
    {
      hide Hash;
      hide Keys;
      hide Walk;
      hide Used;
      hide HandleFor;
      hide Wf;
      hide UsedAll;
      hide InsertHandles;
      hide InsertAdded;
      WfSize(View());
      ghost var hs := Keys(blockSize, tokens);
      ghost var start := View();
      var parent: Word, i := 0, 0;
      handles, added := [], [];
      WalkStart(blockSize, tokens);
      assert hs[0..] == hs;
      ghost var k := 0;
      while i + blockSize <= |tokens|
        invariant 0 <= i <= |tokens| && k <= |hs|
        invariant Walk(blockSize, tokens, i, parent, hs, k)
        invariant Wf(View())
        invariant UsedAll(View(), hs[k..]) == UsedAll(start, hs)
        invariant handles + InsertHandles(View(), hs[k..]) == InsertHandles(start, hs)
        invariant added + InsertAdded(View(), hs[k..]) == InsertAdded(start, hs)
        decreases |tokens| - i
      {
        WalkStep(blockSize, tokens, i, parent, hs, k);
        var h := BlockHash.BlockHash(parent, tokens[i..i + blockSize]);
        InsertStep(View(), hs, k, handles, added);
        var handle, isNew := InsertOne(h);
        added := added + [isNew];
        handles := handles + [handle];
        parent := h;
        i := i + blockSize;
        k := k + 1;
      }
      WalkEnd(blockSize, tokens, i, parent, hs, k);
      InsertDone(View(), hs);
    }

    method InsertOne(h: Word) returns (handle: int, isNew: bool)
      requires Wf(View())
      modifies this
      ensures Wf(View()) && View() == Used(old(View()), h)
      ensures handle == HandleFor(old(View()), h) && isNew == (h !in old(blocks))
    {
      if h !in blocks {
        AddedWf(View(), h);
        nextID := nextID + 1;
        handle := nextID;
        lru := [h] + lru;
        blocks := blocks[h := Block(nextID, 0)];
        Evict();
        return handle, true;
      }
      Touch(h);
      return blocks[h].handle, false;
    }

    /** Finds a resident block by its handle. */
    method ByHandle(h: int) returns (found: bool, k: Word)
      requires Wf(View())
      ensures found ==> k in blocks && blocks[k].handle == h
      ensures !found ==> forall g :: g in blocks ==> blocks[g].handle != h
    {
      var todo := blocks.Keys;
      k := 0;
      while todo != {}
        invariant todo <= blocks.Keys
        invariant forall g :: g in blocks && g !in todo ==> blocks[g].handle != h
        decreases |todo|
      {
        var g :| g in todo;
        if blocks[g].handle == h {
          return true, g;
        }
        todo := todo - {g};
      }
      return false, 0;
    }

    method PinOne(h: int)
      requires Wf(View())
      modifies this`blocks
      ensures Wf(View()) && View() == PinnedOne(old(View()), h)
    {
      hide Wf;
      hide PinnedOne;
      ghost var c := View();
      PinnedOneWf(c, h);
      var found, k := ByHandle(h);
      PinExact(c, h, found, k);
      if found {
        blocks := blocks[k := blocks[k].(refs := blocks[k].refs + 1)];
      }
    }

    method UnpinOne(h: int)
      requires Wf(View())
      modifies this`blocks
      ensures Wf(View()) && View() == UnpinnedOne(old(View()), h)
    {
      hide Wf;
      hide UnpinnedOne;
      ghost var c := View();
      PinnedOneWf(c, h);
      var found, k := ByHandle(h);
      PinExact(c, h, found, k);
      if found && blocks[k].refs > 0 {
        blocks := blocks[k := blocks[k].(refs := blocks[k].refs - 1)];
      }
    }

    method Pin(handles: seq<int>)
      requires Wf(View())
      modifies this`blocks
      ensures Wf(View()) && View() == PinnedAll(old(View()), handles)
    {
      hide Wf;
      hide PinnedOne;
      for i := 0 to |handles|
        invariant Wf(View())
        invariant PinnedAll(View(), handles[i..]) == PinnedAll(old(View()), handles)
      {
        assert handles[i..][1..] == handles[i + 1..];
        PinOne(handles[i]);
      }
    }

    method Unpin(handles: seq<int>)
      requires Wf(View())
      modifies this`blocks
      ensures Wf(View()) && View() == UnpinnedAll(old(View()), handles)
    {
      hide Wf;
      hide UnpinnedOne;
      for i := 0 to |handles|
        invariant Wf(View())
        invariant UnpinnedAll(View(), handles[i..]) == UnpinnedAll(old(View()), handles)
      {
        assert handles[i..][1..] == handles[i + 1..];
        UnpinOne(handles[i]);
      }
    }
  }

  lemma InsertHead(c: Cache, hs: seq<Word>)
    requires hs != []
    ensures UsedAll(c, hs) == UsedAll(Used(c, hs[0]), hs[1..])
    ensures InsertHandles(c, hs) == [HandleFor(c, hs[0])] + InsertHandles(Used(c, hs[0]), hs[1..])
    ensures InsertAdded(c, hs) == [hs[0] !in c.blocks] + InsertAdded(Used(c, hs[0]), hs[1..])
  {
    hide Used;
    hide HandleFor;
  }

  lemma InsertStep(c: Cache, hs: seq<Word>, k: nat, handles: seq<int>, added: seq<bool>)
    requires k < |hs|
    ensures UsedAll(c, hs[k..]) == UsedAll(Used(c, hs[k]), hs[k + 1..])
    ensures handles + InsertHandles(c, hs[k..])
         == handles + [HandleFor(c, hs[k])] + InsertHandles(Used(c, hs[k]), hs[k + 1..])
    ensures added + InsertAdded(c, hs[k..]) == added + [hs[k] !in c.blocks] + InsertAdded(Used(c, hs[k]), hs[k + 1..])
  {
    hide UsedAll;
    hide InsertHandles;
    hide InsertAdded;
    hide Used;
    hide HandleFor;
    var rest := hs[k..];
    assert rest[0] == hs[k] && rest[1..] == hs[k + 1..];
    InsertHead(c, rest);
  }

  lemma InsertDone(c: Cache, hs: seq<Word>)
    ensures UsedAll(c, hs[|hs|..]) == c && InsertHandles(c, hs[|hs|..]) == [] && InsertAdded(c, hs[|hs|..]) == []
  {
  }

  lemma UsedNone(c: Cache, hs: seq<Word>)
    ensures UsedAll(c, hs[..0]) == c
  {
  }

  lemma {:induction false} UsedAllSnoc(c: Cache, hs: seq<Word>, k: nat)
    requires k < |hs|
    ensures UsedAll(c, hs[..k + 1]) == Used(UsedAll(c, hs[..k]), hs[k])
    decreases k
  {
    if k == 0 {
      assert hs[..1] == [hs[0]] && hs[..0] == [];
      assert UsedAll(Used(c, hs[0]), hs[..1][1..]) == Used(c, hs[0]);
    } else {
      assert hs[..k + 1][1..] == hs[1..][..k] && hs[..k][1..] == hs[1..][..k - 1];
      UsedAllSnoc(Used(c, hs[0]), hs[1..], k - 1);
    }
  }

  lemma {:induction false} MatchLenIs(c: Cache, hs: seq<Word>, n: nat)
    requires n <= |hs| && forall i :: 0 <= i < n ==> hs[i] in c.blocks
    requires n < |hs| ==> hs[n] !in c.blocks
    ensures MatchLen(c, hs) == n
  {
  }

  lemma {:induction false} EvictedIDs(c: Cache)
    ensures Evicted(c).nextID == c.nextID
    decreases |c.lru|
  {
    if OverLimit(c) {
      var at := VictimAt(c, |c.lru|);
      if at >= 0 {
        WithoutShorter(c.lru, c.lru[at]);
        EvictedIDs(Removed(c, c.lru[at]));
      }
    }
  }

  /** What an insertion reports of its block `k`, which finds the cache as the blocks before it leave it: new
      exactly when the block is not resident then, and a new block's handle was never issued before. */
  lemma {:induction false} InsertReports(c: Cache, hs: seq<Word>, k: nat)
    requires Wf(c) && k < |hs|
    ensures |InsertHandles(c, hs)| == |InsertAdded(c, hs)| == |hs|
    ensures var d := UsedAll(c, hs[..k]);
      && c.nextID <= d.nextID
      && (InsertAdded(c, hs)[k] <==> hs[k] !in d.blocks)
      && InsertHandles(c, hs)[k] == if hs[k] in d.blocks then d.blocks[hs[k]].handle else d.nextID + 1
    decreases |hs|
  {
    hide Wf;
    hide Evicted;
    InsertHead(c, hs);
    InsertLength(Used(c, hs[0]), hs[1..]);
    if k == 0 {
      assert hs[..0] == [];
    } else {
      UsedWf(c, hs[0]);
      EvictedIDs(Added(c, hs[0]));
      InsertReports(Used(c, hs[0]), hs[1..], k - 1);
      assert hs[..k][1..] == hs[1..][..k - 1] && hs[..k][0] == hs[0];
    }
  }

  lemma {:induction false} InsertLength(c: Cache, hs: seq<Word>)
    ensures |InsertHandles(c, hs)| == |InsertAdded(c, hs)| == |hs|
    decreases |hs|
  {
    hide Used;
    if hs != [] {
      InsertLength(Used(c, hs[0]), hs[1..]);
    }
  }
}
