/** Whole runs of prefix-cache operations: limits, recency order and pins, against
    an independent record of when each block was last used and who holds pins. */
module PrefixRuns {
  import opened Basics
  import opened BlockHash
  import opened Prefix

  /** A cache with its history: a clock of uses, the last use of every block, and the callers' unreleased pins. */
  datatype World = World(c: Cache, clock: nat, stamp: map<Word, nat>, ledger: multiset<int>)

  datatype Op =
    | Match(hs: seq<Word>)
    | Insert(hs: seq<Word>)
    | Pin(handles: seq<int>)
    | Unpin(handles: seq<int>)

  function Use(w: World, h: Word): World {
    World(Used(w.c, h), w.clock + 1, w.stamp[h := w.clock + 1], w.ledger)
  }

  function UseAll(w: World, hs: seq<Word>): World
    decreases |hs|
  {
    if hs == [] then w else UseAll(Use(w, hs[0]), hs[1..])
  }

  /** Callers pin only handles the cache has issued. */
  predicate Legal(w: World, op: Op) {
    op.Pin? ==> forall x :: x in op.handles ==> 0 < x <= w.c.nextID
  }

  function Apply(w: World, op: Op): World {
    match op
    case Match(hs) => UseAll(w, hs[..MatchLen(w.c, hs)]).(c := Matched(w.c, hs))
    case Insert(hs) => UseAll(w, hs)
    case Pin(handles) => w.(c := PinnedAll(w.c, handles), ledger := w.ledger + multiset(handles))
    case Unpin(handles) => w.(c := UnpinnedAll(w.c, handles), ledger := w.ledger - multiset(handles))
  }

  // The invariant.

  ghost predicate Recent(c: Cache, clock: nat, stamp: map<Word, nat>) {
    && (forall h :: h in c.blocks ==> h in stamp)
    && (forall h :: h in stamp ==> stamp[h] <= clock)
    && (forall i, j :: 0 <= i < j < |c.lru| && c.lru[i] in stamp && c.lru[j] in stamp ==>
          stamp[c.lru[i]] > stamp[c.lru[j]])
  }

  ghost predicate PinsMatch(c: Cache, ledger: multiset<int>) {
    && (forall h :: h in c.blocks ==> c.blocks[h].refs == ledger[c.blocks[h].handle])
    && (forall x :: x in ledger ==> x <= c.nextID)
  }

  ghost predicate Inv(w: World) {
    Wf(w.c) && !OverLimit(w.c) && Recent(w.c, w.clock, w.stamp) && PinsMatch(w.c, w.ledger)
  }

  lemma NewInv(blockSize: int, capacity: int, blockBytes: int, byteLimit: int)
    ensures Inv(World(New(blockSize, capacity), 0, map[], multiset{}))
    ensures Inv(World(NewMemoryAware(blockSize, blockBytes, byteLimit), 0, map[], multiset{}))
  {
  }

  // Eviction after an insertion.

  /** The new block itself is unpinned, so eviction always finds a victim: its all-pinned exit is never taken. */
  lemma VictimExists(c: Cache, h: Word)
    requires h !in c.blocks
    ensures VictimAt(Added(c, h), |c.lru| + 1) >= 0
  {
    var d := Added(c, h);
    var at := VictimAt(d, |d.lru|);
    assert d.lru[0] == h && !Pinned(d, h);
  }

  lemma RemovedSize(c: Cache, h: Word)
    requires h in c.blocks
    ensures |Removed(c, h).blocks| == |c.blocks| - 1
  {
    assert c.blocks.Keys == Removed(c, h).blocks.Keys + {h};
    assert |c.blocks.Keys| == |Removed(c, h).blocks.Keys| + 1;
  }

  lemma AddedSize(c: Cache, h: Word)
    requires h !in c.blocks
    ensures |Added(c, h).blocks| == |c.blocks| + 1
  {
    assert Added(c, h).blocks.Keys == c.blocks.Keys + {h};
  }

  lemma SameSizeSameLimit(c: Cache, d: Cache)
    requires |c.blocks| == |d.blocks| && c.capacity == d.capacity
    requires c.blockBytes == d.blockBytes && c.byteLimit == d.byteLimit
    ensures OverLimit(c) == OverLimit(d)
  {
  }

  /** An insertion into a cache within its limits evicts at most one block, and ends within them whatever is pinned. */
  lemma InsertEvictsOne(c: Cache, h: Word)
    requires Wf(c) && !OverLimit(c) && h !in c.blocks
    ensures
      var d := Added(c, h);
      var at := VictimAt(d, |d.lru|);
      && at >= 0
      && Used(c, h) == (if OverLimit(d) then Removed(d, d.lru[at]) else d)
      && !OverLimit(Used(c, h))
  {
    hide Evicted;
    hide OverLimit;
    hide VictimAt;
    var d := Added(c, h);
    VictimExists(c, h);
    AddedWf(c, h);
    AddedSize(c, h);
    if OverLimit(d) {
      var v := d.lru[VictimAt(d, |d.lru|)];
      assert v in d.lru;
      RemovedSize(d, v);
      SameSizeSameLimit(c, Removed(d, v));
      EvictedStep(d);
      EvictedDone(Removed(d, v));
    } else {
      EvictedDone(d);
    }
  }

  /** An insertion loses the very block it has just created exactly when it overflows a limit and
      every older block is pinned; the handle it returns is then not resident. */
  lemma FreshBlockLost(c: Cache, h: Word)
    requires Wf(c) && !OverLimit(c) && h !in c.blocks
    ensures h !in Used(c, h).blocks <==> OverLimit(Added(c, h)) && forall g :: g in c.blocks ==> Pinned(c, g)
  {
    hide Evicted;
    hide OverLimit;
    hide Used;
    var d := Added(c, h);
    InsertEvictsOne(c, h);
    var at := VictimAt(d, |d.lru|);
    assert d.lru[0] == h && d.lru[1..] == c.lru;
    if at == 0 {
      forall g | g in c.blocks ensures Pinned(c, g) {
        var i := InSeq(c.lru, g);
        assert d.lru[i + 1] == g && Pinned(d, d.lru[i + 1]);
      }
    } else {
      assert d.lru[at] == c.lru[at - 1] && c.lru[at - 1] in c.lru;
    }
  }

  /** Room for one block, and that one pinned. */
  const PINNED_FULL: Cache := Cache(16, 1, 0, 0, 1, map[7 := Block(1, 1)], [7], 0, 0)

  lemma PinnedFullLoses()
    ensures Wf(PINNED_FULL) && !OverLimit(PINNED_FULL) && 8 !in Used(PINNED_FULL, 8).blocks
  {
    var c := PINNED_FULL;
    var d := Added(c, 8);
    assert d.blocks == map[7 := Block(1, 1), 8 := Block(2, 0)];
    assert c.blocks.Keys == {7} && d.blocks.Keys == {7, 8};
    assert |d.blocks.Keys| == 2;
    assert |c.blocks| == |c.blocks.Keys| == 1 && |d.blocks| == |d.blocks.Keys|;
    FreshBlockLost(c, 8);
  }

  lemma InSeq(lru: seq<Word>, g: Word) returns (i: nat)
    requires g in lru
    ensures i < |lru| && lru[i] == g
  {
    i :| i < |lru| && lru[i] == g;
  }

  /** In a list in order of last use, the victim's last use is the earliest of the unpinned blocks'. */
  lemma VictimEarliest(d: Cache, clock: nat, stamp: map<Word, nat>, g: Word)
    requires Wf(d) && Recent(d, clock, stamp) && VictimAt(d, |d.lru|) >= 0
    requires g in d.blocks && !Pinned(d, g)
    ensures d.lru[VictimAt(d, |d.lru|)] in d.blocks
    ensures stamp[d.lru[VictimAt(d, |d.lru|)]] <= stamp[g]
  {
    var at := VictimAt(d, |d.lru|);
    assert d.lru[at] in d.lru;
    var i := InSeq(d.lru, g);
    assert i <= at;
  }

  /** The evicted block is the least recently used among the unpinned ones, by the record of uses. */
  lemma VictimLeastRecent(w: World, h: Word)
    requires Inv(w) && h !in w.c.blocks && OverLimit(Added(w.c, h))
    ensures
      var d := Added(w.c, h);
      var v := d.lru[VictimExistsAt(w.c, h)];
      && v in d.blocks && !Pinned(d, v)
      && Used(w.c, h) == Removed(d, v)
      && forall g :: g in d.blocks && !Pinned(d, g) ==> g in Use(w, h).stamp && Use(w, h).stamp[v] <= Use(w, h).stamp[g]
  {
    hide OverLimit;
    hide Recent;
    hide PinsMatch;
    hide Wf;
    hide Evicted;
    hide Used;
    hide VictimAt;
    var d := Added(w.c, h);
    AddedWf(w.c, h);
    InsertEvictsOne(w.c, h);
    AddedRecent(w, h);
    var at := VictimAt(d, |d.lru|);
    WfListed(d, at);
    RecentStamped(d, w.clock + 1, w.stamp[h := w.clock + 1], d.lru[at]);
    forall g | g in d.blocks && !Pinned(d, g)
      ensures g in Use(w, h).stamp && Use(w, h).stamp[d.lru[at]] <= Use(w, h).stamp[g]
    {
      VictimEarliest(d, w.clock + 1, w.stamp[h := w.clock + 1], g);
      RecentStamped(d, w.clock + 1, w.stamp[h := w.clock + 1], g);
    }
  }

  lemma WfListed(c: Cache, i: nat)
    requires Wf(c) && i < |c.lru|
    ensures c.lru[i] in c.blocks
  {
    assert c.lru[i] in c.lru;
  }

  lemma RecentStamped(c: Cache, clock: nat, stamp: map<Word, nat>, g: Word)
    requires Recent(c, clock, stamp) && g in c.blocks
    ensures g in stamp
  {
  }

  function VictimExistsAt(c: Cache, h: Word): (at: nat)
    requires h !in c.blocks
    ensures at < |Added(c, h).lru|
  {
    VictimExists(c, h);
    VictimAt(Added(c, h), |c.lru| + 1)
  }

  lemma AddedRecent(w: World, h: Word)
    requires Inv(w) && h !in w.c.blocks
    ensures Recent(Added(w.c, h), w.clock + 1, w.stamp[h := w.clock + 1])
  {
    var lru, stamp := Added(w.c, h).lru, w.stamp[h := w.clock + 1];
    forall i, j | 0 <= i < j < |lru| && lru[i] in stamp && lru[j] in stamp ensures stamp[lru[i]] > stamp[lru[j]] {
      assert lru[j] == w.c.lru[j - 1] && lru[j] in w.c.lru;
      if i > 0 {
        assert lru[i] == w.c.lru[i - 1] && lru[i] in w.c.lru;
      }
    }
  }

  // Recency.

  ghost predicate Descending(lru: seq<Word>, stamp: map<Word, nat>) {
    forall i, j :: 0 <= i < j < |lru| && lru[i] in stamp && lru[j] in stamp ==> stamp[lru[i]] > stamp[lru[j]]
  }

  lemma {:induction false} WithoutDescending(lru: seq<Word>, h: Word, stamp: map<Word, nat>)
    requires Descending(lru, stamp)
    ensures Descending(Without(lru, h), stamp)
  {
    if lru != [] {
      var r := Without(lru[1..], h);
      WithoutDescending(lru[1..], h, stamp);
      forall k | k in r && k in stamp && lru[0] in stamp ensures stamp[lru[0]] > stamp[k] {
        var j :| 0 <= j < |lru[1..]| && lru[1..][j] == k;
        assert lru[j + 1] == k;
      }
      assert forall i :: 0 <= i < |r| ==> r[i] in r;
    }
  }

  lemma RemovedRecent(c: Cache, clock: nat, stamp: map<Word, nat>, h: Word)
    requires Recent(c, clock, stamp)
    ensures Recent(Removed(c, h), clock, stamp)
  {
    assert Descending(c.lru, stamp);
    WithoutDescending(c.lru, h, stamp);
    assert Descending(Removed(c, h).lru, stamp);
  }

  /** Moving `h` to the front with a fresh stamp keeps the order. */
  lemma FrontDescending(rest: seq<Word>, h: Word, clock: nat, stamp: map<Word, nat>)
    requires Descending(rest, stamp) && h !in rest && forall k :: k in stamp ==> stamp[k] <= clock
    ensures Descending([h] + rest, stamp[h := clock + 1])
  {
    var lru, s := [h] + rest, stamp[h := clock + 1];
    forall i, j | 0 <= i < j < |lru| && lru[i] in s && lru[j] in s ensures s[lru[i]] > s[lru[j]] {
      assert lru[j] == rest[j - 1] && rest[j - 1] in rest;
      if i > 0 { assert lru[i] == rest[i - 1] && rest[i - 1] in rest; }
    }
  }

  lemma TouchedRecent(c: Cache, clock: nat, stamp: map<Word, nat>, h: Word)
    requires Recent(c, clock, stamp) && h in c.blocks
    ensures Recent(Touched(c, h), clock + 1, stamp[h := clock + 1])
  {
    assert Descending(c.lru, stamp);
    hide Descending;
    WithoutDescending(c.lru, h, stamp);
    FrontDescending(Without(c.lru, h), h, clock, stamp);
    DescendingRecent(Touched(c, h), clock + 1, stamp[h := clock + 1]);
  }

  lemma DescendingRecent(c: Cache, clock: nat, stamp: map<Word, nat>)
    requires Descending(c.lru, stamp)
    requires forall h :: h in c.blocks ==> h in stamp
    requires forall h :: h in stamp ==> stamp[h] <= clock
    ensures Recent(c, clock, stamp)
  {
  }

  // Single uses.

  lemma UsePinsMatch(w: World, h: Word)
    requires Inv(w)
    ensures PinsMatch(Used(w.c, h), w.ledger)
  {
    hide OverLimit;
    hide Evicted;
    hide VictimAt;
    hide Recent;
    if h !in w.c.blocks {
      InsertEvictsOne(w.c, h);
    }
  }

  lemma UseRecent(w: World, h: Word)
    requires Inv(w)
    ensures Recent(Use(w, h).c, w.clock + 1, w.stamp[h := w.clock + 1])
  {
    hide OverLimit;
    hide Evicted;
    hide VictimAt;
    hide Recent;
    hide PinsMatch;
    if h in w.c.blocks {
      TouchedRecent(w.c, w.clock, w.stamp, h);
    } else {
      InsertEvictsOne(w.c, h);
      AddedRecent(w, h);
      var d := Added(w.c, h);
      if OverLimit(d) {
        RemovedRecent(d, w.clock + 1, w.stamp[h := w.clock + 1], d.lru[VictimAt(d, |d.lru|)]);
      }
    }
  }

  lemma UseWithin(w: World, h: Word)
    requires Inv(w)
    ensures !OverLimit(Used(w.c, h))
  {
    hide Evicted;
    hide VictimAt;
    hide Recent;
    hide PinsMatch;
    if h !in w.c.blocks {
      InsertEvictsOne(w.c, h);
    }
  }

  lemma UseKeeps(w: World, h: Word)
    requires Inv(w)
    ensures Inv(Use(w, h))
  {
    hide Wf;
    hide OverLimit;
    hide Recent;
    hide PinsMatch;
    hide Used;
    UsedWf(w.c, h);
    UsePinsMatch(w, h);
    UseRecent(w, h);
    UseWithin(w, h);
  }

  /** No pinned block is ever removed or relabelled by a use. */
  lemma UseKeepsPinned(w: World, h: Word, k: Word)
    requires Inv(w) && Pinned(w.c, k)
    ensures k in Use(w, h).c.blocks && Use(w, h).c.blocks[k] == w.c.blocks[k]
  {
    hide OverLimit;
    hide Evicted;
    hide Recent;
    hide PinsMatch;
    if h !in w.c.blocks {
      InsertEvictsOne(w.c, h);
    }
  }

  lemma {:induction false} UseAllKeeps(w: World, hs: seq<Word>)
    requires Inv(w)
    ensures Inv(UseAll(w, hs))
    ensures UseAll(w, hs).c == UsedAll(w.c, hs) && UseAll(w, hs).ledger == w.ledger
    ensures forall k :: Pinned(w.c, k) ==> k in UseAll(w, hs).c.blocks && UseAll(w, hs).c.blocks[k] == w.c.blocks[k]
    decreases |hs|
  {
    if hs != [] {
      UseKeeps(w, hs[0]);
      UseAllKeeps(Use(w, hs[0]), hs[1..]);
      forall k | Pinned(w.c, k) ensures k in UseAll(w, hs).c.blocks && UseAll(w, hs).c.blocks[k] == w.c.blocks[k] {
        UseKeepsPinned(w, hs[0], k);
      }
    }
  }

  // Pins.

  lemma {:induction false} PinnedAllKeeps(w: World, handles: seq<int>)
    requires Inv(w) && Legal(w, Pin(handles))
    ensures Inv(Apply(w, Pin(handles)))
    decreases |handles|
  {
    hide Inv;
    if handles == [] {
      assert w.ledger + multiset(handles) == w.ledger;
    } else {
      assert handles == [handles[0]] + handles[1..];
      assert handles[0] in handles && forall x :: x in handles[1..] ==> x in handles;
      PinnedOneKeeps(w, handles[0]);
      var v := w.(c := PinnedOne(w.c, handles[0]), ledger := w.ledger + multiset{handles[0]});
      PinnedAllKeeps(v, handles[1..]);
      assert w.ledger + multiset(handles) == v.ledger + multiset(handles[1..]);
    }
  }

  lemma PinnedOneKeeps(w: World, x: int)
    requires Inv(w) && 0 < x <= w.c.nextID
    ensures Inv(w.(c := PinnedOne(w.c, x), ledger := w.ledger + multiset{x}))
  {
    hide Wf;
    hide OverLimit;
    hide PinnedOne;
    hide PinsMatch;
    PinnedOneWf(w.c, x);
    PinsKeepBlocks(w.c, x);
    PinsAdd(w.c, w.ledger, x);
    SameKeysSameLimit(w.c, PinnedOne(w.c, x));
  }

  lemma PinsAdd(c: Cache, ledger: multiset<int>, x: int)
    requires PinsMatch(c, ledger) && x <= c.nextID
    ensures PinsMatch(PinnedOne(c, x), ledger + multiset{x})
  {
    forall y | y in ledger + multiset{x} ensures y <= c.nextID {
      assert y in ledger || y == x;
    }
  }

  lemma PinsDrop(c: Cache, ledger: multiset<int>, x: int)
    requires PinsMatch(c, ledger)
    ensures PinsMatch(UnpinnedOne(c, x), ledger - multiset{x})
  {
    forall y | y in ledger - multiset{x} ensures y <= c.nextID {
      assert y in ledger;
    }
  }

  lemma {:induction false} UnpinnedAllKeeps(w: World, handles: seq<int>)
    requires Inv(w)
    ensures Inv(Apply(w, Unpin(handles)))
    decreases |handles|
  {
    hide Inv;
    if handles == [] {
      assert w.ledger - multiset(handles) == w.ledger;
    } else {
      assert handles == [handles[0]] + handles[1..];
      UnpinnedOneKeeps(w, handles[0]);
      var v := w.(c := UnpinnedOne(w.c, handles[0]), ledger := w.ledger - multiset{handles[0]});
      UnpinnedAllKeeps(v, handles[1..]);
      assert w.ledger - multiset(handles) == v.ledger - multiset(handles[1..]);
    }
  }

  lemma UnpinnedOneKeeps(w: World, x: int)
    requires Inv(w)
    ensures Inv(w.(c := UnpinnedOne(w.c, x), ledger := w.ledger - multiset{x}))
  {
    hide Wf;
    hide OverLimit;
    hide UnpinnedOne;
    hide PinsMatch;
    PinnedOneWf(w.c, x);
    PinsKeepBlocks(w.c, x);
    PinsDrop(w.c, w.ledger, x);
    SameKeysSameLimit(w.c, UnpinnedOne(w.c, x));
  }

  lemma SameKeysSameLimit(c: Cache, d: Cache)
    requires c.blocks.Keys == d.blocks.Keys && c.capacity == d.capacity
    requires c.blockBytes == d.blockBytes && c.byteLimit == d.byteLimit
    ensures OverLimit(c) == OverLimit(d)
  {
    assert |c.blocks.Keys| == |d.blocks.Keys|;
  }

  // Runs.

  lemma StepKeeps(w: World, op: Op)
    requires Inv(w) && Legal(w, op)
    ensures Inv(Apply(w, op))
  {
    hide Inv;
    match op {
      case Match(hs) =>
        UseAllKeeps(w, hs[..MatchLen(w.c, hs)]);
        StatsKeep(UseAll(w, hs[..MatchLen(w.c, hs)]), Apply(w, op));
      case Insert(hs) => UseAllKeeps(w, hs);
      case Pin(handles) => PinnedAllKeeps(w, handles);
      case Unpin(handles) => UnpinnedAllKeeps(w, handles);
    }
  }

  lemma StatsKeep(w: World, v: World)
    requires Inv(w) && v == w.(c := w.c.(hits := v.c.hits, misses := v.c.misses))
    ensures Inv(v)
  {
  }

  function Run(w: World, ops: seq<Op>): Option<World>
    decreases |ops|
  {
    if ops == [] then Some(w)
    else if Legal(w, ops[0]) then Run(Apply(w, ops[0]), ops[1..])
    else None
  }

  /** Over every run: within both limits regardless of pins, map and list agree, the list is in order of
      last use, and every pin count is the number of unreleased pins. */
  lemma {:induction false} RunKeeps(w: World, ops: seq<Op>)
    requires Inv(w) && Run(w, ops).Some?
    ensures Inv(Run(w, ops).value)
    decreases |ops|
  {
    if ops != [] {
      StepKeeps(w, ops[0]);
      RunKeeps(Apply(w, ops[0]), ops[1..]);
    }
  }

  /** A block stays resident for as long as a pin on it is unreleased. */
  lemma PinnedBlockStays(w: World, op: Op, k: Word)
    requires Inv(w) && Legal(w, op) && Pinned(w.c, k)
    requires op.Unpin? ==> multiset(op.handles)[w.c.blocks[k].handle] < w.ledger[w.c.blocks[k].handle]
    ensures Pinned(Apply(w, op).c, k) && Apply(w, op).c.blocks[k].handle == w.c.blocks[k].handle
  {
    StepKeeps(w, op);
    match op {
      case Match(hs) => UseAllKeeps(w, hs[..MatchLen(w.c, hs)]);
      case Insert(hs) => UseAllKeeps(w, hs);
      case Pin(handles) => PinsKeepLabels(w.c, handles, k);
      case Unpin(handles) => UnpinsKeepLabels(w.c, handles, k);
    }
  }

  lemma {:induction false} PinsKeepLabels(c: Cache, handles: seq<int>, k: Word)
    requires k in c.blocks
    ensures k in PinnedAll(c, handles).blocks && PinnedAll(c, handles).blocks[k].handle == c.blocks[k].handle
    decreases |handles|
  {
    if handles != [] { PinsKeepLabels(PinnedOne(c, handles[0]), handles[1..], k); }
  }

  lemma {:induction false} UnpinsKeepLabels(c: Cache, handles: seq<int>, k: Word)
    requires k in c.blocks
    ensures k in UnpinnedAll(c, handles).blocks && UnpinnedAll(c, handles).blocks[k].handle == c.blocks[k].handle
    decreases |handles|
  {
    if handles != [] { UnpinsKeepLabels(UnpinnedOne(c, handles[0]), handles[1..], k); }
  }

  // The limits a cache was made with.

  /** The settings of a cache never change. */
  ghost predicate SameSettings(c: Cache, d: Cache) {
    c.blockSize == d.blockSize && c.capacity == d.capacity && c.blockBytes == d.blockBytes && c.byteLimit == d.byteLimit
  }

  lemma {:induction false} EvictedSettings(c: Cache)
    ensures SameSettings(c, Evicted(c))
    decreases |c.lru|
  {
    if OverLimit(c) {
      var at := VictimAt(c, |c.lru|);
      if at >= 0 {
        WithoutShorter(c.lru, c.lru[at]);
        EvictedSettings(Removed(c, c.lru[at]));
      }
    }
  }

  lemma {:induction false} UsedAllSettings(c: Cache, hs: seq<Word>)
    ensures SameSettings(c, UsedAll(c, hs))
    decreases |hs|
  {
    hide Evicted;
    if hs != [] {
      EvictedSettings(Added(c, hs[0]));
      UsedAllSettings(Used(c, hs[0]), hs[1..]);
    }
  }

  lemma {:induction false} PinsSettings(c: Cache, handles: seq<int>)
    ensures SameSettings(c, PinnedAll(c, handles)) && SameSettings(c, UnpinnedAll(c, handles))
    decreases |handles|
  {
    if handles != [] {
      PinsSettings(PinnedOne(c, handles[0]), handles[1..]);
      PinsSettings(UnpinnedOne(c, handles[0]), handles[1..]);
    }
  }

  lemma {:induction false} UseAllCache(w: World, hs: seq<Word>)
    ensures UseAll(w, hs).c == UsedAll(w.c, hs)
    decreases |hs|
  {
    hide Used;
    if hs != [] {
      UseAllCache(Use(w, hs[0]), hs[1..]);
    }
  }

  lemma ApplySettings(w: World, op: Op)
    ensures SameSettings(w.c, Apply(w, op).c)
  {
    match op {
      case Match(hs) => UsedAllSettings(w.c, hs[..MatchLen(w.c, hs)]);
      case Insert(hs) =>
        UseAllCache(w, hs);
        UsedAllSettings(w.c, hs);
      case Pin(handles) => PinsSettings(w.c, handles);
      case Unpin(handles) => PinsSettings(w.c, handles);
    }
  }

  lemma {:induction false} RunSettings(w: World, ops: seq<Op>)
    requires Run(w, ops).Some?
    ensures SameSettings(w.c, Run(w, ops).value.c)
    decreases |ops|
  {
    hide Apply;
    if ops != [] {
      ApplySettings(w, ops[0]);
      RunSettings(Apply(w, ops[0]), ops[1..]);
    }
  }

  /** What is resident right after a block that was not is inserted. */
  ghost function KeysAfter(c: Cache, h: Word): set<Word> {
    Used(c, h).blocks.Keys
  }

  lemma RoomForOne(c: Cache, h: Word)
    requires Wf(c) && !OverLimit(c) && h !in c.blocks
    ensures KeysAfter(c, h) == c.blocks.Keys + {h} <==> !OverLimit(Added(c, h))
    ensures OverLimit(Added(c, h)) ==> |Used(c, h).blocks| == |c.blocks|
  {
    hide OverLimit;
    hide VictimAt;
    hide Used;
    hide Evicted;
    InsertEvictsOne(c, h);
    AddedSize(c, h);
    var d := Added(c, h);
    if OverLimit(d) {
      var v := d.lru[VictimAt(d, |d.lru|)];
      AddedWf(c, h);
      assert v in d.lru;
      RemovedSize(d, v);
    }
  }

  /** After every run of a cache made with a capacity: never more blocks than that, if it is positive, and a new
      block costs a resident one exactly when there are as many already. */
  lemma CapacityHolds(blockSize: int, capacity: int, ops: seq<Op>, h: Word)
    requires Run(World(New(blockSize, capacity), 0, map[], multiset{}), ops).Some?
    ensures var c := Run(World(New(blockSize, capacity), 0, map[], multiset{}), ops).value.c;
      && c.blockSize == (if blockSize <= 0 then 16 else blockSize)
      && (capacity > 0 ==> |c.blocks| <= capacity)
      && (h !in c.blocks ==>
            (KeysAfter(c, h) == c.blocks.Keys + {h} <==> capacity <= 0 || |c.blocks| < capacity))
  {
    hide Used;
    hide Apply;
    var w := World(New(blockSize, capacity), 0, map[], multiset{});
    NewInv(blockSize, capacity, 0, 0);
    RunKeeps(w, ops);
    RunSettings(w, ops);
    var c := Run(w, ops).value.c;
    if h !in c.blocks {
      RoomForOne(c, h);
      AddedSize(c, h);
    }
  }

  /** After every run of a memory-aware cache: the resident blocks fit the bytes it was given, if both numbers are
      positive, and a new block costs a resident one exactly when it would not fit. */
  lemma BytesHold(blockSize: int, blockBytes: int, byteLimit: int, ops: seq<Op>, h: Word)
    requires Run(World(NewMemoryAware(blockSize, blockBytes, byteLimit), 0, map[], multiset{}), ops).Some?
    ensures var c := Run(World(NewMemoryAware(blockSize, blockBytes, byteLimit), 0, map[], multiset{}), ops).value.c;
      && c.blockSize == (if blockSize <= 0 then 16 else blockSize)
      && (blockBytes > 0 && byteLimit > 0 ==> |c.blocks| * blockBytes <= byteLimit)
      && (h !in c.blocks ==>
            (KeysAfter(c, h) == c.blocks.Keys + {h} <==>
               (blockBytes > 0 && byteLimit > 0 ==> (|c.blocks| + 1) * blockBytes <= byteLimit)))
  {
    hide Used;
    hide Apply;
    var w := World(NewMemoryAware(blockSize, blockBytes, byteLimit), 0, map[], multiset{});
    NewInv(blockSize, 0, blockBytes, byteLimit);
    RunKeeps(w, ops);
    RunSettings(w, ops);
    var c := Run(w, ops).value.c;
    if h !in c.blocks {
      RoomForOne(c, h);
      AddedSize(c, h);
    }
  }
}
