/** Exporting a prefix cache and rebuilding it: the restored cache behaves as the original would have. */
module Snapshots {
  import opened Basics
  import opened BlockHash
  import opened Prefix

  datatype SnapBlock = SnapBlock(hash: Word, handle: int)

  /** Resident blocks, most recently used first. */
  datatype Snapshot = Snapshot(blockSize: int, blocks: seq<SnapBlock>)

  function Exported(c: Cache): Snapshot
    requires forall i :: 0 <= i < |c.lru| ==> c.lru[i] in c.blocks
  {
    Snapshot(c.blockSize, seq(|c.lru|, i requires 0 <= i < |c.lru| => SnapBlock(c.lru[i], c.blocks[c.lru[i]].handle)))
  }

  function Reloaded(c: Cache, sb: SnapBlock): Cache {
    c.(blocks := c.blocks[sb.hash := Block(sb.handle, 0)],
       lru := c.lru + [sb.hash],
       nextID := if sb.handle > c.nextID then sb.handle else c.nextID)
  }

  function ReloadedAll(c: Cache, sbs: seq<SnapBlock>): Cache
    decreases |sbs|
  {
    if sbs == [] then c else ReloadedAll(Reloaded(c, sbs[0]), sbs[1..])
  }

  function Restored(snap: Snapshot, capacity: int): Cache {
    ReloadedAll(New(snap.blockSize, capacity), snap.blocks)
  }

  method TakeSnapshot(c: PrefixCache) returns (snap: Snapshot)
    requires Wf(c.View())
    ensures forall i :: 0 <= i < |c.lru| ==> c.lru[i] in c.blocks
    ensures snap == Exported(c.View())
  {
    Listed(c.View());
    var blocks: seq<SnapBlock> := [];
    for i := 0 to |c.lru|
      invariant |blocks| == i
      invariant forall j :: 0 <= j < i ==> blocks[j] == SnapBlock(c.lru[j], c.blocks[c.lru[j]].handle)
    {
      blocks := blocks + [SnapBlock(c.lru[i], c.blocks[c.lru[i]].handle)];
    }
    snap := Snapshot(c.blockSize, blocks);
  }

  method RestorePrefixCache(snap: Snapshot, capacity: int) returns (c: PrefixCache)
    ensures fresh(c) && c.View() == Restored(snap, capacity)
  {
    c := new PrefixCache(snap.blockSize, capacity);
    for i := 0 to |snap.blocks|
      invariant fresh(c)
      invariant ReloadedAll(c.View(), snap.blocks[i..]) == Restored(snap, capacity)
    {
      assert snap.blocks[i..][1..] == snap.blocks[i + 1..];
      var sb := snap.blocks[i];
      c.lru := c.lru + [sb.hash];
      c.blocks := c.blocks[sb.hash := Block(sb.handle, 0)];
      if sb.handle > c.nextID {
        c.nextID := sb.handle;
      }
    }
  }

  lemma Listed(c: Cache)
    requires Wf(c)
    ensures forall i :: 0 <= i < |c.lru| ==> c.lru[i] in c.blocks
  {
    assert forall i :: 0 <= i < |c.lru| ==> c.lru[i] in c.lru;
  }

  /** Reloading the first `n` listed blocks of `c` rebuilds just those, in order. */
  ghost predicate ReloadedTo(c: Cache, d: Cache, n: nat) {
    && n <= |c.lru|
    && d.lru == c.lru[..n]
    && (forall k :: k in d.blocks <==> k in c.lru[..n])
    && (forall k :: k in d.blocks ==>
          k in c.blocks && d.blocks[k] == Block(c.blocks[k].handle, 0) && c.blocks[k].handle <= d.nextID)
    && d.nextID <= c.nextID
  }

  lemma ReloadStep(c: Cache, d: Cache, n: nat)
    requires Wf(c) && ReloadedTo(c, d, n) && n < |c.lru| && c.lru[n] in c.blocks
    ensures ReloadedTo(c, Reloaded(d, SnapBlock(c.lru[n], c.blocks[c.lru[n]].handle)), n + 1)
  {
    assert c.lru[..n + 1] == c.lru[..n] + [c.lru[n]];
  }

  lemma {:induction false} ReloadAll(c: Cache, d: Cache, n: nat)
    requires Wf(c) && ReloadedTo(c, d, n)
    requires forall i :: 0 <= i < |c.lru| ==> c.lru[i] in c.blocks
    ensures ReloadedTo(c, ReloadedAll(d, Exported(c).blocks[n..]), |c.lru|)
    ensures
      var e := ReloadedAll(d, Exported(c).blocks[n..]);
      && e.blockSize == d.blockSize && e.capacity == d.capacity
      && e.byteLimit == d.byteLimit && e.blockBytes == d.blockBytes
    decreases |c.lru| - n
  {
    hide Wf;
    hide ReloadedTo;
    var sbs := Exported(c).blocks;
    Bound(c, d, n);
    if n < |c.lru| {
      ReloadStep(c, d, n);
      assert sbs[n..][0] == sbs[n] && sbs[n..][1..] == sbs[n + 1..];
      ReloadAll(c, Reloaded(d, sbs[n]), n + 1);
    } else {
      assert sbs[n..] == [];
    }
  }

  lemma Bound(c: Cache, d: Cache, n: nat)
    requires ReloadedTo(c, d, n)
    ensures n <= |c.lru|
  {
  }

  // The simulation between the original and the restored cache.

  /** How the restored cache names a handle: as before if it was issued before the snapshot (`base`),
      else by its distance from the snapshot, counted from the highest restored handle (`top`). */
  function Renamed(base: nat, top: nat, x: int): int {
    if x <= base then x else x - base + top
  }

  ghost predicate Unpinned(c: Cache) {
    forall k :: k in c.blocks ==> c.blocks[k].refs == 0
  }

  ghost predicate Simulates(c: Cache, d: Cache, base: nat, top: nat) {
    && Wf(c) && Wf(d) && Unpinned(c) && Unpinned(d)
    && d.blockSize == c.blockSize && d.capacity == c.capacity && c.byteLimit <= 0 && d.byteLimit <= 0
    && d.lru == c.lru
    && d.blocks.Keys == c.blocks.Keys
    && base <= c.nextID && d.nextID == c.nextID - base + top
    && forall k :: k in c.blocks ==> d.blocks[k].handle == Renamed(base, top, c.blocks[k].handle)
  }

  /** The restored cache starts out simulating the original. */
  lemma RestoreSimulates(c: Cache)
    requires Wf(c) && Unpinned(c) && c.byteLimit <= 0
    ensures forall i :: 0 <= i < |c.lru| ==> c.lru[i] in c.blocks
    ensures
      var d := Restored(Exported(c), c.capacity);
      && d.nextID <= c.nextID
      && Simulates(c, d, c.nextID, d.nextID)
      && forall k :: k in c.blocks ==> d.blocks[k].handle == c.blocks[k].handle <= d.nextID
  {
    Listed(c);
    var start := New(c.blockSize, c.capacity);
    assert ReloadedTo(c, start, 0);
    assert Exported(c).blocks[0..] == Exported(c).blocks;
    ReloadAll(c, start, 0);
    RestoredShape(c, Restored(Exported(c), c.capacity));
  }

  lemma RestoredShape(c: Cache, d: Cache)
    requires Wf(c) && Unpinned(c) && c.byteLimit <= 0
    requires ReloadedTo(c, d, |c.lru|)
    requires d.blockSize == c.blockSize && d.capacity == c.capacity && d.byteLimit == 0 && d.blockBytes == 0
    ensures d.nextID <= c.nextID && Simulates(c, d, c.nextID, d.nextID)
    ensures forall k :: k in c.blocks ==> d.blocks[k].handle == c.blocks[k].handle <= d.nextID
  {
    assert c.lru[..|c.lru|] == c.lru;
  }

  lemma UnpinnedVictim(c: Cache)
    requires Unpinned(c)
    ensures VictimAt(c, |c.lru|) == |c.lru| - 1
  {
  }

  lemma SameLimit(c: Cache, d: Cache)
    requires |c.blocks| == |d.blocks| && c.capacity == d.capacity && c.byteLimit <= 0 && d.byteLimit <= 0
    ensures OverLimit(c) == OverLimit(d)
  {
  }

  lemma RemovedSimulates(c: Cache, d: Cache, base: nat, top: nat, h: Word)
    requires Simulates(c, d, base, top)
    ensures Simulates(Removed(c, h), Removed(d, h), base, top)
  {
    RemovedWf(c, h);
    RemovedWf(d, h);
  }

  lemma {:induction false} EvictedSimulates(c: Cache, d: Cache, base: nat, top: nat)
    requires Simulates(c, d, base, top)
    ensures Simulates(Evicted(c), Evicted(d), base, top)
    decreases |c.lru|
  {
    hide Wf;
    hide OverLimit;
    hide VictimAt;
    assert |c.blocks.Keys| == |d.blocks.Keys|;
    SameLimit(c, d);
    UnpinnedVictim(c);
    UnpinnedVictim(d);
    if OverLimit(c) && |c.lru| > 0 {
      var h := c.lru[|c.lru| - 1];
      EvictedStep(c);
      EvictedStep(d);
      WithoutShorter(c.lru, h);
      RemovedSimulates(c, d, base, top, h);
      EvictedSimulates(Removed(c, h), Removed(d, h), base, top);
    }
  }

  lemma AddedSimulates(c: Cache, d: Cache, base: nat, top: nat, h: Word)
    requires Simulates(c, d, base, top) && h !in c.blocks
    ensures Simulates(Added(c, h), Added(d, h), base, top)
  {
    AddedWf(c, h);
    AddedWf(d, h);
  }

  /** One use keeps the simulation, and reports the same handle up to renaming. */
  lemma UsedSimulates(c: Cache, d: Cache, base: nat, top: nat, h: Word)
    requires Simulates(c, d, base, top)
    ensures Simulates(Used(c, h), Used(d, h), base, top)
    ensures HandleFor(d, h) == Renamed(base, top, HandleFor(c, h))
    ensures h in c.blocks <==> h in d.blocks
  {
    hide Evicted;
    if h in c.blocks {
      TouchedWf(c, h);
      TouchedWf(d, h);
    } else {
      AddedSimulates(c, d, base, top, h);
      EvictedSimulates(Added(c, h), Added(d, h), base, top);
    }
  }

  function RenamedAll(base: nat, top: nat, xs: seq<int>): (ys: seq<int>)
    ensures |ys| == |xs|
  {
    seq(|xs|, i requires 0 <= i < |xs| => Renamed(base, top, xs[i]))
  }

  lemma {:induction false} UsedAllSimulates(c: Cache, d: Cache, base: nat, top: nat, hs: seq<Word>)
    requires Simulates(c, d, base, top)
    ensures Simulates(UsedAll(c, hs), UsedAll(d, hs), base, top)
    ensures InsertAdded(d, hs) == InsertAdded(c, hs)
    ensures InsertHandles(d, hs) == RenamedAll(base, top, InsertHandles(c, hs))
    decreases |hs|
  {
    hide Simulates;
    hide Used;
    hide HandleFor;
    hide Renamed;
    if hs != [] {
      UsedSimulates(c, d, base, top, hs[0]);
      UsedAllSimulates(Used(c, hs[0]), Used(d, hs[0]), base, top, hs[1..]);
      var rest := InsertHandles(Used(c, hs[0]), hs[1..]);
      assert RenamedAll(base, top, [HandleFor(c, hs[0])] + rest)
          == [Renamed(base, top, HandleFor(c, hs[0]))] + RenamedAll(base, top, rest);
    }
  }

  lemma MatchSimulates(c: Cache, d: Cache, base: nat, top: nat, hs: seq<Word>)
    requires Simulates(c, d, base, top)
    ensures MatchLen(d, hs) == MatchLen(c, hs)
    ensures MatchHandles(d, hs) == RenamedAll(base, top, MatchHandles(c, hs))
    ensures Simulates(Matched(c, hs), Matched(d, hs), base, top)
  {
    hide Simulates;
    hide MatchLen;
    hide UsedAll;
    hide RenamedAll;
    SimulatesKeys(c, d, base, top);
    SameMatchLen(c, d, hs);
    ResidentSimulates(c, d, base, top, hs[..MatchLen(c, hs)]);
    UsedAllSimulates(c, d, base, top, hs[..MatchLen(c, hs)]);
    StatsSimulate(UsedAll(c, hs[..MatchLen(c, hs)]), UsedAll(d, hs[..MatchLen(c, hs)]), Matched(c, hs), Matched(d, hs),
                  base, top);
  }

  lemma SimulatesKeys(c: Cache, d: Cache, base: nat, top: nat)
    requires Simulates(c, d, base, top)
    ensures c.blocks.Keys == d.blocks.Keys
  {
  }

  lemma ResidentSimulates(c: Cache, d: Cache, base: nat, top: nat, hs: seq<Word>)
    requires Simulates(c, d, base, top) && forall i :: 0 <= i < |hs| ==> hs[i] in c.blocks && hs[i] in d.blocks
    ensures Resident(d, hs) == RenamedAll(base, top, Resident(c, hs))
  {
  }

  lemma {:induction false} SameMatchLen(c: Cache, d: Cache, hs: seq<Word>)
    requires c.blocks.Keys == d.blocks.Keys
    ensures MatchLen(c, hs) == MatchLen(d, hs)
    decreases |hs|
  {
    if hs != [] {
      SameMatchLen(c, d, hs[1..]);
    }
  }

  lemma StatsSimulate(c: Cache, d: Cache, c': Cache, d': Cache, base: nat, top: nat)
    requires Simulates(c, d, base, top)
    requires c' == c.(hits := c'.hits, misses := c'.misses) && d' == d.(hits := d'.hits, misses := d'.misses)
    ensures Simulates(c', d', base, top)
  {
  }

  // Whole runs.

  datatype Op = Match(hs: seq<Word>) | Insert(hs: seq<Word>)

  /** What an operation reports: matched blocks or added flags, the handles, and the recency list it leaves. */
  datatype Report = Report(matched: nat, added: seq<bool>, handles: seq<int>, lru: seq<Word>)

  function After(c: Cache, op: Op): Cache {
    match op
    case Match(hs) => Matched(c, hs)
    case Insert(hs) => UsedAll(c, hs)
  }

  function Reported(c: Cache, op: Op): Report {
    match op
    case Match(hs) => Report(MatchLen(c, hs), [], MatchHandles(c, hs), After(c, op).lru)
    case Insert(hs) => Report(0, InsertAdded(c, hs), InsertHandles(c, hs), After(c, op).lru)
  }

  function Reports(c: Cache, ops: seq<Op>): seq<Report>
    decreases |ops|
  {
    if ops == [] then [] else [Reported(c, ops[0])] + Reports(After(c, ops[0]), ops[1..])
  }

  function RenamedReports(base: nat, top: nat, rs: seq<Report>): seq<Report>
    decreases |rs|
  {
    if rs == [] then []
    else [rs[0].(handles := RenamedAll(base, top, rs[0].handles))] + RenamedReports(base, top, rs[1..])
  }

  lemma StepSimulates(c: Cache, d: Cache, base: nat, top: nat, op: Op)
    requires Simulates(c, d, base, top)
    ensures Simulates(After(c, op), After(d, op), base, top)
    ensures Reported(d, op) == Reported(c, op).(handles := RenamedAll(base, top, Reported(c, op).handles))
  {
    hide Wf;
    hide Matched;
    hide UsedAll;
    hide MatchHandles;
    hide InsertHandles;
    match op {
      case Match(hs) => MatchSimulates(c, d, base, top, hs);
      case Insert(hs) => UsedAllSimulates(c, d, base, top, hs);
    }
  }

  lemma {:induction false} RunSimulates(c: Cache, d: Cache, base: nat, top: nat, ops: seq<Op>)
    requires Simulates(c, d, base, top)
    ensures Reports(d, ops) == RenamedReports(base, top, Reports(c, ops))
    decreases |ops|
  {
    hide Simulates;
    hide Reported;
    hide After;
    if ops != [] {
      StepSimulates(c, d, base, top, ops[0]);
      RunSimulates(After(c, ops[0]), After(d, ops[0]), base, top, ops[1..]);
      assert Reports(c, ops)[1..] == Reports(After(c, ops[0]), ops[1..]);
    }
  }

  /** Restoring a snapshot of an unpinned cache without a byte limit is unobservable: every later run gives the same
      matched counts, added flags and recency (hence eviction) order, the same handles for restored blocks, and
      fresh handles above every restored one. */
  lemma RestoreBisimilar(c: Cache, ops: seq<Op>)
    requires Wf(c) && Unpinned(c) && c.byteLimit <= 0
    ensures forall i :: 0 <= i < |c.lru| ==> c.lru[i] in c.blocks
    ensures
      var d := Restored(Exported(c), c.capacity);
      && Reports(d, ops) == RenamedReports(c.nextID, d.nextID, Reports(c, ops))
      && (forall k :: k in c.blocks ==> k in d.blocks && d.blocks[k].handle == c.blocks[k].handle <= d.nextID)
      && (forall x: int :: x > c.nextID ==> Renamed(c.nextID, d.nextID, x) > d.nextID)
  {
    RestoreSimulates(c);
    var d := Restored(Exported(c), c.capacity);
    RunSimulates(c, d, c.nextID, d.nextID, ops);
  }
}
