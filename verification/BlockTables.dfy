/** Per-sequence block tables over one shared pool, and the accounting that ties
    every reference count to the holders of the block. */
module BlockTables {
  import opened Basics
  import opened Arith
  import opened Paged

  datatype Table = Table(blocks: seq<int>, shared: int, tokens: int)

  const EMPTY := Table([], 0, 0)

  function Forked(p: Pool, t: Table, ids: seq<int>): Table {
    Table(t.blocks + ids, |ids|, |ids| * p.blockSize)
  }

  function Need(p: Pool, t: Table, n: int): int
    requires p.blockSize > 0
  {
    BlocksFor(p.blockSize, t.tokens + n) - |t.blocks|
  }

  /** How many blocks an append takes from the pool; zero when it takes none or fails. */
  function Grant(p: Pool, t: Table, n: int): (k: nat)
    requires p.blockSize > 0
    ensures k <= |p.free|
  {
    if n <= 0 || Need(p, t, n) <= 0 || Need(p, t, n) > |p.free| then 0 else Need(p, t, n)
  }

  predicate Fits(p: Pool, t: Table, n: int)
    requires p.blockSize > 0
  {
    n <= 0 || Need(p, t, n) <= |p.free|
  }

  function Appended(p: Pool, t: Table, n: int): Table
    requires p.blockSize > 0
  {
    if n <= 0 || !Fits(p, t, n) then t
    else Table(t.blocks + Top(p.free, Grant(p, t, n)), t.shared, t.tokens + n)
  }

  function Granted(p: Pool, k: nat): Pool
    requires k <= |p.free|
  {
    if k == 0 then p else Taken(p, k)
  }

  class BlockTable {
    const pool: BlockPool
    var blocks: seq<int>
    var shared: int
    var tokens: int

    function View(): Table
      reads this
    {
      Table(blocks, shared, tokens)
    }

    constructor (pool: BlockPool)
      ensures this.pool == pool && View() == EMPTY
    {
      this.pool := pool;
      blocks, shared, tokens := [], 0, 0;
    }

    /** Seeds the table with a shared prefix, raising each block's count. */
    method Fork(ids: seq<int>)
      requires pool.Valid()
      modifies this, pool.refs
      ensures pool.Valid()
      ensures pool.View() == SharedAll(old(pool.View()), ids)
      ensures View() == Forked(old(pool.View()), old(View()), ids)
      ensures blocks == old(blocks) + ids && shared == |ids| && tokens == |ids| * pool.blockSize
    {
      assert blocks + ids[..0] == blocks;
      for i := 0 to |ids|
        invariant pool.Valid()
        invariant SharedAll(pool.View(), ids[i..]) == SharedAll(old(pool.View()), ids)
        invariant blocks == old(blocks) + ids[..i]
      {
        assert ids[i..][1..] == ids[i + 1..];
        pool.Share(ids[i]);
        blocks := blocks + [ids[i]];
        assert ids[..i + 1] == ids[..i] + [ids[i]];
      }
      assert ids[..|ids|] == ids;
      shared := |ids|;
      tokens := |ids| * pool.blockSize;
    }

    /** Grows the table by `n` tokens, or changes nothing at all. */
    method Append(n: int) returns (added: seq<int>, ok: bool)
      requires pool.Valid()
      modifies this, pool, pool.refs
      ensures pool.Valid()
      ensures ok <==> Fits(old(pool.View()), old(View()), n)
      ensures added == Top(old(pool.free), Grant(old(pool.View()), old(View()), n))
      ensures pool.View() == Granted(old(pool.View()), Grant(old(pool.View()), old(View()), n))
      ensures View() == Appended(old(pool.View()), old(View()), n)
      ensures !ok ==> added == [] && pool.View() == old(pool.View()) && View() == old(View())
      ensures ok ==> blocks == old(blocks) + added && tokens == old(tokens) + if n > 0 then n else 0
      ensures shared == old(shared)
    {
      if n <= 0 {
        return [], true;
      }
      added := [];
      var need := BlocksFor(pool.blockSize, tokens + n) - |blocks|;
      if need > 0 {
        var ids, got := pool.AllocateN(need);
        if !got {
          return [], false;
        }
        blocks := blocks + ids;
        added := ids;
      }
      tokens := tokens + n;
      return added, true;
    }

    method Free()
      requires pool.Valid()
      modifies this, pool, pool.refs
      ensures pool.Valid()
      ensures pool.View() == FreedAll(old(pool.View()), old(blocks))
      ensures View() == EMPTY
    {
      pool.FreeAll(blocks);
      blocks := [];
      shared := 0;
      tokens := 0;
    }
  }

  // Any number of tables and outside holders over one pool.

  datatype System = System(pool: Pool, tables: seq<Table>, outside: multiset<int>)

  function HeldBy(tables: seq<Table>): multiset<int> {
    if tables == [] then multiset{} else multiset(tables[0].blocks) + HeldBy(tables[1..])
  }

  function Held(s: System): multiset<int> { s.outside + HeldBy(s.tables) }

  datatype Op =
    | NewTable
    | Fork(i: nat, ids: seq<int>)
    | Append(i: nat, n: int)
    | FreeTable(i: nat)
    | Take                   // an outside holder allocates a block
    | Share(id: int)         // an outside holder shares a block
    | Drop(id: int)          // an outside holder frees a block

  /** A fork seeds an empty table with allocated blocks; holders free only what they hold. */
  predicate Legal(s: System, op: Op) {
    match op
    case NewTable => true
    case Fork(i, ids) => i < |s.tables| && s.tables[i] == EMPTY && forall id :: id in ids ==> s.pool.Allocated(id)
    case Append(i, _) => i < |s.tables|
    case FreeTable(i) => i < |s.tables|
    case Take => true
    case Share(_) => true
    case Drop(id) => id in s.outside || !s.pool.Allocated(id)
  }

  function Apply(s: System, op: Op): System
    requires s.pool.blockSize > 0 && Legal(s, op)
  {
    match op
    case NewTable => s.(tables := s.tables + [EMPTY])
    case Fork(i, ids) => s.(pool := SharedAll(s.pool, ids), tables := s.tables[i := Forked(s.pool, s.tables[i], ids)])
    case Append(i, n) =>
      var t := s.tables[i];
      s.(pool := Granted(s.pool, Grant(s.pool, t, n)), tables := s.tables[i := Appended(s.pool, t, n)])
    case FreeTable(i) => s.(pool := FreedAll(s.pool, s.tables[i].blocks), tables := s.tables[i := EMPTY])
    case Take =>
      if s.pool.free == [] then s
      else s.(pool := Taken(s.pool, 1), outside := s.outside + multiset{s.pool.free[|s.pool.free| - 1]})
    case Share(id) =>
      s.(pool := Shared(s.pool, id), outside := if s.pool.Allocated(id) then s.outside + multiset{id} else s.outside)
    case Drop(id) =>
      s.(pool := Freed(s.pool, id), outside := if s.pool.Allocated(id) then s.outside - multiset{id} else s.outside)
  }

  // The invariant.

  /** Every reference count is the number of holders, and nobody holds an unknown block. */
  ghost predicate Counted(p: Pool, held: multiset<int>) {
    && (forall id :: 0 <= id < |p.refs| ==> p.refs[id] == held[id])
    && (forall id :: id in held ==> p.Known(id))
  }

  /** A table holds exactly as many blocks as its tokens need, its forked prefix first. */
  ghost predicate Sized(p: Pool, t: Table) {
    && t.tokens >= 0 && 0 <= t.shared <= |t.blocks|
    && p.blockSize > 0 && |t.blocks| == BlocksFor(p.blockSize, t.tokens)
    && t.shared * p.blockSize <= t.tokens
  }

  ghost predicate Inv(s: System) {
    && s.pool.Valid()
    && Counted(s.pool, Held(s))
    && AllSized(s.pool, s.tables)
  }

  ghost predicate AllSized(p: Pool, tables: seq<Table>) {
    forall i :: 0 <= i < |tables| ==> Sized(p, tables[i])
  }

  /** Tokens fit exactly when the blocks at hand and the free ones have room for them. */
  lemma FitsExactly(p: Pool, t: Table, n: nat)
    requires Sized(p, t)
    ensures Fits(p, t, n) <==> t.tokens + n <= (|t.blocks| + |p.free|) * p.blockSize
  {
    var total, have := BlocksFor(p.blockSize, t.tokens + n), |t.blocks| + |p.free|;
    BlocksForIsCeiling(p.blockSize, t.tokens + n);
    BlocksForIsCeiling(p.blockSize, t.tokens);
    MulNonNeg(|p.free|, p.blockSize);
    assert have * p.blockSize == |t.blocks| * p.blockSize + |p.free| * p.blockSize;
    if n > 0 {
      if total <= have {
        MulNonNeg(have - total, p.blockSize);
      } else {
        MulAtLeast(total - have, p.blockSize);
      }
    }
  }

  lemma {:induction false} HeldByUpdate(tables: seq<Table>, i: nat, t: Table)
    requires i < |tables|
    ensures multiset(tables[i].blocks) <= HeldBy(tables)
    ensures HeldBy(tables[i := t]) == HeldBy(tables) - multiset(tables[i].blocks) + multiset(t.blocks)
  {
    if i > 0 {
      HeldByUpdate(tables[1..], i - 1, t);
      assert tables[i := t][1..] == tables[1..][i - 1 := t];
    } else {
      assert tables[0 := t][1..] == tables[1..];
    }
  }

  lemma {:induction false} HeldByNew(tables: seq<Table>)
    ensures HeldBy(tables + [EMPTY]) == HeldBy(tables)
  {
    if tables == [] {
      assert ([] + [EMPTY])[1..] == [];
    } else {
      assert (tables + [EMPTY])[1..] == tables[1..] + [EMPTY];
      HeldByNew(tables[1..]);
    }
  }

  // The pool operations move counts by exactly the holders they add or remove.

  lemma SharedCounts(p: Pool, id: int, held: multiset<int>)
    requires p.Valid() && Counted(p, held) && p.Allocated(id)
    ensures Shared(p, id).Valid() && Counted(Shared(p, id), held + multiset{id})
  {
  }

  lemma {:induction false} SharedAllCounts(p: Pool, ids: seq<int>, held: multiset<int>)
    requires p.Valid() && Counted(p, held)
    requires forall id :: id in ids ==> p.Allocated(id)
    ensures SharedAll(p, ids).Valid() && Counted(SharedAll(p, ids), held + multiset(ids))
    decreases |ids|
  {
    if ids == [] {
      assert held + multiset(ids) == held;
    } else {
      assert ids == [ids[0]] + ids[1..];
      SharedCounts(p, ids[0], held);
      assert forall id :: id in ids[1..] ==> id in ids;
      SharedAllCounts(Shared(p, ids[0]), ids[1..], held + multiset{ids[0]});
      assert held + multiset(ids) == held + multiset{ids[0]} + multiset(ids[1..]);
    }
  }

  lemma FreedCounts(p: Pool, id: int, held: multiset<int>)
    requires p.Valid() && Counted(p, held) && id in held
    ensures Freed(p, id).Valid() && Counted(Freed(p, id), held - multiset{id})
  {
  }

  lemma {:induction false} FreedAllCounts(p: Pool, ids: seq<int>, held: multiset<int>)
    requires p.Valid() && Counted(p, held) && multiset(ids) <= held
    ensures FreedAll(p, ids).Valid() && Counted(FreedAll(p, ids), held - multiset(ids))
    decreases |ids|
  {
    if ids == [] {
      assert held - multiset(ids) == held;
    } else {
      assert ids == [ids[0]] + ids[1..];
      FreedCounts(p, ids[0], held);
      FreedAllCounts(Freed(p, ids[0]), ids[1..], held - multiset{ids[0]});
      assert held - multiset(ids) == held - multiset{ids[0]} - multiset(ids[1..]);
    }
  }

  lemma TakenCounts(p: Pool, held: multiset<int>)
    requires p.Valid() && Counted(p, held) && p.free != []
    ensures Taken(p, 1).Valid() && Counted(Taken(p, 1), held + multiset{p.free[|p.free| - 1]})
  {
    TakenValid(p, 1);
    assert p.free[|p.free| - 1..] == [p.free[|p.free| - 1]];
  }

  lemma TopSnoc(free: seq<int>, k: nat, held: multiset<int>)
    requires 0 < k <= |free|
    ensures held + multiset(Top(free, k)) == held + multiset(Top(free, k - 1)) + multiset{free[|free| - k]}
  {
    assert Top(free, k) == Top(free, k - 1) + [free[|free| - k]];
  }

  lemma TakenNone(p: Pool)
    ensures Taken(p, 0) == p
  {
  }

  /** One more block: the pool after `k` requests is the pool after `k - 1` requests and one more. */
  lemma TakenStep(p: Pool, k: nat, held: multiset<int>)
    requires p.Valid() && 0 < k <= |p.free|
    requires Taken(p, k - 1).Valid() && Counted(Taken(p, k - 1), held)
    ensures Taken(p, k).Valid() && Counted(Taken(p, k), held + multiset{p.free[|p.free| - k]})
  {
    TakenOne(p, k - 1);
    var q := Taken(p, k - 1);
    hide *;
    TakenCounts(q, held);
  }

  lemma {:induction false} TakenAllCounts(p: Pool, k: nat, held: multiset<int>)
    requires p.Valid() && Counted(p, held) && k <= |p.free|
    ensures Taken(p, k).Valid() && Counted(Taken(p, k), held + multiset(Top(p.free, k)))
    decreases k
  {
    if k == 0 {
      TakenNone(p);
      assert held + multiset(Top(p.free, 0)) == held;
    } else {
      hide *;
      TakenAllCounts(p, k - 1, held);
      TakenStep(p, k, held + multiset(Top(p.free, k - 1)));
      TopSnoc(p.free, k, held);
    }
  }

  lemma GrantedCounts(p: Pool, k: nat, held: multiset<int>)
    requires p.Valid() && Counted(p, held) && k <= |p.free|
    ensures Granted(p, k).Valid() && Counted(Granted(p, k), held + multiset(Top(p.free, k)))
  {
    TakenAllCounts(p, k, held);
    TakenNone(p);
  }

  lemma AppendSized(p: Pool, t: Table, n: int)
    requires Sized(p, t)
    ensures Sized(p, Appended(p, t, n))
  {
    if n > 0 && Fits(p, t, n) {
      BlocksForGrows(p.blockSize, t.tokens, t.tokens + n);
    }
  }

  lemma ForkSized(p: Pool, ids: seq<int>)
    requires p.blockSize > 0
    ensures Sized(p, Forked(p, EMPTY, ids))
  {
    MulNonNeg(|ids|, p.blockSize);
    BlocksForWhole(p.blockSize, |ids|);
  }

  lemma SizedElsewhere(p: Pool, q: Pool, tables: seq<Table>, i: nat, t: Table)
    requires i < |tables| && q.blockSize == p.blockSize && Sized(p, t) && AllSized(p, tables)
    ensures AllSized(q, tables[i := t])
  {
  }

  lemma {:induction false} SharedAllSize(p: Pool, ids: seq<int>)
    ensures SharedAll(p, ids).blockSize == p.blockSize
    ensures SharedAll(p, ids).free == p.free && |SharedAll(p, ids).refs| == |p.refs|
    decreases |ids|
  {
    if ids != [] { SharedAllSize(Shared(p, ids[0]), ids[1..]); }
  }

  lemma {:induction false} FreedAllSize(p: Pool, ids: seq<int>)
    ensures FreedAll(p, ids).blockSize == p.blockSize
    decreases |ids|
  {
    if ids != [] { FreedAllSize(Freed(p, ids[0]), ids[1..]); }
  }

  lemma ForkKeeps(s: System, i: nat, ids: seq<int>)
    requires Inv(s) && Legal(s, Fork(i, ids))
    ensures Inv(Apply(s, Fork(i, ids)))
  {
    var t := Forked(s.pool, EMPTY, ids);
    SharedAllCounts(s.pool, ids, Held(s));
    HeldByUpdate(s.tables, i, t);
    assert t.blocks == ids;
    assert Held(Apply(s, Fork(i, ids))) == Held(s) + multiset(ids);
    ForkSized(s.pool, ids);
    SharedAllSize(s.pool, ids);
    SizedElsewhere(s.pool, SharedAll(s.pool, ids), s.tables, i, t);
  }

  lemma AppendHeld(s: System, i: nat, n: int)
    requires Inv(s) && i < |s.tables|
    ensures
      var k := Grant(s.pool, s.tables[i], n);
      Held(Apply(s, Append(i, n))) == Held(s) + multiset(Top(s.pool.free, k))
  {
    var t := s.tables[i];
    var added := Top(s.pool.free, Grant(s.pool, t, n));
    HeldByUpdate(s.tables, i, Appended(s.pool, t, n));
    assert multiset(t.blocks + added) == multiset(t.blocks) + multiset(added);
  }

  lemma AppendKeeps(s: System, i: nat, n: int)
    requires Inv(s) && i < |s.tables|
    ensures Inv(Apply(s, Append(i, n)))
  {
    var t := s.tables[i];
    var k := Grant(s.pool, t, n);
    AppendHeld(s, i, n);
    GrantedCounts(s.pool, k, Held(s));
    AppendSized(s.pool, t, n);
    SizedElsewhere(s.pool, Granted(s.pool, k), s.tables, i, Appended(s.pool, t, n));
  }

  lemma FreeTableKeeps(s: System, i: nat)
    requires Inv(s) && i < |s.tables|
    ensures Inv(Apply(s, FreeTable(i)))
  {
    var ids := s.tables[i].blocks;
    HeldByUpdate(s.tables, i, EMPTY);
    assert multiset(ids) <= Held(s);
    FreedAllCounts(s.pool, ids, Held(s));
    assert Held(Apply(s, FreeTable(i))) == Held(s) - multiset(ids);
    FreedAllSize(s.pool, ids);
    assert Sized(s.pool, EMPTY) by { assert 0 * s.pool.blockSize == 0; }
    SizedElsewhere(s.pool, FreedAll(s.pool, ids), s.tables, i, EMPTY);
  }

  lemma TakeKeeps(s: System)
    requires Inv(s)
    ensures Inv(Apply(s, Take))
  {
    if s.pool.free != [] {
      var id := s.pool.free[|s.pool.free| - 1];
      TakenCounts(s.pool, Held(s));
      assert Held(Apply(s, Take)) == Held(s) + multiset{id};
    }
  }

  lemma ShareKeeps(s: System, id: int)
    requires Inv(s)
    ensures Inv(Apply(s, Share(id)))
  {
    if s.pool.Allocated(id) {
      SharedCounts(s.pool, id, Held(s));
      assert Held(Apply(s, Share(id))) == Held(s) + multiset{id};
    }
  }

  lemma DropKeeps(s: System, id: int)
    requires Inv(s) && Legal(s, Drop(id))
    ensures Inv(Apply(s, Drop(id)))
  {
    if s.pool.Allocated(id) {
      FreedCounts(s.pool, id, Held(s));
      assert Held(Apply(s, Drop(id))) == Held(s) - multiset{id};
    }
  }

  /** Every operation keeps the accounting. */
  lemma StepKeeps(s: System, op: Op)
    requires Inv(s) && Legal(s, op)
    ensures Inv(Apply(s, op))
  {
    match op {
      case NewTable =>
        HeldByNew(s.tables);
        assert Held(Apply(s, op)) == Held(s);
        assert Sized(s.pool, EMPTY) by { assert 0 * s.pool.blockSize == 0; }
      case Fork(i, ids) => ForkKeeps(s, i, ids);
      case Append(i, n) => AppendKeeps(s, i, n);
      case FreeTable(i) => FreeTableKeeps(s, i);
      case Take => TakeKeeps(s);
      case Share(id) => ShareKeeps(s, id);
      case Drop(id) => DropKeeps(s, id);
    }
  }

  function Run(s: System, ops: seq<Op>): (r: Option<System>)
    requires s.pool.blockSize > 0
    ensures r.Some? ==> r.value.pool.blockSize == s.pool.blockSize
    decreases |ops|
  {
    if ops == [] then Some(s)
    else if Legal(s, ops[0]) then
      ApplyBlockSize(s, ops[0]);
      Run(Apply(s, ops[0]), ops[1..])
    else None
  }

  lemma ApplyBlockSize(s: System, op: Op)
    requires s.pool.blockSize > 0 && Legal(s, op)
    ensures Apply(s, op).pool.blockSize == s.pool.blockSize
  {
    match op {
      case Fork(i, ids) => SharedAllSize(s.pool, ids);
      case FreeTable(i) => FreedAllSize(s.pool, s.tables[i].blocks);
      case _ =>
    }
  }

  /** Over every run: counts are occurrences over all holders, the free list is exactly the
      unreferenced blocks without duplicates, and tables have exactly the blocks their tokens need. */
  lemma {:induction false} RunKeeps(s: System, ops: seq<Op>)
    requires Inv(s) && Run(s, ops).Some?
    ensures Inv(Run(s, ops).value)
    decreases |ops|
  {
    if ops != [] {
      StepKeeps(s, ops[0]);
      RunKeeps(Apply(s, ops[0]), ops[1..]);
    }
  }

  /** A pool as built, with nobody holding anything, satisfies the invariant. */
  lemma FreshInv(p: Pool)
    requires p.Valid() && forall id :: 0 <= id < |p.refs| ==> p.refs[id] == 0
    ensures Inv(System(p, [], multiset{}))
  {
  }

  // Forking.

  lemma {:induction false} SharedAllSkips(p: Pool, ids: seq<int>, id: int)
    requires !p.Allocated(id)
    ensures !SharedAll(p, ids).Allocated(id)
    decreases |ids|
  {
    if ids != [] { SharedAllSkips(Shared(p, ids[0]), ids[1..], id); }
  }

  /** Seeding an empty table keeps the counts exact if and only if every seeded block is allocated. */
  lemma ForkCountsExactly(s: System, i: nat, ids: seq<int>)
    requires Inv(s) && i < |s.tables| && s.tables[i] == EMPTY
    ensures
      var held := s.outside + HeldBy(s.tables[i := Forked(s.pool, EMPTY, ids)]);
      Counted(SharedAll(s.pool, ids), held) <==> forall id :: id in ids ==> s.pool.Allocated(id)
  {
    var t := Forked(s.pool, EMPTY, ids);
    HeldByUpdate(s.tables, i, t);
    assert t.blocks == ids;
    var held := s.outside + HeldBy(s.tables[i := t]);
    assert held == Held(s) + multiset(ids);
    var p := SharedAll(s.pool, ids);
    if forall id :: id in ids ==> s.pool.Allocated(id) {
      SharedAllCounts(s.pool, ids, Held(s));
    } else {
      var id :| id in ids && !s.pool.Allocated(id);
      SharedAllSkips(s.pool, ids, id);
      assert held[id] > 0;
    }
  }

  /** One free block, and a table seeded with it: the block stays free under the table's holder. */
  const FREE_BLOCK: System := System(Pool(16, [0], [0]), [EMPTY], multiset{})

  lemma ForkOfFreeBlock()
    ensures Inv(FREE_BLOCK) && FREE_BLOCK.tables[0] == EMPTY
    ensures var t := Forked(FREE_BLOCK.pool, EMPTY, [0]);
      && t.blocks == [0] && SharedAll(FREE_BLOCK.pool, [0]) == FREE_BLOCK.pool
      && !Counted(FREE_BLOCK.pool, multiset{} + HeldBy(FREE_BLOCK.tables[0 := t]))
  {
    var s := FREE_BLOCK;
    assert s.tables[1..] == [] && HeldBy([]) == multiset{};
    assert 0 in s.pool.free;
    assert Held(s) == multiset{};
    ForkCountsExactly(s, 0, [0]);
    assert 0 in [0] && !s.pool.Allocated(0);
    var ids := [0];
    assert ids[1..] == [];
  }

  // Appending.

  /** The blocks an append adds were free and are now held once, by the appending table alone. */
  lemma AppendedAreExclusive(s: System, i: nat, n: int, id: int)
    requires Inv(s) && i < |s.tables|
    requires id in Top(s.pool.free, Grant(s.pool, s.tables[i], n))
    ensures Held(s)[id] == 0
    ensures Held(Apply(s, Append(i, n)))[id] == 1
  {
    var free := s.pool.free;
    var k := Grant(s.pool, s.tables[i], n);
    var added := Top(free, k);
    AppendHeld(s, i, n);
    var j :| 0 <= j < k && added[j] == id;
    assert s.pool.Known(free[|free| - 1 - j]);
    CountOnce(added, j);
  }

  lemma {:induction false} CountOnce(xs: seq<int>, j: nat)
    requires j < |xs| && forall a, b :: 0 <= a < b < |xs| ==> xs[a] != xs[b]
    ensures multiset(xs)[xs[j]] == 1
  {
    assert xs == xs[..j] + [xs[j]] + xs[j + 1..];
    assert xs[j] !in xs[..j] && xs[j] !in xs[j + 1..];
  }

  /** The last block of a table whose tokens do not fill it. */
  predicate OpenTail(p: Pool, t: Table)
    requires p.blockSize > 0
  {
    t.tokens % p.blockSize != 0 && |t.blocks| > 0
  }

  /** Nobody else holds a block that its table may still write to. */
  ghost predicate TailsOwned(s: System)
    requires s.pool.blockSize > 0
  {
    forall i :: 0 <= i < |s.tables| && OpenTail(s.pool, s.tables[i]) ==>
      Held(s)[LastBlock(s.tables[i])] == 1
  }

  predicate IsOpenTail(s: System, id: int)
    requires s.pool.blockSize > 0
  {
    exists i :: 0 <= i < |s.tables| && OpenTail(s.pool, s.tables[i])
      && LastBlock(s.tables[i]) == id
  }

  /** Only whole blocks of cached tokens are shared. */
  predicate SharesWhole(s: System, op: Op)
    requires s.pool.blockSize > 0
  {
    match op
    case Fork(_, ids) => forall id :: id in ids ==> !IsOpenTail(s, id)
    case Share(id) => !IsOpenTail(s, id)
    case _ => true
  }

  lemma BlockOf(blockSize: int, tokens: int, pos: int)
    requires blockSize > 0 && 0 <= pos < tokens
    ensures 0 <= pos / blockSize < BlocksFor(blockSize, tokens)
  {
    DivMod(pos, blockSize);
    BlocksForIsCeiling(blockSize, tokens);
    MulCancel(pos / blockSize, BlocksFor(blockSize, tokens), blockSize);
  }

  /** A position past the recorded tokens that falls into an existing block falls into the open tail. */
  lemma FallsInTail(p: Pool, t: Table, pos: int)
    requires Sized(p, t) && t.tokens <= pos && pos / p.blockSize < |t.blocks|
    ensures pos / p.blockSize == |t.blocks| - 1 && OpenTail(p, t)
  {
    BlocksForIsCeiling(p.blockSize, t.tokens);
    if t.tokens == 0 {
      BlockOf(p.blockSize, pos + 1, pos);
      assert false;
    }
    LastInterval(p.blockSize, t.tokens, pos, |t.blocks|);
  }

  lemma PastPrefix(p: Pool, t: Table, pos: int)
    requires Sized(p, t) && t.tokens <= pos
    ensures t.shared <= pos / p.blockSize
  {
    DivMod(pos, p.blockSize);
    MulNext(pos / p.blockSize, p.blockSize);
    MulCancel(t.shared, pos / p.blockSize + 1, p.blockSize);
  }

  lemma NextFallsInTail(p: Pool, t: Table)
    requires Sized(p, t) && OpenTail(p, t)
    ensures t.tokens / p.blockSize < |t.blocks|
  {
    var d, k := p.blockSize, |t.blocks|;
    BlocksForIsCeiling(d, t.tokens);
    DivMod(t.tokens, d);
    MulCancel(t.tokens / d, k, d);
  }

  function LastBlock(t: Table): int
    requires |t.blocks| > 0
  {
    t.blocks[|t.blocks| - 1]
  }

  lemma HoldsOwn(s: System, j: nat, id: int)
    requires j < |s.tables| && id in s.tables[j].blocks
    ensures Held(s)[id] >= 1
  {
    HeldByUpdate(s.tables, j, s.tables[j]);
    assert multiset(s.tables[j].blocks)[id] >= 1;
    assert multiset(s.tables[j].blocks)[id] <= HeldBy(s.tables)[id];
  }

  /** A block a table already has keeps its holders when the table grows. */
  lemma AppendKeepsHolders(s: System, i: nat, n: int, id: int)
    requires Inv(s) && i < |s.tables| && id in s.tables[i].blocks
    ensures Held(Apply(s, Append(i, n)))[id] == Held(s)[id]
  {
    HoldsOwn(s, i, id);
    AppendHeld(s, i, n);
    if id in Top(s.pool.free, Grant(s.pool, s.tables[i], n)) {
      AppendedAreExclusive(s, i, n, id);
      assert false;
    }
  }

  /** Position `pos` of table `i` lies past its forked prefix, in a block it has. */
  predicate LandsPastPrefix(s: System, i: nat, pos: int)
    requires s.pool.blockSize > 0 && i < |s.tables|
  {
    s.tables[i].shared <= pos / s.pool.blockSize < |s.tables[i].blocks|
  }

  /** The one holder of the block that position `pos` of table `i` lies in is that table. */
  ghost predicate LandsAlone(s: System, i: nat, pos: int)
    requires s.pool.blockSize > 0 && i < |s.tables|
  {
    && 0 <= pos / s.pool.blockSize < |s.tables[i].blocks|
    && Held(s)[s.tables[i].blocks[pos / s.pool.blockSize]] == 1
  }

  /** A table's open tail, if it has one, is held by nobody else. */
  ghost predicate OwnsTail(s: System, i: nat)
    requires s.pool.blockSize > 0 && i < |s.tables|
  {
    OpenTail(s.pool, s.tables[i]) ==> Held(s)[LastBlock(s.tables[i])] == 1
  }

  /** A new position lies in one of the blocks the table then has, past its forked prefix. */
  lemma PlaceOf(p: Pool, t: Table, n: int, pos: int)
    requires Sized(p, t) && n > 0 && Fits(p, t, n) && t.tokens <= pos < t.tokens + n
    ensures t.shared <= pos / p.blockSize < |t.blocks| + Grant(p, t, n)
  {
    PastPrefix(p, t, pos);
    BlockOf(p.blockSize, t.tokens + n, pos);
  }

  /** A new position lies past the forked prefix; alone, unless it falls into a tail that others hold. */
  lemma PositionLands(s: System, i: nat, n: int, pos: int)
    requires Inv(s) && i < |s.tables| && n > 0 && Fits(s.pool, s.tables[i], n)
    requires s.tables[i].tokens <= pos < s.tables[i].tokens + n
    ensures var after := Apply(s, Append(i, n));
      && after.pool.blockSize == s.pool.blockSize && |after.tables| == |s.tables|
      && after.tables[i].shared == s.tables[i].shared
      && LandsPastPrefix(after, i, pos)
      && (LandsAlone(after, i, pos) <==> (pos / s.pool.blockSize < |s.tables[i].blocks| ==> OwnsTail(s, i)))
  {
    hide Held;
    hide Sized;
    hide Fits;
    hide Appended;
    hide Grant;
    TableSized(s, i);
    AppendedIs(s.pool, s.tables[i], n);
    var t, after := s.tables[i], Apply(s, Append(i, n));
    var at := pos / s.pool.blockSize;
    PlaceOf(s.pool, t, n, pos);
    if at < |t.blocks| {
      FallsInTail(s.pool, t, pos);
      AppendKeepsHolders(s, i, n, LastBlock(t));
    } else {
      AppendedAreExclusive(s, i, n, Top(s.pool.free, Grant(s.pool, t, n))[at - |t.blocks|]);
    }
  }

  /** Every position an append adds lies past the forked prefix; all of them lie in blocks nobody else
      holds if and only if nobody else holds the open tail the table had. */
  lemma AppendedPositionsOwned(s: System, i: nat, n: int)
    requires Inv(s) && i < |s.tables| && n > 0 && Fits(s.pool, s.tables[i], n)
    ensures var after := Apply(s, Append(i, n));
      && after.pool.blockSize == s.pool.blockSize && |after.tables| == |s.tables|
      && after.tables[i].shared == s.tables[i].shared
      && (forall pos :: s.tables[i].tokens <= pos < s.tables[i].tokens + n ==> LandsPastPrefix(after, i, pos))
      && ((forall pos :: s.tables[i].tokens <= pos < s.tables[i].tokens + n ==> LandsAlone(after, i, pos))
          <==> OwnsTail(s, i))
  {
    hide Inv;
    hide LandsPastPrefix;
    hide LandsAlone;
    hide Fits;
    AppendBlockSize(s, i, n);
    var t, after := s.tables[i], Apply(s, Append(i, n));
    PositionLands(s, i, n, t.tokens);
    forall pos | t.tokens <= pos < t.tokens + n
      ensures LandsPastPrefix(after, i, pos) && (OwnsTail(s, i) ==> LandsAlone(after, i, pos))
    {
      PositionLands(s, i, n, pos);
    }
    if OpenTail(s.pool, t) {
      TableSized(s, i);
      NextFallsInTail(s.pool, t);
    }
  }

  lemma AppendedIs(p: Pool, t: Table, n: int)
    requires p.blockSize > 0 && n > 0 && Fits(p, t, n)
    ensures Appended(p, t, n) == Table(t.blocks + Top(p.free, Grant(p, t, n)), t.shared, t.tokens + n)
  {
  }

  lemma AppendBlockSize(s: System, i: nat, n: int)
    requires Inv(s) && i < |s.tables|
    ensures s.pool.blockSize > 0
    ensures Apply(s, Append(i, n)).pool.blockSize == s.pool.blockSize && |Apply(s, Append(i, n)).tables| == |s.tables|
  {
  }

  lemma TableSized(s: System, i: nat)
    requires Inv(s) && i < |s.tables|
    ensures Sized(s.pool, s.tables[i])
  {
  }

  /** Two tables, the second forked from the first's half-filled block: the first's next token lands in a
      block both hold. */
  const TWO_TABLES: System := System(Pool(16, [1, 0], [0, 0]), [EMPTY, EMPTY], multiset{})

  const SHARED_TAIL: seq<Op> := [Append(0, 5), Fork(1, [0]), Append(0, 1)]

  const HALF_FULL: Table := Table([0], 0, 5)

  const FORKED: Table := Table([0], 1, 16)

  lemma FirstAppend()
    ensures Apply(TWO_TABLES, Append(0, 5)) == System(Pool(16, [1], [1, 0]), [HALF_FULL, EMPTY], multiset{})
  {
    var p := TWO_TABLES.pool;
    assert Need(p, EMPTY, 5) == 1 && Fits(p, EMPTY, 5) && Grant(p, EMPTY, 5) == 1;
    assert Top(p.free, 1) == [0];
    assert [] + Top(p.free, 1) == [0];
    assert Appended(p, EMPTY, 5) == HALF_FULL;
    assert p.free[1..] == [0] && p.free[..1] == [1];
    assert Taken(p, 1).refs == [1, 0];
    assert TWO_TABLES.tables[0 := HALF_FULL] == [HALF_FULL, EMPTY];
  }

  lemma ThenFork(s: System)
    requires s == System(Pool(16, [1], [1, 0]), [HALF_FULL, EMPTY], multiset{})
    ensures Legal(s, Fork(1, [0]))
    ensures Apply(s, Fork(1, [0])) == System(Pool(16, [1], [2, 0]), [HALF_FULL, FORKED], multiset{})
  {
    var ids := [0];
    assert ids[1..] == [] && [] + ids == ids;
    assert Forked(s.pool, EMPTY, ids) == FORKED;
    assert SharedAll(s.pool, ids) == SharedAll(Shared(s.pool, 0), []);
    assert s.tables[1 := FORKED] == [HALF_FULL, FORKED];
  }

  lemma ThenAppend(s: System)
    requires s == System(Pool(16, [1], [2, 0]), [HALF_FULL, FORKED], multiset{})
    ensures Apply(s, Append(0, 1)) == s.(tables := [Table([0], 0, 6), FORKED])
  {
    assert Need(s.pool, HALF_FULL, 1) == 0 && Grant(s.pool, HALF_FULL, 1) == 0;
    assert [0] + Top(s.pool.free, 0) == [0];
    assert s.tables[0 := Table([0], 0, 6)] == [Table([0], 0, 6), FORKED];
  }

  lemma SharedTailLands()
    ensures Inv(TWO_TABLES) && TailsOwned(TWO_TABLES)
    ensures Run(TWO_TABLES, SHARED_TAIL)
         == Some(System(Pool(16, [1], [2, 0]), [Table([0], 0, 6), FORKED], multiset{}))
    ensures var s := System(Pool(16, [1], [2, 0]), [Table([0], 0, 6), FORKED], multiset{});
      Held(s)[0] == 2 && !LandsAlone(s, 0, 5)
  {
    TwoTablesFine();
    FirstAppend();
    var s1 := Apply(TWO_TABLES, Append(0, 5));
    ThenFork(s1);
    var s2 := Apply(s1, Fork(1, [0]));
    ThenAppend(s2);
    RunThree(TWO_TABLES, Append(0, 5), Fork(1, [0]), Append(0, 1));
    HeldByTwo(Table([0], 0, 6), FORKED);
  }

  lemma TwoTablesFine()
    ensures Inv(TWO_TABLES) && TailsOwned(TWO_TABLES)
  {
    assert 0 in TWO_TABLES.pool.free && 1 in TWO_TABLES.pool.free;
    HeldByTwo(EMPTY, EMPTY);
  }

  lemma HeldByTwo(a: Table, b: Table)
    ensures HeldBy([a, b]) == multiset(a.blocks) + multiset(b.blocks)
  {
    assert [a, b][1..] == [b] && [b][1..] == [];
    assert HeldBy([b]) == multiset(b.blocks) + HeldBy([]);
  }

  lemma RunThree(s: System, a: Op, b: Op, c: Op)
    requires s.pool.blockSize > 0 && Legal(s, a)
    requires Apply(s, a).pool.blockSize > 0 && Legal(Apply(s, a), b)
    requires Apply(Apply(s, a), b).pool.blockSize > 0 && Legal(Apply(Apply(s, a), b), c)
    requires Apply(Apply(Apply(s, a), b), c).pool.blockSize > 0
    ensures Run(s, [a, b, c]) == Some(Apply(Apply(Apply(s, a), b), c))
  {
    hide Apply;
    hide Legal;
    hide Run;
    var s1 := Apply(s, a);
    var s2 := Apply(s1, b);
    assert [a, b, c][1..] == [b, c] && [b, c][1..] == [c] && [c][1..] == [];
    RunStep(s, [a, b, c]);
    RunStep(s1, [b, c]);
    RunStep(s2, [c]);
    RunNone(Apply(s2, c));
  }

  lemma RunStep(s: System, ops: seq<Op>)
    requires s.pool.blockSize > 0 && ops != [] && Legal(s, ops[0]) && Apply(s, ops[0]).pool.blockSize > 0
    ensures Run(s, ops) == Run(Apply(s, ops[0]), ops[1..])
  {
    hide Apply;
    hide Legal;
  }

  lemma RunNone(s: System)
    requires s.pool.blockSize > 0
    ensures Run(s, []) == Some(s)
  {
  }

  // Open tails stay exclusive as long as only whole blocks are shared.

  /** Adding holders of other blocks does not touch an owned tail. */
  lemma TailsSurviveAdding(s: System, t: System, more: multiset<int>)
    requires s.pool.blockSize > 0 && t.pool.blockSize == s.pool.blockSize
    requires TailsOwned(s) && Held(t) == Held(s) + more
    requires forall id :: id in more ==> !IsOpenTail(s, id)
    requires forall j :: 0 <= j < |t.tables| && OpenTail(t.pool, t.tables[j]) ==>
      j < |s.tables| && t.tables[j] == s.tables[j]
    ensures TailsOwned(t)
  {
    forall j | 0 <= j < |t.tables| && OpenTail(t.pool, t.tables[j])
      ensures Held(t)[LastBlock(t.tables[j])] == 1
    {
      var id := LastBlock(t.tables[j]);
      assert IsOpenTail(s, id);
      assert Held(s)[id] == 1;
    }
  }

  /** Dropping holders cannot take a tail from its own table. */
  lemma TailsSurviveDropping(s: System, t: System)
    requires s.pool.blockSize > 0 && t.pool.blockSize == s.pool.blockSize
    requires TailsOwned(s) && forall id :: Held(t)[id] <= Held(s)[id]
    requires forall j :: 0 <= j < |t.tables| && OpenTail(t.pool, t.tables[j]) ==>
      j < |s.tables| && t.tables[j] == s.tables[j]
    ensures TailsOwned(t)
  {
    forall j | 0 <= j < |t.tables| && OpenTail(t.pool, t.tables[j])
      ensures Held(t)[LastBlock(t.tables[j])] == 1
    {
      HoldsOwn(t, j, LastBlock(t.tables[j]));
    }
  }

  /** A block nobody holds is nobody's tail. */
  lemma UnheldIsNoTail(s: System, id: int)
    requires s.pool.blockSize > 0 && Held(s)[id] == 0
    ensures !IsOpenTail(s, id)
  {
    if i :| 0 <= i < |s.tables| && OpenTail(s.pool, s.tables[i]) && LastBlock(s.tables[i]) == id {
      HoldsOwn(s, i, id);
    }
  }

  lemma TailsKeptByFork(s: System, i: nat, ids: seq<int>)
    requires Inv(s) && Legal(s, Fork(i, ids)) && SharesWhole(s, Fork(i, ids)) && TailsOwned(s)
    ensures Apply(s, Fork(i, ids)).pool.blockSize == s.pool.blockSize && TailsOwned(Apply(s, Fork(i, ids)))
  {
    hide Counted;
    hide AllSized;
    hide HeldBy;
    hide SharedAll;
    var t := Forked(s.pool, EMPTY, ids);
    var after := Apply(s, Fork(i, ids));
    SharedAllSize(s.pool, ids);
    HeldByUpdate(s.tables, i, t);
    assert t.blocks == ids;
    assert Held(after) == Held(s) + multiset(ids);
    assert !OpenTail(s.pool, t) by { WholeModulus(|ids|, s.pool.blockSize); }
    TailsSurviveAdding(s, after, multiset(ids));
  }

  lemma WholeModulus(k: nat, d: int)
    requires d > 0
    ensures k * d % d == 0
  {
    DivMod(k * d, d);
    QuotientIs(d, k * d, k);
  }

  lemma TailsKeptByAppend(s: System, i: nat, n: int)
    requires Inv(s) && i < |s.tables| && TailsOwned(s)
    ensures Apply(s, Append(i, n)).pool.blockSize == s.pool.blockSize && TailsOwned(Apply(s, Append(i, n)))
  {
    var after := Apply(s, Append(i, n));
    var added := Top(s.pool.free, Grant(s.pool, s.tables[i], n));
    AppendHeld(s, i, n);
    forall j | 0 <= j < |after.tables| && OpenTail(after.pool, after.tables[j])
      ensures Held(after)[LastBlock(after.tables[j])] == 1
    {
      var id := LastBlock(after.tables[j]);
      if id in added {
        AppendedAreExclusive(s, i, n, id);
      } else {
        assert Held(after)[id] == Held(s)[id];
        TailBefore(s, i, n, j);
      }
    }
  }

  /** An open tail that an append did not just add was already an open tail. */
  lemma TailBefore(s: System, i: nat, n: int, j: nat)
    requires Inv(s) && i < |s.tables| && TailsOwned(s) && j < |s.tables|
    requires var t := Apply(s, Append(i, n)).tables[j];
      OpenTail(s.pool, t) && LastBlock(t) !in Top(s.pool.free, Grant(s.pool, s.tables[i], n))
    ensures Held(s)[LastBlock(Apply(s, Append(i, n)).tables[j])] == 1
  {
    var t := s.tables[i];
    if j != i {
      assert OpenTail(s.pool, s.tables[j]);
    } else {
      var k := Grant(s.pool, t, n);
      var added := Top(s.pool.free, k);
      if k > 0 {
        assert false;
      }
      assert t.blocks + added == t.blocks;
      if n > 0 && Fits(s.pool, t, n) {
        assert Sized(s.pool, t);
        BlockOf(s.pool.blockSize, t.tokens + n, t.tokens);
        FallsInTail(s.pool, t, t.tokens);
      }
      assert OpenTail(s.pool, t);
    }
  }

  lemma TailsKeptByFree(s: System, i: nat)
    requires Inv(s) && i < |s.tables| && TailsOwned(s)
    ensures Apply(s, FreeTable(i)).pool.blockSize == s.pool.blockSize && TailsOwned(Apply(s, FreeTable(i)))
  {
    FreedAllSize(s.pool, s.tables[i].blocks);
    HeldByUpdate(s.tables, i, EMPTY);
    TailsSurviveDropping(s, Apply(s, FreeTable(i)));
  }

  lemma TailsKeptByAdding(s: System, t: System, id: int)
    requires Inv(s) && TailsOwned(s) && t.pool.blockSize == s.pool.blockSize && t.tables == s.tables
    requires Held(t) == Held(s) + multiset{id} && !IsOpenTail(s, id)
    ensures TailsOwned(t)
  {
    TailsSurviveAdding(s, t, multiset{id});
  }

  lemma TailsKeptByNewTable(s: System)
    requires Inv(s) && TailsOwned(s)
    ensures Apply(s, NewTable).pool.blockSize == s.pool.blockSize && TailsOwned(Apply(s, NewTable))
  {
    hide TailsOwned;
    hide Held;
    hide Inv;
    NewTableHeld(s);
    TailsSurviveAdding(s, Apply(s, NewTable), multiset{});
  }

  lemma NewTableHeld(s: System)
    requires Inv(s)
    ensures s.pool.blockSize > 0 && Held(Apply(s, NewTable)) == Held(s) + multiset{}
  {
    HeldByNew(s.tables);
  }

  lemma TailsKeptByTake(s: System)
    requires Inv(s) && TailsOwned(s) && s.pool.free != []
    ensures Apply(s, Take).pool.blockSize == s.pool.blockSize && TailsOwned(Apply(s, Take))
  {
    hide TailsOwned;
    hide IsOpenTail;
    hide HeldBy;
    var id := s.pool.free[|s.pool.free| - 1];
    assert s.pool.Known(id) && Held(s)[id] == 0;
    UnheldIsNoTail(s, id);
    assert Held(Apply(s, Take)) == Held(s) + multiset{id};
    TailsKeptByAdding(s, Apply(s, Take), id);
  }

  lemma TailsKeptByShare(s: System, id: int)
    requires Inv(s) && TailsOwned(s) && s.pool.Allocated(id) && SharesWhole(s, Share(id))
    ensures Apply(s, Share(id)).pool.blockSize == s.pool.blockSize && TailsOwned(Apply(s, Share(id)))
  {
    hide TailsOwned;
    hide IsOpenTail;
    hide HeldBy;
    assert Held(Apply(s, Share(id))) == Held(s) + multiset{id};
    TailsKeptByAdding(s, Apply(s, Share(id)), id);
  }

  lemma TailsKeptByDrop(s: System, id: int)
    requires Inv(s) && Legal(s, Drop(id)) && TailsOwned(s)
    ensures Apply(s, Drop(id)).pool.blockSize == s.pool.blockSize && TailsOwned(Apply(s, Drop(id)))
  {
    hide TailsOwned;
    hide HeldBy;
    TailsSurviveDropping(s, Apply(s, Drop(id)));
  }

  lemma UnchangedKeeps(s: System, op: Op)
    requires Inv(s) && Legal(s, op)
    requires (op == Take && s.pool.free == []) || (op.Share? && !s.pool.Allocated(op.id))
    ensures Apply(s, op) == s
  {
  }

  lemma TailsKept(s: System, op: Op)
    requires Inv(s) && Legal(s, op) && SharesWhole(s, op) && TailsOwned(s)
    ensures Apply(s, op).pool.blockSize == s.pool.blockSize && TailsOwned(Apply(s, op))
  {
    hide TailsOwned;
    hide Inv;
    hide SharesWhole;
    match op {
      case Fork(i, ids) => TailsKeptByFork(s, i, ids);
      case Append(i, n) => TailsKeptByAppend(s, i, n);
      case FreeTable(i) => TailsKeptByFree(s, i);
      case NewTable => TailsKeptByNewTable(s);
      case Take =>
        if s.pool.free == [] {
          UnchangedKeeps(s, op);
        } else {
          TailsKeptByTake(s);
        }
      case Share(id) =>
        if s.pool.Allocated(id) {
          TailsKeptByShare(s, id);
        } else {
          UnchangedKeeps(s, op);
        }
      case Drop(id) => TailsKeptByDrop(s, id);
    }
  }

  /** A holder added to a block that a table's open tail is breaks that table's ownership. */
  lemma TailLost(s: System, t: System, id: int, j: nat)
    requires s.pool.blockSize > 0 && t.pool.blockSize == s.pool.blockSize
    requires j < |s.tables| && OpenTail(s.pool, s.tables[j]) && LastBlock(s.tables[j]) == id
    requires j < |t.tables| && t.tables[j] == s.tables[j] && Held(t)[id] > Held(s)[id]
    ensures !TailsOwned(t)
  {
    HoldsOwn(s, j, id);
    assert OpenTail(t.pool, t.tables[j]);
  }

  lemma TailsLostByFork(s: System, i: nat, ids: seq<int>)
    requires Inv(s) && Legal(s, Fork(i, ids)) && !SharesWhole(s, Fork(i, ids))
    ensures Apply(s, Fork(i, ids)).pool.blockSize == s.pool.blockSize && !TailsOwned(Apply(s, Fork(i, ids)))
  {
    hide Inv;
    hide TailsOwned;
    hide Held;
    InvSize(s);
    var after := Apply(s, Fork(i, ids));
    ForkHolds(s, i, ids);
    var id :| id in ids && IsOpenTail(s, id);
    var j :| 0 <= j < |s.tables| && OpenTail(s.pool, s.tables[j]) && LastBlock(s.tables[j]) == id;
    assert multiset(ids)[id] > 0;
    TailLost(s, after, id, j);
  }

  lemma ForkHolds(s: System, i: nat, ids: seq<int>)
    requires Inv(s) && Legal(s, Fork(i, ids))
    ensures var after := Apply(s, Fork(i, ids));
      && after.pool.blockSize == s.pool.blockSize && |after.tables| == |s.tables|
      && Held(after) == Held(s) + multiset(ids)
      && forall j :: 0 <= j < |s.tables| && OpenTail(s.pool, s.tables[j]) ==> after.tables[j] == s.tables[j]
  {
    hide Inv;
    hide SharedAll;
    hide HeldBy;
    InvSize(s);
    var t := Forked(s.pool, EMPTY, ids);
    SharedAllSize(s.pool, ids);
    HeldByUpdate(s.tables, i, t);
    assert t.blocks == ids;
  }

  lemma TailsLostByShare(s: System, id: int)
    requires Inv(s) && !SharesWhole(s, Share(id))
    ensures Apply(s, Share(id)).pool.blockSize == s.pool.blockSize && !TailsOwned(Apply(s, Share(id)))
  {
    var after := Apply(s, Share(id));
    var j :| 0 <= j < |s.tables| && OpenTail(s.pool, s.tables[j]) && LastBlock(s.tables[j]) == id;
    HoldsOwn(s, j, id);
    assert s.pool.Allocated(id);
    assert Held(after) == Held(s) + multiset{id};
    TailLost(s, after, id, j);
  }

  /** An operation leaves every open tail to its own table if and only if it shares only whole blocks. */
  lemma TailsKeptExactly(s: System, op: Op)
    requires Inv(s) && Legal(s, op) && TailsOwned(s)
    ensures Apply(s, op).pool.blockSize == s.pool.blockSize
    ensures TailsOwned(Apply(s, op)) <==> SharesWhole(s, op)
  {
    hide TailsOwned;
    hide Inv;
    InvSize(s);
    if SharesWhole(s, op) {
      TailsKept(s, op);
    } else {
      match op {
        case Fork(i, ids) => TailsLostByFork(s, i, ids);
        case Share(id) => TailsLostByShare(s, id);
        case _ => assert false;
      }
    }
  }

  lemma InvSize(s: System)
    requires Inv(s)
    ensures s.pool.blockSize > 0
  {
  }

  /** Every operation of a run shares only whole blocks. */
  ghost predicate AlwaysWhole(s: System, ops: seq<Op>)
    requires s.pool.blockSize > 0 && Run(s, ops).Some?
    decreases |ops|
  {
    ops == [] || (ApplyBlockSize(s, ops[0]); SharesWhole(s, ops[0]) && AlwaysWhole(Apply(s, ops[0]), ops[1..]))
  }

  /** In every state of a run no table can write into a block another holder has. */
  ghost predicate AlwaysOwned(s: System, ops: seq<Op>)
    requires s.pool.blockSize > 0 && Run(s, ops).Some?
    decreases |ops|
  {
    TailsOwned(s) && (ops == [] || (ApplyBlockSize(s, ops[0]); AlwaysOwned(Apply(s, ops[0]), ops[1..])))
  }

  /** A run keeps every open tail its table's own, in all its states, if and only if it shares only whole blocks. */
  lemma {:induction false} RunKeepsTails(s: System, ops: seq<Op>)
    requires Inv(s) && TailsOwned(s) && Run(s, ops).Some?
    ensures AlwaysOwned(s, ops) <==> AlwaysWhole(s, ops)
    decreases |ops|
  {
    hide TailsOwned;
    hide SharesWhole;
    hide Inv;
    if ops != [] {
      InvSize(s);
      StepKeeps(s, ops[0]);
      TailsKeptExactly(s, ops[0]);
      if SharesWhole(s, ops[0]) {
        RunKeepsTails(Apply(s, ops[0]), ops[1..]);
      } else {
        NotAlways(Apply(s, ops[0]), ops[1..]);
      }
    }
  }

  lemma NotAlways(s: System, ops: seq<Op>)
    requires s.pool.blockSize > 0 && !TailsOwned(s) && Run(s, ops).Some?
    ensures !AlwaysOwned(s, ops)
  {
  }
}
