/** The reference-counted pool of physical blocks. */
module Paged {
  import opened Arith

  datatype Pool = Pool(blockSize: int, free: seq<int>, refs: seq<int>)
  {
    predicate Known(id: int) { 0 <= id < |refs| }

    predicate Allocated(id: int) { Known(id) && refs[id] > 0 }

    /** The free list is duplicate-free and holds exactly the blocks nobody references. */
    ghost predicate Valid() {
      && blockSize > 0
      && (forall id :: 0 <= id < |refs| ==> refs[id] >= 0)
      && (forall i :: 0 <= i < |free| ==> Known(free[i]) && refs[free[i]] == 0)
      && (forall i, j :: 0 <= i < j < |free| ==> free[i] != free[j])
      && (forall id :: 0 <= id < |refs| && refs[id] == 0 ==> id in free)
    }
  }

  function BlocksFor(blockSize: int, n: int): int
    requires blockSize > 0
  {
    if n <= 0 then 0 else (n + blockSize - 1) / blockSize
  }

  /** The least number of blocks that can hold `n` tokens. */
  lemma BlocksForIsCeiling(blockSize: int, n: int)
    requires blockSize > 0 && n >= 0
    ensures BlocksFor(blockSize, n) >= 0
    ensures BlocksFor(blockSize, n) * blockSize >= n
    ensures n > 0 ==> BlocksFor(blockSize, n) * blockSize < n + blockSize
  {
    if n > 0 {
      DivMod(n + blockSize - 1, blockSize);
    }
  }

  lemma BlocksForWhole(blockSize: int, k: int)
    requires blockSize > 0 && k >= 0
    ensures BlocksFor(blockSize, k * blockSize) == k
  {
    if k > 0 {
      MulAtLeast(k, blockSize);
      QuotientIs(blockSize, k * blockSize + blockSize - 1, k);
    }
  }

  lemma BlocksForGrows(blockSize: int, m: int, n: int)
    requires blockSize > 0 && 0 <= m <= n
    ensures BlocksFor(blockSize, m) <= BlocksFor(blockSize, n)
  {
    BlocksForIsCeiling(blockSize, m);
    BlocksForIsCeiling(blockSize, n);
    var a, b := BlocksFor(blockSize, m), BlocksFor(blockSize, n);
    if a > b {
      MulAtLeast(a - b, blockSize);
    }
  }

  // Operations on the pool.

  /** The ids a request for `count` blocks gets: the top of the free stack, topmost first. */
  function Top(free: seq<int>, count: nat): (ids: seq<int>)
    requires count <= |free|
    ensures |ids| == count
    ensures forall i :: 0 <= i < count ==> ids[i] == free[|free| - 1 - i]
  {
    seq(count, i requires 0 <= i < count => free[|free| - 1 - i])
  }

  lemma TopGrows(free: seq<int>, k: nat)
    requires k < |free|
    ensures Top(free, k + 1) == Top(free, k) + [free[|free| - 1 - k]]
  {
  }

  /** The pool after handing out the top `count` blocks. */
  function Taken(p: Pool, count: nat): (r: Pool)
    requires count <= |p.free|
    ensures |r.refs| == |p.refs|
  {
    p.(free := p.free[..|p.free| - count],
       refs := seq(|p.refs|, id requires 0 <= id < |p.refs| =>
                     if id in p.free[|p.free| - count..] then 1 else p.refs[id]))
  }

  function Shared(p: Pool, id: int): Pool {
    if p.Allocated(id) then p.(refs := p.refs[id := p.refs[id] + 1]) else p
  }

  function Freed(p: Pool, id: int): Pool {
    if !p.Known(id) || p.refs[id] == 0 then p
    else p.(refs := p.refs[id := p.refs[id] - 1], free := if p.refs[id] == 1 then p.free + [id] else p.free)
  }

  function SharedAll(p: Pool, ids: seq<int>): Pool
    decreases |ids|
  {
    if ids == [] then p else SharedAll(Shared(p, ids[0]), ids[1..])
  }

  function FreedAll(p: Pool, ids: seq<int>): Pool
    decreases |ids|
  {
    if ids == [] then p else FreedAll(Freed(p, ids[0]), ids[1..])
  }

  lemma TakenOne(p: Pool, k: nat)
    requires p.Valid() && k < |p.free|
    ensures
      var q := Taken(p, k);
      && q.Valid() && |q.free| == |p.free| - k
      && q.free[|q.free| - 1] == p.free[|p.free| - 1 - k]
      && Taken(p, k + 1) == Taken(q, 1)
  {
    TakenValid(p, k);
    var q := Taken(p, k);
    var n := |p.free|;
    assert p.free[n - (k + 1)..] == [p.free[n - 1 - k]] + p.free[n - k..];
    assert q.free[|q.free| - 1..] == [p.free[n - 1 - k]];
    assert q.free[..|q.free| - 1] == p.free[..n - (k + 1)];
    assert Taken(p, k + 1).refs == Taken(q, 1).refs;
  }

  lemma TakenValid(p: Pool, count: nat)
    requires p.Valid() && count <= |p.free|
    ensures Taken(p, count).Valid()
  {
    var q := Taken(p, count);
    var n := |p.free|;
    assert p.free == p.free[..n - count] + p.free[n - count..];
    forall i | 0 <= i < |q.free| ensures q.refs[q.free[i]] == 0 {
      assert q.free[i] == p.free[i];
    }
  }

  /** Allocating undoes the free that returned a block, and freeing undoes an allocation. */
  lemma FreeAndAllocate(p: Pool, id: int)
    requires p.Valid()
    ensures p.Known(id) && p.refs[id] == 1 ==>
      |Freed(p, id).free| > 0 && Top(Freed(p, id).free, 1) == [id] && Taken(Freed(p, id), 1) == p
    ensures p.free != [] ==> Freed(Taken(p, 1), p.free[|p.free| - 1]) == p
  {
    hide Pool.Valid;
    hide Freed;
    hide Taken;
    if p.Known(id) && p.refs[id] == 1 {
      AllocateFreed(p, id);
    }
    if p.free != [] {
      FreeAllocated(p);
    }
  }

  lemma AllocateFreed(p: Pool, id: int)
    requires p.Valid() && p.Known(id) && p.refs[id] == 1
    ensures |Freed(p, id).free| > 0 && Top(Freed(p, id).free, 1) == [id] && Taken(Freed(p, id), 1) == p
  {
    var q := Freed(p, id);
    assert q.free[|q.free| - 1..] == [id];
    assert Taken(q, 1).refs == p.refs;
  }

  lemma FreeAllocated(p: Pool)
    requires p.Valid() && p.free != []
    ensures Freed(Taken(p, 1), p.free[|p.free| - 1]) == p
  {
    var top, q := p.free[|p.free| - 1], Taken(p, 1);
    assert p.free[|p.free| - 1..] == [top];
    assert q.refs == p.refs[top := 1];
    assert p.refs[top := 1][top := 0] == p.refs;
    assert p.free == q.free + [top];
  }

  class BlockPool {
    const blockSize: int
    const total: int
    var free: seq<int>
    const refs: array<int>

    ghost predicate Valid()
      reads this, refs
    {
      refs.Length == total && View().Valid()
    }

    ghost function View(): Pool
      reads this, refs
    {
      Pool(blockSize, free, refs[..])
    }

    constructor (blockSize: int, total: int)
      ensures Valid() && fresh(refs)
      ensures this.blockSize == (if blockSize <= 0 then 16 else blockSize)
      ensures this.total == (if total < 0 then 0 else total)
      ensures forall id :: 0 <= id < this.total ==> View().refs[id] == 0
      ensures |free| == this.total && forall i :: 0 <= i < this.total ==> free[i] == this.total - 1 - i
    {
      var n := if total < 0 then 0 else total;
      this.blockSize := if blockSize <= 0 then 16 else blockSize;
      this.total := n;
      var stack := new int[n];
      for i := 0 to n
        invariant forall j :: 0 <= j < i ==> stack[j] == n - 1 - j
      {
        stack[i] := n - 1 - i;
      }
      free := stack[..];
      refs := new int[n](_ => 0);
      new;
      forall id | 0 <= id < n ensures id in free {
        assert free[n - 1 - id] == id;
      }
    }

    /** One block from the top of the stack, or nothing when the pool is exhausted. */
    method Allocate() returns (id: int, ok: bool)
      requires Valid()
      modifies this, refs
      ensures Valid()
      ensures ok <==> |old(free)| > 0
      ensures !ok ==> View() == old(View())
      ensures ok ==> id == old(free)[|old(free)| - 1] && View() == Taken(old(View()), 1)
    {
      var n := |free|;
      if n == 0 {
        return 0, false;
      }
      ghost var was := View();
      TakenValid(was, 1);
      id := free[n - 1];
      free := free[..n - 1];
      refs[id] := 1;
      assert was.free[n - 1..] == [id];
      assert View() == Taken(was, 1);
      return id, true;
    }

    /** `count` blocks at once, or none at all. */
    method AllocateN(count: int) returns (ids: seq<int>, ok: bool)
      requires Valid()
      modifies this, refs
      ensures Valid()
      ensures ok <==> count <= |old(free)|
      ensures !ok || count <= 0 ==> ids == [] && View() == old(View())
      ensures ok && count > 0 ==> ids == Top(old(free), count) && View() == Taken(old(View()), count)
    {
      if count <= 0 {
        return [], true;
      }
      if count > |free| {
        return [], false;
      }
      ghost var was := View();
      assert Taken(was, 0) == was;
      hide Taken;
      hide Top;
      hide Pool.Valid;
      ids := [];
      for i := 0 to count
        invariant Valid()
        invariant View() == Taken(was, i)
        invariant ids == Top(was.free, i)
      {
        TakenOne(was, i);
        var id, _ := Allocate();
        TopGrows(was.free, i);
        ids := ids + [id];
      }
      return ids, true;
    }

    method Share(id: int)
      requires Valid()
      modifies refs
      ensures View() == Shared(old(View()), id)
      ensures Valid()
    {
      if id >= 0 && id < total && refs[id] > 0 {
        refs[id] := refs[id] + 1;
      }
    }

    /** Drops one reference; freeing a free or unknown block does nothing. */
    method Free(id: int)
      requires Valid()
      modifies this, refs
      ensures View() == Freed(old(View()), id)
      ensures Valid()
    {
      if id < 0 || id >= total || refs[id] == 0 {
        return;
      }
      refs[id] := refs[id] - 1;
      if refs[id] == 0 {
        free := free + [id];
      }
    }

    method FreeAll(ids: seq<int>)
      requires Valid()
      modifies this, refs
      ensures Valid()
      ensures View() == FreedAll(old(View()), ids)
    {
      for i := 0 to |ids|
        invariant Valid()
        invariant FreedAll(View(), ids[i..]) == FreedAll(old(View()), ids)
      {
        assert ids[i..][1..] == ids[i + 1..];
        Free(ids[i]);
      }
    }
  }
}
