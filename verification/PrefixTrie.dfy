/** Without limits the chained hash map behaves as a trie of whole-block prefixes. */
module PrefixTrie {
  import opened Basics
  import opened Arith
  import opened BlockHash
  import opened Prefix

  /** An inserted token sequence and the handles the insertion returned for its whole blocks. */
  datatype Record = Record(tokens: seq<Token>, handles: seq<int>)

  predicate Unlimited(c: Cache) { c.capacity <= 0 && c.byteLimit <= 0 }

  function ChunksOf(size: int, r: Record): seq<seq<Token>>
    requires size > 0
  {
    Chunks(size, r.tokens)
  }

  /** The key of the prefix that ends with block `i`. */
  function KeyAt(chunks: seq<seq<Token>>, i: nat): Word
    requires i < |chunks|
  {
    Chain(0, chunks[..i + 1])
  }

  /** Every whole-block prefix of every inserted sequence is resident under the handle its insertion gave, and
      nothing else is. */
  ghost predicate Holds(c: Cache, recs: seq<Record>) {
    && Wf(c) && Unlimited(c)
    && (forall r :: r in recs ==> Recorded(c, r))
    && (forall k :: k in c.blocks ==> Explained(c, recs, k))
  }

  ghost predicate Recorded(c: Cache, r: Record)
    requires c.blockSize > 0
  {
    var chunks := ChunksOf(c.blockSize, r);
    && |r.handles| == |chunks|
    && forall i :: 0 <= i < |chunks| ==>
         KeyAt(chunks, i) in c.blocks && c.blocks[KeyAt(chunks, i)].handle == r.handles[i]
  }

  ghost predicate IsKeyOf(size: int, r: Record, k: Word)
    requires size > 0
  {
    var chunks := ChunksOf(size, r);
    exists i :: 0 <= i < |chunks| && k == KeyAt(chunks, i)
  }

  ghost predicate Explained(c: Cache, recs: seq<Record>, k: Word)
    requires c.blockSize > 0
  {
    exists r :: r in recs && IsKeyOf(c.blockSize, r, k)
  }

  /** The i-th hash of a walk is the chain hash of the first i+1 blocks. */
  lemma {:induction false} HashesAreChains(parent: Word, chunks: seq<seq<Token>>, i: nat)
    requires i < |chunks|
    ensures Hashes(parent, chunks)[i] == Chain(parent, chunks[..i + 1])
    decreases i
  {
    hide Hash;
    if i == 0 {
      assert chunks[..1][1..] == [];
    } else {
      assert chunks[..i + 1][1..] == chunks[1..][..i];
      HashesAreChains(Hash(parent, chunks[0]), chunks[1..], i - 1);
    }
  }

  lemma KeysAreChains(chunks: seq<seq<Token>>)
    ensures forall i :: 0 <= i < |chunks| ==> Hashes(0, chunks)[i] == KeyAt(chunks, i)
  {
    forall i | 0 <= i < |chunks| ensures Hashes(0, chunks)[i] == KeyAt(chunks, i) {
      HashesAreChains(0, chunks, i);
    }
  }

  // Insertions only ever add.

  lemma UsedAdds(c: Cache, h: Word)
    requires Wf(c) && Unlimited(c)
    ensures
      var d := Used(c, h);
      && Wf(d) && Unlimited(d) && d.blockSize == c.blockSize
      && d.blocks.Keys == c.blocks.Keys + {h}
      && (forall k :: k in c.blocks ==> d.blocks[k] == c.blocks[k])
      && d.blocks[h].handle == HandleFor(c, h)
  {
    UsedWf(c, h);
    if h !in c.blocks {
      EvictedDone(Added(c, h));
    }
  }

  lemma {:induction false} UsedAllAdds(c: Cache, hs: seq<Word>)
    requires Wf(c) && Unlimited(c)
    ensures
      var d := UsedAll(c, hs);
      && Wf(d) && Unlimited(d) && d.blockSize == c.blockSize
      && |InsertHandles(c, hs)| == |hs|
      && (forall k :: k in d.blocks <==> k in c.blocks || k in hs)
      && (forall k :: k in c.blocks ==> d.blocks[k] == c.blocks[k])
      && (forall i :: 0 <= i < |hs| ==> d.blocks[hs[i]].handle == InsertHandles(c, hs)[i])
    decreases |hs|
  {
    hide Wf;
    hide Used;
    hide HandleFor;
    if hs != [] {
      UsedAdds(c, hs[0]);
      var e := Used(c, hs[0]);
      UsedAllAdds(e, hs[1..]);
      var d := UsedAll(c, hs);
      forall i | 0 <= i < |hs| ensures d.blocks[hs[i]].handle == InsertHandles(c, hs)[i] {
        if i > 0 {
          assert hs[i] == hs[1..][i - 1];
        }
      }
    }
  }

  lemma NewRecord(d: Cache, chunks: seq<seq<Token>>, hs: seq<Word>, r: Record)
    requires d.blockSize > 0 && chunks == ChunksOf(d.blockSize, r) && hs == Hashes(0, chunks)
    requires |r.handles| == |hs|
    requires forall i :: 0 <= i < |hs| ==> hs[i] in d.blocks && d.blocks[hs[i]].handle == r.handles[i]
    ensures Recorded(d, r)
    ensures forall k :: k in hs ==> IsKeyOf(d.blockSize, r, k)
  {
    hide KeyAt;
    hide Hashes;
    hide Chunks;
    KeysAreChains(chunks);
    assert forall i :: 0 <= i < |chunks| ==> hs[i] == KeyAt(chunks, i);
  }

  lemma RecordKept(c: Cache, d: Cache, r: Record)
    requires c.blockSize > 0 && d.blockSize == c.blockSize && Recorded(c, r)
    requires forall k :: k in c.blocks ==> k in d.blocks && d.blocks[k].handle == c.blocks[k].handle
    ensures Recorded(d, r)
  {
    hide KeyAt;
    hide Chunks;
  }

  lemma InsertHolds(c: Cache, recs: seq<Record>, tokens: seq<Token>)
    requires Holds(c, recs)
    ensures
      var hs := Keys(c.blockSize, tokens);
      Holds(UsedAll(c, hs), recs + [Record(tokens, InsertHandles(c, hs))])
  {
    hide Wf;
    hide UsedAll;
    hide InsertHandles;
    hide Chunks;
    hide Hashes;
    hide Recorded;
    hide IsKeyOf;
    WfSize(c);
    var chunks := Chunks(c.blockSize, tokens);
    var hs := Keys(c.blockSize, tokens);
    UsedAllAdds(c, hs);
    var d := UsedAll(c, hs);
    var rec := Record(tokens, InsertHandles(c, hs));
    NewRecord(d, chunks, hs, rec);
    forall r | r in recs + [rec] ensures Recorded(d, r) {
      if r in recs {
        RecordKept(c, d, r);
      }
    }
    forall k | k in d.blocks ensures Explained(d, recs + [rec], k) {
      assert rec in recs + [rec];
      if k in c.blocks {
        assert Explained(c, recs, k);
        var r :| r in recs && IsKeyOf(c.blockSize, r, k);
        assert r in recs + [rec];
      }
    }
  }

  /** Caches with the same blocks, up to pins and recency, hold the same records. */
  lemma SameBlocksHold(c: Cache, d: Cache, recs: seq<Record>)
    requires Holds(c, recs) && Wf(d) && Unlimited(d) && d.blockSize == c.blockSize
    requires d.blocks.Keys == c.blocks.Keys && forall k :: k in c.blocks ==> d.blocks[k].handle == c.blocks[k].handle
    ensures Holds(d, recs)
  {
    hide Wf;
    hide Recorded;
    hide IsKeyOf;
    WfSize(c);
    WfSize(d);
    forall r | r in recs ensures Recorded(d, r) {
      RecordKept(c, d, r);
    }
    forall k | k in d.blocks ensures Explained(d, recs, k) {
      assert Explained(c, recs, k);
    }
  }

  // Runs.

  datatype Op =
    | Insert(tokens: seq<Token>)
    | Match(tokens: seq<Token>)
    | Pin(handles: seq<int>)
    | Unpin(handles: seq<int>)

  datatype Log = Log(c: Cache, recs: seq<Record>)

  function Apply(s: Log, op: Op): Log
    requires s.c.blockSize > 0
  {
    match op
    case Insert(tokens) =>
      var hs := Keys(s.c.blockSize, tokens);
      Log(UsedAll(s.c, hs), s.recs + [Record(tokens, InsertHandles(s.c, hs))])
    case Match(tokens) => s.(c := Matched(s.c, Keys(s.c.blockSize, tokens)))
    case Pin(handles) => s.(c := PinnedAll(s.c, handles))
    case Unpin(handles) => s.(c := UnpinnedAll(s.c, handles))
  }

  lemma MatchedSameBlocks(c: Cache, hs: seq<Word>)
    requires Wf(c) && Unlimited(c)
    ensures
      var d := Matched(c, hs);
      && Wf(d) && Unlimited(d) && d.blockSize == c.blockSize
      && d.blocks.Keys == c.blocks.Keys && forall k :: k in c.blocks ==> d.blocks[k] == c.blocks[k]
  {
    hide UsedAll;
    hide MatchLen;
    hide InsertHandles;
    UsedAllAdds(c, hs[..MatchLen(c, hs)]);
  }

  lemma MatchHolds(c: Cache, recs: seq<Record>, hs: seq<Word>)
    requires Holds(c, recs)
    ensures Holds(Matched(c, hs), recs)
  {
    hide Holds;
    hide Matched;
    hide Wf;
    HoldsWf(c, recs);
    MatchedSameBlocks(c, hs);
    SameBlocksHold(c, Matched(c, hs), recs);
  }

  lemma {:induction false} PinHolds(c: Cache, recs: seq<Record>, handles: seq<int>)
    requires Holds(c, recs)
    ensures Holds(PinnedAll(c, handles), recs) && Holds(UnpinnedAll(c, handles), recs)
    decreases |handles|
  {
    hide Holds;
    hide Wf;
    if handles != [] {
      HoldsWf(c, recs);
      PinnedOneWf(c, handles[0]);
      SameBlocksHold(c, PinnedOne(c, handles[0]), recs);
      SameBlocksHold(c, UnpinnedOne(c, handles[0]), recs);
      PinHolds(PinnedOne(c, handles[0]), recs, handles[1..]);
      PinHolds(UnpinnedOne(c, handles[0]), recs, handles[1..]);
    }
  }

  lemma StepHolds(s: Log, op: Op)
    requires Holds(s.c, s.recs)
    ensures Holds(Apply(s, op).c, Apply(s, op).recs)
  {
    hide Holds;
    HoldsWf(s.c, s.recs);
    match op {
      case Insert(tokens) => InsertHolds(s.c, s.recs, tokens);
      case Match(tokens) => MatchHolds(s.c, s.recs, Keys(s.c.blockSize, tokens));
      case Pin(handles) => PinHolds(s.c, s.recs, handles);
      case Unpin(handles) => PinHolds(s.c, s.recs, handles);
    }
  }

  lemma HoldsWf(c: Cache, recs: seq<Record>)
    requires Holds(c, recs)
    ensures Wf(c) && Unlimited(c) && c.blockSize > 0
  {
  }

  ghost predicate Reaches(s: Log, ops: seq<Op>, t: Log)
    decreases |ops|
  {
    if ops == [] then t == s else s.c.blockSize > 0 && Reaches(Apply(s, ops[0]), ops[1..], t)
  }

  /** After any run on a fresh unlimited cache, the map is exactly the trie of everything inserted so far. */
  lemma {:induction false} RunHolds(s: Log, ops: seq<Op>, t: Log)
    requires Holds(s.c, s.recs) && Reaches(s, ops, t)
    ensures Holds(t.c, t.recs)
    decreases |ops|
  {
    if ops != [] {
      StepHolds(s, ops[0]);
      RunHolds(Apply(s, ops[0]), ops[1..], t);
    }
  }

  lemma FreshHolds(blockSize: int, capacity: int)
    requires capacity <= 0
    ensures Holds(New(blockSize, capacity), [])
  {
  }

  // Matching.

  /** No prefix of `chunks` collides with a different prefix of an inserted sequence. */
  ghost predicate NoAlias(size: int, recs: seq<Record>, chunks: seq<seq<Token>>)
    requires size > 0
  {
    forall r :: r in recs ==> NoAliasWith(chunks, ChunksOf(size, r))
  }

  ghost predicate NoAliasWith(a: seq<seq<Token>>, b: seq<seq<Token>>) {
    forall i, j :: 0 <= i < |a| && 0 <= j < |b| && KeyAt(a, i) == KeyAt(b, j) ==> a[..i + 1] == b[..j + 1]
  }

  ghost predicate SharesBlocks(size: int, recs: seq<Record>, prefix: seq<seq<Token>>)
    requires size > 0
  {
    exists r :: r in recs && prefix <= ChunksOf(size, r)
  }

  lemma SamePrefixSameKey(a: seq<seq<Token>>, b: seq<seq<Token>>, i: nat)
    requires i < |a| && a[..i + 1] <= b
    ensures i < |b| && KeyAt(a, i) == KeyAt(b, i)
  {
    assert b[..i + 1] == a[..i + 1];
  }

  /** A resident prefix is a prefix of an inserted sequence, and conversely. */
  lemma ResidentIffShared(c: Cache, recs: seq<Record>, chunks: seq<seq<Token>>, i: nat)
    requires Holds(c, recs) && c.blockSize > 0 && i < |chunks| && NoAlias(c.blockSize, recs, chunks)
    ensures KeyAt(chunks, i) in c.blocks <==> SharesBlocks(c.blockSize, recs, chunks[..i + 1])
  {
    hide Wf;
    hide Chunks;
    hide KeyAt;
    var k := KeyAt(chunks, i);
    if k in c.blocks {
      assert Explained(c, recs, k);
      var r :| r in recs && IsKeyOf(c.blockSize, r, k);
      var b := ChunksOf(c.blockSize, r);
      assert NoAliasWith(chunks, b);
      var j :| 0 <= j < |b| && k == KeyAt(b, j);
      assert chunks[..i + 1] == b[..j + 1];
    }
    if SharesBlocks(c.blockSize, recs, chunks[..i + 1]) {
      var r :| r in recs && chunks[..i + 1] <= ChunksOf(c.blockSize, r);
      SharedHandle(c, recs, chunks, i, r);
    }
  }

  /** A shared block is resident under the handle every sharing insertion reported for it. */
  lemma SharedHandle(c: Cache, recs: seq<Record>, chunks: seq<seq<Token>>, i: nat, r: Record)
    requires Holds(c, recs) && c.blockSize > 0
    requires i < |chunks| && r in recs && chunks[..i + 1] <= ChunksOf(c.blockSize, r)
    ensures i < |r.handles| && KeyAt(chunks, i) in c.blocks && c.blocks[KeyAt(chunks, i)].handle == r.handles[i]
  {
    hide Wf;
    hide Chunks;
    hide KeyAt;
    assert Recorded(c, r);
    SamePrefixSameKey(chunks, ChunksOf(c.blockSize, r), i);
  }

  /** `Match` returns the longest whole-block prefix shared with any inserted sequence: that much is shared with
      one of them, and no more is shared with any. */
  lemma MatchIsLongestShared(c: Cache, recs: seq<Record>, tokens: seq<Token>)
    requires Holds(c, recs) && c.blockSize > 0 && NoAlias(c.blockSize, recs, Chunks(c.blockSize, tokens))
    ensures
      var chunks := Chunks(c.blockSize, tokens);
      var hs := Keys(c.blockSize, tokens);
      var n := MatchLen(c, hs);
      && n <= |chunks| && |MatchHandles(c, hs)| == n
      && (n > 0 ==> SharesBlocks(c.blockSize, recs, chunks[..n]))
      && (forall m :: 0 <= m <= |chunks| && m > 0 && SharesBlocks(c.blockSize, recs, chunks[..m]) ==> m <= n)
  {
    hide Chunks;
    hide KeyAt;
    hide Hashes;
    hide MatchLen;
    hide Holds;
    hide NoAlias;
    var chunks := Chunks(c.blockSize, tokens);
    var hs := Keys(c.blockSize, tokens);
    var n := MatchLen(c, hs);
    KeysAreChains(chunks);
    if n > 0 {
      assert hs[n - 1] == KeyAt(chunks, n - 1);
      ResidentIffShared(c, recs, chunks, n - 1);
    }
    forall m | 0 <= m <= |chunks| && m > 0 && SharesBlocks(c.blockSize, recs, chunks[..m]) ensures m <= n {
      if m > n {
        SharesLess(c.blockSize, recs, chunks, m, n + 1);
        assert hs[n] == KeyAt(chunks, n);
        ResidentIffShared(c, recs, chunks, n);
        assert false;
      }
    }
  }

  /** Each handle `Match` returns is the one every sharing insertion gave the block. */
  lemma MatchHandlesAreInsertions(c: Cache, recs: seq<Record>, tokens: seq<Token>, r: Record, i: nat)
    requires Holds(c, recs) && c.blockSize > 0 && r in recs
    requires i < MatchLen(c, Keys(c.blockSize, tokens)) && i < |Chunks(c.blockSize, tokens)|
    requires Chunks(c.blockSize, tokens)[..i + 1] <= ChunksOf(c.blockSize, r)
    ensures i < |r.handles|
    ensures i < |MatchHandles(c, Keys(c.blockSize, tokens))|
    ensures MatchHandles(c, Keys(c.blockSize, tokens))[i] == r.handles[i]
  {
    hide Chunks;
    hide KeyAt;
    hide Hashes;
    hide MatchLen;
    hide Holds;
    var chunks := Chunks(c.blockSize, tokens);
    KeysAreChains(chunks);
    SharedHandle(c, recs, chunks, i, r);
    MatchHandleAt(c, Keys(c.blockSize, tokens), i);
    assert Keys(c.blockSize, tokens)[i] == KeyAt(chunks, i);
  }

  lemma MatchHandleAt(c: Cache, hs: seq<Word>, i: nat)
    requires i < MatchLen(c, hs)
    ensures i < |hs| && hs[i] in c.blocks && MatchHandles(c, hs)[i] == c.blocks[hs[i]].handle
  {
    assert hs[..MatchLen(c, hs)][i] == hs[i];
  }

  lemma SharesLess(size: int, recs: seq<Record>, chunks: seq<seq<Token>>, m: nat, k: nat)
    requires size > 0 && k <= m <= |chunks| && SharesBlocks(size, recs, chunks[..m])
    ensures SharesBlocks(size, recs, chunks[..k])
  {
    hide Chunks;
    var r :| r in recs && chunks[..m] <= ChunksOf(size, r);
    assert chunks[..k] <= ChunksOf(size, r);
  }

  /** Sharing whole blocks is sharing the tokens they cover. */
  lemma {:induction false} SharedBlocksAreSharedTokens(size: int, s: seq<Token>, t: seq<Token>, m: nat)
    requires size > 0 && m <= |Chunks(size, s)|
    ensures m * size <= |s|
    ensures Chunks(size, s)[..m] <= Chunks(size, t) <==> s[..m * size] <= t
    decreases m
  {
    if m == 0 {
      assert 0 * size == 0;
    } else {
      var k := (m - 1) * size;
      MulNext(m, size);
      MulNonNeg(m - 1, size);
      assert m * size == k + size;
      SharedBlocksAreSharedTokens(size, s[size..], if |t| < size then [] else t[size..], m - 1);
      assert s[..m * size] == s[..size] + s[size..][..k];
      var a, b := Chunks(size, s[size..]), Chunks(size, t);
      assert Chunks(size, s)[..m] == [s[..size]] + a[..m - 1];
      if |t| >= size {
        assert t == t[..size] + t[size..];
        assert b == [t[..size]] + Chunks(size, t[size..]);
        PrefixCons(s[..size], a[..m - 1], t[..size], Chunks(size, t[size..]));
        PrefixSplit(s[..size], s[size..][..k], t[..size], t[size..]);
      }
    }
  }

  lemma PrefixCons<T>(x: T, xs: seq<T>, y: T, ys: seq<T>)
    ensures [x] + xs <= [y] + ys <==> x == y && xs <= ys
  {
    if [x] + xs <= [y] + ys {
      assert ([x] + xs)[0] == ([y] + ys)[0];
      forall i | 0 <= i < |xs| ensures xs[i] == ys[i] {
        assert ([x] + xs)[i + 1] == ([y] + ys)[i + 1];
      }
    }
  }

  lemma PrefixSplit<T>(a: seq<T>, x: seq<T>, b: seq<T>, y: seq<T>)
    requires |a| == |b|
    ensures a + x <= b + y <==> a == b && x <= y
  {
    if a + x <= b + y {
      forall i | 0 <= i < |a| ensures a[i] == b[i] {
        assert (a + x)[i] == (b + y)[i];
      }
      forall i | 0 <= i < |x| ensures x[i] == y[i] {
        assert (a + x)[|a| + i] == (b + y)[|a| + i];
      }
    }
  }
}
