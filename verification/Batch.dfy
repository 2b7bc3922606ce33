/** Many sequences through the model in lockstep: left-padded prompts, one shared
    cache length, masks that hide the padding. */
module Batch {
  import opened Basics
  import opened Arith
  import opened Transformer
  import opened Masks

  datatype BatchCache = BatchCache(K: seq<seq<Keys>>, V: seq<seq<Values>>, valid: bool)

  const NO_BATCH_CACHE: BatchCache := BatchCache([], [], false)

  // One sequence of the batch against the same sequence alone.

  /** The state entering layer `a` at padded position `p`: the sequence's own where it is real; a padding
      row is a history of the one token 0. */
  ghost function StateAt(m: Model, pad: nat, tokens: seq<int>, a: nat, p: nat): Hidden
    requires a <= |m.layers| && p < pad + |tokens|
  {
    if p < pad then States(m, [0], a)[0] else States(m, tokens, a)[p - pad]
  }

  /** The rows `h`, at padded positions from `offset`, are in those states. */
  ghost predicate RightRows(m: Model, h: seq<Hidden>, pad: nat, offset: nat, tokens: seq<int>, a: nat)
    requires a <= |m.layers|
  {
    && pad + |tokens| == offset + |h|
    && forall i :: 0 <= i < |h| ==> h[i] == StateAt(m, pad, tokens, a, offset + i)
  }

  /** The cached rows are the keys of those states, rotated at padded positions, and the values. */
  ghost predicate RightCache(m: Model, K: seq<Keys>, V: seq<Values>, pad: nat, tokens: seq<int>, a: nat)
    requires a < |m.layers|
  {
    && |K| == |V| <= pad + |tokens|
    && forall j :: 0 <= j < |K| ==>
         && K[j] == m.rotateK(m.layers[a].key(StateAt(m, pad, tokens, a, j)), j)
         && V[j] == m.layers[a].value(StateAt(m, pad, tokens, a, j))
  }

  lemma RightCacheMore(m: Model, K: seq<Keys>, V: seq<Values>, pad: nat, tokens: seq<int>, more: seq<int>, a: nat)
    requires a < |m.layers| && RightCache(m, K, V, pad, tokens, a)
    ensures RightCache(m, K, V, pad, tokens + more, a)
  {
    hide States;
    StatesCausal(m, tokens, more, a);
    var hs, all := States(m, tokens, a), States(m, tokens + more, a);
    forall t | 0 <= t < |hs| ensures all[t] == hs[t] {
      assert all[t] == all[..|tokens|][t];
    }
  }

  lemma RightCacheGrows(m: Model, K: seq<Keys>, V: seq<Values>, h: seq<Hidden>, pad: nat, tokens: seq<int>, a: nat)
    requires a < |m.layers| && RightCache(m, K, V, pad, tokens, a) && RightRows(m, h, pad, |K|, tokens, a)
    ensures RightCache(m, K + NewKeys(m, a, h, |K|), V + NewValues(m, a, h), pad, tokens, a)
  {
    hide StateAt;
  }

  function NewKeys(m: Model, a: nat, h: seq<Hidden>, offset: nat): (r: seq<Keys>)
    requires a < |m.layers|
    ensures |r| == |h|
  {
    seq(|h|, i requires 0 <= i < |h| => m.rotateK(m.layers[a].key(h[i]), offset + i))
  }

  function NewValues(m: Model, a: nat, h: seq<Hidden>): (r: seq<Values>)
    requires a < |m.layers|
    ensures |r| == |h|
  {
    seq(|h|, i requires 0 <= i < |h| => m.layers[a].value(h[i]))
  }

  function NewQueries(m: Model, a: nat, h: seq<Hidden>, offset: nat): (r: seq<Queries>)
    requires a < |m.layers|
    ensures |r| == |h|
  {
    seq(|h|, i requires 0 <= i < |h| => m.rotateQ(m.layers[a].query(h[i]), offset + i))
  }

  // Masked attention.

  /** The mask values one query row of one head meets, out of the flat buffer. */
  function MaskRow(mask: seq<real>, n: nat, heads: nat, q: nat, L: nat, s: nat, hh: nat, i: nat): (row: seq<real>)
    requires |mask| == n * (heads * (q * L)) && s < n && hh < heads && i < q
    ensures |row| == L
  {
    MaskRowFits(n, heads, q, L, s, hh, i);
    mask[Place(heads, q, L, s, hh, i, 0)..Place(heads, q, L, s, hh, i, 0) + L]
  }

  lemma MaskRowFits(n: nat, heads: nat, q: nat, L: nat, s: nat, hh: nat, i: nat)
    requires s < n && hh < heads && i < q
    ensures 0 <= Place(heads, q, L, s, hh, i, 0) && Place(heads, q, L, s, hh, i, 0) + L <= n * (heads * (q * L))
  {
    MulNonNeg(q, L);
    MulNonNeg(heads, q * L);
    FlatRow(q, L, i);
    FlatRow(heads, q * L, hh);
    FlatRow(n, heads * (q * L), s);
  }

  /** Beyond any score of the model; two masked scores never come near an unmasked one. */
  const SCORE_BOUND: real := 100000000.0

  /** The pairs whose score is not masked away. */
  function Loud(pairs: seq<(real, Values)>): seq<(real, Values)> {
    if pairs == [] then []
    else
      var before, last := Loud(pairs[..|pairs| - 1]), pairs[|pairs| - 1];
      if last.0 > -SCORE_BOUND then before + [last] else before
  }

  /** Every score is either bounded or masked. */
  ghost predicate AllClear(pairs: seq<(real, Values)>) {
    forall j :: 0 <= j < |pairs| ==> -SCORE_BOUND < pairs[j].0 < SCORE_BOUND || pairs[j].0 < SCORE_BOUND + MASK_NEG
  }

  /** What the additive mask relies on: scores are bounded, and softmax gives no weight to a score that lies
      below the others by nearly the whole mask value. */
  ghost predicate Underflows(m: Model) {
    && (forall hh, q, k :: -SCORE_BOUND < m.score(hh, q, k) < SCORE_BOUND)
    && (forall hh, pairs :: AllClear(pairs) && Loud(pairs) != [] ==> m.mix(hh, pairs) == m.mix(hh, Loud(pairs)))
  }

  /** The scores of one query row in one head, with its mask values added. */
  function Masked(m: Model, hh: nat, q: Queries, k: seq<Keys>, v: seq<Values>, row: seq<real>): (r: seq<(real, Values)>)
    requires |k| == |v| == |row|
    ensures |r| == |k|
  {
    seq(|k|, j requires 0 <= j < |k| => (m.score(hh, q, k[j]) + row[j], v[j]))
  }

  function Window(m: Model, hh: nat, q: Queries, k: seq<Keys>, v: seq<Values>, lo: nat, hi: nat): seq<(real, Values)>
    requires lo <= hi <= |k| == |v|
  {
    seq(hi - lo, x requires 0 <= x < hi - lo => (m.score(hh, q, k[lo + x]), v[lo + x]))
  }

  lemma WindowSnoc(m: Model, hh: nat, q: Queries, k: seq<Keys>, v: seq<Values>, lo: nat, hi: nat)
    requires lo <= hi < |k| == |v|
    ensures Window(m, hh, q, k, v, lo, hi + 1) == Window(m, hh, q, k, v, lo, hi) + [(m.score(hh, q, k[hi]), v[hi])]
  {
  }

  lemma LoudSnoc(pairs: seq<(real, Values)>, n: nat)
    requires n < |pairs|
    ensures Loud(pairs[..n + 1])
         == if pairs[n].0 > -SCORE_BOUND then Loud(pairs[..n]) + [pairs[n]] else Loud(pairs[..n])
  {
    assert pairs[..n + 1][..n] == pairs[..n];
  }

  /** What a mask leaves of the keys before `len`, when it exposes those from `lo` to `hi`. */
  lemma {:induction false} LoudIsWindow(m: Model, hh: nat, q: Queries, k: seq<Keys>, v: seq<Values>, row: seq<real>,
                                        lo: nat, hi: nat, len: nat)
    requires Underflows(m) && lo <= hi <= |k| == |v| == |row| && len <= |k|
    requires forall j :: 0 <= j < |row| ==> row[j] == Additive(lo <= j < hi)
    ensures Loud(Masked(m, hh, q, k, v, row)[..len])
         == if len <= lo then [] else Window(m, hh, q, k, v, lo, if len <= hi then len else hi)
    decreases len
  {
    hide Loud;
    hide Window;
    var pairs := Masked(m, hh, q, k, v, row);
    if len == 0 {
      NothingLoud(pairs);
    } else {
      LoudIsWindow(m, hh, q, k, v, row, lo, hi, len - 1);
      LoudSnoc(pairs, len - 1);
      if len - 1 <= lo {
        NoWindow(m, hh, q, k, v, lo);
      }
      if lo < len <= hi {
        WindowSnoc(m, hh, q, k, v, lo, len - 1);
      }
    }
  }

  lemma NothingLoud(pairs: seq<(real, Values)>)
    ensures Loud(pairs[..0]) == []
  {
  }

  lemma NoWindow(m: Model, hh: nat, q: Queries, k: seq<Keys>, v: seq<Values>, lo: nat)
    requires lo <= |k| == |v|
    ensures Window(m, hh, q, k, v, lo, lo) == []
  {
  }

  /** Masked attention over all keys is attention over the exposed ones. */
  lemma MaskedIsWindow(m: Model, hh: nat, q: Queries, k: seq<Keys>, v: seq<Values>, row: seq<real>, lo: nat, hi: nat)
    requires Underflows(m) && lo < hi <= |k| == |v| == |row|
    requires forall j :: 0 <= j < |row| ==> row[j] == Additive(lo <= j < hi)
    ensures m.mix(hh, Masked(m, hh, q, k, v, row)) == m.mix(hh, Window(m, hh, q, k, v, lo, hi))
  {
    hide Loud;
    var pairs := Masked(m, hh, q, k, v, row);
    LoudIsWindow(m, hh, q, k, v, row, lo, hi, |k|);
    assert pairs[..|k|] == pairs;
    assert AllClear(pairs);
    assert |Window(m, hh, q, k, v, lo, hi)| == hi - lo;
  }

  function Heads(m: Model, q: seq<seq<Queries>>, k: seq<seq<Keys>>, v: seq<seq<Values>>, mask: seq<real>,
                 qL: nat, L: nat, s: nat, i: nat): seq<Head>
    requires s < |q| == |k| == |v| && |q[s]| == qL && |k[s]| == |v[s]| == L && i < qL
    requires |mask| == |q| * (m.heads * (qL * L))
  {
    seq(m.heads, hh requires 0 <= hh < m.heads =>
      m.mix(hh, Masked(m, hh, q[s][i], k[s], v[s], MaskRow(mask, |q|, m.heads, qL, L, s, hh, i))))
  }

  function MaskedAttention(m: Model, q: seq<seq<Queries>>, k: seq<seq<Keys>>, v: seq<seq<Values>>, mask: seq<real>,
                           qL: nat, L: nat): (r: seq<seq<seq<Head>>>)
    requires |q| == |k| == |v|
    requires forall s :: 0 <= s < |q| ==> |q[s]| == qL && |k[s]| == |v[s]| == L
    requires |mask| == |q| * (m.heads * (qL * L))
    ensures |r| == |q| && forall s :: 0 <= s < |q| ==> |r[s]| == qL
  {
    seq(|q|, s requires 0 <= s < |q| => seq(qL, i requires 0 <= i < qL => Heads(m, q, k, v, mask, qL, L, s, i)))
  }

  /** The padded positions a query at position `p` reads: a real one its sequence's own up to itself, a
      padding one itself. */
  predicate Sees(pad: nat, p: nat, j: nat) {
    if p < pad then j == p else pad <= j <= p
  }

  /** To every query of sequence `s`, in every head, the mask exposes exactly what it should see. */
  ghost predicate Exposes(mask: seq<real>, n: nat, heads: nat, q: nat, L: nat, s: nat, pad: nat, offset: nat)
    requires |mask| == n * (heads * (q * L)) && s < n
  {
    forall hh, i, j :: 0 <= hh < heads && 0 <= i < q && 0 <= j < L ==>
      MaskRow(mask, n, heads, q, L, s, hh, i)[j] == Additive(Sees(pad, offset + i, j))
  }

  lemma MaskRowAt(mask: seq<real>, n: nat, heads: nat, q: nat, L: nat, s: nat, hh: nat, i: nat, j: nat)
    requires |mask| == n * (heads * (q * L)) && s < n && hh < heads && i < q && j < L
    ensures 0 <= Place(heads, q, L, s, hh, i, j) < |mask|
    ensures MaskRow(mask, n, heads, q, L, s, hh, i)[j] == mask[Place(heads, q, L, s, hh, i, j)]
  {
    MaskRowFits(n, heads, q, L, s, hh, i);
  }

  lemma MaskSize(blocks: seq<seq<real>>, heads: nat, stride: nat)
    requires Widths(blocks, stride)
    ensures |Concat(Replicated(blocks, heads))| == |blocks| * (heads * stride)
  {
    ReplicatedWidths(blocks, heads, stride);
    FlatLength(Replicated(blocks, heads), heads * stride);
  }

  lemma PrefillExposes(mask: seq<real>, pads: seq<nat>, heads: nat, P: nat)
    requires mask == Concat(Replicated(PrefillBlocks(pads, P), heads))
    ensures |mask| == |pads| * (heads * (P * P))
    ensures forall s :: 0 <= s < |pads| ==> Exposes(mask, |pads|, heads, P, P, s, pads[s], 0)
  {
    MaskSize(PrefillBlocks(pads, P), heads, P * P);
    forall s, hh, i, j | 0 <= s < |pads| && 0 <= hh < heads && 0 <= i < P && 0 <= j < P
      ensures MaskRow(mask, |pads|, heads, P, P, s, hh, i)[j] == Additive(Sees(pads[s], 0 + i, j))
    {
      MaskRowAt(mask, |pads|, heads, P, P, s, hh, i, j);
      PrefillMaskMeans(pads, heads, P, s, hh, i, j);
    }
  }

  lemma DecodeExposes(mask: seq<real>, pads: seq<nat>, heads: nat, L: nat, offset: nat)
    requires L == offset + 1 && (forall s :: 0 <= s < |pads| ==> pads[s] <= offset)
    requires mask == Concat(Replicated(DecodeBlocks(pads, L), heads))
    ensures |mask| == |pads| * (heads * (1 * (offset + 1)))
    ensures forall s :: 0 <= s < |pads| ==> Exposes(mask, |pads|, heads, 1, offset + 1, s, pads[s], offset)
  {
    MaskSize(DecodeBlocks(pads, L), heads, 1 * L);
    forall s, hh, i, j | 0 <= s < |pads| && 0 <= hh < heads && 0 <= i < 1 && 0 <= j < L
      ensures MaskRow(mask, |pads|, heads, 1, L, s, hh, i)[j] == Additive(Sees(pads[s], offset + i, j))
    {
      MaskRowAt(mask, |pads|, heads, 1, L, s, hh, i, j);
      DecodeMaskMeans(pads, heads, L, s, hh, j);
    }
  }

  lemma RelativeScore(m: Model, hh: nat, q: Queries, k: Keys, p: int, r: int, p': int, r': int)
    requires m.Relative() && p - r == p' - r'
    ensures m.score(hh, m.rotateQ(q, p), m.rotateK(k, r)) == m.score(hh, m.rotateQ(q, p'), m.rotateK(k, r'))
  {
  }

  /** The window a real query reads, at padded positions, is what it reads alone. */
  lemma WindowIsReads(m: Model, hh: nat, a: nat, h: seq<Hidden>, K: seq<Keys>, V: seq<Values>,
                      pad: nat, offset: nat, tokens: seq<int>, i: nat)
    requires m.Relative() && a < |m.layers|
    requires RightRows(m, h, pad, offset, tokens, a) && RightCache(m, K, V, pad, tokens, a)
    requires |K| == offset + |h| && i < |h| && offset + i >= pad
    ensures Window(m, hh, NewQueries(m, a, h, offset)[i], K, V, pad, offset + i + 1)
         == Reads(m, m.layers[a], States(m, tokens, a), offset + i - pad, hh)
  {
    hide States;
    hide Model.Relative;
    var hs, t, l := States(m, tokens, a), offset + i - pad, m.layers[a];
    var w, r := Window(m, hh, NewQueries(m, a, h, offset)[i], K, V, pad, offset + i + 1), Reads(m, l, hs, t, hh);
    assert h[i] == hs[t];
    forall x | 0 <= x <= t ensures w[x] == r[x] {
      assert K[pad + x] == m.rotateK(l.key(hs[x]), pad + x);
      RelativeScore(m, hh, l.query(hs[t]), l.key(hs[x]), offset + i, pad + x, t, x);
    }
  }

  /** What a padding query reads is what the token 0 reads alone. */
  lemma PaddingIsReads(m: Model, hh: nat, a: nat, h: seq<Hidden>, K: seq<Keys>, V: seq<Values>,
                       pad: nat, offset: nat, tokens: seq<int>, i: nat)
    requires m.Relative() && a < |m.layers|
    requires RightRows(m, h, pad, offset, tokens, a) && RightCache(m, K, V, pad, tokens, a)
    requires |K| == offset + |h| && i < |h| && offset + i < pad
    ensures Window(m, hh, NewQueries(m, a, h, offset)[i], K, V, offset + i, offset + i + 1)
         == Reads(m, m.layers[a], States(m, [0], a), 0, hh)
  {
    hide States;
    hide Model.Relative;
    var p, x, l := offset + i, States(m, [0], a)[0], m.layers[a];
    assert h[i] == x && K[p] == m.rotateK(l.key(x), p);
    RelativeScore(m, hh, l.query(x), l.key(x), p, p, 0, 0);
  }

  /** Every row leaves the layer in its own state: a real one as in the sequence alone. */
  lemma RowStep(m: Model, a: nat, h: seq<seq<Hidden>>, K: seq<seq<Keys>>, V: seq<seq<Values>>, mask: seq<real>,
                qL: nat, pad: nat, offset: nat, tokens: seq<int>, s: nat, i: nat)
    requires m.Relative() && Underflows(m) && a < |m.layers| && s < |h| == |K| == |V|
    requires |h[s]| == qL && |K[s]| == |V[s]| == offset + qL && i < qL
    requires |mask| == |h| * (m.heads * (qL * (offset + qL)))
    requires Exposes(mask, |h|, m.heads, qL, offset + qL, s, pad, offset)
    requires RightRows(m, h[s], pad, offset, tokens, a) && RightCache(m, K[s], V[s], pad, tokens, a)
    ensures m.layers[a].merge(h[s][i], Heads(m, AllQueries(m, a, h, offset), K, V, mask, qL, offset + qL, s, i))
         == StateAt(m, pad, tokens, a + 1, offset + i)
  {
    hide States;
    hide Window;
    hide Masked;
    hide Reads;
    hide MaskRow;
    hide NewQueries;
    hide RightCache;
    hide Underflows;
    hide Model.Relative;
    var l, L, p := m.layers[a], offset + qL, offset + i;
    var hs, t := if p < pad then States(m, [0], a) else States(m, tokens, a), if p < pad then 0 else p - pad;
    var q := AllQueries(m, a, h, offset);
    var lo := if p < pad then p else pad;
    forall hh | 0 <= hh < m.heads
      ensures m.mix(hh, Masked(m, hh, q[s][i], K[s], V[s], MaskRow(mask, |h|, m.heads, qL, L, s, hh, i)))
           == m.mix(hh, Reads(m, l, hs, t, hh))
    {
      MaskedIsWindow(m, hh, q[s][i], K[s], V[s], MaskRow(mask, |h|, m.heads, qL, L, s, hh, i), lo, p + 1);
      if p < pad {
        PaddingIsReads(m, hh, a, h[s], K[s], V[s], pad, offset, tokens, i);
      } else {
        WindowIsReads(m, hh, a, h[s], K[s], V[s], pad, offset, tokens, i);
      }
    }
    assert Heads(m, q, K, V, mask, qL, L, s, i)
        == seq(m.heads, hh requires 0 <= hh < m.heads => m.mix(hh, Reads(m, l, hs, t, hh)));
    StatesNext(m, if p < pad then [0] else tokens, a, t);
  }

  lemma RowsStep(m: Model, a: nat, h: seq<seq<Hidden>>, K: seq<seq<Keys>>, V: seq<seq<Values>>, mask: seq<real>,
                 qL: nat, pad: nat, offset: nat, tokens: seq<int>, s: nat, out: seq<Hidden>)
    requires m.Relative() && Underflows(m) && a < |m.layers| && s < |h| == |K| == |V|
    requires |h[s]| == |out| == qL && |K[s]| == |V[s]| == offset + qL
    requires |mask| == |h| * (m.heads * (qL * (offset + qL)))
    requires Exposes(mask, |h|, m.heads, qL, offset + qL, s, pad, offset)
    requires RightRows(m, h[s], pad, offset, tokens, a) && RightCache(m, K[s], V[s], pad, tokens, a)
    requires forall i :: 0 <= i < qL ==>
      out[i] == m.layers[a].merge(h[s][i], Heads(m, AllQueries(m, a, h, offset), K, V, mask, qL, offset + qL, s, i))
    ensures RightRows(m, out, pad, offset, tokens, a + 1)
  {
    hide StateAt;
    hide Heads;
    hide Exposes;
    hide RightCache;
    hide Underflows;
    hide Model.Relative;
    forall i | 0 <= i < qL ensures out[i] == StateAt(m, pad, tokens, a + 1, offset + i) {
      RowStep(m, a, h, K, V, mask, qL, pad, offset, tokens, s, i);
    }
  }

  lemma NothingCached(m: Model, pad: nat, tokens: seq<int>, a: nat)
    requires a < |m.layers|
    ensures RightCache(m, [], [], pad, tokens, a)
  {
  }

  function AllQueries(m: Model, a: nat, h: seq<seq<Hidden>>, offset: nat): (r: seq<seq<Queries>>)
    requires a < |m.layers|
    ensures |r| == |h| && forall s :: 0 <= s < |h| ==> |r[s]| == |h[s]|
  {
    seq(|h|, s requires 0 <= s < |h| => NewQueries(m, a, h[s], offset))
  }

  // The batch.

  /** Layer `a`'s cache has length `len` for every sequence and is right. */
  ghost predicate Holding(m: Model, c: BatchCache, pads: seq<nat>, hists: seq<seq<int>>, len: nat, a: nat)
    requires a < |m.layers| && |pads| == |hists|
  {
    if c.valid then
      && |c.K| == |c.V| == |pads|
      && forall s :: 0 <= s < |pads| ==> |c.K[s]| == len && RightCache(m, c.K[s], c.V[s], pads[s], hists[s], a)
    else len == 0
  }

  ghost predicate AllRight(m: Model, h: seq<seq<Hidden>>, q: nat, pads: seq<nat>, offset: nat, hists: seq<seq<int>>,
                           a: nat)
    requires a <= |m.layers| && |pads| == |hists|
  {
    |h| == |pads| && forall s :: 0 <= s < |h| ==> |h[s]| == q && RightRows(m, h[s], pads[s], offset, hists[s], a)
  }

  /** The final query position of every sequence, gathered from the rows laid end to end. */
  function LastQueries(h: seq<seq<Hidden>>, q: nat): (r: seq<Hidden>)
    requires q > 0 && forall s :: 0 <= s < |h| ==> |h[s]| == q
    ensures |r| == |h| && forall s :: 0 <= s < |h| ==> r[s] == h[s][q - 1]
  {
    if q == 1 then seq(|h|, s requires 0 <= s < |h| => h[s][0])
    else
      LastPlaces(h, q);
      seq(|h|, s requires 0 <= s < |h| => Concat(h)[s * q + q - 1])
  }

  lemma LastPlaces(h: seq<seq<Hidden>>, q: nat)
    requires q > 0 && Widths(h, q)
    ensures forall s :: 0 <= s < |h| ==> 0 <= s * q + q - 1 < |Concat(h)| && Concat(h)[s * q + q - 1] == h[s][q - 1]
  {
    forall s | 0 <= s < |h|
      ensures 0 <= s * q + q - 1 < |Concat(h)| && Concat(h)[s * q + q - 1] == h[s][q - 1]
    {
      FlatAt(h, q, s, q - 1);
    }
  }

  /** The cache with the new rows' keys and values appended. */
  function Grown(m: Model, c: BatchCache, a: nat, h: seq<seq<Hidden>>, offset: nat): BatchCache
    requires a < |m.layers| && (c.valid ==> |c.K| == |c.V| == |h|)
  {
    if c.valid then
      BatchCache(
        seq(|h|, s requires 0 <= s < |h| => c.K[s] + NewKeys(m, a, h[s], offset)),
        seq(|h|, s requires 0 <= s < |h| => c.V[s] + NewValues(m, a, h[s])), true)
    else
      BatchCache(
        seq(|h|, s requires 0 <= s < |h| => NewKeys(m, a, h[s], offset)),
        seq(|h|, s requires 0 <= s < |h| => NewValues(m, a, h[s])), true)
  }

  lemma BlockShapes(m: Model, c: BatchCache, h: seq<seq<Hidden>>, q: nat, pads: seq<nat>, offset: nat,
                    hists: seq<seq<int>>, a: nat)
    requires a < |m.layers| && |hists| == |pads|
    requires AllRight(m, h, q, pads, offset, hists, a) && Holding(m, c, pads, hists, offset, a)
    ensures |h| == |pads| && (c.valid ==> |c.K| == |c.V| == |h|)
    ensures forall s :: 0 <= s < |h| ==> |h[s]| == q
    ensures var g := Grown(m, c, a, h, offset);
      && g.valid && Holding(m, g, pads, hists, offset + q, a) && |g.K| == |g.V| == |h|
      && forall s :: 0 <= s < |h| ==> |g.K[s]| == |g.V[s]| == offset + q
  {
    hide RightCache;
    hide RightRows;
    var g := Grown(m, c, a, h, offset);
    forall s | 0 <= s < |h|
      ensures |g.K[s]| == |g.V[s]| == offset + q && RightCache(m, g.K[s], g.V[s], pads[s], hists[s], a)
    {
      var K, V := if c.valid then c.K[s] else [], if c.valid then c.V[s] else [];
      if !c.valid {
        NothingCached(m, pads[s], hists[s], a);
      }
      CacheShape(m, K, V, pads[s], hists[s], a);
      RightCacheGrows(m, K, V, h[s], pads[s], hists[s], a);
      assert g.K[s] == K + NewKeys(m, a, h[s], offset) && g.V[s] == V + NewValues(m, a, h[s]);
    }
  }

  lemma CacheShape(m: Model, K: seq<Keys>, V: seq<Values>, pad: nat, tokens: seq<int>, a: nat)
    requires a < |m.layers| && RightCache(m, K, V, pad, tokens, a)
    ensures |K| == |V|
  {
  }

  function Merged(l: Layer, h: seq<seq<Hidden>>, attn: seq<seq<seq<Head>>>): (r: seq<seq<Hidden>>)
    requires |attn| == |h| && forall s :: 0 <= s < |h| ==> |attn[s]| == |h[s]|
    ensures |r| == |h| && forall s :: 0 <= s < |h| ==> |r[s]| == |h[s]|
  {
    seq(|h|, s requires 0 <= s < |h| => seq(|h[s]|, i requires 0 <= i < |h[s]| => l.merge(h[s][i], attn[s][i])))
  }

  lemma BlockOut(m: Model, c: BatchCache, h: seq<seq<Hidden>>, q: nat, mask: seq<real>, pads: seq<nat>, offset: nat,
                 hists: seq<seq<int>>, a: nat)
    requires m.Relative() && Underflows(m) && a < |m.layers| && |hists| == |pads|
    requires AllRight(m, h, q, pads, offset, hists, a)
    requires c.valid && Holding(m, c, pads, hists, offset + q, a)
    requires |c.K| == |c.V| && forall s :: 0 <= s < |c.K| ==> |c.K[s]| == |c.V[s]| == offset + q
    requires |mask| == |pads| * (m.heads * (q * (offset + q)))
    requires forall s :: 0 <= s < |pads| ==> Exposes(mask, |pads|, m.heads, q, offset + q, s, pads[s], offset)
    ensures |c.K| == |h| && forall s :: 0 <= s < |h| ==> |h[s]| == q
    ensures var attn := MaskedAttention(m, AllQueries(m, a, h, offset), c.K, c.V, mask, q, offset + q);
      AllRight(m, Merged(m.layers[a], h, attn), q, pads, offset, hists, a + 1)
  {
    hide States;
    hide Heads;
    hide Exposes;
    hide RightCache;
    hide RightRows;
    var qp := AllQueries(m, a, h, offset);
    var out := Merged(m.layers[a], h, MaskedAttention(m, qp, c.K, c.V, mask, q, offset + q));
    forall s | 0 <= s < |h| ensures RightRows(m, out[s], pads[s], offset, hists[s], a + 1) {
      RowsStep(m, a, h, c.K, c.V, mask, q, pads[s], offset, hists[s], s, out[s]);
    }
  }

  method Longest(prompts: seq<seq<int>>) returns (P: nat)
    ensures forall s :: 0 <= s < |prompts| ==> |prompts[s]| <= P
    ensures P == 0 || exists s :: 0 <= s < |prompts| && |prompts[s]| == P
  {
    P := 0;
    for s := 0 to |prompts|
      invariant forall u :: 0 <= u < s ==> |prompts[u]| <= P
      invariant P == 0 || exists u :: 0 <= u < s && |prompts[u]| == P
    {
      if |prompts[s]| > P {
        P := |prompts[s]|;
      }
    }
  }

  /** Embeds a flat `[n, q]` id buffer. */
  function EmbeddedRows(m: Model, ids: seq<int>, n: nat, q: nat): (h: seq<seq<Hidden>>)
    requires |ids| == n * q
    ensures |h| == n && forall s :: 0 <= s < n ==> |h[s]| == q
  {
    seq(n, s requires 0 <= s < n => EmbeddedRow(m, ids, n, q, s))
  }

  function EmbeddedRow(m: Model, ids: seq<int>, n: nat, q: nat, s: nat): (h: seq<Hidden>)
    requires |ids| == n * q && s < n
    ensures |h| == q
  {
    FlatRow(n, q, s);
    seq(q, i requires 0 <= i < q => m.embed(ids[s * q + i]))
  }

  lemma PaddedRowsRight(m: Model, prompts: seq<seq<int>>, pads: seq<nat>, P: nat)
    requires |pads| == |prompts| && forall s :: 0 <= s < |prompts| ==> |prompts[s]| + pads[s] == P
    ensures |Concat(AllPadded(prompts, P))| == |prompts| * P
    ensures AllRight(m, EmbeddedRows(m, Concat(AllPadded(prompts, P)), |prompts|, P), P, pads, 0, prompts, 0)
  {
    hide StateAt;
    hide Concat;
    hide Padded;
    hide States;
    var rows := AllPadded(prompts, P);
    FlatLength(rows, P);
    var ids := Concat(rows);
    var h := EmbeddedRows(m, ids, |prompts|, P);
    forall s, i | 0 <= s < |prompts| && 0 <= i < P ensures h[s][i] == StateAt(m, pads[s], prompts[s], 0, 0 + i) {
      FlatAt(rows, P, s, i);
      FirstAt(m, pads[s], prompts[s], P, i);
    }
  }

  lemma FirstAt(m: Model, pad: nat, prompt: seq<int>, P: nat, i: nat)
    requires |prompt| + pad == P && i < P
    ensures StateAt(m, pad, prompt, 0, i) == m.embed(Padded(prompt, P)[i])
  {
    hide States;
    if i < pad {
      FirstState(m, [0], 0);
    } else {
      FirstState(m, prompt, i - pad);
    }
  }

  lemma NothingHeld(m: Model, pads: seq<nat>, hists: seq<seq<int>>)
    requires |pads| == |hists|
    ensures forall a :: 0 <= a < |m.layers| ==> Holding(m, NO_BATCH_CACHE, pads, hists, 0, a)
  {
  }

  ghost function Extended(hists: seq<seq<int>>, tokens: seq<int>): (r: seq<seq<int>>)
    requires |hists| == |tokens|
    ensures |r| == |hists| && forall s :: 0 <= s < |hists| ==> r[s] == hists[s] + [tokens[s]]
  {
    seq(|hists|, s requires 0 <= s < |hists| => hists[s] + [tokens[s]])
  }

  lemma NewRowsRight(m: Model, h: seq<seq<Hidden>>, pads: seq<nat>, pos: nat, hists: seq<seq<int>>, tokens: seq<int>)
    requires |h| == |pads| == |hists| == |tokens|
    requires forall s :: 0 <= s < |pads| ==> pads[s] + |hists[s]| == pos
    requires forall s :: 0 <= s < |h| ==> h[s] == [m.embed(tokens[s])]
    ensures AllRight(m, h, 1, pads, pos, Extended(hists, tokens), 0)
  {
  }

  /** What is held for the histories is held for any longer ones. */
  lemma HeldMore(m: Model, pads: seq<nat>, hists: seq<seq<int>>, tokens: seq<int>, len: nat)
    requires |pads| == |hists| == |tokens|
    ensures forall c, a :: 0 <= a < |m.layers| && Holding(m, c, pads, hists, len, a) ==>
      Holding(m, c, pads, Extended(hists, tokens), len, a)
  {
    hide RightCache;
    forall c, a | 0 <= a < |m.layers| && Holding(m, c, pads, hists, len, a)
      ensures Holding(m, c, pads, Extended(hists, tokens), len, a)
    {
      forall s | c.valid && 0 <= s < |pads|
        ensures RightCache(m, c.K[s], c.V[s], pads[s], Extended(hists, tokens)[s], a)
      {
        RightCacheMore(m, c.K[s], c.V[s], pads[s], hists[s], [tokens[s]], a);
      }
    }
  }

  function LastLogits(m: Model, h: seq<seq<Hidden>>, q: nat): (rows: seq<Row>)
    requires q > 0 && forall s :: 0 <= s < |h| ==> |h[s]| == q
    ensures |rows| == |h| && forall s :: 0 <= s < |h| ==> rows[s] == m.logits(h[s][q - 1])
  {
    var last := LastQueries(h, q);
    seq(|h|, s requires 0 <= s < |h| => m.logits(last[s]))
  }

  /** The last query position of a sequence is its last real row, or padding if there is none. */
  lemma LastRows(m: Model, h: seq<seq<Hidden>>, q: nat, pads: seq<nat>, offset: nat, hists: seq<seq<int>>)
    requires q > 0 && |pads| == |hists| && AllRight(m, h, q, pads, offset, hists, |m.layers|)
    ensures |h| == |pads| && forall s :: 0 <= s < |h| ==> |h[s]| == q
    ensures forall s :: 0 <= s < |h| ==> m.logits(h[s][q - 1]) == RowAfter(m, hists[s])
  {
    hide States;
  }

  class Batch {
    const m: Model
    const caches: array<BatchCache>
    var pads: seq<nat>  // left padding per sequence
    var pos: nat        // cache length

    constructor (m: Model)
      ensures this.m == m && fresh(caches) && pads == []
      ensures caches.Length == |m.layers| && forall a :: 0 <= a < |m.layers| ==> caches[a] == NO_BATCH_CACHE
    {
      this.m := m;
      pads, pos := [], 0;
      caches := new BatchCache[|m.layers|](_ => NO_BATCH_CACHE);
    }

    /** The batch has processed exactly these histories. */
    ghost predicate Follows(hists: seq<seq<int>>)
      reads this, caches
    {
      && caches.Length == |m.layers| && |hists| == |pads|
      && (forall s :: 0 <= s < |pads| ==> pads[s] + |hists[s]| == pos)
      && forall a :: 0 <= a < |m.layers| ==> Holding(m, caches[a], pads, hists, pos, a)
    }

    /** One layer over the whole batch: every row gets its own state. */
    method Block(h: seq<seq<Hidden>>, a: nat, q: nat, offset: nat, mask: seq<real>, ghost hists: seq<seq<int>>)
      returns (out: seq<seq<Hidden>>)
      requires m.Relative() && Underflows(m) && caches.Length == |m.layers| && a < |m.layers| && |hists| == |pads|
      requires AllRight(m, h, q, pads, offset, hists, a)
      requires Holding(m, caches[a], pads, hists, offset, a)
      requires |mask| == |pads| * (m.heads * (q * (offset + q)))
      requires forall s :: 0 <= s < |pads| ==> Exposes(mask, |pads|, m.heads, q, offset + q, s, pads[s], offset)
      modifies caches
      ensures forall b :: 0 <= b < caches.Length && b != a ==> caches[b] == old(caches[b])
      ensures caches[a].valid && Holding(m, caches[a], pads, hists, offset + q, a)
      ensures AllRight(m, out, q, pads, offset, hists, a + 1)
    {
      hide States;
      hide Heads;
      hide Exposes;
      hide RightCache;
      hide RightRows;
      hide Underflows;
      hide Model.Relative;
      hide Holding;
      hide AllRight;
      hide Merged;
      hide MaskedAttention;
      var qp := AllQueries(m, a, h, offset);
      BlockShapes(m, caches[a], h, q, pads, offset, hists, a);
      caches[a] := Grown(m, caches[a], a, h, offset);
      var attn := MaskedAttention(m, qp, caches[a].K, caches[a].V, mask, q, offset + q);
      out := Merged(m.layers[a], h, attn);
      BlockOut(m, caches[a], h, q, mask, pads, offset, hists, a);
    }

    /** The prompt pass. No prompt at all, or none with a token, is an error; the device may
        fail in layer `fault`. Each row returned decides the token after its own prompt, and the
        row of the padding token that of a prompt without tokens. */
    method Prefill(prompts: seq<seq<int>>, fault: nat) returns (r: Option<seq<Row>>)
      requires m.Relative() && Underflows(m) && caches.Length == |m.layers|
      requires forall a :: 0 <= a < |m.layers| ==> caches[a] == NO_BATCH_CACHE
      modifies this, caches
      ensures r.None? <==> fault <= |m.layers| || forall s :: 0 <= s < |prompts| ==> prompts[s] == []
      ensures r.Some? ==> Follows(prompts) && |r.value| == |prompts|
      ensures r.Some? ==> forall s :: 0 <= s < |prompts| ==> r.value[s] == RowAfter(m, prompts[s])
    {
      hide Holding;
      hide AllRight;
      hide Exposes;
      hide RowAfter;
      hide Underflows;
      hide Model.Relative;
      hide Concat;
      var P := Longest(prompts);
      if P == 0 {
        return None;
      }
      pads := seq(|prompts|, s requires 0 <= s < |prompts| => P - |prompts[s]|);
      var ids := PaddedIds(prompts, pads, P);
      PaddedRowsRight(m, prompts, pads, P);
      var h := EmbeddedRows(m, ids[..], |prompts|, P);
      var buffer := PrefillMask(pads, m.heads, P);
      var mask := buffer[..];
      PrefillExposes(mask, pads, m.heads, P);
      NothingHeld(m, pads, prompts);
      ghost var padding := pads;
      for a := 0 to |m.layers|
        invariant a <= fault && pads == padding
        invariant AllRight(m, h, P, pads, 0, prompts, a)
        invariant forall b :: 0 <= b < a ==> Holding(m, caches[b], pads, prompts, P, b)
        invariant forall b :: a <= b < |m.layers| ==> caches[b] == NO_BATCH_CACHE
      {
        if fault == a {
          return None;
        }
        h := Block(h, a, P, 0, mask, prompts);
      }
      if fault == |m.layers| {
        return None;
      }
      pos := P;
      LastRows(m, h, P, pads, 0, prompts);
      r := Some(LastLogits(m, h, P));
    }

    /** One decode step: every sequence's row is the one its own history alone leads to. */
    method Decode(tokens: seq<int>, fault: nat, ghost hists: seq<seq<int>>) returns (r: Option<seq<Row>>)
      requires m.Relative() && Underflows(m) && Follows(hists) && |tokens| == |pads|
      modifies this, caches
      ensures r.None? <==> fault <= |m.layers|
      ensures r.Some? ==> Follows(Extended(hists, tokens)) && |r.value| == |tokens|
      ensures r.Some? ==> forall s :: 0 <= s < |tokens| ==> r.value[s] == NextRow(m, hists[s] + [tokens[s]])
    {
      hide Holding;
      hide AllRight;
      hide Exposes;
      hide NextRow;
      hide Underflows;
      hide Model.Relative;
      hide Concat;
      ghost var next := Extended(hists, tokens);
      var h := seq(|tokens|, s requires 0 <= s < |tokens| => [m.embed(tokens[s])]);
      NewRowsRight(m, h, pads, pos, hists, tokens);
      var offset := pos;
      var buffer := DecodeMask(pads, m.heads, pos + 1);
      var mask := buffer[..];
      DecodeExposes(mask, pads, m.heads, pos + 1, offset);
      HeldMore(m, pads, hists, tokens, pos);
      for a := 0 to |m.layers|
        invariant a <= fault && pads == old(pads) && pos == old(pos)
        invariant AllRight(m, h, 1, pads, offset, next, a)
        invariant forall b :: 0 <= b < a ==> Holding(m, caches[b], pads, next, offset + 1, b)
        invariant forall b :: a <= b < |m.layers| ==> Holding(m, caches[b], pads, next, offset, b)
      {
        if fault == a {
          return None;
        }
        h := Block(h, a, 1, offset, mask, next);
      }
      if fault == |m.layers| {
        return None;
      }
      pos := pos + 1;
      LastRows(m, h, 1, pads, offset, next);
      r := Some(LastLogits(m, h, 1));
    }
  }
}
