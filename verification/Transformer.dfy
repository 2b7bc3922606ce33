/** A dense decoder-only model run one sequence at a time, with its device kernels
    left abstract: growing per-layer caches against the whole history at once. */
module Transformer {
  import opened Basics

  type Hidden(!new)   // one row of the residual stream
  type Queries(!new)  // one row's query, key and value heads
  type Keys(!new)
  type Values(!new)
  type Head(!new)     // one attention head's output
  type Row = seq<real>

  datatype Layer = Layer(
    query: Hidden -> Queries,                // norm, projection, bias, head norm: all row by row
    key: Hidden -> Keys,
    value: Hidden -> Values,
    merge: (Hidden, seq<Head>) -> Hidden)    // output projection, residual, gated MLP

  datatype Model = Model(
    heads: nat,
    layers: seq<Layer>,
    embed: int -> Hidden,
    rotateQ: (Queries, int) -> Queries,      // rotary embedding at a position
    rotateK: (Keys, int) -> Keys,
    score: (nat, Queries, Keys) -> real,     // scaled dot product in one query head
    mix: (nat, seq<(real, Values)>) -> Head, // softmax of the scores over the values
    logits: Hidden -> Row)
  {
    /** What rotary embeddings are for: a score depends on the distance alone. */
    ghost predicate Relative() {
      forall hh, q, k, p, r, p', r' :: p - r == p' - r' ==>
        score(hh, rotateQ(q, p), rotateK(k, r)) == score(hh, rotateQ(q, p'), rotateK(k, r'))
    }
  }

  // The whole history at once, without caches.

  /** What query row `i` reads in head `hh`: every row up to its own. */
  function Reads(m: Model, l: Layer, hs: seq<Hidden>, i: nat, hh: nat): (r: seq<(real, Values)>)
    requires i < |hs|
  {
    seq(i + 1, j requires 0 <= j <= i =>
      (m.score(hh, m.rotateQ(l.query(hs[i]), i), m.rotateK(l.key(hs[j]), j)), l.value(hs[j])))
  }

  function Through(m: Model, l: Layer, hs: seq<Hidden>, i: nat): Hidden
    requires i < |hs|
  {
    l.merge(hs[i], seq(m.heads, hh requires 0 <= hh < m.heads => m.mix(hh, Reads(m, l, hs, i, hh))))
  }

  /** The rows entering layer `n`; with `n` the number of layers, the rows leaving the last. */
  function States(m: Model, tokens: seq<int>, n: nat): (hs: seq<Hidden>)
    requires n <= |m.layers|
    ensures |hs| == |tokens|
  {
    if n == 0 then seq(|tokens|, i requires 0 <= i < |tokens| => m.embed(tokens[i]))
    else
      var hs := States(m, tokens, n - 1);
      seq(|tokens|, i requires 0 <= i < |tokens| => Through(m, m.layers[n - 1], hs, i))
  }

  lemma StatesNext(m: Model, tokens: seq<int>, n: nat, i: nat)
    requires n < |m.layers| && i < |tokens|
    ensures States(m, tokens, n + 1)[i] == Through(m, m.layers[n], States(m, tokens, n), i)
  {
  }

  /** The logits that decide the token after a history. */
  function NextRow(m: Model, tokens: seq<int>): Row
    requires tokens != []
  {
    m.logits(States(m, tokens, |m.layers|)[|tokens| - 1])
  }

  /** The same where a batch left-pads: with no history at all, the row of the padding token 0 decides. */
  function RowAfter(m: Model, tokens: seq<int>): Row {
    if tokens == [] then NextRow(m, [0]) else NextRow(m, tokens)
  }

  lemma ThroughCausal(m: Model, l: Layer, a: seq<Hidden>, b: seq<Hidden>, i: nat)
    requires i < |a| <= |b| && forall j :: 0 <= j <= i ==> a[j] == b[j]
    ensures Through(m, l, a, i) == Through(m, l, b, i)
  {
    forall hh | 0 <= hh < m.heads ensures Reads(m, l, a, i, hh) == Reads(m, l, b, i, hh) {
    }
    assert seq(m.heads, hh requires 0 <= hh < m.heads => m.mix(hh, Reads(m, l, a, i, hh)))
        == seq(m.heads, hh requires 0 <= hh < m.heads => m.mix(hh, Reads(m, l, b, i, hh)));
  }

  /** Later tokens never change an earlier row. */
  lemma {:induction false} StatesCausal(m: Model, tokens: seq<int>, more: seq<int>, n: nat)
    requires n <= |m.layers|
    ensures States(m, tokens + more, n)[..|tokens|] == States(m, tokens, n)
  {
    if n > 0 {
      StatesCausal(m, tokens, more, n - 1);
      var a, b := States(m, tokens, n - 1), States(m, tokens + more, n - 1);
      forall i | 0 <= i < |tokens| ensures States(m, tokens + more, n)[i] == States(m, tokens, n)[i] {
        assert forall j :: 0 <= j <= i ==> a[j] == b[..|tokens|][j];
        ThroughCausal(m, m.layers[n - 1], a, b, i);
      }
    }
  }

  // With caches.

  datatype LayerCache = LayerCache(K: seq<Keys>, V: seq<Values>, valid: bool)

  const NO_CACHE: LayerCache := LayerCache([], [], false)

  /** The rotated keys layer `n` computes for a history. */
  function KeysOf(m: Model, tokens: seq<int>, n: nat): seq<Keys>
    requires n < |m.layers|
  {
    var hs := States(m, tokens, n);
    seq(|tokens|, j requires 0 <= j < |tokens| => m.rotateK(m.layers[n].key(hs[j]), j))
  }

  function ValuesOf(m: Model, tokens: seq<int>, n: nat): seq<Values>
    requires n < |m.layers|
  {
    var hs := States(m, tokens, n);
    seq(|tokens|, j requires 0 <= j < |tokens| => m.layers[n].value(hs[j]))
  }

  /** The cache of layer `n` is exactly that layer's keys and values for the history. */
  ghost predicate Caches(m: Model, c: LayerCache, tokens: seq<int>, n: nat)
    requires n < |m.layers|
  {
    if c.valid then c.K == KeysOf(m, tokens, n) && c.V == ValuesOf(m, tokens, n) else tokens == []
  }

  /** Caches for a model that has seen nothing. */
  method NewCaches(m: Model) returns (caches: array<LayerCache>)
    ensures fresh(caches) && caches.Length == |m.layers|
    ensures forall n :: 0 <= n < |m.layers| ==> Caches(m, caches[n], [], n)
  {
    caches := new LayerCache[|m.layers|](_ => NO_CACHE);
  }

  /** What new query `i` reads in head `hh` under a causal mask aligned at the end: the last query sees every key. */
  function CausalReads(m: Model, q: seq<Queries>, k: seq<Keys>, v: seq<Values>, i: nat, hh: nat): seq<(real, Values)>
    requires i < |q| <= |k| == |v|
  {
    seq(|k| - |q| + i + 1, j requires 0 <= j <= |k| - |q| + i => (m.score(hh, q[i], k[j]), v[j]))
  }

  function Causal(m: Model, q: seq<Queries>, k: seq<Keys>, v: seq<Values>): (r: seq<seq<Head>>)
    requires |q| <= |k| == |v|
    ensures |r| == |q|
  {
    seq(|q|, i requires 0 <= i < |q| =>
      seq(m.heads, hh requires 0 <= hh < m.heads =>
        m.mix(hh, CausalReads(m, q, k, v, i, hh))))
  }

  /** Runs one layer over the new rows, growing its cache. */
  method Block(m: Model, h: seq<Hidden>, caches: array<LayerCache>, n: nat, offset: nat,
               ghost hist: seq<int>, ghost next: seq<int>) returns (out: seq<Hidden>)
    requires n < |m.layers| == caches.Length
    requires Caches(m, caches[n], hist, n) && offset == |hist|
    requires h == States(m, hist + next, n)[|hist|..]
    modifies caches
    ensures forall i :: 0 <= i < caches.Length && i != n ==> caches[i] == old(caches[i])
    ensures Caches(m, caches[n], hist + next, n)
    ensures out == States(m, hist + next, n + 1)[|hist|..]
  {
    var l, c := m.layers[n], caches[n];
    var q := seq(|h|, i requires 0 <= i < |h| => m.rotateQ(l.query(h[i]), offset + i));
    var k := seq(|h|, i requires 0 <= i < |h| => m.rotateK(l.key(h[i]), offset + i));
    var v := seq(|h|, i requires 0 <= i < |h| => l.value(h[i]));
    if c.valid {
      k := c.K + k;
      v := c.V + v;
    }
    GrownCache(m, n, hist, next, if c.valid then c.K else [], if c.valid then c.V else [], h);
    assert c.valid || hist == [];
    caches[n] := LayerCache(k, v, true);
    assert k == KeysOf(m, hist + next, n) && v == ValuesOf(m, hist + next, n);
    var attn := Causal(m, q, k, v);
    out := seq(|h|, i requires 0 <= i < |h| => l.merge(h[i], attn[i]));
    forall i | 0 <= i < |h| ensures out[i] == States(m, hist + next, n + 1)[|hist| + i] {
      CausalRow(m, n, hist, next, h, i);
    }
  }

  lemma GrownCache(m: Model, n: nat, hist: seq<int>, next: seq<int>, K: seq<Keys>, V: seq<Values>, h: seq<Hidden>)
    requires n < |m.layers| && K == KeysOf(m, hist, n) && V == ValuesOf(m, hist, n)
    requires h == States(m, hist + next, n)[|hist|..]
    ensures KeysOf(m, hist + next, n)
         == K + seq(|h|, i requires 0 <= i < |h| => m.rotateK(m.layers[n].key(h[i]), |hist| + i))
    ensures ValuesOf(m, hist + next, n)
         == V + seq(|h|, i requires 0 <= i < |h| => m.layers[n].value(h[i]))
  {
    hide States;
    StatesCausal(m, hist, next, n);
    var hs := States(m, hist + next, n);
    assert forall j :: 0 <= j < |hist| ==> hs[j] == hs[..|hist|][j];
    assert forall j :: 0 <= j < |h| ==> h[j] == hs[|hist| + j];
  }

  lemma CausalRow(m: Model, n: nat, hist: seq<int>, next: seq<int>, h: seq<Hidden>, i: nat)
    requires n < |m.layers| && i < |h|
    requires h == States(m, hist + next, n)[|hist|..]
    ensures var l, all := m.layers[n], hist + next;
      var q := seq(|h|, i requires 0 <= i < |h| => m.rotateQ(l.query(h[i]), |hist| + i));
      l.merge(h[i], Causal(m, q, KeysOf(m, all, n), ValuesOf(m, all, n))[i]) == States(m, all, n + 1)[|hist| + i]
  {
    hide States;
    var l, all := m.layers[n], hist + next;
    var hs := States(m, all, n);
    StatesNext(m, all, n, |hist| + i);
    var q := seq(|h|, i requires 0 <= i < |h| => m.rotateQ(l.query(h[i]), |hist| + i));
    var k, v := KeysOf(m, all, n), ValuesOf(m, all, n);
    assert h[i] == hs[|hist| + i];
    forall hh | 0 <= hh < m.heads
      ensures CausalReads(m, q, k, v, i, hh) == Reads(m, l, hs, |hist| + i, hh)
    {
    }
    assert Causal(m, q, k, v)[i]
        == seq(m.heads, hh requires 0 <= hh < m.heads => m.mix(hh, Reads(m, l, hs, |hist| + i, hh)));
  }

  /** Runs the new tokens through every layer. The device may fail in layer `fault`
      (the number of layers standing for the output head); larger means it does not. */
  method Forward(m: Model, tokens: seq<int>, caches: array<LayerCache>, offset: nat, fault: nat,
                 ghost hist: seq<int>) returns (r: Option<seq<Row>>)
    requires caches.Length == |m.layers| && offset == |hist|
    requires forall n :: 0 <= n < |m.layers| ==> Caches(m, caches[n], hist, n)
    modifies caches
    ensures r.None? <==> fault <= |m.layers|
    ensures r.Some? ==> forall n :: 0 <= n < |m.layers| ==> Caches(m, caches[n], hist + tokens, n)
    ensures r.Some? ==> |r.value| == |tokens| && forall i :: 0 <= i < |tokens| ==>
      r.value[i] == NextRow(m, hist + tokens[..i + 1])
  {
    hide States;
    hide Caches;
    hide NextRow;
    var h := seq(|tokens|, i requires 0 <= i < |tokens| => m.embed(tokens[i]));
    Embedded(m, hist, tokens, h);
    for n := 0 to |m.layers|
      invariant n <= fault
      invariant h == States(m, hist + tokens, n)[|hist|..]
      invariant forall i :: 0 <= i < n ==> Caches(m, caches[i], hist + tokens, i)
      invariant forall i :: n <= i < |m.layers| ==> Caches(m, caches[i], hist, i)
    {
      if fault == n {
        return None;
      }
      h := Block(m, h, caches, n, offset, hist, tokens);
    }
    if fault == |m.layers| {
      return None;
    }
    r := Some(seq(|h|, i requires 0 <= i < |h| => m.logits(h[i])));
    forall i | 0 <= i < |tokens| ensures r.value[i] == NextRow(m, hist + tokens[..i + 1]) {
      UpTo(hist, tokens, i);
      LastRow(m, hist + tokens[..i + 1], hist + tokens, |hist| + i);
    }
  }

  lemma FirstState(m: Model, tokens: seq<int>, i: nat)
    requires i < |tokens|
    ensures States(m, tokens, 0)[i] == m.embed(tokens[i])
  {
  }

  lemma FirstStates(m: Model, a: seq<int>, b: seq<int>)
    ensures States(m, a + b, 0) == States(m, a, 0) + States(m, b, 0)
  {
  }

  lemma DropFront<T>(a: seq<T>, b: seq<T>)
    ensures (a + b)[|a|..] == b
  {
  }

  lemma EmbeddedStates(m: Model, next: seq<int>, h: seq<Hidden>)
    requires |h| == |next| && forall i :: 0 <= i < |next| ==> h[i] == m.embed(next[i])
    ensures h == States(m, next, 0)
  {
  }

  lemma Embedded(m: Model, hist: seq<int>, next: seq<int>, h: seq<Hidden>)
    requires |h| == |next| && forall i :: 0 <= i < |next| ==> h[i] == m.embed(next[i])
    ensures h == States(m, hist + next, 0)[|hist|..]
  {
    hide States;
    EmbeddedStates(m, next, h);
    FirstStates(m, hist, next);
    DropFront(States(m, hist, 0), States(m, next, 0));
  }

  /** A history's last row is the same row of any longer history. */
  lemma LastRow(m: Model, tokens: seq<int>, all: seq<int>, i: nat)
    requires |tokens| == i + 1 <= |all| && tokens == all[..i + 1]
    ensures m.logits(States(m, all, |m.layers|)[i]) == NextRow(m, tokens)
  {
    hide States;
    assert tokens + all[i + 1..] == all;
    StatesCausal(m, tokens, all[i + 1..], |m.layers|);
    var hs := States(m, all, |m.layers|);
    assert hs[i] == hs[..|tokens|][i];
  }

  lemma UpTo(hist: seq<int>, next: seq<int>, i: nat)
    requires i < |next|
    ensures |hist + next[..i + 1]| == |hist| + i + 1 && hist + next[..i + 1] == (hist + next)[..|hist| + i + 1]
  {
  }
}
