/** The token sampler: greedy choice, temperature softmax, the top-k, top-p and min-p
    filters, and the draw. Probabilities are reals. */
module Sampler {
  import opened Basics

  // Sums and orders over token indices.

  predicate Beats(probs: seq<real>, a: nat, b: nat)
    requires a < |probs| && b < |probs|
  {
    probs[a] > probs[b] || (probs[a] == probs[b] && a < b)
  }

  /** The lowest of the most probable tokens. */
  ghost predicate IsBest(probs: seq<real>, b: nat) {
    b < |probs| && forall i :: 0 <= i < |probs| && i != b ==> Beats(probs, b, i)
  }

  predicate Within(probs: seq<real>, idx: seq<nat>) {
    forall k :: 0 <= k < |idx| ==> idx[k] < |probs|
  }

  /** Candidates without repetition, equally probable ones in index order. */
  ghost predicate Tidy(probs: seq<real>, idx: seq<nat>)
    requires Within(probs, idx)
  {
    forall i, j :: 0 <= i < j < |idx| ==> idx[i] != idx[j] && (probs[idx[i]] == probs[idx[j]] ==> idx[i] < idx[j])
  }

  ghost predicate Descending(probs: seq<real>, idx: seq<nat>)
    requires Within(probs, idx)
  {
    forall i, j :: 0 <= i < j < |idx| ==> Beats(probs, idx[i], idx[j])
  }

  function Sum(probs: seq<real>, idx: seq<nat>): real
    requires Within(probs, idx)
  {
    if idx == [] then 0.0 else Sum(probs, idx[..|idx| - 1]) + probs[idx[|idx| - 1]]
  }

  /** The probability of a set of tokens, counted over the first `n`. */
  ghost function Mass(probs: seq<real>, tokens: set<nat>, n: nat): real
    requires n <= |probs|
  {
    if n == 0 then 0.0
    else Mass(probs, tokens, n - 1) + if n - 1 in tokens then probs[n - 1] else 0.0
  }

  ghost function Members(idx: seq<nat>): set<nat> {
    set k | 0 <= k < |idx| :: idx[k]
  }

  ghost predicate NonNegative(probs: seq<real>) {
    forall i :: 0 <= i < |probs| ==> probs[i] >= 0.0
  }

  lemma {:induction false} MassAdd(probs: seq<real>, tokens: set<nat>, x: nat, n: nat)
    requires n <= |probs| && x !in tokens
    ensures Mass(probs, tokens + {x}, n) == Mass(probs, tokens, n) + if x < n then probs[x] else 0.0
  {
    if n > 0 {
      MassAdd(probs, tokens, x, n - 1);
    }
  }

  lemma {:induction false} SumIsMass(probs: seq<real>, idx: seq<nat>)
    requires Within(probs, idx) && Tidy(probs, idx)
    ensures Sum(probs, idx) == Mass(probs, Members(idx), |probs|) && |Members(idx)| == |idx|
  {
    if idx == [] {
      MassEmpty(probs, |probs|);
    } else {
      var init, last := idx[..|idx| - 1], idx[|idx| - 1];
      SumIsMass(probs, init);
      MembersFront(idx);
      assert last !in Members(init);
      MassAdd(probs, Members(init), last, |probs|);
    }
  }

  lemma {:induction false} MassEmpty(probs: seq<real>, n: nat)
    requires n <= |probs|
    ensures Mass(probs, {}, n) == 0.0
  {
    if n > 0 {
      MassEmpty(probs, n - 1);
    }
  }

  lemma SumFront(probs: seq<real>, idx: seq<nat>, k: nat)
    requires Within(probs, idx) && k < |idx|
    ensures Sum(probs, idx[..k + 1]) == Sum(probs, idx[..k]) + probs[idx[k]]
  {
    assert idx[..k + 1][..k] == idx[..k];
  }

  lemma MembersFront(idx: seq<nat>)
    requires idx != []
    ensures Members(idx) == Members(idx[..|idx| - 1]) + {idx[|idx| - 1]}
  {
    var init, last := idx[..|idx| - 1], idx[|idx| - 1];
    forall x | x in Members(idx) ensures x in Members(init) || x == last {
      var k :| 0 <= k < |idx| && idx[k] == x;
      assert k < |init| ==> init[k] == x;
    }
    forall x | x in Members(init) ensures x in Members(idx) {
      var k :| 0 <= k < |init| && init[k] == x;
      assert idx[k] == x;
    }
  }

  lemma DescendingFront(probs: seq<real>, ranked: seq<nat>)
    requires Within(probs, ranked) && Descending(probs, ranked) && ranked != []
    ensures var init := ranked[..|ranked| - 1];
      Within(probs, init) && Descending(probs, init)
      && forall k :: 0 <= k <= |init| ==> probs[ranked[k]] >= probs[ranked[|init|]] && init[..k] == ranked[..k]
  {
    var n := |ranked| - 1;
    forall k | 0 <= k <= n ensures probs[ranked[k]] >= probs[ranked[n]] {
      assert k < n ==> Beats(probs, ranked[k], ranked[n]);
    }
  }

  /** Exchange argument: no set of candidates outweighs as many from the front of the descending order. */
  lemma {:induction false} FrontWeighsMost(probs: seq<real>, ranked: seq<nat>, tokens: set<nat>)
    requires Within(probs, ranked) && Descending(probs, ranked) && tokens <= Members(ranked)
    ensures |tokens| <= |ranked| && Mass(probs, tokens, |probs|) <= Sum(probs, ranked[..|tokens|])
    decreases |ranked|
  {
    hide Sum;
    hide Mass;
    hide Descending;
    hide Members;
    if ranked == [] {
      NoMembers(probs, ranked);
      assert tokens == {};
      MassEmpty(probs, |probs|);
    } else {
      var init, last := ranked[..|ranked| - 1], ranked[|ranked| - 1];
      MembersFront(ranked);
      DescendingFront(probs, ranked);
      var rest := tokens - {last};
      FrontWeighsMost(probs, init, rest);
      if last in tokens {
        MassAdd(probs, rest, last, |probs|);
        assert tokens == rest + {last};
        SumFront(probs, ranked, |rest|);
      } else {
        assert tokens == rest;
      }
    }
  }

  lemma NoMembers(probs: seq<real>, idx: seq<nat>)
    requires idx == []
    ensures Members(idx) == {} && Sum(probs, idx[..0]) == 0.0
  {
  }

  // Stable descending sort.

  function InsertStable(probs: seq<real>, x: nat, idx: seq<nat>): (r: seq<nat>)
    requires x < |probs| && Within(probs, idx)
    ensures Within(probs, r) && |r| == |idx| + 1
    ensures forall y :: y in r <==> y == x || y in idx
  {
    if idx == [] || probs[x] >= probs[idx[0]] then [x] + idx
    else [idx[0]] + InsertStable(probs, x, idx[1..])
  }

  function SortStable(probs: seq<real>, idx: seq<nat>): (r: seq<nat>)
    requires Within(probs, idx)
    ensures Within(probs, r) && |r| == |idx|
    ensures forall y :: y in r <==> y in idx
  {
    if idx == [] then [] else InsertStable(probs, idx[0], SortStable(probs, idx[1..]))
  }

  lemma DescendingCons(probs: seq<real>, x: nat, rest: seq<nat>)
    requires x < |probs| && Within(probs, rest) && Descending(probs, rest)
    requires rest != [] ==> Beats(probs, x, rest[0])
    ensures Within(probs, [x] + rest) && Descending(probs, [x] + rest)
  {
  }

  lemma {:induction false} InsertDescends(probs: seq<real>, x: nat, idx: seq<nat>)
    requires x < |probs| && Within(probs, idx) && Descending(probs, idx)
    requires forall y :: y in idx ==> y != x && (probs[y] == probs[x] ==> x < y)
    ensures Descending(probs, InsertStable(probs, x, idx))
  {
    if idx == [] || probs[x] >= probs[idx[0]] {
      DescendingCons(probs, x, idx);
    } else {
      InsertDescends(probs, x, idx[1..]);
      DescendingCons(probs, idx[0], InsertStable(probs, x, idx[1..]));
    }
  }

  /** Sorting tidy candidates orders them strictly: more probable first, ties by index. */
  lemma {:induction false} SortDescends(probs: seq<real>, idx: seq<nat>)
    requires Within(probs, idx) && Tidy(probs, idx)
    ensures Descending(probs, SortStable(probs, idx))
  {
    if idx != [] {
      SortDescends(probs, idx[1..]);
      InsertDescends(probs, idx[0], SortStable(probs, idx[1..]));
    }
  }

  lemma DescendingTidy(probs: seq<real>, idx: seq<nat>, n: nat)
    requires Within(probs, idx) && Descending(probs, idx) && n <= |idx|
    ensures Within(probs, idx[..n]) && Descending(probs, idx[..n]) && Tidy(probs, idx[..n])
  {
  }

  /** The best candidate of all comes first. */
  lemma BestFirst(probs: seq<real>, ranked: seq<nat>, b: nat)
    requires Within(probs, ranked) && Descending(probs, ranked) && IsBest(probs, b) && b in ranked
    ensures ranked[0] == b
  {
    var k :| 0 <= k < |ranked| && ranked[k] == b;
    assert ranked[0] != b ==> Beats(probs, b, ranked[0]);
    if k > 0 && ranked[0] != b {
      assert false;
    }
  }

  lemma BestBest(probs: seq<real>, b: nat, y: nat)
    requires IsBest(probs, b) && y < |probs|
    ensures probs[y] <= probs[b] && (probs[y] == probs[b] ==> b <= y)
  {
    assert y != b ==> Beats(probs, b, y);
  }

  // The filters.

  /** Every kept candidate beats every dropped one. */
  ghost predicate KeepsFront(probs: seq<real>, idx: seq<nat>, kept: seq<nat>)
    requires Within(probs, idx) && Within(probs, kept)
  {
    && (forall y :: y in kept ==> y in idx)
    && (forall x, y :: x in kept && y in idx && y !in kept ==> Beats(probs, x, y))
  }

  /** A set of least size among the sets of candidates that reach `p`; everything if none does. */
  ghost predicate Nucleus(probs: seq<real>, idx: seq<nat>, p: real, kept: seq<nat>)
    requires Within(probs, idx) && Within(probs, kept)
  {
    && KeepsFront(probs, idx, kept)
    && (Members(kept) == Members(idx) || Mass(probs, Members(kept), |probs|) >= p)
    && forall tokens: set<nat> :: tokens <= Members(idx) && Mass(probs, tokens, |probs|) >= p > 0.0 ==>
         |tokens| >= |kept| && Mass(probs, Members(kept), |probs|) >= p
  }

  /** Some of the candidates, in the order they were in. */
  predicate Subsequence(kept: seq<nat>, idx: seq<nat>) {
    if kept == [] then true
    else if idx == [] then false
    else if kept[|kept| - 1] == idx[|idx| - 1] then Subsequence(kept[..|kept| - 1], idx[..|idx| - 1])
    else Subsequence(kept, idx[..|idx| - 1])
  }

  lemma {:induction false} SubsequenceSelf(idx: seq<nat>)
    ensures Subsequence(idx, idx)
  {
    if idx != [] {
      SubsequenceSelf(idx[..|idx| - 1]);
    }
  }

  /** Everything within a factor `p` of the most probable candidate, in the same order; everything if even
      that one is not. */
  ghost predicate MinPOf(probs: seq<real>, idx: seq<nat>, p: real, kept: seq<nat>)
    requires Within(probs, idx) && Within(probs, kept)
  {
    && Subsequence(kept, idx)
    && exists maxp ::
      && IsLargest(probs, idx, maxp)
      && (forall y :: y in kept <==> y in idx && Survives(probs, y, p * maxp, maxp))
  }

  /** Keeps the `k` highest. */
  method TopKIndices(probs: seq<real>, idx: seq<nat>, k: nat) returns (kept: seq<nat>)
    requires Within(probs, idx) && Tidy(probs, idx)
    ensures |kept| == (if k < |idx| then k else |idx|) && Within(probs, kept)
    ensures Descending(probs, kept) && Tidy(probs, kept)
    ensures KeepsFront(probs, idx, kept)
    ensures forall b :: IsBest(probs, b) && b in idx && k > 0 ==> b in kept
  {
    var ranked := SortStable(probs, idx);
    SortDescends(probs, idx);
    var n := if k > |ranked| then |ranked| else k;
    DescendingTidy(probs, ranked, n);
    forall x, y | x in ranked[..n] && y in idx && y !in ranked[..n] ensures Beats(probs, x, y) {
      FrontBeatsRest(probs, ranked, n, x, y);
    }
    forall b | IsBest(probs, b) && b in idx && k > 0 ensures b in ranked[..n] {
      BestFirst(probs, ranked, b);
    }
    kept := ranked[..n];
  }

  lemma FrontBeatsRest(probs: seq<real>, ranked: seq<nat>, n: nat, x: nat, y: nat)
    requires Within(probs, ranked) && Descending(probs, ranked) && n <= |ranked|
    requires x in ranked[..n] && y in ranked && y !in ranked[..n]
    ensures x < |probs| && y < |probs| && Beats(probs, x, y)
  {
    var front := ranked[..n];
    assert forall t :: 0 <= t < n ==> front[t] == ranked[t] && ranked[t] in front;
    var i :| 0 <= i < n && front[i] == x;
    var j :| 0 <= j < |ranked| && ranked[j] == y;
  }

  method TopPIndices(probs: seq<real>, idx: seq<nat>, p: real) returns (kept: seq<nat>)
    requires Within(probs, idx) && Tidy(probs, idx) && NonNegative(probs)
    ensures Within(probs, kept) && Descending(probs, kept) && Tidy(probs, kept)
    ensures Nucleus(probs, idx, p, kept)
    ensures forall b :: IsBest(probs, b) && b in idx ==> b in kept
  {
    hide Sum;
    hide Mass;
    hide Descending;
    hide Tidy;
    hide Members;
    hide IsBest;
    var ranked := SortStable(probs, idx);
    SortDescends(probs, idx);
    SameMembers(idx, ranked);
    var cum, i := 0.0, 0;
    NoMembers(probs, []);
    while i < |ranked|
      invariant i <= |ranked| && cum == Sum(probs, ranked[..i]) && (i > 0 ==> cum < p)
    {
      cum := cum + probs[ranked[i]];
      SumFront(probs, ranked, i);
      if cum >= p {
        FrontKept(probs, ranked, i + 1, p);
        return ranked[..i + 1];
      }
      i := i + 1;
    }
    assert ranked[..|ranked|] == ranked;
    AllKept(probs, ranked, p);
    kept := ranked;
  }

  lemma SameMembers(a: seq<nat>, b: seq<nat>)
    requires forall y :: y in a <==> y in b
    ensures Members(a) == Members(b)
  {
    forall x ensures x in Members(a) <==> x in Members(b) {
      assert x in Members(a) <==> x in a;
      assert x in Members(b) <==> x in b;
    }
  }

  /** What stopping at the first sum that reaches `p` keeps. */
  lemma FrontKept(probs: seq<real>, ranked: seq<nat>, n: nat, p: real)
    requires Within(probs, ranked) && Descending(probs, ranked) && NonNegative(probs) && 0 < n <= |ranked|
    requires Sum(probs, ranked[..n]) >= p && (n > 1 ==> Sum(probs, ranked[..n - 1]) < p)
    ensures Descending(probs, ranked[..n]) && Tidy(probs, ranked[..n])
    ensures forall x, y :: x in ranked[..n] && y in ranked && y !in ranked[..n] ==>
      x < |probs| && y < |probs| && Beats(probs, x, y)
    ensures Mass(probs, Members(ranked[..n]), |probs|) >= p
    ensures forall tokens: set<nat> :: tokens <= Members(ranked) && Mass(probs, tokens, |probs|) >= p > 0.0 ==>
      |tokens| >= n
    ensures forall b :: IsBest(probs, b) && b in ranked ==> b in ranked[..n]
  {
    hide Sum;
    hide Mass;
    hide Descending;
    hide Tidy;
    hide Members;
    hide IsBest;
    DescendingTidy(probs, ranked, n);
    SumIsMass(probs, ranked[..n]);
    forall x, y | x in ranked[..n] && y in ranked && y !in ranked[..n]
      ensures x < |probs| && y < |probs| && Beats(probs, x, y)
    {
      FrontBeatsRest(probs, ranked, n, x, y);
    }
    forall tokens: set<nat> | tokens <= Members(ranked) && Mass(probs, tokens, |probs|) >= p > 0.0
      ensures |tokens| >= n
    {
      FrontWeighsMost(probs, ranked, tokens);
      NoMembers(probs, []);
      assert ranked[..0] == [];
      if |tokens| < n {
        SumGrows(probs, ranked, |tokens|, n - 1);
        assert false;
      }
    }
    forall b | IsBest(probs, b) && b in ranked ensures b in ranked[..n] {
      BestFirst(probs, ranked, b);
    }
  }

  lemma {:induction false} SumGrows(probs: seq<real>, idx: seq<nat>, k: nat, n: nat)
    requires Within(probs, idx) && NonNegative(probs) && k <= n <= |idx|
    ensures Sum(probs, idx[..k]) <= Sum(probs, idx[..n])
    decreases n - k
  {
    if k < n {
      SumGrows(probs, idx, k, n - 1);
      SumFront(probs, idx, n - 1);
    }
  }

  lemma AllKept(probs: seq<real>, ranked: seq<nat>, p: real)
    requires Within(probs, ranked) && Descending(probs, ranked) && NonNegative(probs)
    requires ranked != [] ==> Sum(probs, ranked) < p
    ensures Tidy(probs, ranked)
    ensures forall tokens: set<nat> :: tokens <= Members(ranked) ==> !(Mass(probs, tokens, |probs|) >= p > 0.0)
  {
    hide Sum;
    hide Mass;
    hide Descending;
    hide Members;
    DescendingTidy(probs, ranked, |ranked|);
    assert ranked[..|ranked|] == ranked;
    NoMembers(probs, []);
    forall tokens: set<nat> | tokens <= Members(ranked) ensures !(Mass(probs, tokens, |probs|) >= p > 0.0) {
      FrontWeighsMost(probs, ranked, tokens);
      SumGrows(probs, ranked, |tokens|, |ranked|);
    }
  }

  function AtLeast(probs: seq<real>, idx: seq<nat>, threshold: real): (r: seq<nat>)
    requires Within(probs, idx)
    ensures Within(probs, r)
    ensures forall y :: y in r <==> y in idx && probs[y] >= threshold
  {
    if idx == [] then []
    else
      var rest := AtLeast(probs, idx[..|idx| - 1], threshold);
      if probs[idx[|idx| - 1]] >= threshold then rest + [idx[|idx| - 1]] else rest
  }

  lemma {:induction false} AtLeastInOrder(probs: seq<real>, idx: seq<nat>, threshold: real)
    requires Within(probs, idx) && Tidy(probs, idx)
    ensures Subsequence(AtLeast(probs, idx, threshold), idx)
  {
    if idx != [] {
      var init, last := idx[..|idx| - 1], idx[|idx| - 1];
      AtLeastInOrder(probs, init, threshold);
      var rest := AtLeast(probs, init, threshold);
      assert last !in init;
      if probs[last] >= threshold {
        var kept := rest + [last];
        assert kept[..|kept| - 1] == rest;
      } else if rest != [] {
        assert rest[|rest| - 1] in rest;
      }
    }
  }

  lemma {:induction false} AtLeastTidy(probs: seq<real>, idx: seq<nat>, threshold: real)
    requires Within(probs, idx) && Tidy(probs, idx)
    ensures Tidy(probs, AtLeast(probs, idx, threshold))
  {
    if idx != [] {
      var init, last := idx[..|idx| - 1], idx[|idx| - 1];
      AtLeastTidy(probs, init, threshold);
      forall y | y in init ensures y != last && (probs[y] == probs[last] ==> y < last) {
      }
    }
  }

  ghost predicate IsLargest(probs: seq<real>, idx: seq<nat>, maxp: real)
    requires Within(probs, idx)
  {
    && (forall y :: y in idx ==> probs[y] <= maxp)
    && (idx != [] ==> exists m :: m in idx && probs[m] == maxp)
  }

  /** Which candidates survive a min-p filter: those with at least `p` times the largest
      probability; all of them if even the largest falls short. */
  ghost predicate Survives(probs: seq<real>, y: nat, threshold: real, maxp: real)
    requires y < |probs|
  {
    probs[y] >= threshold || maxp < threshold
  }

  method Largest(probs: seq<real>, idx: seq<nat>) returns (maxp: real)
    requires Within(probs, idx) && NonNegative(probs)
    ensures IsLargest(probs, idx, maxp)
  {
    maxp := 0.0;
    for k := 0 to |idx|
      invariant maxp >= 0.0 && forall l :: 0 <= l < k ==> probs[idx[l]] <= maxp
      invariant maxp == 0.0 || exists l :: 0 <= l < k && probs[idx[l]] == maxp
    {
      if probs[idx[k]] > maxp {
        maxp := probs[idx[k]];
      }
    }
    if idx != [] && maxp == 0.0 {
      assert idx[0] in idx && probs[idx[0]] == 0.0;
    }
  }

  lemma FilterSurvives(probs: seq<real>, idx: seq<nat>, t: real, maxp: real, kept: seq<nat>)
    requires Within(probs, idx) && IsLargest(probs, idx, maxp) && kept == AtLeast(probs, idx, t)
    ensures kept != [] ==> forall y :: y in idx ==> (y in kept <==> Survives(probs, y, t, maxp))
    ensures kept == [] ==> forall y :: y in idx ==> Survives(probs, y, t, maxp)
    ensures forall b :: IsBest(probs, b) && b in idx && kept != [] ==> b in kept
  {
    forall b | IsBest(probs, b) && b in idx && kept != [] ensures b in kept {
      BestBest(probs, b, kept[0]);
    }
    if kept == [] {
      forall y | y in idx ensures maxp < t {
        var m :| m in idx && probs[m] == maxp;
        assert m !in kept;
      }
    } else {
      assert kept[0] in kept && t <= probs[kept[0]] <= maxp;
    }
  }

  method MinPIndices(probs: seq<real>, idx: seq<nat>, p: real) returns (kept: seq<nat>)
    requires Within(probs, idx) && Tidy(probs, idx) && NonNegative(probs)
    ensures Within(probs, kept) && Tidy(probs, kept)
    ensures MinPOf(probs, idx, p, kept)
    ensures forall b :: IsBest(probs, b) && b in idx ==> b in kept
  {
    hide Subsequence;
    hide Tidy;
    hide IsBest;
    hide Survives;
    hide IsLargest;
    hide NonNegative;
    var maxp := Largest(probs, idx);
    var threshold := p * maxp;
    kept := [];
    for k := 0 to |idx|
      invariant kept == AtLeast(probs, idx[..k], threshold)
    {
      assert idx[..k + 1][..k] == idx[..k];
      if probs[idx[k]] >= threshold {
        kept := kept + [idx[k]];
      }
    }
    assert idx[..|idx|] == idx;
    AtLeastTidy(probs, idx, threshold);
    AtLeastInOrder(probs, idx, threshold);
    SubsequenceSelf(idx);
    FilterSurvives(probs, idx, threshold, maxp, kept);
    if kept == [] {
      kept := idx;
    }
  }

  // The draw.

  /** The point `r` falls in the interval that candidate `k` has on the line of cumulative probabilities. */
  ghost predicate DrawnAt(probs: seq<real>, idx: seq<nat>, r: real, k: nat)
    requires Within(probs, idx) && k < |idx|
  {
    Sum(probs, idx[..k]) <= r < Sum(probs, idx[..k + 1])
  }

  /** With `u` uniform on [0, 1), token `r` is drawn when `u` times the total falls in its interval. */
  ghost predicate Drawn(probs: seq<real>, idx: seq<nat>, u: real, r: nat)
    requires Within(probs, idx)
  {
    var point := u * Sum(probs, idx);
    exists k :: 0 <= k < |idx| && r == idx[k] && DrawnAt(probs, idx, point, k)
  }

  lemma DrawnIs(probs: seq<real>, idx: seq<nat>, u: real, r: real, k: nat)
    requires Within(probs, idx) && k < |idx| && r == u * Sum(probs, idx) && DrawnAt(probs, idx, r, k)
    ensures Drawn(probs, idx, u, idx[k])
  {
    hide Sum;
    hide DrawnAt;
    assert DrawnAt(probs, idx, u * Sum(probs, idx), k);
  }

  lemma Scaled(u: real, total: real, r: real)
    requires 0.0 <= u <= 1.0 && total > 0.0 && r == u * total
    ensures 0.0 <= r <= total && (u < 1.0 ==> r < total)
  {
    if u < 1.0 {
      assert (1.0 - u) * total > 0.0;
    }
  }

  /** Draws by cumulative probability; without a source, or without any mass, takes the first most probable. */
  method SampleFrom(probs: seq<real>, idx: seq<nat>, draw: Option<real>) returns (r: nat)
    requires Within(probs, idx) && NonNegative(probs) && (draw.Some? ==> 0.0 <= draw.value <= 1.0)
    ensures idx == [] ==> r == 0
    ensures idx != [] ==> r in idx
    ensures idx != [] && draw.Some? && draw.value < 1.0 && Sum(probs, idx) > 0.0 ==>
      Drawn(probs, idx, draw.value, r)
    ensures idx != [] && (draw.None? || Sum(probs, idx) <= 0.0) ==>
      exists k :: 0 <= k < |idx| && r == idx[k] && FirstLargest(probs, idx, k)
  {
    hide Sum;
    hide FirstLargest;
    hide DrawnAt;
    hide Drawn;
    if |idx| == 0 {
      return 0;
    }
    var total := Total(probs, idx);
    var k;
    if total <= 0.0 || draw.None? {
      k := MostProbable(probs, idx);
    } else {
      var r := draw.value * total;
      Scaled(draw.value, total, r);
      k := Draw(probs, idx, r);
      if r < total {
        DrawnIs(probs, idx, draw.value, r, k);
      }
    }
    r := idx[k];
  }

  /** The first among the most probable candidates is at place `k`. */
  ghost predicate FirstLargest(probs: seq<real>, idx: seq<nat>, k: nat)
    requires Within(probs, idx) && k < |idx|
  {
    && (forall l :: 0 <= l < |idx| ==> probs[idx[l]] <= probs[idx[k]])
    && (forall l :: 0 <= l < k ==> probs[idx[l]] < probs[idx[k]])
  }

  method MostProbable(probs: seq<real>, idx: seq<nat>) returns (best: nat)
    requires Within(probs, idx) && idx != []
    ensures best < |idx| && FirstLargest(probs, idx, best)
  {
    best := 0;
    for l := 0 to |idx|
      invariant best < |idx| && (best < l || l == 0 == best)
      invariant forall x :: 0 <= x < l ==> probs[idx[x]] <= probs[idx[best]]
      invariant forall x :: 0 <= x < best ==> probs[idx[x]] < probs[idx[best]]
    {
      if probs[idx[l]] > probs[idx[best]] {
        best := l;
      }
    }
  }

  method Draw(probs: seq<real>, idx: seq<nat>, r: real) returns (at: nat)
    requires Within(probs, idx) && idx != [] && 0.0 <= r <= Sum(probs, idx)
    ensures at < |idx| && (r < Sum(probs, idx) ==> DrawnAt(probs, idx, r, at))
  {
    hide Sum;
    NoMembers(probs, []);
    var cum := 0.0;
    assert idx[..0] == [];
    for k := 0 to |idx|
      invariant cum == Sum(probs, idx[..k]) <= r
    {
      SumFront(probs, idx, k);
      cum := cum + probs[idx[k]];
      if r < cum {
        return k;
      }
    }
    assert idx[..|idx|] == idx;
    at := |idx| - 1;
  }

  method Total(probs: seq<real>, idx: seq<nat>) returns (total: real)
    requires Within(probs, idx)
    ensures total == Sum(probs, idx)
  {
    total := 0.0;
    for k := 0 to |idx|
      invariant total == Sum(probs, idx[..k])
    {
      SumFront(probs, idx, k);
      total := total + probs[idx[k]];
    }
    assert idx[..|idx|] == idx;
  }

  // Sampling.

  datatype Settings = Settings(temperature: real, topK: int, topP: real, minP: real)

  method Argmax(logits: seq<real>) returns (best: nat)
    requires logits != []
    ensures IsBest(logits, best)
  {
    best := 0;
    for i := 1 to |logits|
      invariant best < i && forall j :: 0 <= j < i ==> logits[j] <= logits[best]
      invariant forall j :: 0 <= j < best ==> logits[j] < logits[best]
    {
      if logits[i] > logits[best] {
        best := i;
      }
    }
  }

  ghost predicate Growing(exp: real -> real) {
    && (forall x :: exp(x) > 0.0)
    && (forall x, y :: x < y ==> exp(x) < exp(y))
  }

  lemma {:induction false} AddDivided(xs: seq<real>, ys: seq<real>, d: real)
    requires |xs| == |ys| && d > 0.0 && forall i :: 0 <= i < |xs| ==> ys[i] == xs[i] / d
    ensures Add(ys) == Add(xs) / d
  {
    if xs != [] {
      AddDivided(xs[..|xs| - 1], ys[..|ys| - 1], d);
    }
  }

  lemma SelfDivided(d: real)
    requires d > 0.0
    ensures d / d == 1.0
  {
  }

  lemma DivideLess(a: real, b: real, d: real)
    requires d > 0.0 && a < b
    ensures a / d < b / d
  {
    assert a / d * d == a && b / d * d == b;
  }

  /** Positive probabilities that sum to one, ordered exactly as the logits are. */
  ghost predicate Softmaxed(logits: seq<real>, probs: seq<real>) {
    && |probs| == |logits| && Add(probs) == 1.0
    && (forall i :: 0 <= i < |probs| ==> probs[i] > 0.0)
    && (forall i, j :: 0 <= i < |probs| && 0 <= j < |probs| ==> (logits[i] < logits[j] <==> probs[i] < probs[j]))
  }

  /** A sum of exponents is a product of powers. */
  ghost predicate Exponential(exp: real -> real) {
    forall a, b :: exp(a + b) == exp(a) * exp(b)
  }

  /** Two probabilities are as far apart as the difference of their logits, divided by the temperature, says. */
  ghost predicate Tempered(exp: real -> real, logits: seq<real>, temp: real, probs: seq<real>)
    requires temp > 0.0 && |probs| == |logits|
  {
    forall i, j :: 0 <= i < |probs| && 0 <= j < |probs| ==>
      probs[j] == probs[i] * exp((logits[j] - logits[i]) / temp)
  }

  /** With a sum of one this fixes every probability. */
  lemma TemperedUnique(exp: real -> real, logits: seq<real>, temp: real, probs: seq<real>, other: seq<real>)
    requires Growing(exp) && temp > 0.0 && Softmaxed(logits, probs) && Softmaxed(logits, other)
    requires Tempered(exp, logits, temp, probs) && Tempered(exp, logits, temp, other)
    ensures probs == other
  {
    hide Growing;
    hide Tempered;
    if probs != [] {
      var d := probs[0] / other[0];
      Proportional(exp, logits, temp, probs, other, d);
      AddScaled(other, probs, d);
      assert d == 1.0;
    }
  }

  lemma Proportional(exp: real -> real, logits: seq<real>, temp: real, probs: seq<real>, other: seq<real>, d: real)
    requires temp > 0.0 && |probs| == |other| == |logits| > 0 && other[0] > 0.0 && d == probs[0] / other[0]
    requires Tempered(exp, logits, temp, probs) && Tempered(exp, logits, temp, other)
    ensures forall j :: 0 <= j < |probs| ==> probs[j] == other[j] * d
  {
    forall j | 0 <= j < |probs| ensures probs[j] == other[j] * d {
      var e := exp((logits[j] - logits[0]) / temp);
      Rescaled(probs[0], other[0], e, d);
    }
  }

  lemma Rescaled(a: real, b: real, e: real, d: real)
    requires b > 0.0 && d == a / b
    ensures a * e == b * e * d
  {
    assert b * d == a;
    assert b * e * d == b * d * e;
  }

  lemma {:induction false} AddScaled(xs: seq<real>, ys: seq<real>, d: real)
    requires |xs| == |ys| && forall i :: 0 <= i < |xs| ==> ys[i] == xs[i] * d
    ensures Add(ys) == Add(xs) * d
  {
    if xs != [] {
      AddScaled(xs[..|xs| - 1], ys[..|ys| - 1], d);
    }
  }

  method SoftmaxScaled(exp: real -> real, logits: seq<real>, temp: real) returns (out: seq<real>)
    requires Growing(exp) && logits != [] && temp > 0.0
    ensures Softmaxed(logits, out)
    ensures Exponential(exp) ==> Tempered(exp, logits, temp, out)
  {
    hide Exponential;
    hide Tempered;
    hide Growing;
    hide Weight;
    var maxv := logits[0] / temp;
    for i := 1 to |logits|
    {
      if logits[i] / temp > maxv {
        maxv := logits[i] / temp;
      }
    }
    var weights, sum := Weigh(exp, logits, temp, maxv);
    out := Normalize(weights, sum);
    AddDivided(weights, out, sum);
    SelfDivided(sum);
    WeightsOrdered(exp, logits, temp, maxv, weights, sum, out);
    if Exponential(exp) {
      WeightsTempered(exp, logits, temp, maxv, weights, sum, out);
    }
  }

  lemma WeightsTempered(exp: real -> real, logits: seq<real>, temp: real, maxv: real, weights: seq<real>, sum: real,
                        out: seq<real>)
    requires Exponential(exp) && temp > 0.0 && sum > 0.0 && |out| == |weights| == |logits|
    requires forall j :: 0 <= j < |logits| ==>
      weights[j] == Weight(exp, logits[j], temp, maxv) && out[j] == weights[j] / sum
    ensures Tempered(exp, logits, temp, out)
  {
    hide Weight;
    hide Exponential;
    forall i, j | 0 <= i < |out| && 0 <= j < |out| ensures out[j] == out[i] * exp((logits[j] - logits[i]) / temp) {
      WeightRatio(exp, logits[i], logits[j], temp, maxv);
      QuotientOfProduct(weights[i], exp((logits[j] - logits[i]) / temp), sum);
    }
  }

  lemma WeightRatio(exp: real -> real, x: real, y: real, temp: real, maxv: real)
    requires Exponential(exp) && temp > 0.0
    ensures Weight(exp, y, temp, maxv) == Weight(exp, x, temp, maxv) * exp((y - x) / temp)
  {
    var a, b := x / temp - maxv, (y - x) / temp;
    assert y / temp - maxv == a + b;
    assert exp(a + b) == exp(a) * exp(b);
  }

  lemma QuotientOfProduct(a: real, b: real, d: real)
    requires d > 0.0
    ensures a * b / d == a / d * b
  {
    var q := a / d;
    assert q * d == a;
    assert q * b * d == a * b;
  }

  function Weight(exp: real -> real, x: real, temp: real, maxv: real): real
    requires temp > 0.0
  {
    exp(x / temp - maxv)
  }

  lemma WeightGrows(exp: real -> real, temp: real, maxv: real)
    requires Growing(exp) && temp > 0.0
    ensures forall x :: Weight(exp, x, temp, maxv) > 0.0
    ensures forall x, y :: x < y ==> Weight(exp, x, temp, maxv) < Weight(exp, y, temp, maxv)
  {
    forall x, y | x < y ensures Weight(exp, x, temp, maxv) < Weight(exp, y, temp, maxv) {
      DivideLess(x, y, temp);
    }
  }

  method Weigh(exp: real -> real, logits: seq<real>, temp: real, maxv: real) returns (weights: seq<real>, sum: real)
    requires Growing(exp) && temp > 0.0 && logits != []
    ensures |weights| == |logits| && sum == Add(weights) > 0.0
    ensures forall j :: 0 <= j < |logits| ==> weights[j] == Weight(exp, logits[j], temp, maxv)
  {
    hide Weight;
    hide Growing;
    weights, sum := [], 0.0;
    WeightGrows(exp, temp, maxv);
    for i := 0 to |logits|
      invariant |weights| == i && sum == Add(weights) >= 0.0 && (i > 0 ==> sum > 0.0)
      invariant forall j :: 0 <= j < i ==> weights[j] == Weight(exp, logits[j], temp, maxv)
    {
      var e := Weight(exp, logits[i], temp, maxv);
      assert (weights + [e])[..i] == weights;
      weights := weights + [e];
      sum := sum + e;
    }
  }

  method Normalize(weights: seq<real>, sum: real) returns (out: seq<real>)
    requires sum > 0.0
    ensures |out| == |weights| && forall j :: 0 <= j < |weights| ==> out[j] == weights[j] / sum
  {
    out := [];
    for i := 0 to |weights|
      invariant |out| == i && forall j :: 0 <= j < i ==> out[j] == weights[j] / sum
    {
      out := out + [weights[i] / sum];
    }
  }

  lemma WeightsOrdered(exp: real -> real, logits: seq<real>, temp: real, maxv: real, weights: seq<real>, sum: real,
                       out: seq<real>)
    requires Growing(exp) && temp > 0.0 && sum > 0.0 && |out| == |weights| == |logits|
    requires forall j :: 0 <= j < |logits| ==>
      weights[j] == Weight(exp, logits[j], temp, maxv) && out[j] == weights[j] / sum
    ensures forall i :: 0 <= i < |out| ==> out[i] > 0.0
    ensures forall i, j :: 0 <= i < |out| && 0 <= j < |out| ==> (logits[i] < logits[j] <==> out[i] < out[j])
  {
    hide Weight;
    hide Growing;
    WeightGrows(exp, temp, maxv);
    forall i, j | 0 <= i < |out| && 0 <= j < |out| && logits[i] < logits[j] ensures out[i] < out[j] {
      DivideLess(weights[i], weights[j], sum);
    }
    forall i | 0 <= i < |out| ensures out[i] > 0.0 {
      DivideLess(0.0, weights[i], sum);
    }
  }

  lemma SameBest(logits: seq<real>, probs: seq<real>, b: nat)
    requires Softmaxed(logits, probs)
    ensures IsBest(logits, b) <==> IsBest(probs, b)
  {
    if b < |probs| {
      forall i | 0 <= i < |probs| ensures Beats(logits, b, i) <==> Beats(probs, b, i) {
      }
    }
  }

  lemma {:induction false} BestExists(probs: seq<real>) returns (b: nat)
    requires probs != []
    ensures IsBest(probs, b)
  {
    var n := |probs| - 1;
    if n == 0 {
      b := 0;
    } else {
      b := BestExists(probs[..n]);
      forall i | 0 <= i < n ensures probs[i] <= probs[b] && (probs[i] == probs[b] ==> b <= i) {
        BestBest(probs[..n], b, i);
      }
      if probs[n] > probs[b] {
        b := n;
      }
    }
  }

  /** The candidates left after the filters that are switched on, never one twice: top-k and top-p
      leave the most probable first, min-p the order as it is. */
  ghost predicate Filtered(s: Settings, probs: seq<real>, kept: seq<nat>)
    requires Within(probs, kept)
  {
    var all := seq(|probs|, i => i);
    exists a, b ::
      && Within(probs, a) && Within(probs, b) && Tidy(probs, a) && Tidy(probs, b) && Tidy(probs, kept)
      && (if 0 < s.topK < |all| then |a| == s.topK && KeepsFront(probs, all, a) && Descending(probs, a) else a == all)
      && (if 0.0 < s.topP < 1.0 then Nucleus(probs, a, s.topP, b) && Descending(probs, b) else b == a)
      && (if s.minP > 0.0 then MinPOf(probs, b, s.minP, kept) else kept == b)
  }

  /** Greedy without a temperature or a random source; otherwise a draw among the filtered candidates. */
  method Sample(exp: real -> real, s: Settings, logits: seq<real>, draw: Option<real>)
    returns (r: nat, ghost probs: seq<real>, ghost kept: seq<nat>)
    requires Growing(exp) && (draw.Some? ==> 0.0 <= draw.value < 1.0)
    ensures logits == [] ==> r == 0
    ensures logits != [] && (s.temperature <= 0.0 || draw.None?) ==> IsBest(logits, r)
    ensures logits != [] && s.temperature > 0.0 ==>
      && Softmaxed(logits, probs) && (Exponential(exp) ==> Tempered(exp, logits, s.temperature, probs))
      && Within(probs, kept) && Filtered(s, probs, kept)
      && r in kept && (forall b :: IsBest(logits, b) ==> b in kept)
      && (draw.Some? ==> Drawn(probs, kept, draw.value, r))
  {
    hide Descending;
    hide Drawn;
    hide IsBest;
    hide Tidy;
    hide KeepsFront;
    hide Nucleus;
    hide MinPOf;
    hide DrawnAt;
    hide FirstLargest;
    hide Sum;
    hide Growing;
    hide Exponential;
    hide Tempered;
    probs, kept := [], [];
    if |logits| == 0 {
      return 0, probs, kept;
    }
    if s.temperature <= 0.0 {
      r := Argmax(logits);
      return;
    }
    var p := SoftmaxScaled(exp, logits, s.temperature);
    ghost var b := BestExists(p);
    probs := p;
    SoftmaxNonNegative(logits, p);
    var idx := seq(|p|, i => i);
    AllTidy(p, idx, b);
    if s.topK > 0 && s.topK < |idx| {
      idx := TopKIndices(p, idx, s.topK);
    }
    ghost var a := idx;
    if s.topP > 0.0 && s.topP < 1.0 {
      idx := TopPIndices(p, idx, s.topP);
    }
    ghost var c := idx;
    if s.minP > 0.0 {
      idx := MinPIndices(p, idx, s.minP);
    }
    kept := idx;
    Chain(s, p, a, c, kept);
    DrawsFrom(logits, p, kept, b);
    assert idx != [];
    r := SampleFrom(p, idx, draw);
  }

  lemma SoftmaxNonNegative(logits: seq<real>, probs: seq<real>)
    requires Softmaxed(logits, probs)
    ensures NonNegative(probs)
  {
  }

  lemma AllTidy(probs: seq<real>, all: seq<nat>, b: nat)
    requires all == seq(|probs|, i => i) && IsBest(probs, b)
    ensures Within(probs, all) && Tidy(probs, all) && b in all
  {
    assert all[b] == b;
  }

  lemma Chain(s: Settings, probs: seq<real>, a: seq<nat>, b: seq<nat>, kept: seq<nat>)
    requires Within(probs, a) && Within(probs, b) && Within(probs, kept)
    requires Tidy(probs, a) && Tidy(probs, b) && Tidy(probs, kept)
    requires var all := seq(|probs|, i => i);
      if 0 < s.topK < |all| then |a| == s.topK && KeepsFront(probs, all, a) && Descending(probs, a) else a == all
    requires if 0.0 < s.topP < 1.0 then Nucleus(probs, a, s.topP, b) && Descending(probs, b) else b == a
    requires if s.minP > 0.0 then MinPOf(probs, b, s.minP, kept) else kept == b
    ensures Filtered(s, probs, kept)
  {
    hide Tidy;
    hide Descending;
    hide KeepsFront;
    hide Nucleus;
    hide MinPOf;
  }

  /** Drawing from tidy candidates that include the best one. */
  lemma DrawsFrom(logits: seq<real>, probs: seq<real>, kept: seq<nat>, b: nat)
    requires Softmaxed(logits, probs) && Within(probs, kept) && Tidy(probs, kept) && IsBest(probs, b) && b in kept
    ensures Sum(probs, kept) > 0.0
    ensures forall k :: 0 <= k < |kept| && FirstLargest(probs, kept, k) ==> IsBest(logits, kept[k])
    ensures forall c :: IsBest(logits, c) ==> c in kept
  {
    SumPositive(probs, kept);
    forall k | 0 <= k < |kept| && FirstLargest(probs, kept, k) ensures IsBest(logits, kept[k]) {
      FirstIsBest(probs, kept, b, k);
      SameBest(logits, probs, kept[k]);
    }
    forall c | IsBest(logits, c) ensures c in kept {
      SameBest(logits, probs, c);
      OneBest(probs, b, c);
    }
  }

  lemma OneBest(probs: seq<real>, b: nat, c: nat)
    requires IsBest(probs, b) && IsBest(probs, c)
    ensures b == c
  {
    BestBest(probs, b, c);
    BestBest(probs, c, b);
  }

  lemma FirstIsBest(probs: seq<real>, kept: seq<nat>, b: nat, k: nat)
    requires Within(probs, kept) && Tidy(probs, kept) && IsBest(probs, b) && b in kept
    requires k < |kept| && FirstLargest(probs, kept, k)
    ensures kept[k] == b
  {
    var m :| 0 <= m < |kept| && kept[m] == b;
    BestBest(probs, b, kept[k]);
  }

  lemma {:induction false} SumPositive(probs: seq<real>, idx: seq<nat>)
    requires Within(probs, idx) && forall i :: 0 <= i < |probs| ==> probs[i] > 0.0
    ensures Sum(probs, idx) >= 0.0 && (idx != [] ==> Sum(probs, idx) > 0.0)
  {
    if idx != [] {
      SumPositive(probs, idx[..|idx| - 1]);
    }
  }
}
