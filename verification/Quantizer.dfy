/** Quantizing and restoring value groups: nearest codebook level with an early exit, and
    the exact reconstruction error. */
module Quantizer {
  import opened Basics
  import opened Arith
  import opened TurboQuant

  // The codebooks.

  const BOOK_3: seq<real> := [-2.1520, -1.3439, -0.7560, -0.2451, 0.2451, 0.7560, 1.3439, 2.1520]

  const BOOK_4: seq<real> := [
    -2.7326, -2.0690, -1.6181, -1.2562, -0.9424, -0.6568, -0.3881, -0.1284,
    0.1284, 0.3881, 0.6568, 0.9424, 1.2562, 1.6181, 2.0690, 2.7326]

  function Codebook(bits: int): (book: seq<real>)
    requires bits == 3 || bits == 4
    ensures |book| == Pow2(bits)
  {
    assert Pow2(1) == 2 && Pow2(2) == 4 && Pow2(3) == 8;
    if bits == 3 then BOOK_3 else BOOK_4
  }

  ghost predicate Ascending(book: seq<real>) {
    forall i, j :: 0 <= i < j < |book| ==> book[i] < book[j]
  }

  function Abs(x: real): (r: real) { if x < 0.0 then -x else x }

  /** Level `k` is closest to `x`; among equally close ones, the lowest. */
  ghost predicate Closest(book: seq<real>, x: real, k: nat) {
    && k < |book|
    && (forall j :: 0 <= j < |book| ==> Abs(x - book[k]) <= Abs(x - book[j]))
    && (forall j :: 0 <= j < k ==> Abs(x - book[k]) < Abs(x - book[j]))
  }

  /** The search stops as soon as the gap no longer shrinks, and is right to. */
  method NearestLevel(book: seq<real>, x: real) returns (best: nat)
    requires book != [] && Ascending(book)
    ensures Closest(book, x, best)
  {
    best := 0;
    var bestDist := Abs(x - book[0]);
    var i := 1;
    while i < |book|
      invariant 1 <= i <= |book| && best == i - 1 && bestDist == Abs(x - book[best])
      invariant forall j :: 0 <= j < best ==> bestDist < Abs(x - book[j])
    {
      var d := Abs(x - book[i]);
      if d < bestDist {
        best, bestDist := i, d;
        i := i + 1;
        continue;
      }
      assert forall j :: i <= j < |book| ==> book[i] <= book[j];
      break;
    }
  }

  // Group statistics.

  function Squares(xs: seq<real>, mean: real): (s: real)
    ensures s >= 0.0
  {
    if xs == [] then 0.0
    else
      Squares(xs[..|xs| - 1], mean) + Square(xs[|xs| - 1] - mean)
  }

  function Times(a: real, b: real): real { a * b }

  function Square(x: real): (s: real)
    ensures s >= 0.0
  {
    SquareNonNegative(x);
    Times(x, x)
  }

  lemma SquareNonNegative(x: real)
    ensures Times(x, x) >= 0.0
  {
    assert x * x >= 0.0;
  }

  function Mean(xs: seq<real>): real {
    if |xs| == 0 then 0.0 else Add(xs) / |xs| as real
  }

  /** The square root the host library provides. */
  ghost predicate SquareRoot(sqrt: real -> real) {
    forall x :: x >= 0.0 ==> sqrt(x) >= 0.0 && sqrt(x) * sqrt(x) == x
  }

  function Deviation(sqrt: real -> real, xs: seq<real>, mean: real): real {
    if |xs| == 0 then 0.0 else sqrt(Squares(xs, mean) / |xs| as real)
  }

  const MIN_SCALE: real := 0.000000000001

  function Scale(sqrt: real -> real, xs: seq<real>, mean: real): (s: real)
    ensures s >= MIN_SCALE
  {
    var d := Deviation(sqrt, xs, mean);
    if d > MIN_SCALE then d else MIN_SCALE
  }

  function Deviations(xs: seq<real>, mean: real): (ds: seq<real>)
    ensures |ds| == |xs| && forall i :: 0 <= i < |xs| ==> ds[i] == xs[i] - mean
  {
    seq(|xs|, i requires 0 <= i < |xs| => xs[i] - mean)
  }

  /** The deviations from the mean cancel out; nothing has the mean zero. */
  ghost predicate Centred(xs: seq<real>, mean: real) {
    Add(Deviations(xs, mean)) == 0.0 && mean * |xs| as real == Add(xs) && (xs == [] ==> mean == 0.0)
  }

  /** The deviation squared is the mean of the squared deviations. */
  ghost predicate Spread(xs: seq<real>, mean: real, std: real) {
    var ds := Deviations(xs, mean);
    std >= 0.0 && std * std * |xs| as real == Add(seq(|xs|, i requires 0 <= i < |xs| => ds[i] * ds[i]))
  }

  lemma {:induction false} AddDeviations(xs: seq<real>, mean: real)
    ensures Add(Deviations(xs, mean)) == Add(xs) - mean * |xs| as real
  {
    if xs != [] {
      var init := xs[..|xs| - 1];
      AddDeviations(init, mean);
      assert Deviations(xs, mean)[..|init|] == Deviations(init, mean);
    }
  }

  lemma MeanCentres(xs: seq<real>)
    ensures Centred(xs, Mean(xs))
  {
    AddDeviations(xs, Mean(xs));
  }

  lemma {:induction false} AddSquares(xs: seq<real>, mean: real, squares: seq<real>)
    requires |squares| == |xs| && forall i :: 0 <= i < |xs| ==> squares[i] == (xs[i] - mean) * (xs[i] - mean)
    ensures Add(squares) == Squares(xs, mean)
  {
    if xs != [] {
      AddSquares(xs[..|xs| - 1], mean, squares[..|xs| - 1]);
    }
  }

  lemma DeviationSpreads(sqrt: real -> real, xs: seq<real>, mean: real)
    requires SquareRoot(sqrt)
    ensures Spread(xs, mean, Deviation(sqrt, xs, mean))
  {
    hide Squares;
    var ds := Deviations(xs, mean);
    AddSquares(xs, mean, seq(|xs|, i requires 0 <= i < |xs| => ds[i] * ds[i]));
    if xs != [] {
      var n, v := |xs| as real, Squares(xs, mean) / |xs| as real;
      RootOfMean(sqrt, Squares(xs, mean), n, v);
    } else {
      assert Squares(xs, mean) == 0.0;
    }
  }

  lemma RootOfMean(sqrt: real -> real, s: real, n: real, v: real)
    requires SquareRoot(sqrt) && s >= 0.0 && n > 0.0 && v == s / n
    ensures sqrt(v) >= 0.0 && sqrt(v) * sqrt(v) * n == s
  {
    assert v * n == s;
    assert v >= 0.0;
  }

  method MeanOf(g: seq<real>) returns (mean: real)
    ensures mean == Mean(g) && Centred(g, mean)
  {
    MeanCentres(g);
    if |g| == 0 {
      return 0.0;
    }
    var s := 0.0;
    for i := 0 to |g|
      invariant s == Add(g[..i])
    {
      assert g[..i + 1][..i] == g[..i];
      s := s + g[i];
    }
    assert g[..|g|] == g;
    mean := s / |g| as real;
  }

  method StdOf(sqrt: real -> real, g: seq<real>, mean: real) returns (std: real)
    ensures std == Deviation(sqrt, g, mean)
    ensures SquareRoot(sqrt) ==> Spread(g, mean, std)
  {
    hide Spread;
    hide SquareRoot;
    if SquareRoot(sqrt) {
      DeviationSpreads(sqrt, g, mean);
    }
    if |g| == 0 {
      return 0.0;
    }
    var s := 0.0;
    for i := 0 to |g|
      invariant s == Squares(g[..i], mean)
    {
      assert g[..i + 1][..i] == g[..i];
      var d := g[i] - mean;
      s := s + Square(d);
    }
    assert g[..|g|] == g;
    std := sqrt(s / |g| as real);
  }

  lemma {:induction false} OneSquare(xs: seq<real>, mean: real, i: nat)
    requires i < |xs|
    ensures Square(xs[i] - mean) <= Squares(xs, mean)
  {
    hide Square;
    if i < |xs| - 1 {
      OneSquare(xs[..|xs| - 1], mean, i);
    }
  }

  // Real arithmetic in small steps.

  lemma TimesGrows(a: real, b: real, s: real)
    requires s > 0.0
    ensures a > b ==> Times(a, s) > Times(b, s)
    ensures a >= b ==> Times(a, s) >= Times(b, s)
    ensures Times(a, s) <= Times(b, s) ==> a <= b
    ensures Times(s, a) == Times(a, s)
  {
    if a > b {
      assert (a - b) * s > 0.0;
    }
  }

  lemma TimesZero(s: real)
    ensures Times(0.0, s) == Times(s, 0.0) == 0.0
  {
  }

  lemma TimesFour(q: real, s: real)
    ensures Times(Times(q, s), Times(q, s)) == Times(Times(q, q), Times(s, s))
  {
    assert q * s * (q * s) == q * q * (s * s);
  }

  lemma QuotientTimes(a: real, d: real)
    requires d > 0.0
    ensures Times(a / d, d) == a
  {
  }

  lemma SquareMonotone(a: real, b: real)
    requires 0.0 <= a <= b
    ensures Square(a) <= Square(b)
  {
    hide Times;
    TimesZero(a);
    if a > 0.0 {
      TimesGrows(b, a, a);
      TimesGrows(b, a, b);
      TimesGrows(a, a, b);
    }
  }

  lemma SquareOfProduct(q: real, s: real)
    ensures Square(Times(q, s)) == Times(Square(q), Square(s))
  {
    hide Times;
    TimesFour(q, s);
  }

  lemma SquarePositive(s: real)
    requires s > 0.0
    ensures Square(s) > 0.0
  {
    hide Times;
    TimesGrows(s, 0.0, s);
    TimesZero(s);
  }

  /** If a square is at most `n` squared scales, the scaled value's square is at most `n`. */
  lemma ScaledSquare(d: real, scale: real, n: real)
    requires scale > 0.0 && Square(d) <= Times(n, Square(scale))
    ensures Square(d / scale) <= n
  {
    hide Square;
    hide Times;
    var q := d / scale;
    QuotientTimes(d, scale);
    SquareOfProduct(q, scale);
    SquarePositive(scale);
    TimesGrows(Square(q), n, Square(scale));
  }

  /** The scale's square, times the length, is at least the sum of the squares. */
  lemma ScaleCovers(sqrt: real -> real, xs: seq<real>, mean: real)
    requires SquareRoot(sqrt) && xs != []
    ensures Squares(xs, mean) <= Times(|xs| as real, Square(Scale(sqrt, xs, mean)))
  {
    hide Squares;
    hide Times;
    hide Square;
    var n, s := |xs| as real, Squares(xs, mean);
    var v := s / n;
    QuotientTimes(s, n);
    TimesGrows(v, 0.0, n);
    TimesGrows(0.0, v, n);
    TimesZero(n);
    Rooted(sqrt, v);
    SquareMonotone(sqrt(v), Scale(sqrt, xs, mean));
    TimesGrows(Square(Scale(sqrt, xs, mean)), v, n);
  }

  lemma Rooted(sqrt: real -> real, v: real)
    requires SquareRoot(sqrt) && v >= 0.0
    ensures sqrt(v) >= 0.0 && Square(sqrt(v)) == v
  {
  }

  function Normalized(sqrt: real -> real, xs: seq<real>, i: nat): real
    requires i < |xs|
  {
    (xs[i] - Mean(xs)) / Scale(sqrt, xs, Mean(xs))
  }

  /** Every normalized value squared is at most the length of its group. */
  lemma NormalizedBound(sqrt: real -> real, xs: seq<real>, i: nat)
    requires SquareRoot(sqrt) && i < |xs|
    ensures Square(Normalized(sqrt, xs, i)) <= |xs| as real
  {
    hide Square;
    hide Squares;
    hide Mean;
    var mean := Mean(xs);
    OneSquare(xs, mean, i);
    ScaleCovers(sqrt, xs, mean);
    ScaledSquare(xs[i] - mean, Scale(sqrt, xs, mean), |xs| as real);
  }

  // Quantizing.

  datatype QuantConfig = QuantConfig(bits: int, groupSize: int)

  datatype QuantizedV = QuantizedV(
    bits: int,
    groupSize: int,
    n: nat,
    means: seq<real>,
    scales: seq<real>,
    codes: seq<Byte>)

  predicate ValidConfig(c: QuantConfig) {
    (c.bits == 3 || c.bits == 4) && c.groupSize > 0
  }

  function Groups(n: nat, size: nat): nat
    requires size > 0
  {
    (n + size - 1) / size
  }

  lemma GroupStarts(n: nat, size: nat, g: nat)
    requires size > 0 && g < Groups(n, size)
    ensures 0 <= g * size < n
  {
    MulNonNeg(g, size);
    var q := Groups(n, size);
    DivMod(n + size - 1, size);
    MulNext(g, size);
    WithinTotal(q, size, g);
  }

  lemma PlaceIn(n: nat, size: nat, pos: nat)
    requires size > 0 && pos < n
    ensures pos / size < Groups(n, size) && 0 <= pos / size * size <= pos < pos / size * size + size
    ensures pos == pos / size * size + pos % size
  {
    DivMod(pos, size);
    var q, g := Groups(n, size), pos / size;
    MulNonNeg(g, size);
    DivMod(n + size - 1, size);
    MulNext(q, size);
    MulCancel(g, q, size);
  }

  /** The values of group `g`; the last group may be short. */
  function GroupOf(values: seq<real>, size: nat, g: nat): seq<real>
    requires size > 0 && g < Groups(|values|, size)
  {
    GroupStarts(|values|, size, g);
    values[g * size..if g * size + size < |values| then g * size + size else |values|]
  }

  /** The group value `pos` falls in, and its place there. */
  function GroupIndex(pos: nat, size: nat): nat
    requires size > 0
  {
    pos / size
  }

  function InGroup(pos: nat, size: nat): nat
    requires size > 0
  {
    pos % size
  }

  lemma GroupHolds(values: seq<real>, size: nat, pos: nat)
    requires size > 0 && pos < |values|
    ensures GroupIndex(pos, size) < Groups(|values|, size)
    ensures var group, i := GroupOf(values, size, GroupIndex(pos, size)), InGroup(pos, size);
      i < |group| <= size && group[i] == values[pos]
  {
    PlaceIn(|values|, size, pos);
  }

  lemma SizeHolds(values: seq<real>, size: nat, pos: nat)
    requires size > 0 && pos < |values|
    ensures GroupIndex(pos, size) < Groups(|values|, size)
    ensures InGroup(pos, size) < |GroupOf(values, size, GroupIndex(pos, size))|
  {
    GroupHolds(values, size, pos);
  }

  /** What value `pos` is normalized to within its group. */
  function NormAt(sqrt: real -> real, values: seq<real>, size: nat, pos: nat): real
    requires size > 0 && pos < |values|
  {
    SizeHolds(values, size, pos);
    Normalized(sqrt, GroupOf(values, size, GroupIndex(pos, size)), InGroup(pos, size))
  }

  /** Each value's index is its closest level; padding gets a central level. */
  ghost predicate RightIndex(sqrt: real -> real, values: seq<real>, c: QuantConfig, pos: nat, k: nat)
    requires ValidConfig(c)
  {
    if pos < |values| then Closest(Codebook(c.bits), NormAt(sqrt, values, c.groupSize, pos), k)
    else k == |Codebook(c.bits)| / 2
  }

  ghost predicate RightStats(sqrt: real -> real, values: seq<real>, size: nat, g: nat, mean: real, scale: real)
    requires size > 0 && g < Groups(|values|, size)
  {
    mean == Mean(GroupOf(values, size, g)) && scale == Scale(sqrt, GroupOf(values, size, g), mean)
  }

  ghost predicate QuantizedTo(sqrt: real -> real, values: seq<real>, c: QuantConfig, q: QuantizedV, indices: seq<nat>)
    requires ValidConfig(c)
  {
    var groups := Groups(|values|, c.groupSize);
    && q.bits == c.bits && q.groupSize == c.groupSize && q.n == |values|
    && |q.means| == |q.scales| == groups && |indices| == groups * c.groupSize
    && (forall g :: 0 <= g < groups ==> RightStats(sqrt, values, c.groupSize, g, q.means[g], q.scales[g]))
    && (forall pos :: 0 <= pos < |indices| ==> RightIndex(sqrt, values, c, pos, indices[pos]))
    && Packed(q.codes, indices, c.bits)
  }

  lemma BooksAscend(bits: int)
    requires bits == 3 || bits == 4
    ensures Ascending(Codebook(bits)) && Codebook(bits) != []
  {
    var book := Codebook(bits);
    forall i | 0 <= i < |book| - 1 ensures book[i] < book[i + 1] {
    }
    StepsAscend(book);
  }

  lemma StepsAscend(book: seq<real>)
    requires forall i :: 0 <= i < |book| - 1 ==> book[i] < book[i + 1]
    ensures Ascending(book)
  {
    forall i, j | 0 <= i < j < |book| ensures book[i] < book[j] {
      StepsUp(book, i, j);
    }
  }

  lemma {:induction false} StepsUp(book: seq<real>, i: nat, j: nat)
    requires i < j < |book| && forall k :: 0 <= k < |book| - 1 ==> book[k] < book[k + 1]
    ensures book[i] < book[j]
  {
    if i < j - 1 {
      StepsUp(book, i, j - 1);
    }
    assert book[j - 1] < book[j - 1 + 1];
  }

  method QuantizeGroup(sqrt: real -> real, values: seq<real>, c: QuantConfig, g: nat, book: seq<real>, mean: real,
                       scale: real)
    returns (indices: seq<nat>)
    requires ValidConfig(c) && book == Codebook(c.bits) && g < Groups(|values|, c.groupSize)
    requires RightStats(sqrt, values, c.groupSize, g, mean, scale)
    ensures |indices| == c.groupSize
    ensures forall i: nat :: i < c.groupSize ==> RightIndex(sqrt, values, c, g * c.groupSize + i, indices[i])
  {
    hide RightIndex;
    hide Closest;
    var size := c.groupSize;
    GroupStarts(|values|, size, g);
    BooksAscend(c.bits);
    var lo := g * size;
    var hi := if lo + size < |values| then lo + size else |values|;
    indices := [];
    for i := 0 to size
      invariant |indices| == i
      invariant forall j: nat :: j < i ==> RightIndex(sqrt, values, c, lo + j, indices[j])
    {
      if lo + i >= hi {
        PaddingIndex(sqrt, values, c, lo + i);
        indices := indices + [|book| / 2];
        continue;
      }
      var norm := (values[lo + i] - mean) / scale;
      var k := NearestLevel(book, norm);
      ValueIndex(sqrt, values, c, g, i, mean, scale, k);
      indices := indices + [k];
    }
  }

  lemma PaddingIndex(sqrt: real -> real, values: seq<real>, c: QuantConfig, pos: nat)
    requires ValidConfig(c) && pos >= |values|
    ensures RightIndex(sqrt, values, c, pos, |Codebook(c.bits)| / 2)
  {
  }

  lemma ValueIndex(sqrt: real -> real, values: seq<real>, c: QuantConfig, g: nat, i: nat, mean: real, scale: real,
                   k: nat)
    requires ValidConfig(c) && g < Groups(|values|, c.groupSize) && i < c.groupSize
    requires 0 <= g * c.groupSize && g * c.groupSize + i < |values|
    requires RightStats(sqrt, values, c.groupSize, g, mean, scale)
    requires Closest(Codebook(c.bits), (values[g * c.groupSize + i] - mean) / scale, k)
    ensures RightIndex(sqrt, values, c, g * c.groupSize + i, k)
  {
    hide Closest;
    hide Mean;
    hide Scale;
    var size, pos := c.groupSize, g * c.groupSize + i;
    QuotientIs(size, pos, g);
    DivMod(pos, size);
    GroupHolds(values, size, pos);
  }

  /** As few groups of this size as hold all the values. */
  ghost predicate Covering(n: nat, size: int, groups: nat) {
    n <= groups * size && (groups > 0 ==> (groups - 1) * size < n)
  }

  /** Group `g` has the mean of its values, and the deviation from it as its scale, or 1e-12 if that is larger. */
  ghost predicate Standardized(values: seq<real>, size: int, g: nat, mean: real, scale: real) {
    && 0 < size && 0 <= g * size < |values|
    && var xs := values[g * size..if g * size + size < |values| then g * size + size else |values|];
       Centred(xs, mean) && ScaledBy(xs, mean, scale)
  }

  ghost predicate ScaledBy(xs: seq<real>, mean: real, scale: real) {
    exists std :: Spread(xs, mean, std) && scale == if std > 1e-12 then std else 1e-12
  }

  /** Value `pos` is coded by the level closest to what its own group's mean and scale make of it. */
  ghost predicate Coded(values: seq<real>, q: QuantizedV, pos: nat, k: nat)
    requires pos < |values|
  {
    && (q.bits == 3 || q.bits == 4) && q.groupSize > 0 && pos / q.groupSize < |q.means| == |q.scales|
    && q.scales[pos / q.groupSize] > 0.0
    && Closest(if q.bits == 3 then BOOK_3 else BOOK_4,
               (values[pos] - q.means[pos / q.groupSize]) / q.scales[pos / q.groupSize], k)
  }

  /** What is produced, in terms of the values. */
  ghost predicate Compressed(values: seq<real>, q: QuantizedV, indices: seq<nat>) {
    && q.n == |values| && |q.means| == |q.scales| && Covering(|values|, q.groupSize, |q.means|)
    && (forall g :: 0 <= g < |q.means| ==> Standardized(values, q.groupSize, g, q.means[g], q.scales[g]))
    && |indices| >= |values| && (forall pos :: 0 <= pos < |values| ==> Coded(values, q, pos, indices[pos]))
  }

  lemma QuantizedCompresses(sqrt: real -> real, values: seq<real>, c: QuantConfig, q: QuantizedV, indices: seq<nat>)
    requires SquareRoot(sqrt) && ValidConfig(c) && QuantizedTo(sqrt, values, c, q, indices)
    ensures Compressed(values, q, indices)
  {
    hide RightIndex;
    hide RightStats;
    hide Packed;
    hide Standardized;
    hide Coded;
    hide SquareRoot;
    GroupsCover(|values|, c.groupSize);
    forall g | 0 <= g < |q.means| ensures Standardized(values, q.groupSize, g, q.means[g], q.scales[g]) {
      StatsStandard(sqrt, values, c.groupSize, g, q.means[g], q.scales[g]);
    }
    forall pos | 0 <= pos < |values| ensures pos < |indices| && Coded(values, q, pos, indices[pos]) {
      PlaceIn(|values|, c.groupSize, pos);
      MulNext(pos / c.groupSize, c.groupSize);
      IndexCodes(sqrt, values, c, q, pos, indices[pos]);
    }
  }

  lemma GroupsCover(n: nat, size: nat)
    requires size > 0
    ensures Covering(n, size, Groups(n, size)) && n <= Groups(n, size) * size
  {
    DivMod(n + size - 1, size);
    MulNext(Groups(n, size), size);
  }

  lemma StatsStandard(sqrt: real -> real, values: seq<real>, size: nat, g: nat, mean: real, scale: real)
    requires SquareRoot(sqrt) && size > 0 && g < Groups(|values|, size)
    requires RightStats(sqrt, values, size, g, mean, scale)
    ensures Standardized(values, size, g, mean, scale)
  {
    hide Centred;
    hide Spread;
    hide Mean;
    hide Deviation;
    hide SquareRoot;
    GroupStarts(|values|, size, g);
    MeanCentres(GroupOf(values, size, g));
    DeviationSpreads(sqrt, GroupOf(values, size, g), mean);
    var std := Deviation(sqrt, GroupOf(values, size, g), mean);
    assert ScaledBy(GroupOf(values, size, g), mean, scale);
  }

  lemma IndexCodes(sqrt: real -> real, values: seq<real>, c: QuantConfig, q: QuantizedV, pos: nat, k: nat)
    requires ValidConfig(c) && pos < |values| && RightIndex(sqrt, values, c, pos, k)
    requires q.bits == c.bits && q.groupSize == c.groupSize && |q.means| == |q.scales| == Groups(|values|, c.groupSize)
    requires forall g :: 0 <= g < |q.means| ==> RightStats(sqrt, values, c.groupSize, g, q.means[g], q.scales[g])
    ensures Coded(values, q, pos, k)
  {
    hide Closest;
    hide Mean;
    hide Scale;
    hide GroupOf;
    GroupHolds(values, c.groupSize, pos);
    assert RightStats(sqrt, values, c.groupSize, pos / c.groupSize, q.means[pos / c.groupSize],
                      q.scales[pos / c.groupSize]);
  }

  /** Compresses; only a bad configuration is refused. */
  method Quantize(sqrt: real -> real, values: seq<real>, c: QuantConfig) returns (r: Option<QuantizedV>,
                  ghost indices: seq<nat>)
    ensures r.Some? <==> ValidConfig(c)
    ensures r.Some? ==> QuantizedTo(sqrt, values, c, r.value, indices)
    ensures r.Some? && SquareRoot(sqrt) ==> Compressed(values, r.value, indices)
  {
    hide Compressed;
    hide SquareRoot;
    hide Centred;
    hide Spread;
    hide RightIndex;
    hide RightStats;
    hide Packed;
    hide Mean;
    hide Scale;
    if !ValidConfig(c) {
      return None, [];
    }
    var book := Codebook(c.bits);
    var size: nat, n := c.groupSize, |values|;
    var groups := Groups(n, size);
    var means, scales, all := [], [], [];
    for g := 0 to groups
      invariant |means| == |scales| == g && |all| == g * size
      invariant forall h :: 0 <= h < g ==> RightStats(sqrt, values, size, h, means[h], scales[h])
      invariant forall pos :: 0 <= pos < |all| ==> RightIndex(sqrt, values, c, pos, all[pos])
    {
      var mean := MeanOf(GroupOf(values, size, g));
      var std := StdOf(sqrt, GroupOf(values, size, g), mean);
      var scale := if std > MIN_SCALE then std else MIN_SCALE;
      StatsRight(sqrt, values, size, g, mean, std, scale);
      means, scales := means + [mean], scales + [scale];
      var group := QuantizeGroup(sqrt, values, c, g, book, mean, scale);
      MulNext(g, size);
      var more := all + group;
      forall pos | |all| <= pos < |more| ensures RightIndex(sqrt, values, c, pos, more[pos]) {
        assert pos == g * size + (pos - |all|);
      }
      all := more;
    }
    var codes := PackBits(all, c.bits);
    indices := all;
    r := Some(QuantizedV(c.bits, size, n, means, scales, codes));
    if SquareRoot(sqrt) {
      QuantizedCompresses(sqrt, values, c, r.value, indices);
    }
  }

  lemma StatsRight(sqrt: real -> real, values: seq<real>, size: nat, g: nat, mean: real, std: real, scale: real)
    requires size > 0 && g < Groups(|values|, size)
    requires mean == Mean(GroupOf(values, size, g)) && std == Deviation(sqrt, GroupOf(values, size, g), mean)
    requires scale == if std > MIN_SCALE then std else MIN_SCALE
    ensures RightStats(sqrt, values, size, g, mean, scale)
  {
  }

  // Restoring.

  ghost function Level(q: QuantizedV, k: nat, g: nat): real
    requires (q.bits == 3 || q.bits == 4) && k < |Codebook(q.bits)| && g < |q.means| == |q.scales|
  {
    Codebook(q.bits)[k] * q.scales[g] + q.means[g]
  }

  lemma LevelIs(q: QuantizedV, k: nat, g: nat)
    requires (q.bits == 3 || q.bits == 4) && k < |Codebook(q.bits)| && g < |q.means| == |q.scales|
    ensures Level(q, k, g) == Times(Codebook(q.bits)[k], q.scales[g]) + q.means[g]
  {
  }

  /** The parts of a compressed tensor fit together: a scale for every mean, and codes for every group. */
  ghost predicate WellFormed(q: QuantizedV) {
    && q.groupSize > 0 && |q.means| == |q.scales|
    && ((q.bits == 3 || q.bits == 4) ==> |q.means| * q.groupSize * q.bits <= 8 * |q.codes|)
  }

  /** Value `pos` is the level its code names, scaled and shifted by its group. */
  ghost predicate RestoredAt(q: QuantizedV, indices: seq<nat>, pos: nat, x: real)
    requires q.bits == 3 || q.bits == 4
  {
    && q.groupSize > 0 && pos < |indices| && indices[pos] < Pow2(q.bits)
    && GroupIndex(pos, q.groupSize) < |q.means| == |q.scales|
    && x == Level(q, indices[pos], GroupIndex(pos, q.groupSize))
  }

  ghost predicate DequantizedTo(q: QuantizedV, indices: seq<nat>, out: seq<real>)
    requires q.bits == 3 || q.bits == 4
  {
    && |indices| == |q.means| * q.groupSize && Unpacked(q.codes, q.bits, indices)
    && |out| == q.n
    && (forall pos :: 0 <= pos < q.n && pos < |indices| ==> RestoredAt(q, indices, pos, out[pos]))
    && (forall pos :: |indices| <= pos < q.n ==> out[pos] == 0.0)
  }

  /** Restores exactly as many values as were compressed, zeros past the last group; an unknown width is refused. */
  method Dequantize(q: QuantizedV) returns (r: Option<seq<real>>, ghost indices: seq<nat>)
    requires WellFormed(q)
    ensures r.Some? <==> q.bits == 3 || q.bits == 4
    ensures r.Some? ==> DequantizedTo(q, indices, r.value)
  {
    hide RestoredAt;
    hide Unpacked;
    hide Times;
    indices := [];
    if q.bits != 3 && q.bits != 4 {
      return None, [];
    }
    var book := Codebook(q.bits);
    var groups, size: nat := |q.means|, q.groupSize;
    MulNonNeg(groups, size);
    var levels := UnpackBits(q.codes, q.bits, groups * size);
    var out := new real[q.n](_ => 0.0);
    for g := 0 to groups
      invariant 0 <= g * size
      invariant forall pos :: 0 <= pos < g * size && pos < q.n ==> RestoredAt(q, levels, pos, out[pos])
      invariant forall pos :: g * size <= pos < q.n ==> out[pos] == 0.0
    {
      WithinTotal(groups, size, g);
      MulNext(g, size);
      var i := 0;
      while i < size
        invariant i <= size
        invariant forall pos :: 0 <= pos < g * size + i && pos < q.n ==> RestoredAt(q, levels, pos, out[pos])
        invariant forall pos :: g * size + i <= pos < q.n ==> out[pos] == 0.0
      {
        var pos := g * size + i;
        if pos >= q.n {
          break;
        }
        LevelKnown(q, levels, pos);
        QuotientIs(size, pos, g);
        out[pos] := Times(book[levels[pos]], q.scales[g]) + q.means[g];
        Restores(q, levels, pos, g, out[pos]);
        i := i + 1;
      }
    }
    indices := levels;
    r := Some(out[..]);
  }

  lemma LevelKnown(q: QuantizedV, levels: seq<nat>, pos: nat)
    requires (q.bits == 3 || q.bits == 4) && Unpacked(q.codes, q.bits, levels) && pos < |levels|
    ensures levels[pos] < Pow2(q.bits) == |Codebook(q.bits)|
  {
    hide Bit;
    hide BitAt;
    assert ReadAt(q.codes, q.bits, pos, levels[pos]);
  }

  lemma Restores(q: QuantizedV, levels: seq<nat>, pos: nat, g: nat, x: real)
    requires (q.bits == 3 || q.bits == 4) && q.groupSize > 0 && pos < |levels| && levels[pos] < Pow2(q.bits)
    requires g == GroupIndex(pos, q.groupSize) < |q.means| == |q.scales|
    requires x == Times(Codebook(q.bits)[levels[pos]], q.scales[g]) + q.means[g]
    ensures RestoredAt(q, levels, pos, x)
  {
  }

  // What a round trip gives back.

  lemma TimesMinus(a: real, b: real, s: real)
    ensures Times(a, s) - Times(b, s) == Times(a - b, s)
    ensures s > 0.0 ==> Abs(Times(a, s)) == Times(Abs(a), s)
  {
    if s > 0.0 {
      TimesGrows(a, 0.0, s);
      TimesGrows(0.0, a, s);
      TimesZero(s);
    }
  }

  /** What quantizing produces is well formed. */
  lemma QuantizedFits(sqrt: real -> real, values: seq<real>, c: QuantConfig, q: QuantizedV, indices: seq<nat>)
    requires ValidConfig(c) && QuantizedTo(sqrt, values, c, q, indices)
    ensures WellFormed(q)
  {
    hide RightIndex;
    hide RightStats;
    hide BitAt;
    DivMod(|values| + c.groupSize - 1, c.groupSize);
  }

  /** The codes come back as they were written. */
  lemma CodesSurvive(sqrt: real -> real, values: seq<real>, c: QuantConfig, q: QuantizedV, indices: seq<nat>,
                     back: seq<nat>,
                     out: seq<real>)
    requires ValidConfig(c) && QuantizedTo(sqrt, values, c, q, indices) && DequantizedTo(q, back, out)
    ensures back == indices && |out| == |values|
  {
    hide RightStats;
    hide RestoredAt;
    hide Unpacked;
    hide Packed;
    hide Closest;
    BooksAscend(c.bits);
    forall i | 0 <= i < |indices| ensures indices[i] < Pow2(q.bits) {
      assert RightIndex(sqrt, values, c, i, indices[i]);
      IndexInBook(sqrt, values, c, i, indices[i]);
    }
    UnpackInvertsPack(q.codes, indices, q.bits, back);
  }

  lemma IndexInBook(sqrt: real -> real, values: seq<real>, c: QuantConfig, pos: nat, k: nat)
    requires ValidConfig(c) && RightIndex(sqrt, values, c, pos, k)
    ensures k < |Codebook(c.bits)|
  {
    BooksAscend(c.bits);
  }

  /** An error of exactly the scale times the distance to the closest level. */
  ghost predicate OffBy(book: seq<real>, norm: real, scale: real, error: real) {
    exists k: nat :: k < |book| && Closest(book, norm, k) && error == Times(Abs(norm - book[k]), scale)
  }

  ghost predicate OffByDistance(sqrt: real -> real, values: seq<real>, c: QuantConfig, scales: seq<real>,
                                out: seq<real>, pos: nat)
    requires ValidConfig(c)
  {
    && pos < |values| && pos < |out| && GroupIndex(pos, c.groupSize) < |scales|
    && var norm, scale := NormAt(sqrt, values, c.groupSize, pos), scales[GroupIndex(pos, c.groupSize)];
       OffBy(Codebook(c.bits), norm, scale, Abs(out[pos] - values[pos]))
  }

  /** Each value comes back off by exactly its group's scale times the distance from its
      normalized value to the closest level of the book. */
  lemma ReconstructionError(sqrt: real -> real, values: seq<real>, c: QuantConfig, q: QuantizedV, indices: seq<nat>,
                            back: seq<nat>, out: seq<real>, pos: nat)
    requires ValidConfig(c) && QuantizedTo(sqrt, values, c, q, indices) && DequantizedTo(q, back, out) && pos < |values|
    ensures |out| == |values| && OffByDistance(sqrt, values, c, q.scales, out, pos)
  {
    hide *;
    CodesSurvive(sqrt, values, c, q, indices, back, out);
    PartsAt(sqrt, values, c, q, indices, back, out, pos);
    var size, g, k := c.groupSize, GroupIndex(pos, c.groupSize), indices[pos];
    var group := GroupOf(values, size, g);
    RestoreError(values[pos], q.means[g], q.scales[g], Codebook(c.bits)[k], out[pos]);
    OffByIs(sqrt, values, c, q.scales, out, pos, k);
  }

  /** What quantizing and restoring say about one value. */
  lemma PartsAt(sqrt: real -> real, values: seq<real>, c: QuantConfig, q: QuantizedV, indices: seq<nat>,
                back: seq<nat>, out: seq<real>, pos: nat)
    requires ValidConfig(c) && QuantizedTo(sqrt, values, c, q, indices) && DequantizedTo(q, back, out) && pos < |values|
    requires back == indices && |out| == |values|
    ensures c.groupSize > 0 && (c.bits == 3 || c.bits == 4)
    ensures var g := GroupIndex(pos, c.groupSize);
      && g < Groups(|values|, c.groupSize) && g < |q.means| == |q.scales| && pos < |indices|
      && indices[pos] < |Codebook(c.bits)|
      && q.scales[g] > 0.0
      && NormAt(sqrt, values, c.groupSize, pos) == (values[pos] - q.means[g]) / q.scales[g]
      && Closest(Codebook(c.bits), NormAt(sqrt, values, c.groupSize, pos), indices[pos])
      && out[pos] == Times(Codebook(c.bits)[indices[pos]], q.scales[g]) + q.means[g]
  {
    hide Closest;
    hide Packed;
    hide Unpacked;
    hide Mean;
    hide Scale;
    hide Times;
    hide GroupIndex;
    hide InGroup;
    hide GroupOf;
    GroupHolds(values, c.groupSize, pos);
    assert RestoredAt(q, back, pos, out[pos]);
    LevelIs(q, back[pos], GroupIndex(pos, c.groupSize));
    assert RightIndex(sqrt, values, c, pos, indices[pos]);
    var g := GroupIndex(pos, c.groupSize);
    assert RightStats(sqrt, values, c.groupSize, g, q.means[g], q.scales[g]);
  }

  lemma RestoreError(v: real, mean: real, scale: real, level: real, x: real)
    requires scale > 0.0 && x == Times(level, scale) + mean
    ensures Abs(x - v) == Times(Abs((v - mean) / scale - level), scale)
  {
    hide Times;
    var norm := (v - mean) / scale;
    QuotientTimes(v - mean, scale);
    assert x - v == Times(level, scale) - Times(norm, scale);
    TimesMinus(level, norm, scale);
    TimesMinus(level - norm, 0.0, scale);
    assert Abs(level - norm) == Abs(norm - level);
  }

  lemma OffByIs(sqrt: real -> real, values: seq<real>, c: QuantConfig, scales: seq<real>, out: seq<real>, pos: nat,
                k: nat)
    requires ValidConfig(c) && pos < |values| && pos < |out|
    requires GroupIndex(pos, c.groupSize) < |scales| && k < |Codebook(c.bits)|
    requires Closest(Codebook(c.bits), NormAt(sqrt, values, c.groupSize, pos), k)
    requires Abs(out[pos] - values[pos])
          == Times(Abs(NormAt(sqrt, values, c.groupSize, pos) - Codebook(c.bits)[k]),
                   scales[GroupIndex(pos, c.groupSize)])
    ensures OffByDistance(sqrt, values, c, scales, out, pos)
  {
    hide Closest;
    hide Times;
    hide NormAt;
    hide GroupIndex;
  }

  lemma SmallAgainst(norm: real, e: real, n: real)
    requires 0.0 < e < 1.0 <= n && norm >= 0.0 && Square(norm) <= n
    ensures Square(Abs(norm - e)) <= n
  {
    hide Square;
    if norm >= e {
      SquareMonotone(norm - e, norm);
    } else {
      SquareMonotone(e - norm, 1.0);
      SquareOne();
    }
  }

  lemma SquareOne()
    ensures Square(1.0) == 1.0 && forall x :: Square(-x) == Square(x)
  {
  }

  /** The closest level is never further from a normalized value than the root of its group's length. */
  lemma DistanceBound(bits: int, norm: real, n: real, k: nat)
    requires (bits == 3 || bits == 4) && n >= 1.0 && Square(norm) <= n && Closest(Codebook(bits), norm, k)
    ensures Square(Abs(norm - Codebook(bits)[k])) <= n
  {
    hide Square;
    var book := Codebook(bits);
    SquareOne();
    var j := if norm >= 0.0 then |book| / 2 else |book| / 2 - 1;
    assert Abs(norm - book[k]) <= Abs(norm - book[j]);
    if norm >= 0.0 {
      SmallAgainst(norm, book[j], n);
    } else {
      assert Square(-norm) == Square(norm);
      SmallAgainst(-norm, -book[j], n);
      assert Abs(-norm - -book[j]) == Abs(norm - book[j]);
    }
    SquareMonotone(Abs(norm - book[k]), Abs(norm - book[j]));
  }

  function GroupLength(values: seq<real>, size: nat, pos: nat): (n: nat)
    requires size > 0 && pos < |values|
  {
    SizeHolds(values, size, pos);
    |GroupOf(values, size, GroupIndex(pos, size))|
  }

  ghost predicate ErrorWithin(c: QuantConfig, scales: seq<real>, values: seq<real>, out: seq<real>, pos: nat)
    requires ValidConfig(c)
  {
    && pos < |values| && pos < |out| && GroupIndex(pos, c.groupSize) < |scales|
    && Square(Abs(out[pos] - values[pos]))
       <= Times(GroupLength(values, c.groupSize, pos) as real, Square(scales[GroupIndex(pos, c.groupSize)]))
  }

  /** The squared error of every value is at most its group's length times its squared scale. */
  lemma ErrorBound(sqrt: real -> real, values: seq<real>, c: QuantConfig, q: QuantizedV, indices: seq<nat>,
                   back: seq<nat>, out: seq<real>, pos: nat)
    requires SquareRoot(sqrt)
    requires ValidConfig(c) && QuantizedTo(sqrt, values, c, q, indices) && DequantizedTo(q, back, out) && pos < |values|
    ensures |out| == |values| && ErrorWithin(c, q.scales, values, out, pos)
  {
    hide *;
    ReconstructionError(sqrt, values, c, q, indices, back, out, pos);
    ErrorParts(sqrt, values, c, q, indices, out, pos);
    var size, g := c.groupSize, GroupIndex(pos, c.groupSize);
    var n := GroupLength(values, size, pos) as real;
    OffByBound(c.bits, NormAt(sqrt, values, size, pos), n, q.scales[g], Abs(out[pos] - values[pos]));
    Within(c, q.scales, values, out, pos);
  }

  lemma Within(c: QuantConfig, scales: seq<real>, values: seq<real>, out: seq<real>, pos: nat)
    requires ValidConfig(c) && pos < |values| && pos < |out| && GroupIndex(pos, c.groupSize) < |scales|
    requires Square(Abs(out[pos] - values[pos]))
          <= Times(GroupLength(values, c.groupSize, pos) as real, Square(scales[GroupIndex(pos, c.groupSize)]))
    ensures ErrorWithin(c, scales, values, out, pos)
  {
  }

  lemma ErrorParts(sqrt: real -> real, values: seq<real>, c: QuantConfig, q: QuantizedV, indices: seq<nat>,
                   out: seq<real>, pos: nat)
    requires SquareRoot(sqrt) && ValidConfig(c) && QuantizedTo(sqrt, values, c, q, indices)
    requires OffByDistance(sqrt, values, c, q.scales, out, pos)
    ensures c.groupSize > 0 && pos < |values| && pos < |out| && (c.bits == 3 || c.bits == 4)
    ensures var size, g := c.groupSize, GroupIndex(pos, c.groupSize);
      && g < |q.scales| && q.scales[g] > 0.0
      && GroupLength(values, size, pos) as real >= 1.0
      && Square(NormAt(sqrt, values, size, pos)) <= GroupLength(values, size, pos) as real
      && OffBy(Codebook(c.bits), NormAt(sqrt, values, size, pos), q.scales[g], Abs(out[pos] - values[pos]))
  {
    hide Square;
    hide OffBy;
    hide QuantizedTo;
    hide Normalized;
    hide GroupIndex;
    hide InGroup;
    hide GroupOf;
    var size, g := c.groupSize, GroupIndex(pos, c.groupSize);
    ScalePositive(sqrt, values, c, q, indices, g);
    GroupHolds(values, size, pos);
    NormalizedBound(sqrt, GroupOf(values, size, g), InGroup(pos, size));
  }

  lemma OffByBound(bits: int, norm: real, n: real, scale: real, error: real)
    requires (bits == 3 || bits == 4) && n >= 1.0 && scale > 0.0 && Square(norm) <= n
    requires OffBy(Codebook(bits), norm, scale, error)
    ensures Square(error) <= Times(n, Square(scale))
  {
    hide Square;
    hide Times;
    hide Closest;
    var book := Codebook(bits);
    var k: nat :| k < |book| && Closest(book, norm, k) && error == Times(Abs(norm - book[k]), scale);
    DistanceBound(bits, norm, n, k);
    SquareOfProduct(Abs(norm - book[k]), scale);
    SquarePositive(scale);
    TimesGrows(n, Square(Abs(norm - book[k])), Square(scale));
  }

  lemma ScalePositive(sqrt: real -> real, values: seq<real>, c: QuantConfig, q: QuantizedV, indices: seq<nat>, g: nat)
    requires ValidConfig(c) && QuantizedTo(sqrt, values, c, q, indices) && g < |q.scales|
    ensures q.scales[g] > 0.0
  {
    assert RightStats(sqrt, values, c.groupSize, g, q.means[g], q.scales[g]);
  }
}
