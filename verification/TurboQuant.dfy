/** Value-cache compression: per-group mean and scale, nearest codebook level, and
    level indices packed into a bit stream. Values are reals. */
module TurboQuant {
  import opened Basics
  import opened Arith

  // The bit stream.

  /** Bit `pos` of a stream of bytes, most significant bit first. */
  predicate BitAt(data: seq<Byte>, pos: nat)
    requires pos / 8 < |data|
  {
    Bit(data[pos / 8], 7 - pos % 8)
  }

  /** Bit `k` of a number, counted from the least significant. */
  predicate Bit(v: nat, k: nat) {
    v / Pow2(k) % 2 == 1
  }

  lemma {:induction false} DivPow2(v: nat, k: nat)
    ensures v / Pow2(k + 1) == v / 2 / Pow2(k)
  {
    var d := Pow2(k);
    DivMod(v, 2);
    DivMod(v / 2, d);
    var q := v / 2 / d;
    MulNext(q, d);
    QuotientIs(2 * d, v, q);
  }

  /** A number is its lowest bit and the rest. */
  lemma BitShift(v: nat, k: nat)
    ensures Bit(v, k + 1) <==> Bit(v / 2, k)
    ensures Bit(v, 0) <==> v % 2 == 1
  {
    DivPow2(v, k);
  }

  /** Numbers of `n` bits are equal when all their bits are. */
  lemma {:induction false} BitsDecide(a: nat, b: nat, n: nat)
    requires a < Pow2(n) && b < Pow2(n) && forall k: nat :: k < n ==> (Bit(a, k) <==> Bit(b, k))
    ensures a == b
  {
    if n > 0 {
      BitShift(a, 0);
      BitShift(b, 0);
      forall k: nat | k < n - 1 ensures Bit(a / 2, k) <==> Bit(b / 2, k) {
        BitShift(a, k);
        BitShift(b, k);
        assert Bit(a, k + 1) <==> Bit(b, k + 1);
      }
      BitsDecide(a / 2, b / 2, n - 1);
      assert Bit(a, 0) <==> Bit(b, 0);
    }
  }

  lemma HalfPlus(v: nat, p: nat)
    ensures (v + 2 * p) / 2 == v / 2 + p && (v + 2 * p) % 2 == v % 2
  {
  }

  lemma Pow2Step(k: nat)
    ensures Pow2(0) == 1 && Pow2(k + 1) == 2 * Pow2(k)
  {
  }

  /** Setting a bit that is clear changes that bit alone. */
  lemma {:induction false} SetBit(v: nat, j: nat, k: nat)
    requires !Bit(v, j)
    ensures Bit(v + Pow2(j), k) <==> k == j || Bit(v, k)
  {
    hide Bit;
    hide Pow2;
    if j == 0 {
      Pow2Step(0);
      BitShift(v, 0);
      BitShift(v + 1, 0);
      if k > 0 {
        BitShift(v, k - 1);
        BitShift(v + 1, k - 1);
      }
    } else {
      Pow2Step(j - 1);
      var p := Pow2(j - 1);
      HalfPlus(v, p);
      BitShift(v, j - 1);
      BitShift(v + 2 * p, 0);
      if k > 0 {
        SetBit(v / 2, j - 1, k - 1);
        BitShift(v, k - 1);
        BitShift(v + 2 * p, k - 1);
      }
    }
  }

  lemma {:induction false} SetBitFits(v: nat, j: nat, n: nat)
    requires v < Pow2(n) && j < n && !Bit(v, j)
    ensures v + Pow2(j) < Pow2(n)
  {
    if j == 0 {
      assert v % 2 == 0;
    } else {
      BitShift(v, j - 1);
      SetBitFits(v / 2, j - 1, n - 1);
    }
  }

  lemma ByteIs8()
    ensures Pow2(8) == 256
  {
    assert Pow2(1) == 2 && Pow2(2) == 4 && Pow2(3) == 8 && Pow2(4) == 16;
    assert Pow2(5) == 32 && Pow2(6) == 64 && Pow2(7) == 128;
  }

  /** `v | (1 << j)` on a byte. */
  function OrBit(v: Byte, j: nat): (r: Byte)
    requires j < 8
    ensures forall k: nat :: Bit(r, k) <==> k == j || Bit(v, k)
  {
    ByteIs8();
    if Bit(v, j) then v
    else
      SetBitFits(v, j, 8);
      assert forall k: nat :: Bit(v + Pow2(j), k) <==> k == j || Bit(v, k) by {
        forall k: nat ensures Bit(v + Pow2(j), k) <==> k == j || Bit(v, k) {
          SetBit(v, j, k);
        }
      }
      v + Pow2(j)
  }

  /** What bit `pos` of the packed stream of `indices` must be. */
  predicate StreamBit(indices: seq<nat>, bits: nat, pos: nat)
    requires bits > 0
  {
    pos / bits < |indices| && Bit(indices[pos / bits], bits - 1 - pos % bits)
  }

  /** The stream is exactly the indices, each on `bits` bits, and then zeros. */
  ghost predicate Packed(data: seq<Byte>, indices: seq<nat>, bits: nat)
    requires bits > 0
  {
    && |data| == (|indices| * bits + 7) / 8
    && forall pos: nat :: pos / 8 < |data| ==> (BitAt(data, pos) <==> StreamBit(indices, bits, pos))
  }

  lemma PutBit(data: seq<Byte>, pos: nat)
    requires pos / 8 < |data|
    ensures var after := data[pos / 8 := OrBit(data[pos / 8], 7 - pos % 8)];
      forall p: nat :: p / 8 < |data| ==> (BitAt(after, p) <==> p == pos || BitAt(data, p))
  {
    hide Bit;
    hide OrBit;
    var after := data[pos / 8 := OrBit(data[pos / 8], 7 - pos % 8)];
    forall p: nat | p / 8 < |data| ensures BitAt(after, p) <==> p == pos || BitAt(data, p) {
      if p / 8 == pos / 8 {
        assert 7 - p % 8 == 7 - pos % 8 <==> p == pos;
      }
    }
  }

  ghost predicate Zeroed(data: seq<Byte>) {
    forall i :: 0 <= i < |data| ==> data[i] == 0
  }

  lemma ZeroBits(data: seq<Byte>)
    requires Zeroed(data)
    ensures forall p: nat :: p / 8 < |data| ==> !BitAt(data, p)
  {
    forall p: nat | p / 8 < |data| ensures !BitAt(data, p) {
      ZeroBit(7 - p % 8);
    }
  }

  lemma ZeroBit(k: nat)
    ensures !Bit(0, k)
  {
    QuotientIs(Pow2(k), 0, 0);
  }

  /** The stream holds the first `pos` bits and nothing else yet. */
  ghost predicate PackedUpTo(data: seq<Byte>, indices: seq<nat>, bits: nat, pos: nat)
    requires bits > 0
  {
    forall p: nat :: p / 8 < |data| ==> (BitAt(data, p) <==> p < pos && StreamBit(indices, bits, p))
  }

  lemma PackOne(data: seq<Byte>, indices: seq<nat>, bits: nat, pos: nat)
    requires bits > 0 && PackedUpTo(data, indices, bits, pos) && pos / 8 < |data|
    ensures PackedUpTo(
      if StreamBit(indices, bits, pos) then data[pos / 8 := OrBit(data[pos / 8], 7 - pos % 8)] else data,
      indices, bits, pos + 1)
  {
    hide BitAt;
    hide StreamBit;
    hide OrBit;
    PutBit(data, pos);
  }

  method PackBits(indices: seq<nat>, bits: nat) returns (data: seq<Byte>)
    requires bits > 0
    ensures Packed(data, indices, bits)
  {
    hide BitAt;
    hide PackedUpTo;
    hide OrBit;
    hide Bit;
    var total := |indices| * bits;
    MulNonNeg(|indices|, bits);
    var out := new Byte[(total + 7) / 8](_ => 0);
    ZeroBits(out[..]);
    NothingPacked(out[..], indices, bits);
    var pos := 0;
    for i := 0 to |indices|
      invariant pos == i * bits && PackedUpTo(out[..], indices, bits, pos)
    {
      MulNext(i, bits);
      WithinTotal(|indices|, bits, i);
      var b := bits - 1;
      while b >= 0
        invariant -1 <= b < bits && pos == i * bits + (bits - 1 - b)
        invariant PackedUpTo(out[..], indices, bits, pos)
      {
        QuotientIs(bits, pos, i);
        DivMod(pos, bits);
        assert pos / 8 < out.Length;
        PackOne(out[..], indices, bits, pos);
        if Bit(indices[i], b) {
          out[pos / 8] := OrBit(out[pos / 8], 7 - pos % 8);
        }
        pos := pos + 1;
        b := b - 1;
      }
    }
    AllPacked(out[..], indices, bits);
    data := out[..];
  }

  lemma WithinTotal(n: nat, bits: nat, i: nat)
    requires i < n
    ensures 0 <= i * bits && i * bits + bits <= n * bits
  {
    MulNonNeg(i, bits);
    MulNonNeg(n - i - 1, bits);
    MulNext(i, bits);
    assert n * bits == (i + 1) * bits + (n - i - 1) * bits;
  }

  lemma NothingPacked(data: seq<Byte>, indices: seq<nat>, bits: nat)
    requires bits > 0 && forall p: nat :: p / 8 < |data| ==> !BitAt(data, p)
    ensures PackedUpTo(data, indices, bits, 0)
  {
  }

  lemma PastEnd(n: nat, bits: nat, p: nat)
    requires bits > 0 && p >= n * bits
    ensures p / bits >= n
  {
    var q := p / bits;
    DivMod(p, bits);
    MulNext(q, bits);
    MulCancel(n, q + 1, bits);
  }

  lemma AllPacked(data: seq<Byte>, indices: seq<nat>, bits: nat)
    requires bits > 0 && PackedUpTo(data, indices, bits, |indices| * bits) && |data| == (|indices| * bits + 7) / 8
    ensures Packed(data, indices, bits)
  {
    hide BitAt;
    hide Bit;
    forall p: nat | p >= |indices| * bits ensures !StreamBit(indices, bits, p) {
      PastEnd(|indices|, bits, p);
    }
  }

  /** Each value is read from its own `bits` bits. */
  ghost predicate Unpacked(data: seq<Byte>, bits: nat, out: seq<nat>)
    requires bits > 0
  {
    forall i :: 0 <= i < |out| ==> ReadAt(data, bits, i, out[i])
  }

  ghost predicate ReadAt(data: seq<Byte>, bits: nat, i: nat, v: nat)
    requires bits > 0
  {
    v < Pow2(bits) && forall b: nat :: b < bits ==>
      (i * bits + (bits - 1 - b)) / 8 < |data| && (Bit(v, b) <==> BitAt(data, i * bits + (bits - 1 - b)))
  }

  method UnpackBits(data: seq<Byte>, bits: nat, count: nat) returns (out: seq<nat>)
    requires bits > 0 && count * bits <= 8 * |data|
    ensures |out| == count && Unpacked(data, bits, out)
  {
    hide ReadAt;
    out := [];
    for i := 0 to count
      invariant |out| == i && Unpacked(data, bits, out)
    {
      WithinTotal(count, bits, i);
      var v := ReadBits(data, i * bits, bits);
      AllRead(data, bits, i, v);
      out := out + [v];
    }
  }

  method ReadBits(data: seq<Byte>, start: nat, bits: nat) returns (v: nat)
    requires start + bits <= 8 * |data|
    ensures ReadUpTo(data, start, bits, v)
  {
    hide BitAt;
    hide Bit;
    hide ReadUpTo;
    v := 0;
    NothingRead(data, start);
    for t := 0 to bits
      invariant ReadUpTo(data, start, t, v)
    {
      var pos := start + t;
      ReadOne(data, start, t, v);
      OneBit(data, pos);
      v := 2 * v;
      if Bit(data[pos / 8], 7 - pos % 8) {
        v := v + 1;
      }
    }
  }

  lemma OneBit(data: seq<Byte>, pos: nat)
    requires pos / 8 < |data|
    ensures BitAt(data, pos) <==> Bit(data[pos / 8], 7 - pos % 8)
  {
  }

  /** `v` is the number the first `t` bits from `base` spell. */
  ghost predicate ReadUpTo(data: seq<Byte>, base: nat, t: nat, v: nat) {
    && v < Pow2(t) && (base + t + 7) / 8 <= |data|
    && forall b: nat :: b < t ==> (base + (t - 1 - b)) / 8 < |data| && (Bit(v, b) <==> BitAt(data, base + (t - 1 - b)))
  }

  lemma NothingRead(data: seq<Byte>, base: nat)
    requires (base + 7) / 8 <= |data|
    ensures ReadUpTo(data, base, 0, 0)
  {
  }

  lemma ReadOne(data: seq<Byte>, base: nat, t: nat, v: nat)
    requires ReadUpTo(data, base, t, v) && (base + t) / 8 < |data|
    ensures ReadUpTo(data, base, t + 1, if BitAt(data, base + t) then 2 * v + 1 else 2 * v)
  {
    hide BitAt;
    hide Bit;
    var w := if BitAt(data, base + t) then 2 * v + 1 else 2 * v;
    assert w / 2 == v;
    BitShift(w, 0);
    forall b: nat | b < t + 1
      ensures (base + (t - b)) / 8 < |data| && (Bit(w, b) <==> BitAt(data, base + (t - b)))
    {
      if b > 0 {
        BitShift(w, b - 1);
        assert base + (t - 1 - (b - 1)) == base + (t - b);
      }
    }
  }

  lemma AllRead(data: seq<Byte>, bits: nat, i: nat, v: nat)
    requires bits > 0 && ReadUpTo(data, i * bits, bits, v)
    ensures ReadAt(data, bits, i, v)
  {
  }

  /** Unpacking inverts packing, across byte boundaries. */
  lemma UnpackInvertsPack(data: seq<Byte>, indices: seq<nat>, bits: nat, out: seq<nat>)
    requires bits > 0 && Packed(data, indices, bits) && Unpacked(data, bits, out) && |out| == |indices|
    requires forall i :: 0 <= i < |indices| ==> indices[i] < Pow2(bits)
    ensures out == indices
  {
    hide Bit;
    hide BitAt;
    forall i | 0 <= i < |indices| ensures out[i] == indices[i] {
      forall b: nat | b < bits ensures Bit(out[i], b) <==> Bit(indices[i], b) {
        var pos := i * bits + (bits - 1 - b);
        WithinTotal(|indices|, bits, i);
        QuotientIs(bits, pos, i);
        DivMod(pos, bits);
        assert ReadAt(data, bits, i, out[i]);
        assert StreamBit(indices, bits, pos) <==> Bit(indices[i], b);
      }
      assert ReadAt(data, bits, i, out[i]);
      BitsDecide(out[i], indices[i], bits);
    }
  }

  // The stream as one number.

  /** The number that digits spell in a base, the most significant first. */
  ghost function Number(digits: seq<nat>, base: nat): nat {
    if digits == [] then 0 else Number(digits[..|digits| - 1], base) * base + digits[|digits| - 1]
  }

  /** The number that the first `n` bits of a stream spell. */
  ghost function BitNumber(digits: seq<nat>, bits: nat, n: nat): nat
    requires bits > 0
  {
    if n == 0 then 0 else 2 * BitNumber(digits, bits, n - 1) + if StreamBit(digits, bits, n - 1) then 1 else 0
  }

  lemma NextBit(v: nat, k: nat)
    ensures v / Pow2(k) == 2 * (v / Pow2(k + 1)) + if Bit(v, k) then 1 else 0
  {
    var d := Pow2(k);
    var q := v / d;
    DivMod(v, d);
    DivMod(q, 2);
    Pow2Step(k);
    var h := q / 2;
    HalfDiv(v, d, q, h);
  }

  lemma HalfDiv(v: nat, d: nat, q: nat, h: nat)
    requires d > 0 && q == v / d && h == q / 2
    ensures v / (2 * d) == h
  {
    DivMod(v, d);
    MulNext(q, d);
    assert h * (2 * d) == 2 * h * d;
    MulNonNeg(q - 2 * h, d);
    if q == 2 * h {
      assert q * d == h * (2 * d);
    } else {
      assert q == 2 * h + 1;
      assert q * d == h * (2 * d) + d;
    }
    QuotientIs(2 * d, v, h);
  }

  /** The bits of one more digit, one by one. */
  lemma {:induction false} DigitBits(digits: seq<nat>, bits: nat, i: nat, j: nat)
    requires bits > 0 && i < |digits| && j <= bits && digits[i] < Pow2(bits) && 0 <= i * bits
    ensures BitNumber(digits, bits, i * bits + j)
         == BitNumber(digits, bits, i * bits) * Pow2(j) + digits[i] / Pow2(bits - j)
  {
    hide StreamBit;
    hide BitNumber;
    hide Bit;
    hide Pow2;
    if j == 0 {
      Pow2Step(0);
      QuotientIs(Pow2(bits), digits[i], 0);
    } else {
      var d, a, p := digits[i], BitNumber(digits, bits, i * bits), Pow2(j - 1);
      var fewer := d / Pow2(bits - (j - 1));
      DigitBits(digits, bits, i, j - 1);
      NextBit(d, bits - j);
      StreamBitOf(digits, bits, i, j - 1);
      BitNumberStep(digits, bits, i * bits + (j - 1));
      Pow2Step(j - 1);
      assert i * bits + (j - 1) + 1 == i * bits + j && bits - (j - 1) == bits - j + 1;
      DigitStep(a, p, fewer, if Bit(d, bits - j) then 1 else 0);
    }
  }

  lemma DigitStep(a: nat, p: nat, fewer: nat, b: nat)
    ensures 2 * (a * p + fewer) + b == a * (2 * p) + (2 * fewer + b)
  {
  }

  lemma BitNumberStep(digits: seq<nat>, bits: nat, n: nat)
    requires bits > 0
    ensures BitNumber(digits, bits, n + 1)
         == 2 * BitNumber(digits, bits, n) + if StreamBit(digits, bits, n) then 1 else 0
  {
    hide StreamBit;
  }

  lemma Doubled(a: nat, p: nat, r: nat)
    ensures 2 * (a * p + r) == a * (2 * p) + 2 * r
  {
  }

  lemma StreamBitOf(digits: seq<nat>, bits: nat, i: nat, j: nat)
    requires bits > 0 && i < |digits| && j < bits && 0 <= i * bits
    ensures StreamBit(digits, bits, i * bits + j) <==> Bit(digits[i], bits - 1 - j)
  {
    hide Bit;
    var pos := i * bits + j;
    QuotientIs(bits, pos, i);
    DivMod(pos, bits);
  }

  lemma {:induction false} BitsSpell(digits: seq<nat>, bits: nat, i: nat)
    requires bits > 0 && i <= |digits| && forall k :: 0 <= k < |digits| ==> digits[k] < Pow2(bits)
    ensures 0 <= i * bits && BitNumber(digits, bits, i * bits) == Number(digits[..i], Pow2(bits))
  {
    MulNonNeg(i, bits);
    if i > 0 {
      MulNonNeg(i - 1, bits);
      MulNext(i - 1, bits);
      BitsSpell(digits, bits, i - 1);
      DigitBits(digits, bits, i - 1, bits);
      Pow2Step(0);
      assert digits[i - 1] / 1 == digits[i - 1];
      assert digits[..i][..i - 1] == digits[..i - 1];
    }
  }

  lemma {:induction false} ZerosSpell(digits: seq<nat>, bits: nat, n: nat, m: nat)
    requires bits > 0 && n >= |digits| * bits
    ensures BitNumber(digits, bits, n + m) == BitNumber(digits, bits, n) * Pow2(m)
  {
    if m > 0 {
      ZerosSpell(digits, bits, n, m - 1);
      PastEnd(|digits|, bits, n + m - 1);
      Pow2Step(m - 1);
      Doubled(BitNumber(digits, bits, n), Pow2(m - 1), 0);
    }
  }

  lemma {:induction false} SameBits(data: seq<Byte>, indices: seq<nat>, bits: nat, n: nat)
    requires bits > 0 && Packed(data, indices, bits) && n <= 8 * |data|
    ensures BitNumber(data, 8, n) == BitNumber(indices, bits, n)
  {
    hide Bit;
    if n > 0 {
      SameBits(data, indices, bits, n - 1);
      assert BitAt(data, n - 1) <==> StreamBit(indices, bits, n - 1);
    }
  }

  /** The bytes, read as one number, are the indices, read as one number, moved up past the padding. */
  lemma PackedIsNumber(data: seq<Byte>, indices: seq<nat>, bits: nat)
    requires bits > 0 && Packed(data, indices, bits) && forall i :: 0 <= i < |indices| ==> indices[i] < Pow2(bits)
    ensures 0 <= 8 * |data| - |indices| * bits < 8
    ensures Number(data, 256) == Number(indices, Pow2(bits)) * Pow2(8 * |data| - |indices| * bits)
  {
    var total := |indices| * bits;
    MulNonNeg(|indices|, bits);
    var padding: nat := 8 * |data| - total;
    ByteIs8();
    SameBits(data, indices, bits, 8 * |data|);
    BitsSpell(data, 8, |data|);
    BitsSpell(indices, bits, |indices|);
    ZerosSpell(indices, bits, total, padding);
    assert data[..|data|] == data && indices[..|indices|] == indices;
  }
}
