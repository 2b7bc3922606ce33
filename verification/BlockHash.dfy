/** The chained 64-bit block hash, and what its chaining guarantees. */
module BlockHash {
  import opened Basics

  const SPAN: int := 0x1_0000_0000_0000_0000

  /** A 64-bit hash. */
  type Word = h: int | 0 <= h < 0x1_0000_0000_0000_0000

  // Bitwise exclusive or.

  function Xor(a: nat, b: nat): nat
    decreases a + b
  {
    if a == 0 && b == 0 then 0 else 2 * Xor(a / 2, b / 2) + (a % 2 + b % 2) % 2
  }

  lemma XorUnfolds(a: nat, b: nat)
    ensures Xor(a, b) == 2 * Xor(a / 2, b / 2) + (a % 2 + b % 2) % 2
  {
  }

  lemma BitCancels(a: nat, b: nat)
    ensures ((a % 2 + b % 2) % 2 + b % 2) % 2 == a % 2
  {
  }

  lemma {:induction false} XorCancels(a: nat, b: nat)
    ensures Xor(Xor(a, b), b) == a
    decreases a + b
  {
    if a != 0 || b != 0 {
      hide Xor;
      XorCancels(a / 2, b / 2);
      var x, bit := Xor(a, b), (a % 2 + b % 2) % 2;
      XorUnfolds(a, b);
      XorUnfolds(x, b);
      assert x / 2 == Xor(a / 2, b / 2) && x % 2 == bit;
      BitCancels(a, b);
    }
  }

  lemma {:induction false} XorSymmetric(a: nat, b: nat)
    ensures Xor(a, b) == Xor(b, a)
    decreases a + b
  {
    if a != 0 || b != 0 {
      XorSymmetric(a / 2, b / 2);
    }
  }

  lemma {:induction false} XorBelow(a: nat, b: nat, n: nat)
    requires a < Pow2(n) && b < Pow2(n)
    ensures Xor(a, b) < Pow2(n)
    decreases n
  {
    if n > 0 {
      XorBelow(a / 2, b / 2, n - 1);
    }
  }

  lemma Pow2Byte(n: nat)
    ensures Pow2(n + 8) == 256 * Pow2(n)
  {
    assert Pow2(n + 8) == 2 * Pow2(n + 7) == 4 * Pow2(n + 6) == 8 * Pow2(n + 5) == 16 * Pow2(n + 4);
    assert Pow2(n + 4) == 2 * Pow2(n + 3) == 4 * Pow2(n + 2) == 8 * Pow2(n + 1) == 16 * Pow2(n);
  }

  lemma Pow2Span()
    ensures Pow2(64) == SPAN
  {
    Pow2Byte(0);
    Pow2Byte(8);
    Pow2Byte(16);
    Pow2Byte(24);
    Pow2Byte(32);
    Pow2Byte(40);
    Pow2Byte(48);
    Pow2Byte(56);
  }

  function Xor64(a: Word, b: Word): Word {
    Pow2Span();
    XorBelow(a, b, 64);
    Xor(a, b)
  }

  // One step.

  /** Multiplication by the odd multiplier, modulo 2^64. */
  function Scale(x: Word): Word { x * 1099511628211 % SPAN }

  lemma ScaleInjective(x: Word, y: Word)
    requires Scale(x) == Scale(y)
    ensures x == y
  {
    var d, t := x - y, x * 1099511628211 / SPAN - y * 1099511628211 / SPAN;
    assert d * 1099511628211 == SPAN * t;
    // The inverse of the multiplier turns this into: d is a multiple of 2^64.
    assert d == SPAN * (t * 14886173955864302971 - d * 887285111055);
  }

  function Mix(h: Word, b: Word): Word { Scale(Xor64(h, b)) }

  /** Each step is a bijection in the running hash. */
  lemma MixInjective(g: Word, h: Word, b: Word)
    requires Mix(g, b) == Mix(h, b)
    ensures g == h
  {
    hide Scale;
    ScaleInjective(Xor64(g, b), Xor64(h, b));
    XorCancels(g, b);
    XorCancels(h, b);
  }

  /** And in the word it folds in. */
  lemma MixSeparates(h: Word, b: Word, c: Word)
    requires Mix(h, b) == Mix(h, c)
    ensures b == c
  {
    hide Scale;
    ScaleInjective(Xor64(h, b), Xor64(h, c));
    XorSymmetric(h, b);
    XorSymmetric(h, c);
    XorCancels(b, h);
    XorCancels(c, h);
  }

  function Fold(h: Word, bytes: seq<Byte>): Word
    decreases |bytes|
  {
    if bytes == [] then h else Fold(Mix(h, bytes[0]), bytes[1..])
  }

  /** Byte `s / 8` of the token's two's-complement bits, low byte first. */
  function ByteAt(t: Token, s: nat): Byte
    requires s < 32
  {
    (if t < 0 then t + 0x1_0000_0000 else t) / Pow2(s) % 256
  }

  function TokenBytes(t: Token): (bytes: seq<Byte>)
    ensures |bytes| == 4
  {
    [ByteAt(t, 0), ByteAt(t, 8), ByteAt(t, 16), ByteAt(t, 24)]
  }

  /** The bytes are the 32 bits of the token, in two's complement, the lowest first. */
  lemma BytesSpell(t: Token)
    ensures var b: seq<int> := TokenBytes(t);
      b[0] + 0x100 * b[1] + 0x1_0000 * b[2] + 0x100_0000 * b[3] == if t < 0 then t + 0x1_0000_0000 else t
  {
    hide Pow2;
    BytePowers();
    FourBytes(if t < 0 then t + 0x1_0000_0000 else t);
  }

  lemma BytePowers()
    ensures Pow2(0) == 1 && Pow2(8) == 0x100 && Pow2(16) == 0x1_0000 && Pow2(24) == 0x100_0000
  {
    Pow2Byte(0);
    Pow2Byte(8);
    Pow2Byte(16);
  }

  lemma FourBytes(u: nat)
    requires u < 0x1_0000_0000
    ensures u / 1 % 0x100 + 0x100 * (u / 0x100 % 0x100) + 0x1_0000 * (u / 0x1_0000 % 0x100)
            + 0x100_0000 * (u / 0x100_0000 % 0x100) == u
  {
    var a := u / 0x100;
    var b := a / 0x100;
    var c := b / 0x100;
    assert b == u / 0x1_0000 && c == u / 0x100_0000 && c < 0x100;
  }

  function Bytes(tokens: seq<Token>): (bytes: seq<Byte>)
    ensures |bytes| == 4 * |tokens|
  {
    if tokens == [] then [] else TokenBytes(tokens[0]) + Bytes(tokens[1..])
  }

  /** The hash of a block under the hash of everything before it. */
  function Hash(parent: Word, tokens: seq<Token>): Word {
    Fold(Mix(1469598103934665603, parent), Bytes(tokens))
  }

  method BlockHash(parent: Word, tokens: seq<Token>) returns (h: Word)
    ensures h == Hash(parent, tokens)
  {
    hide Mix;
    hide ByteAt;
    h := Mix(1469598103934665603, parent);
    for i := 0 to |tokens|
      invariant Fold(h, Bytes(tokens[i..])) == Hash(parent, tokens)
    {
      assert tokens[i..][1..] == tokens[i + 1..];
      ghost var rest := Bytes(tokens[i + 1..]);
      h := FoldToken(h, tokens[i], rest);
    }
  }

  /** The four bytes of one token, low byte first. */
  method FoldToken(h: Word, u: Token, ghost rest: seq<Byte>) returns (g: Word)
    ensures g == Fold(h, TokenBytes(u))
    ensures Fold(g, rest) == Fold(h, TokenBytes(u) + rest)
  {
    hide Mix;
    hide ByteAt;
    g := h;
    var s := 0;
    while s < 32
      invariant 0 <= s <= 32 && s % 8 == 0
      invariant Fold(g, TokenBytes(u)[s / 8..]) == Fold(h, TokenBytes(u))
    {
      ghost var left := TokenBytes(u)[s / 8..];
      assert left[0] == ByteAt(u, s);
      assert left[1..] == TokenBytes(u)[s / 8 + 1..];
      g := Mix(g, ByteAt(u, s));
      s := s + 8;
    }
    assert TokenBytes(u)[4..] == [];
    FoldSplit(h, TokenBytes(u), rest);
  }

  /** Folding the same bytes, of any number, keeps distinct hashes distinct. */
  lemma {:induction false} FoldInjective(g: Word, h: Word, bytes: seq<Byte>)
    requires Fold(g, bytes) == Fold(h, bytes)
    ensures g == h
    decreases |bytes|
  {
    hide Mix;
    if bytes != [] {
      FoldInjective(Mix(g, bytes[0]), Mix(h, bytes[0]), bytes[1..]);
      MixInjective(g, h, bytes[0]);
    }
  }

  /** The hash is injective in the parent, for fixed tokens of any length. */
  lemma ParentInjective(p: Word, q: Word, tokens: seq<Token>)
    requires Hash(p, tokens) == Hash(q, tokens)
    ensures p == q
  {
    hide Mix;
    var seed: Word := 1469598103934665603;
    FoldInjective(Mix(seed, p), Mix(seed, q), Bytes(tokens));
    MixSeparates(seed, p, q);
  }

  lemma {:induction false} FoldSplit(h: Word, a: seq<Byte>, b: seq<Byte>)
    ensures Fold(h, a + b) == Fold(Fold(h, a), b)
    decreases |a|
  {
    if a == [] {
      assert a + b == b;
    } else {
      assert (a + b)[1..] == a[1..] + b;
      FoldSplit(Mix(h, a[0]), a[1..], b);
    }
  }

  /** Blocks of one length that differ in exactly one byte never collide under the same parent. */
  lemma OneByteSeparates(parent: Word, xs: seq<Token>, ys: seq<Token>, k: nat)
    requires |xs| == |ys| && k < 4 * |xs|
    requires forall i :: 0 <= i < 4 * |xs| ==> (Bytes(xs)[i] == Bytes(ys)[i] <==> i != k)
    ensures Hash(parent, xs) != Hash(parent, ys)
  {
    hide Mix;
    hide Bytes;
    hide Fold;
    var a, b := Bytes(xs), Bytes(ys);
    assert a == a[..k] + ([a[k]] + a[k + 1..]);
    assert b == a[..k] + ([b[k]] + a[k + 1..]);
    var h := Mix(1469598103934665603, parent);
    FoldSplit(h, a[..k], [a[k]] + a[k + 1..]);
    FoldSplit(h, a[..k], [b[k]] + a[k + 1..]);
    var g := Fold(h, a[..k]);
    StepSeparates(g, a[k], b[k], a[k + 1..]);
  }

  lemma StepSeparates(g: Word, x: Byte, y: Byte, rest: seq<Byte>)
    requires x != y
    ensures Fold(g, [x] + rest) != Fold(g, [y] + rest)
  {
    hide Mix;
    assert ([x] + rest)[1..] == rest && ([y] + rest)[1..] == rest;
    if Fold(Mix(g, x), rest) == Fold(Mix(g, y), rest) {
      FoldInjective(Mix(g, x), Mix(g, y), rest);
      MixSeparates(g, x, y);
    }
  }

  // Chains over whole blocks.

  /** The chained hash after each further block. */
  function Chain(parent: Word, blocks: seq<seq<Token>>): Word
    decreases |blocks|
  {
    if blocks == [] then parent else Chain(Hash(parent, blocks[0]), blocks[1..])
  }

  /** Once two prompts' chain hashes differ, equal following blocks can never make them alias. */
  lemma {:induction false} NeverAliasAgain(p: Word, q: Word, blocks: seq<seq<Token>>)
    requires p != q
    ensures Chain(p, blocks) != Chain(q, blocks)
    decreases |blocks|
  {
    hide Hash;
    if blocks != [] {
      if Hash(p, blocks[0]) == Hash(q, blocks[0]) {
        ParentInjective(p, q, blocks[0]);
      }
      NeverAliasAgain(Hash(p, blocks[0]), Hash(q, blocks[0]), blocks[1..]);
    }
  }
}
