/** The flat host buffers of the batched model: left-padded token ids and additive
    attention masks, row-major, the masks repeated for every head. */
module Masks {
  import opened Basics
  import opened Arith

  // Row-major buffers.

  ghost predicate Widths<T>(rows: seq<seq<T>>, w: nat) {
    forall i :: 0 <= i < |rows| ==> |rows[i]| == w
  }

  lemma {:induction false} FlatLength<T>(rows: seq<seq<T>>, w: nat)
    requires Widths(rows, w)
    ensures |Concat(rows)| == |rows| * w
  {
    if rows != [] {
      FlatLength(rows[1..], w);
      MulNext(|rows| - 1, w);
    }
  }

  lemma FlatFits(n: nat, w: nat, i: nat, x: nat)
    requires i < n && x < w
    ensures 0 <= i * w <= i * w + x < n * w
  {
    MulNonNeg(i, w);
    MulNext(i, w);
    MulNonNeg(n - i - 1, w);
    assert n * w == (i + 1) * w + (n - i - 1) * w;
  }

  /** Where an element of a row lies in the flat buffer. */
  lemma {:induction false} FlatAt<T>(rows: seq<seq<T>>, w: nat, i: nat, x: nat)
    requires Widths(rows, w) && i < |rows| && x < w
    ensures |Concat(rows)| == |rows| * w && 0 <= i * w <= i * w + x < |rows| * w
    ensures Concat(rows)[i * w + x] == rows[i][x]
  {
    FlatLength(rows, w);
    FlatFits(|rows|, w, i, x);
    if i > 0 {
      FlatAt(rows[1..], w, i - 1, x);
      MulNext(i, w);
    }
  }

  lemma {:induction false} FlatSnoc<T>(rows: seq<seq<T>>, i: nat)
    requires i < |rows|
    ensures Concat(rows[..i + 1]) == Concat(rows[..i]) + rows[i]
  {
    if i == 0 {
      assert rows[..1][1..] == [];
    } else {
      FlatSnoc(rows[1..], i - 1);
      assert rows[..i + 1][1..] == rows[1..][..i] && rows[..i][1..] == rows[1..][..i - 1];
    }
  }

  lemma NothingFlat<T>(rows: seq<seq<T>>)
    ensures Concat(rows[..0]) == [] && rows[..|rows|] == rows
  {
  }

  /** What a buffer holds up to a place, extended by what was written there. */
  lemma Glue<T>(buf: seq<T>, x: nat, y: nat, z: nat)
    requires x <= y <= z <= |buf|
    ensures buf[x..z] == buf[x..y] + buf[y..z]
  {
  }

  lemma Inside<T>(buf: seq<T>, x: nat, y: nat)
    requires x <= y <= |buf|
    ensures buf[..x] == buf[..y][..x] && buf[x..y] == buf[..y][x..]
  {
  }

  /** Overwrites the part of `dst` that starts at `at`. */
  method Copy<T>(dst: array<T>, at: nat, src: seq<T>)
    requires at + |src| <= dst.Length
    modifies dst
    ensures dst[..at] == old(dst[..at]) && dst[at..at + |src|] == src
    ensures forall x :: at + |src| <= x < dst.Length ==> dst[x] == old(dst[x])
  {
    for t := 0 to |src|
      invariant dst[..at] == old(dst[..at]) && dst[at..at + t] == src[..t]
      invariant forall x :: at + t <= x < dst.Length ==> dst[x] == old(dst[x])
    {
      dst[at + t] := src[t];
    }
  }

  // The padded prompts.

  function Padded(prompt: seq<int>, P: nat): (r: seq<int>)
    requires |prompt| <= P
    ensures |r| == P && r[P - |prompt|..] == prompt
  {
    seq(P - |prompt|, _ => 0) + prompt
  }

  ghost function AllPadded(prompts: seq<seq<int>>, P: nat): seq<seq<int>>
    requires forall s :: 0 <= s < |prompts| ==> |prompts[s]| <= P
  {
    seq(|prompts|, s requires 0 <= s < |prompts| => Padded(prompts[s], P))
  }

  method PaddedIds(prompts: seq<seq<int>>, pads: seq<nat>, P: nat) returns (ids: array<int>)
    requires |pads| == |prompts|
    requires forall s :: 0 <= s < |prompts| ==> |prompts[s]| + pads[s] == P
    ensures fresh(ids) && ids[..] == Concat(AllPadded(prompts, P))
  {
    hide Concat;
    hide Padded;
    NothingFlat(AllPadded(prompts, P));
    ghost var rows := AllPadded(prompts, P);
    MulNonNeg(|prompts|, P);
    ids := new int[|prompts| * P](_ => 0);
    for s := 0 to |prompts|
      invariant 0 <= s * P <= ids.Length
      invariant ids[..s * P] == Concat(rows[..s])
      invariant forall x :: s * P <= x < ids.Length ==> ids[x] == 0
    {
      FlatRow(|prompts|, P, s);
      PaddedRow(ids, s * P, pads[s], prompts[s], P);
      FlatSnoc(rows, s);
      Glue(ids[..], 0, s * P, s * P + P);
      assert ids[..][s * P..s * P + P] == ids[s * P..s * P + P];
    }
    assert rows[..|prompts|] == rows && ids[..] == ids[..|prompts| * P];
  }

  /** Copies one prompt into its zeroed row, right-aligned. */
  method PaddedRow(ids: array<int>, at: nat, pad: nat, prompt: seq<int>, P: nat)
    requires |prompt| + pad == P && at + P <= ids.Length
    requires forall x :: at <= x < ids.Length ==> ids[x] == 0
    modifies ids
    ensures ids[..at] == old(ids[..at]) && ids[at..at + P] == Padded(prompt, P)
    ensures forall x :: at + P <= x < ids.Length ==> ids[x] == 0
  {
    Copy(ids, at + pad, prompt);
    assert forall x :: at <= x < at + pad ==> ids[x] == ids[..at + pad][x] == 0;
    assert ids[..at] == ids[..at + pad][..at];
    assert ids[at + pad..at + P] == prompt;
    Glue(ids[..], at, at + pad, at + P);
  }

  lemma FlatRow(n: nat, w: nat, i: nat)
    requires i < n
    ensures 0 <= i * w && i * w + w == (i + 1) * w <= n * w
  {
    MulNonNeg(i, w);
    MulNext(i, w);
    MulNonNeg(n - i - 1, w);
    assert n * w == (i + 1) * w + (n - i - 1) * w;
  }

  // The masks.

  const MASK_NEG: real := -1000000000.0

  function Additive(sees: bool): real { if sees then 0.0 else MASK_NEG }

  /** Query row `i` of a prompt pass sees its own earlier real rows; a padding row sees itself. */
  predicate PrefillSees(pad: nat, i: nat, j: nat) {
    (j <= i && j >= pad) || j == i
  }

  ghost function PrefillRow(pad: nat, P: nat, i: nat): seq<real> {
    seq(P, j requires 0 <= j < P => Additive(PrefillSees(pad, i, j)))
  }

  ghost function PrefillRows(pad: nat, P: nat): (rows: seq<seq<real>>)
    ensures Widths(rows, P) && |rows| == P
  {
    seq(P, i requires 0 <= i < P => PrefillRow(pad, P, i))
  }

  ghost function PrefillBlocks(pads: seq<nat>, P: nat): (blocks: seq<seq<real>>)
    ensures |blocks| == |pads| && Widths(blocks, P * P)
  {
    forall s | 0 <= s < |pads| ensures |Concat(PrefillRows(pads[s], P))| == P * P {
      FlatLength(PrefillRows(pads[s], P), P);
    }
    seq(|pads|, s requires 0 <= s < |pads| => Concat(PrefillRows(pads[s], P)))
  }

  lemma BlockOf(pads: seq<nat>, P: nat)
    ensures forall s :: 0 <= s < |pads| ==> PrefillBlocks(pads, P)[s] == Concat(PrefillRows(pads[s], P))
  {
  }

  ghost function DecodeBlocks(pads: seq<nat>, L: nat): (blocks: seq<seq<real>>)
    ensures |blocks| == |pads| && Widths(blocks, L)
  {
    seq(|pads|, s requires 0 <= s < |pads| => seq(L, j requires 0 <= j < L => Additive(j >= pads[s])))
  }

  ghost function Replicated(blocks: seq<seq<real>>, heads: nat): seq<seq<real>> {
    seq(|blocks|, s requires 0 <= s < |blocks| => Concat(Copies(blocks[s], heads)))
  }

  ghost function Copies(block: seq<real>, heads: nat): seq<seq<real>> {
    seq(heads, _ => block)
  }

  lemma ReplicatedWidths(blocks: seq<seq<real>>, heads: nat, stride: nat)
    requires Widths(blocks, stride)
    ensures Widths(Replicated(blocks, heads), heads * stride)
  {
    forall s | 0 <= s < |blocks| ensures |Replicated(blocks, heads)[s]| == heads * stride {
      FlatLength(Copies(blocks[s], heads), stride);
    }
  }

  /** Gives each head its own copy of its sequence's block. */
  method ReplicateHeads(rows: seq<real>, n: nat, heads: nat, stride: nat, ghost blocks: seq<seq<real>>)
    returns (out: array<real>)
    requires |blocks| == n && Widths(blocks, stride) && rows == Concat(blocks)
    ensures fresh(out) && out[..] == Concat(Replicated(blocks, heads))
  {
    hide Concat;
    ghost var all := Replicated(blocks, heads);
    NothingFlat(all);
    ReplicatedWidths(blocks, heads, stride);
    MulNonNeg(heads, stride);
    MulNonNeg(n, heads * stride);
    Assoc(n, heads, stride);
    out := new real[n * heads * stride](_ => 0.0);
    FlatLength(blocks, stride);
    for s := 0 to n
      invariant 0 <= s * (heads * stride) <= out.Length
      invariant out[..s * (heads * stride)] == Concat(all[..s])
    {
      FlatRow(n, stride, s);
      FlatRow(n, heads * stride, s);
      var src := rows[s * stride..(s + 1) * stride];
      SliceIs(blocks, stride, s);
      CopyHeads(out, src, s, heads, stride);
      FlatSnoc(all, s);
      assert out[..(s + 1) * (heads * stride)] == out[..s * (heads * stride)] + all[s];
    }
    assert all[..n] == all && out[..] == out[..n * (heads * stride)];
  }

  lemma Assoc(n: int, heads: int, stride: int)
    ensures n * heads * stride == n * (heads * stride)
  {
  }

  lemma SliceIs<T>(rows: seq<seq<T>>, w: nat, i: nat)
    requires Widths(rows, w) && i < |rows|
    ensures 0 <= i * w <= (i + 1) * w <= |Concat(rows)|
    ensures Concat(rows)[i * w..(i + 1) * w] == rows[i]
  {
    FlatLength(rows, w);
    FlatRow(|rows|, w, i);
    forall x | 0 <= x < w ensures Concat(rows)[i * w + x] == rows[i][x] {
      FlatAt(rows, w, i, x);
    }
  }

  /** The inner loop of the replication: one block, once per head. */
  method CopyHeads(out: array<real>, src: seq<real>, s: nat, heads: nat, stride: nat)
    requires |src| == stride && 0 <= s * (heads * stride) <= s * (heads * stride) + heads * stride <= out.Length
    modifies out
    ensures var at := s * (heads * stride);
      out[..at] == old(out[..at]) && out[at..at + heads * stride] == Concat(Copies(src, heads))
  {
    hide Concat;
    var at := s * (heads * stride);
    ghost var copies := Copies(src, heads);
    NothingFlat(copies);
    for hh := 0 to heads
      invariant 0 <= hh * stride <= heads * stride
      invariant out[..at] == old(out[..at])
      invariant out[at..at + hh * stride] == Concat(copies[..hh])
    {
      FlatRow(heads, stride, hh);
      HeadOffset(s, heads, stride, hh);
      Copy(out, (s * heads + hh) * stride, src);
      FlatSnoc(copies, hh);
      Inside(out[..], at, at + hh * stride);
      Glue(out[..], at, at + hh * stride, at + hh * stride + stride);
    }
  }

  lemma HeadOffset(s: int, heads: int, stride: int, hh: int)
    ensures (s * heads + hh) * stride == s * (heads * stride) + hh * stride
  {
  }

  method PrefillMask(pads: seq<nat>, heads: nat, P: nat) returns (mask: array<real>)
    ensures fresh(mask) && mask[..] == Concat(Replicated(PrefillBlocks(pads, P), heads))
  {
    hide Concat;
    hide PrefillBlocks;
    BlockOf(pads, P);
    ghost var blocks := PrefillBlocks(pads, P);
    NothingFlat(blocks);
    MulNonNeg(P, P);
    MulNonNeg(|pads|, P * P);
    Assoc(|pads|, P, P);
    var rows := new real[|pads| * P * P](_ => 0.0);
    for s := 0 to |pads|
      invariant 0 <= s * (P * P) <= rows.Length
      invariant rows[..s * (P * P)] == Concat(blocks[..s])
    {
      FlatRow(|pads|, P * P, s);
      Assoc(s, P, P);
      FillBlock(rows, s * P * P, pads[s], P);
      FlatSnoc(blocks, s);
      Glue(rows[..], 0, s * (P * P), s * (P * P) + P * P);
    }
    assert blocks[..|pads|] == blocks && rows[..] == rows[..|pads| * (P * P)];
    mask := ReplicateHeads(rows[..], |pads|, heads, P * P, blocks);
  }

  /** The two inner loops of the prompt mask: one sequence. */
  method FillBlock(rows: array<real>, base: nat, pad: nat, P: nat)
    requires 0 <= P * P && base + P * P <= rows.Length
    modifies rows
    ensures rows[..base] == old(rows[..base])
    ensures rows[base..base + P * P] == Concat(PrefillRows(pad, P))
  {
    hide Concat;
    hide PrefillRow;
    ghost var block := PrefillRows(pad, P);
    NothingFlat(block);
    for i := 0 to P
      invariant 0 <= i * P <= P * P
      invariant rows[..base] == old(rows[..base])
      invariant rows[base..base + i * P] == Concat(block[..i])
    {
      FlatRow(P, P, i);
      var row := base + i * P;
      ghost var before := rows[..row];
      FillRow(rows, row, pad, P, i);
      FlatSnoc(block, i);
      Inside(before, base, row);
      Inside(rows[..], base, row);
      Glue(rows[..], base, row, row + P);
    }
    assert block[..P] == block;
  }

  method FillRow(rows: array<real>, row: nat, pad: nat, P: nat, i: nat)
    requires row + P <= rows.Length
    modifies rows
    ensures rows[..row] == old(rows[..row]) && rows[row..row + P] == PrefillRow(pad, P, i)
  {
    for j := 0 to P
      invariant rows[..row] == old(rows[..row])
      invariant rows[row..row + j] == PrefillRow(pad, P, i)[..j]
    {
      if (j <= i && j >= pad) || j == i {
        rows[row + j] := 0.0;
      } else {
        rows[row + j] := MASK_NEG;
      }
    }
  }

  method DecodeMask(pads: seq<nat>, heads: nat, L: nat) returns (mask: array<real>)
    ensures fresh(mask) && mask[..] == Concat(Replicated(DecodeBlocks(pads, L), heads))
  {
    hide Concat;
    ghost var blocks := DecodeBlocks(pads, L);
    NothingFlat(blocks);
    MulNonNeg(|pads|, L);
    var rows := new real[|pads| * L](_ => 0.0);
    for s := 0 to |pads|
      invariant 0 <= s * L <= rows.Length
      invariant rows[..s * L] == Concat(blocks[..s])
    {
      FlatRow(|pads|, L, s);
      var base, pad := s * L, pads[s];
      for j := 0 to L
        invariant rows[..base] == Concat(blocks[..s])
        invariant rows[base..base + j] == blocks[s][..j]
      {
        if j >= pad {
          rows[base + j] := 0.0;
        } else {
          rows[base + j] := MASK_NEG;
        }
      }
      FlatSnoc(blocks, s);
      assert rows[..(s + 1) * L] == rows[..s * L] + blocks[s];
    }
    assert blocks[..|pads|] == blocks && rows[..] == rows[..|pads| * L];
    mask := ReplicateHeads(rows[..], |pads|, heads, L, blocks);
  }

  // What the kernel reads.

  /** The row-major place of `[s, hh, i, j]` in a buffer of shape `[n, heads, q, L]`. */
  function Place(heads: nat, q: nat, L: nat, s: nat, hh: nat, i: nat, j: nat): int {
    s * (heads * (q * L)) + (hh * (q * L) + (i * L + j))
  }

  lemma ReplicatedAt(blocks: seq<seq<real>>, heads: nat, q: nat, L: nat, s: nat, hh: nat, i: nat, j: nat)
    requires Widths(blocks, q * L) && s < |blocks| && hh < heads && i < q && j < L
    ensures 0 <= i * L + j < q * L
    ensures 0 <= Place(heads, q, L, s, hh, i, j) < |Concat(Replicated(blocks, heads))|
    ensures Concat(Replicated(blocks, heads))[Place(heads, q, L, s, hh, i, j)] == blocks[s][i * L + j]
  {
    FlatFits(q, L, i, j);
    ReplicatedWidths(blocks, heads, q * L);
    FlatAt(Copies(blocks[s], heads), q * L, hh, i * L + j);
    FlatAt(Replicated(blocks, heads), heads * (q * L), s, hh * (q * L) + (i * L + j));
  }

  /** In the prompt mask every head of a sequence sees the same keys: causal and not padding,
      and a padding row sees just itself. */
  lemma PrefillMaskMeans(pads: seq<nat>, heads: nat, P: nat, s: nat, hh: nat, i: nat, j: nat)
    requires s < |pads| && hh < heads && i < P && j < P
    ensures var mask, at := Concat(Replicated(PrefillBlocks(pads, P), heads)), Place(heads, P, P, s, hh, i, j);
      0 <= at < |mask| && mask[at] == Additive(PrefillSees(pads[s], i, j))
  {
    ReplicatedAt(PrefillBlocks(pads, P), heads, P, P, s, hh, i, j);
    FlatAt(PrefillRows(pads[s], P), P, i, j);
  }

  /** In a decode mask the one query sees every real key. */
  lemma DecodeMaskMeans(pads: seq<nat>, heads: nat, L: nat, s: nat, hh: nat, j: nat)
    requires s < |pads| && hh < heads && j < L
    ensures var mask, at := Concat(Replicated(DecodeBlocks(pads, L), heads)), Place(heads, 1, L, s, hh, 0, j);
      0 <= at < |mask| && mask[at] == Additive(j >= pads[s])
  {
    ReplicatedAt(DecodeBlocks(pads, L), heads, 1, L, s, hh, 0, j);
  }
}
