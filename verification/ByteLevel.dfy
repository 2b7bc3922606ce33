/** The byte-level alphabet of byte-level BPE: a bijection between the 256 byte
    values and 256 printable characters. */
module ByteLevel {
  import opened Basics

  // UTF-8.

  function Utf8Char(c: char): (bytes: seq<Byte>)
    ensures 1 <= |bytes| <= 4
  {
    var v := c as int;
    if v < 0x80 then [v]
    else if v < 0x800 then [0xC0 + v / 64, 0x80 + v % 64]
    else if v < 0x1_0000 then [0xE0 + v / 4096, 0x80 + v / 64 % 64, 0x80 + v % 64]
    else [0xF0 + v / 262144, 0x80 + v / 4096 % 64, 0x80 + v / 64 % 64, 0x80 + v % 64]
  }

  function Utf8(s: string): (bytes: seq<Byte>)
    ensures |bytes| >= |s|
  {
    if s == [] then [] else Utf8Char(s[0]) + Utf8(s[1..])
  }

  lemma {:induction false} Utf8Concat(a: string, b: string)
    ensures Utf8(a + b) == Utf8(a) + Utf8(b)
  {
    if a == [] {
      assert a + b == b;
    } else {
      assert (a + b)[1..] == a[1..] + b;
      Utf8Concat(a[1..], b);
    }
  }

  /** The first byte of a character tells how many there are, and all of them tell which it is. */
  lemma Utf8CharDecides(a: char, b: char, x: seq<Byte>, y: seq<Byte>)
    requires Utf8Char(a) + x == Utf8Char(b) + y
    ensures a == b && x == y
  {
    var p, q := Utf8Char(a), Utf8Char(b);
    assert (p + x)[0] == p[0] && (q + y)[0] == q[0];
    assert |p| == |q|;
    assert p == (p + x)[..|p|] && q == (q + y)[..|q|];
    assert x == (p + x)[|p|..] && y == (q + y)[|q|..];
    Utf8CharInjective(a, b);
  }

  lemma Utf8CharInjective(a: char, b: char)
    requires Utf8Char(a) == Utf8Char(b)
    ensures a == b
  {
    SameDigits(a as int, b as int);
    var p, q := Utf8Char(a), Utf8Char(b);
    assert |p| == |q| && p[0] == q[0] && (|p| > 1 ==> p[1] == q[1]) && (|p| > 2 ==> p[2] == q[2])
      && (|p| > 3 ==> p[3] == q[3]);
  }

  /** Numbers with the same digits in base 64 are the same. */
  lemma SameDigits(v: nat, w: nat)
    ensures v / 64 == w / 64 && v % 64 == w % 64 ==> v == w
    ensures v / 4096 == w / 4096 && v / 64 % 64 == w / 64 % 64 ==> v / 64 == w / 64
    ensures v / 262144 == w / 262144 && v / 4096 % 64 == w / 4096 % 64 ==> v / 4096 == w / 4096
  {
    assert v / 4096 == v / 64 / 64 && w / 4096 == w / 64 / 64;
    assert v / 262144 == v / 4096 / 64 && w / 262144 == w / 4096 / 64;
  }

  /** Different texts have different bytes. */
  lemma {:induction false} Utf8Injective(a: string, b: string)
    requires Utf8(a) == Utf8(b)
    ensures a == b
  {
    if a != [] && b != [] {
      Utf8CharDecides(a[0], b[0], Utf8(a[1..]), Utf8(b[1..]));
      Utf8Injective(a[1..], b[1..]);
      assert a == [a[0]] + a[1..] && b == [b[0]] + b[1..];
    }
  }

  // The alphabet.

  /** Bytes that stand for themselves. */
  predicate Direct(b: int) {
    33 <= b <= 126 || 161 <= b <= 172 || 174 <= b <= 255
  }

  /** How many bytes below `b` do not. */
  function Lifted(b: nat): (n: nat)
    ensures n <= b
  {
    if b == 0 then 0 else Lifted(b - 1) + if Direct(b - 1) then 0 else 1
  }

  function RuneOf(b: Byte): char {
    if Direct(b) then b as char else (256 + Lifted(b)) as char
  }

  lemma {:induction false} LiftedGrows(a: nat, b: nat)
    requires a < b && !Direct(a)
    ensures Lifted(a) < Lifted(b)
  {
    if a + 1 < b {
      LiftedGrows(a, b - 1);
    }
  }

  /** Distinct bytes get distinct characters. */
  lemma RuneInjective(a: Byte, b: Byte)
    requires RuneOf(a) == RuneOf(b)
    ensures a == b
  {
    if !Direct(a) && !Direct(b) {
      if a < b {
        LiftedGrows(a, b);
      } else if b < a {
        LiftedGrows(b, a);
      }
    }
  }

  function Lift(bytes: seq<Byte>): (runes: string)
    ensures |runes| == |bytes|
    ensures forall i :: 0 <= i < |bytes| ==> runes[i] == RuneOf(bytes[i])
  {
    seq(|bytes|, i requires 0 <= i < |bytes| => RuneOf(bytes[i]))
  }

  /** `rev` undoes the alphabet and knows nothing else. */
  ghost predicate Inverse(fwd: seq<char>, rev: map<char, Byte>) {
    && |fwd| == 256
    && (forall b: Byte :: fwd[b] == RuneOf(b))
    && (forall b: Byte :: fwd[b] in rev && rev[fwd[b]] == b)
    && (forall c :: c in rev ==> fwd[rev[c]] == c)
  }

  /** The self-standing bytes, as the three printable ranges. */
  method DirectBytes() returns (direct: seq<Byte>)
    ensures forall b: Byte :: b in direct <==> Direct(b)
  {
    direct := [];
    for i := 33 to 127
      invariant forall b: Byte :: b in direct <==> 33 <= b < i
    {
      direct := direct + [i];
    }
    for i := 161 to 173
      invariant forall b: Byte :: b in direct <==> 33 <= b <= 126 || 161 <= b < i
    {
      direct := direct + [i];
    }
    for i := 174 to 256
      invariant forall b: Byte :: b in direct <==> 33 <= b <= 126 || 161 <= b <= 172 || 174 <= b < i
    {
      direct := direct + [i];
    }
  }

  /** The self-standing bytes' entries of the forward table. */
  method PlaceDirect(direct: seq<Byte>) returns (fwd: seq<char>)
    requires forall b: Byte :: Direct(b) ==> b in direct
    requires forall j :: 0 <= j < |direct| ==> Direct(direct[j])
    ensures |fwd| == 256 && forall b: Byte :: Direct(b) ==> fwd[b] == RuneOf(b)
  {
    fwd := seq(256, _ => '\0');
    for i := 0 to |direct|
      invariant |fwd| == 256 && forall j :: 0 <= j < i ==> fwd[direct[j]] == direct[j] as char
    {
      fwd := fwd[direct[i] := direct[i] as char];
    }
    forall b: Byte | Direct(b) ensures fwd[b] == RuneOf(b) {
      var j :| 0 <= j < |direct| && direct[j] == b;
    }
  }

  /** The remaining bytes take the characters from U+0100 on, in order. */
  method PlaceLifted(direct: set<Byte>, table: seq<char>) returns (fwd: seq<char>)
    requires |table| == 256 && forall b: Byte :: Direct(b) ==> table[b] == RuneOf(b)
    requires forall b: Byte :: b in direct <==> Direct(b)
    ensures |fwd| == 256 && forall b: Byte :: fwd[b] == RuneOf(b)
  {
    fwd := table;
    var n := 0;
    for b := 0 to 256
      invariant n == Lifted(b) && |fwd| == 256
      invariant forall d: Byte :: d < b || Direct(d) ==> fwd[d] == RuneOf(d)
    {
      if b !in direct {
        fwd := fwd[b := (256 + n) as char];
        n := n + 1;
      }
    }
  }

  /** The character of each byte: itself for the printable ones, and for the others those from U+0100 on. */
  ghost predicate Alphabet(fwd: seq<char>) {
    && |fwd| == 256
    && (forall b :: 33 <= b <= 126 || 161 <= b <= 172 || 174 <= b <= 255 ==> fwd[b] as int == b)
    && (forall b :: 0 <= b <= 32 ==> fwd[b] as int == 0x100 + b)
    && (forall b :: 127 <= b <= 160 ==> fwd[b] as int == 0x121 + (b - 127))
    && fwd[173] as int == 0x143
  }

  lemma {:induction false} LiftedIs(b: nat)
    requires b <= 173
    ensures Lifted(b) == if b <= 33 then b else if b <= 127 then 33 else if b <= 161 then 33 + (b - 127) else 67
  {
    if b > 0 {
      LiftedIs(b - 1);
    }
  }

  lemma TableIs(fwd: seq<char>)
    requires |fwd| == 256 && forall b: Byte :: fwd[b] == RuneOf(b)
    ensures Alphabet(fwd)
  {
    forall b: Byte | b <= 173 ensures Direct(b) || fwd[b] as int == 256 + Lifted(b) {
    }
    forall b: Byte | b <= 173
      ensures Lifted(b) == if b <= 33 then b else if b <= 127 then 33 else if b <= 161 then 33 + (b - 127) else 67
    {
      LiftedIs(b);
    }
  }

  method ByteToRune() returns (fwd: seq<char>, rev: map<char, Byte>)
    ensures Inverse(fwd, rev) && Alphabet(fwd)
  {
    hide Alphabet;
    var direct := DirectBytes();
    fwd := PlaceDirect(direct);
    var inSet := set b | b in direct;
    fwd := PlaceLifted(inSet, fwd);
    TableIs(fwd);
    rev := map[];
    for b := 0 to 256
      invariant forall d: Byte :: d < b ==> fwd[d] in rev && rev[fwd[d]] == d
      invariant forall c :: c in rev ==> rev[c] < b && fwd[rev[c]] == c
    {
      forall d: Byte | d < b ensures fwd[d] != fwd[b] {
        if fwd[d] == fwd[b] { RuneInjective(d, b); }
      }
      rev := rev[fwd[b] := b];
    }
  }

  /** The character string that carries raw bytes through the merge loop. */
  method EncodeBytes(fwd: seq<char>, s: seq<Byte>) returns (out: string)
    requires |fwd| == 256 && forall b: Byte :: fwd[b] == RuneOf(b)
    ensures out == Lift(s)
  {
    out := [];
    for i := 0 to |s|
      invariant |out| == i && forall j :: 0 <= j < i ==> out[j] == RuneOf(s[j])
    {
      out := out + [fwd[s[i]]];
    }
  }
}
