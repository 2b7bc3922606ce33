/** Ordered-alternation regular expressions with one-character lookahead.

    `Ends` is the reference semantics of a backtracking matcher: it lists every
    end position of a match starting at `i`, in the order a leftmost-first
    engine would try them. The match such an engine reports is the first one. */
module Regex {
  import opened Basics

  datatype Regex =
    | Class(has: char -> bool)
    | Empty
    | Cat(first: Regex, second: Regex)
    | Alt(left: Regex, right: Regex)
    | Star(body: Regex)
    | NotAhead(has: char -> bool)

  function Plus(r: Regex): Regex { Cat(r, Star(r)) }

  function Maybe(r: Regex): Regex { Alt(r, Empty) }

  /** Every match of `re` in `s` from `i`, best first. A star iteration must consume something. */
  function Ends(re: Regex, s: string, i: nat): (ends: seq<nat>)
    requires i <= |s|
    ensures forall k :: 0 <= k < |ends| ==> i <= ends[k] <= |s|
    decreases re, |s| + 1 - i, 0
  {
    match re
    case Class(has) => if i < |s| && has(s[i]) then [i + 1] else []
    case Empty => [i]
    case Cat(a, b) => EndsAll(b, s, Ends(a, s, i), i)
    case Alt(a, b) => Ends(a, s, i) + Ends(b, s, i)
    case Star(b) => EndsAll(re, s, Beyond(Ends(b, s, i), i), i + 1) + [i]
    case NotAhead(has) => if i < |s| && has(s[i]) then [] else [i]
  }

  /** The matches of `re` from each start in turn. */
  function EndsAll(re: Regex, s: string, starts: seq<nat>, lo: nat): (ends: seq<nat>)
    requires lo <= |s| + 1
    requires forall k :: 0 <= k < |starts| ==> lo <= starts[k] <= |s|
    ensures forall k :: 0 <= k < |ends| ==> lo <= ends[k] <= |s|
    decreases re, |s| + 1 - lo, 1 + |starts|
  {
    if starts == [] then [] else Ends(re, s, starts[0]) + EndsAll(re, s, starts[1..], lo)
  }

  /** The entries of `xs` past `i`, in order. */
  function Beyond(xs: seq<nat>, i: nat): (ys: seq<nat>)
    ensures forall k :: 0 <= k < |ys| ==> i < ys[k] && ys[k] in xs
  {
    if xs == [] then []
    else if xs[0] > i then [xs[0]] + Beyond(xs[1..], i)
    else Beyond(xs[1..], i)
  }

  /** What a leftmost-first engine anchored at `i` reports. */
  function First(re: Regex, s: string, i: nat): (r: Option<nat>)
    requires i <= |s|
    ensures r.Some? ==> i <= r.value <= |s|
  {
    var ends := Ends(re, s, i);
    if ends == [] then None else Some(ends[0])
  }

  /** Where the maximal run of `has` characters from `i` ends. */
  function RunEnd(has: char -> bool, s: string, i: nat): (e: nat)
    requires i <= |s|
    ensures i <= e <= |s|
    ensures forall k :: i <= k < e ==> has(s[k])
    ensures e < |s| ==> !has(s[e])
    decreases |s| - i
  {
    if i < |s| && has(s[i]) then RunEnd(has, s, i + 1) else i
  }

  lemma RunEndIs(has: char -> bool, s: string, i: nat, e: nat)
    requires i <= e <= |s|
    requires forall k :: i <= k < e ==> has(s[k])
    requires e == |s| || !has(s[e])
    ensures RunEnd(has, s, i) == e
  {
  }

  /** `e, e-1, ..., i`. */
  function Down(e: nat, i: nat): (xs: seq<nat>)
    requires i <= e
    ensures |xs| == e - i + 1
    ensures forall k :: 0 <= k < |xs| ==> xs[k] == e - k
  {
    if e == i then [i] else [e] + Down(e - 1, i)
  }

  /** A greedy star over a character class tries the whole run, then gives back one character at a time. */
  lemma {:induction false} StarClass(has: char -> bool, s: string, i: nat)
    requires i <= |s|
    ensures Ends(Star(Class(has)), s, i) == Down(RunEnd(has, s, i), i)
    decreases |s| - i
  {
    var one := Ends(Class(has), s, i);
    if i < |s| && has(s[i]) {
      assert one == [i + 1];
      assert Beyond(one[1..], i) == [];
      assert Beyond(one, i) == [i + 1];
      SingleStart(Star(Class(has)), s, i + 1, i + 1);
      StarClass(has, s, i + 1);
      DownExtends(RunEnd(has, s, i + 1), i + 1);
    } else {
      assert Beyond(one, i) == [];
    }
  }

  lemma DownExtends(e: nat, i: nat)
    requires 0 < i <= e
    ensures Down(e, i) + [i - 1] == Down(e, i - 1)
  {
  }

  lemma SingleStart(re: Regex, s: string, j: nat, lo: nat)
    requires lo <= j <= |s|
    ensures EndsAll(re, s, [j], lo) == Ends(re, s, j)
  {
    assert EndsAll(re, s, [j][1..], lo) == [];
  }

  /** A greedy plus over a class: nothing, or the run down to one character. */
  lemma PlusClass(has: char -> bool, s: string, i: nat)
    requires i <= |s|
    ensures Ends(Plus(Class(has)), s, i)
         == if i < |s| && has(s[i]) then Down(RunEnd(has, s, i), i + 1) else []
  {
    if i < |s| && has(s[i]) {
      SingleStart(Star(Class(has)), s, i + 1, i);
      StarClass(has, s, i + 1);
    }
  }

  /** The first start from which `re` matches decides the whole list's head. */
  lemma {:induction false} FirstStartWins(re: Regex, s: string, starts: seq<nat>, lo: nat, k: nat)
    requires lo <= |s| + 1
    requires forall j :: 0 <= j < |starts| ==> lo <= starts[j] <= |s|
    requires k < |starts| && Ends(re, s, starts[k]) != []
    requires forall j :: 0 <= j < k ==> Ends(re, s, starts[j]) == []
    ensures EndsAll(re, s, starts, lo) != []
    ensures EndsAll(re, s, starts, lo)[0] == Ends(re, s, starts[k])[0]
  {
    if k > 0 {
      FirstStartWins(re, s, starts[1..], lo, k - 1);
    }
  }

  lemma {:induction false} NoStartWins(re: Regex, s: string, starts: seq<nat>, lo: nat)
    requires lo <= |s| + 1
    requires forall j :: 0 <= j < |starts| ==> lo <= starts[j] <= |s|
    requires forall j :: 0 <= j < |starts| ==> Ends(re, s, starts[j]) == []
    ensures EndsAll(re, s, starts, lo) == []
  {
    if starts != [] {
      NoStartWins(re, s, starts[1..], lo);
    }
  }

  lemma ClassFirst(has: char -> bool, s: string, i: nat)
    requires i <= |s|
    ensures First(Class(has), s, i) == if i < |s| && has(s[i]) then Some(i + 1) else None
  {
  }

  lemma PlusFirst(has: char -> bool, s: string, i: nat)
    requires i <= |s|
    ensures First(Plus(Class(has)), s, i) == if i < |s| && has(s[i]) then Some(RunEnd(has, s, i)) else None
  {
    PlusClass(has, s, i);
  }

  lemma AltFirst(a: Regex, b: Regex, s: string, i: nat)
    requires i <= |s|
    ensures First(Alt(a, b), s, i) == if First(a, s, i).Some? then First(a, s, i) else First(b, s, i)
  {
  }

  lemma CatEnds(a: Regex, b: Regex, s: string, i: nat)
    requires i <= |s|
    ensures Ends(Cat(a, b), s, i) == EndsAll(b, s, Ends(a, s, i), i)
  {
  }

  /** A sequence takes the first end of its first part from which its second part matches. */
  lemma CatFirst(a: Regex, b: Regex, s: string, i: nat, k: nat)
    requires i <= |s| && k < |Ends(a, s, i)|
    requires First(b, s, Ends(a, s, i)[k]).Some?
    requires forall j :: 0 <= j < k ==> First(b, s, Ends(a, s, i)[j]).None?
    ensures First(Cat(a, b), s, i) == First(b, s, Ends(a, s, i)[k])
  {
    hide Ends;
    CatEnds(a, b, s, i);
    FirstStartWins(b, s, Ends(a, s, i), i, k);
  }

  lemma CatNone(a: Regex, b: Regex, s: string, i: nat)
    requires i <= |s|
    requires forall j :: 0 <= j < |Ends(a, s, i)| ==> First(b, s, Ends(a, s, i)[j]).None?
    ensures First(Cat(a, b), s, i) == None
  {
    hide Ends;
    CatEnds(a, b, s, i);
    NoStartWins(b, s, Ends(a, s, i), i);
  }

  lemma ClassEnds(has: char -> bool, s: string, i: nat)
    requires i <= |s|
    ensures Ends(Class(has), s, i) == if i < |s| && has(s[i]) then [i + 1] else []
  {
  }

  /** One fixed character class, then `b`. */
  lemma ClassThen(has: char -> bool, b: Regex, s: string, i: nat)
    requires i <= |s|
    ensures First(Cat(Class(has), b), s, i) == if i < |s| && has(s[i]) then First(b, s, i + 1) else None
  {
    hide Ends;
    hide First;
    ClassEnds(has, s, i);
    if Ends(Class(has), s, i) != [] && First(b, s, i + 1).Some? {
      CatFirst(Class(has), b, s, i, 0);
    } else {
      CatNone(Class(has), b, s, i);
    }
  }

  lemma MaybeEnds(has: char -> bool, s: string, i: nat)
    requires i <= |s|
    ensures Ends(Maybe(Class(has)), s, i) == if i < |s| && has(s[i]) then [i + 1, i] else [i]
  {
    assert Ends(Maybe(Class(has)), s, i) == Ends(Class(has), s, i) + Ends(Empty, s, i);
  }

  /** An optional class, then `b`: with the character first, without it as a fallback. */
  lemma MaybeThen(has: char -> bool, b: Regex, s: string, i: nat)
    requires i <= |s|
    ensures First(Cat(Maybe(Class(has)), b), s, i)
         == if i < |s| && has(s[i]) && First(b, s, i + 1).Some? then First(b, s, i + 1) else First(b, s, i)
  {
    hide Ends;
    hide First;
    MaybeEnds(has, s, i);
    var a := Maybe(Class(has));
    var starts := Ends(a, s, i);
    if First(b, s, starts[0]).Some? {
      CatFirst(a, b, s, i, 0);
    } else if |starts| == 2 && First(b, s, i).Some? {
      CatFirst(a, b, s, i, 1);
    } else {
      CatNone(a, b, s, i);
    }
  }

  lemma NotAheadFirst(has: char -> bool, s: string, i: nat)
    requires i <= |s|
    ensures First(NotAhead(has), s, i) == if i < |s| && has(s[i]) then None else Some(i)
  {
  }

  lemma StarFirst(has: char -> bool, s: string, i: nat)
    requires i <= |s|
    ensures First(Star(Class(has)), s, i) == Some(RunEnd(has, s, i))
  {
    StarClass(has, s, i);
  }

  /** A literal, one class per character. `same` says when a text character counts as one of the literal's. */
  function Literal(same: (char, char) -> bool, lit: string): Regex {
    if lit == [] then Empty else Cat(Class(c => same(c, lit[0])), Literal(same, lit[1..]))
  }

  ghost predicate LiteralAt(same: (char, char) -> bool, s: string, i: nat, lit: string) {
    i + |lit| <= |s| && forall j :: i <= j < i + |lit| ==> same(s[j], lit[j - i])
  }

  lemma LiteralStep(same: (char, char) -> bool, s: string, i: nat, lit: string)
    requires lit != []
    ensures LiteralAt(same, s, i, lit)
        <==> i < |s| && same(s[i], lit[0]) && LiteralAt(same, s, i + 1, lit[1..])
  {
    if i < |s| && same(s[i], lit[0]) && LiteralAt(same, s, i + 1, lit[1..]) {
      forall j | i <= j < i + |lit| ensures same(s[j], lit[j - i]) {
        if j > i { assert lit[1..][j - (i + 1)] == lit[j - i]; }
      }
    }
  }

  /** A literal's first character, and then the rest of it. */
  lemma LiteralHead(same: (char, char) -> bool, s: string, i: nat, lit: string)
    requires i <= |s| && lit != []
    ensures Ends(Literal(same, lit), s, i)
         == if i < |s| && same(s[i], lit[0]) then Ends(Literal(same, lit[1..]), s, i + 1) else []
  {
    hide LiteralAt;
    var head: char -> bool := c => same(c, lit[0]);
    var rest := Literal(same, lit[1..]);
    assert Ends(Literal(same, lit), s, i) == EndsAll(rest, s, Ends(Class(head), s, i), i);
    if i < |s| && head(s[i]) {
      SingleStart(rest, s, i + 1, i);
    }
  }

  /** A literal matches in exactly one way, or not at all. */
  lemma {:induction false} LiteralEnds(same: (char, char) -> bool, s: string, i: nat, lit: string)
    requires i <= |s|
    ensures Ends(Literal(same, lit), s, i) == if LiteralAt(same, s, i, lit) then [i + |lit|] else []
    decreases |lit|
  {
    hide Ends;
    hide LiteralAt;
    hide Literal;
    if lit == [] {
      NoLiteral(same, s, i);
    } else {
      LiteralStep(same, s, i, lit);
      LiteralHead(same, s, i, lit);
      if i < |s| && same(s[i], lit[0]) {
        LiteralEnds(same, s, i + 1, lit[1..]);
      }
    }
  }

  lemma NoLiteral(same: (char, char) -> bool, s: string, i: nat)
    requires i <= |s|
    ensures Ends(Literal(same, []), s, i) == [i] && LiteralAt(same, s, i, [])
  {
  }

  /** An ordered alternation of literals. */
  function AnyOf(same: (char, char) -> bool, lits: seq<string>): Regex
    requires lits != []
  {
    if |lits| == 1 then Literal(same, lits[0])
    else Alt(Literal(same, lits[0]), AnyOf(same, lits[1..]))
  }

  lemma LiteralFirst(same: (char, char) -> bool, s: string, i: nat, lit: string)
    requires i <= |s|
    ensures First(Literal(same, lit), s, i) == if LiteralAt(same, s, i, lit) then Some(i + |lit|) else None
  {
    hide Ends;
    LiteralEnds(same, s, i, lit);
  }

  /** The earliest listed literal that is present is the one reported. */
  lemma {:induction false} AnyOfFirst(same: (char, char) -> bool, lits: seq<string>, s: string, i: nat, k: nat)
    requires i <= |s| && k < |lits|
    requires forall j :: 0 <= j < k ==> !LiteralAt(same, s, i, lits[j])
    requires LiteralAt(same, s, i, lits[k])
    ensures First(AnyOf(same, lits), s, i) == Some(i + |lits[k]|)
  {
    hide First;
    LiteralFirst(same, s, i, lits[0]);
    if |lits| > 1 {
      AltFirst(Literal(same, lits[0]), AnyOf(same, lits[1..]), s, i);
    }
    if k > 0 {
      AnyOfFirst(same, lits[1..], s, i, k - 1);
    }
  }

  lemma {:induction false} AnyOfNone(same: (char, char) -> bool, lits: seq<string>, s: string, i: nat)
    requires i <= |s| && lits != []
    requires forall j :: 0 <= j < |lits| ==> !LiteralAt(same, s, i, lits[j])
    ensures First(AnyOf(same, lits), s, i) == None
  {
    hide First;
    LiteralFirst(same, s, i, lits[0]);
    if |lits| > 1 {
      AltFirst(Literal(same, lits[0]), AnyOf(same, lits[1..]), s, i);
      AnyOfNone(same, lits[1..], s, i);
    }
  }

  // Splitting a text by repeated anchored matching.

  /** The end of the piece at `i`: the reported match when it advances, else one character. */
  function PieceEnd(re: Regex, s: string, i: nat): (m: nat)
    requires i < |s|
    ensures i < m <= |s|
  {
    var f := First(re, s, i);
    if f.Some? && f.value > i then f.value else i + 1
  }

  lemma SplitHead(re: Regex, s: string, i: nat)
    requires i < |s|
    ensures Split(re, s, i) == [s[i..PieceEnd(re, s, i)]] + Split(re, s, PieceEnd(re, s, i))
  {
    hide First;
  }

  function Split(re: Regex, s: string, i: nat): (pieces: seq<string>)
    requires i <= |s|
    decreases |s| - i
  {
    if i == |s| then [] else [s[i..PieceEnd(re, s, i)]] + Split(re, s, PieceEnd(re, s, i))
  }

  /** Nothing is lost, invented or reordered, and no piece is empty. */
  lemma {:induction false} SplitCovers(re: Regex, s: string, i: nat)
    requires i <= |s|
    ensures Concat(Split(re, s, i)) == s[i..]
    ensures forall k :: 0 <= k < |Split(re, s, i)| ==> Split(re, s, i)[k] != ""
    decreases |s| - i
  {
    if i < |s| {
      var m := PieceEnd(re, s, i);
      SplitCovers(re, s, m);
      assert s[i..] == s[i..m] + s[m..];
      assert Split(re, s, i)[1..] == Split(re, s, m);
    }
  }
}
