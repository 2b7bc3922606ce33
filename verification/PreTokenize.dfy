/** The hand-written GPT-style pre-tokenizer against the regular expression it
    stands in for: equal up to case folding, and exactly when equal in full. */
module PreTokenize {
  import opened Basics
  import opened Regex

  /** The Unicode tables the scanner consults, and the folding a case-insensitive regex uses. */
  datatype Unicode = Unicode(
    isLetter: char -> bool,
    isNumber: char -> bool,
    isSpace: char -> bool,
    toLower: char -> char,
    folds: (char, char) -> bool)  // whether a character counts as a lower-case one under `(?i)`
  {
    ghost predicate Valid() {
      && isSpace('\r') && isSpace('\n') && isSpace(' ')
      && !isLetter('\'') && !isNumber('\'')
      && FoldsSuffixes()
    }

    /** Folding reaches at least as far as lower-casing, relates letters only, and keeps the suffix letters apart. */
    ghost predicate FoldsSuffixes() {
      && (forall c, p :: p in SUFFIX_LETTERS && toLower(c) == p ==> folds(c, p))
      && (forall c, p :: p in SUFFIX_LETTERS && folds(c, p) ==> isLetter(c))
      && (forall c, p, q :: p in SUFFIX_LETTERS && q in SUFFIX_LETTERS && folds(c, p) && folds(c, q) ==> p == q)
    }
  }

  const CONTRACTIONS: seq<string> := ["s", "t", "re", "ve", "m", "ll", "d"]

  const SUFFIX_LETTERS: set<char> := {'s', 't', 'r', 'e', 'v', 'm', 'l', 'd'}

  /** The scanner's notion of equal up to case. */
  function Lowered(u: Unicode): (char, char) -> bool { (c, p) => u.toLower(c) == p }

  predicate IsNewline(c: char) { c == '\r' || c == '\n' }

  function Lead(u: Unicode): char -> bool {
    c => !IsNewline(c) && !u.isLetter(c) && !u.isNumber(c)
  }

  function Symbol(u: Unicode): char -> bool {
    c => !u.isSpace(c) && !u.isLetter(c) && !u.isNumber(c)
  }

  function Is(x: char): char -> bool { c => c == x }

  function NonSpace(u: Unicode): char -> bool { c => !u.isSpace(c) }

  // The seven alternatives, in order.

  function ContractionRegex(same: (char, char) -> bool): Regex {
    Cat(Class(Is('\'')), AnyOf(same, CONTRACTIONS))
  }

  function LettersRegex(u: Unicode): Regex {
    Cat(Maybe(Class(Lead(u))), Plus(Class(u.isLetter)))
  }

  function SymbolsRegex(u: Unicode): Regex {
    Cat(Maybe(Class(Is(' '))), SymbolTail(u))
  }

  function NewlineRegex(u: Unicode): Regex {
    Cat(Star(Class(u.isSpace)), Plus(Class(IsNewline)))
  }

  function TrailingRegex(u: Unicode): Regex {
    Cat(Plus(Class(u.isSpace)), NotAhead(NonSpace(u)))
  }

  function Alternatives(u: Unicode, same: (char, char) -> bool): Regex {
    Alt(ContractionRegex(same),
        Alt(LettersRegex(u),
            Alt(Class(u.isNumber),
                Alt(SymbolsRegex(u),
                    Alt(NewlineRegex(u),
                        Alt(TrailingRegex(u), Plus(Class(u.isSpace))))))))
  }

  /** The published regex, with its case-insensitive first alternative. */
  function PieceRegex(u: Unicode): Regex { Alternatives(u, u.folds) }

  /** The same with lower-casing in place of folding. */
  function ScannerRegex(u: Unicode): Regex { Alternatives(u, Lowered(u)) }

  /** The scanner's convention for a failed match: the start position. */
  function EndOr(m: Option<nat>, i: nat): nat {
    if m.Some? then m.value else i
  }

  /** The alternatives in order: the first that matches decides. */
  lemma AlternativesFirst(u: Unicode, same: (char, char) -> bool, r: string, i: nat)
    requires i <= |r|
    ensures First(Alternatives(u, same), r, i)
         == if First(ContractionRegex(same), r, i).Some? then First(ContractionRegex(same), r, i)
            else if First(LettersRegex(u), r, i).Some? then First(LettersRegex(u), r, i)
            else if First(Class(u.isNumber), r, i).Some? then First(Class(u.isNumber), r, i)
            else if First(SymbolsRegex(u), r, i).Some? then First(SymbolsRegex(u), r, i)
            else if First(NewlineRegex(u), r, i).Some? then First(NewlineRegex(u), r, i)
            else First(Alt(TrailingRegex(u), Plus(Class(u.isSpace))), r, i)
  {
    hide First;
    var r7 := Plus(Class(u.isSpace));
    var r6 := Alt(TrailingRegex(u), r7);
    var r5 := Alt(NewlineRegex(u), r6);
    var r4 := Alt(SymbolsRegex(u), r5);
    var r3 := Alt(Class(u.isNumber), r4);
    var r2 := Alt(LettersRegex(u), r3);
    AltFirst(ContractionRegex(same), r2, r, i);
    AltFirst(LettersRegex(u), r3, r, i);
    AltFirst(Class(u.isNumber), r4, r, i);
    AltFirst(SymbolsRegex(u), r5, r, i);
    AltFirst(NewlineRegex(u), r6, r, i);
  }

  // What each alternative matches, as a run computation.

  lemma ContractionFirst(same: (char, char) -> bool, r: string, i: nat)
    requires i < |r|
    ensures First(ContractionRegex(same), r, i)
         == if r[i] == '\'' then First(AnyOf(same, CONTRACTIONS), r, i + 1) else None
  {
    hide First;
    ClassThen(Is('\''), AnyOf(same, CONTRACTIONS), r, i);
  }

  lemma LettersFirst(u: Unicode, r: string, i: nat)
    requires i <= |r|
    ensures
      var k := if i < |r| && Lead(u)(r[i]) then i + 1 else i;
      First(LettersRegex(u), r, i)
      == if k < |r| && u.isLetter(r[k]) then Some(RunEnd(u.isLetter, r, k)) else None
  {
    hide First;
    MaybeThen(Lead(u), Plus(Class(u.isLetter)), r, i);
    PlusFirst(u.isLetter, r, i);
    if i < |r| {
      PlusFirst(u.isLetter, r, i + 1);
    }
  }

  function SymbolTail(u: Unicode): Regex {
    Cat(Plus(Class(Symbol(u))), Star(Class(IsNewline)))
  }

  lemma SymbolTailFirst(u: Unicode, r: string, i: nat)
    requires i <= |r|
    ensures First(SymbolTail(u), r, i)
         == if i < |r| && Symbol(u)(r[i]) then Some(RunEnd(IsNewline, r, RunEnd(Symbol(u), r, i))) else None
  {
    hide Ends;
    hide First;
    var symbols, newlines := Plus(Class(Symbol(u))), Star(Class(IsNewline));
    PlusClass(Symbol(u), r, i);
    if i < |r| && Symbol(u)(r[i]) {
      StarFirst(IsNewline, r, RunEnd(Symbol(u), r, i));
      CatFirst(symbols, newlines, r, i, 0);
    } else {
      CatNone(symbols, newlines, r, i);
    }
  }

  lemma SymbolsFirst(u: Unicode, r: string, i: nat)
    requires u.Valid() && i <= |r|
    ensures
      var k := if i < |r| && r[i] == ' ' then i + 1 else i;
      First(SymbolsRegex(u), r, i)
      == if k < |r| && Symbol(u)(r[k]) then Some(RunEnd(IsNewline, r, RunEnd(Symbol(u), r, k))) else None
  {
    hide First;
    MaybeThen(Is(' '), SymbolTail(u), r, i);
    SymbolTailFirst(u, r, i);
    if i < |r| {
      SymbolTailFirst(u, r, i + 1);
    }
  }

  /** The newline alternative backs off from the end of the whitespace run to its last newline. */
  lemma NewlineFirst(u: Unicode, r: string, i: nat, last: nat)
    requires u.Valid() && i <= |r| && i <= last < RunEnd(u.isSpace, r, i)
    requires IsNewline(r[last])
    requires forall k :: last < k < RunEnd(u.isSpace, r, i) ==> !IsNewline(r[k])
    ensures First(NewlineRegex(u), r, i) == Some(last + 1)
  {
    hide Ends;
    hide First;
    var e := RunEnd(u.isSpace, r, i);
    var spaces, newlines := Star(Class(u.isSpace)), Plus(Class(IsNewline));
    StarClass(u.isSpace, r, i);
    forall j | 0 <= j < e - last ensures First(newlines, r, Ends(spaces, r, i)[j]) == None {
      PlusFirst(IsNewline, r, e - j);
    }
    PlusFirst(IsNewline, r, last);
    RunEndIs(IsNewline, r, last, last + 1);
    CatFirst(spaces, newlines, r, i, e - last);
  }

  lemma NewlineNone(u: Unicode, r: string, i: nat)
    requires u.Valid() && i <= |r|
    requires forall k :: i <= k < RunEnd(u.isSpace, r, i) ==> !IsNewline(r[k])
    ensures First(NewlineRegex(u), r, i) == None
  {
    hide Ends;
    hide First;
    var e := RunEnd(u.isSpace, r, i);
    var spaces, newlines := Star(Class(u.isSpace)), Plus(Class(IsNewline));
    StarClass(u.isSpace, r, i);
    forall j | 0 <= j < |Ends(spaces, r, i)| ensures First(newlines, r, Ends(spaces, r, i)[j]) == None {
      PlusFirst(IsNewline, r, e - j);
    }
    CatNone(spaces, newlines, r, i);
  }

  /** `\s+(?!\S)` keeps the whole run at the end of the text, and otherwise gives the last space back. */
  lemma TrailingFirst(u: Unicode, r: string, i: nat)
    requires i < |r|
    ensures
      var e := RunEnd(u.isSpace, r, i);
      First(TrailingRegex(u), r, i)
      == if i == e then None else if e == |r| then Some(e) else if i + 1 < e then Some(e - 1) else None
  {
    hide Ends;
    hide First;
    var e := RunEnd(u.isSpace, r, i);
    var spaces, ahead := Plus(Class(u.isSpace)), NotAhead(NonSpace(u));
    PlusClass(u.isSpace, r, i);
    NotAheadFirst(NonSpace(u), r, e);
    if i == e {
      CatNone(spaces, ahead, r, i);
    } else if e == |r| {
      CatFirst(spaces, ahead, r, i, 0);
    } else if i + 1 < e {
      NotAheadFirst(NonSpace(u), r, e - 1);
      CatFirst(spaces, ahead, r, i, 1);
    } else {
      CatNone(spaces, ahead, r, i);
    }
  }

  // The scanner.

  /** Reports whether `r` from `i` equals `suf` up to case. */
  method HasFoldSuffix(u: Unicode, r: string, i: nat, suf: string) returns (b: bool)
    requires i <= |r|
    ensures b <==> LiteralAt(Lowered(u), r, i, suf)
  {
    if i + |suf| > |r| {
      return false;
    }
    for j := 0 to |suf|
      invariant forall k :: i <= k < i + j ==> u.toLower(r[k]) == suf[k - i]
    {
      if u.toLower(r[i + j]) != suf[j] {
        return false;
      }
    }
    return true;
  }

  method MatchLetters(u: Unicode, r: string, i: nat) returns (k: nat)
    requires i <= |r|
    ensures k == EndOr(First(LettersRegex(u), r, i), i)
    ensures First(LettersRegex(u), r, i).Some? <==> k > i
  {
    hide First;
    var n := |r|;
    k := i;
    if k < n && r[k] != '\r' && r[k] != '\n' && !u.isLetter(r[k]) && !u.isNumber(r[k]) {
      k := k + 1;
    }
    var start := k;
    while k < n && u.isLetter(r[k])
      invariant start <= k <= n
      invariant forall j :: start <= j < k ==> u.isLetter(r[j])
    {
      k := k + 1;
    }
    LettersFirst(u, r, i);
    if k > start {
      RunEndIs(u.isLetter, r, start, k);
      return k;
    }
    return i;
  }

  method MatchSymbols(u: Unicode, r: string, i: nat) returns (k: nat)
    requires u.Valid() && i <= |r|
    ensures k == EndOr(First(SymbolsRegex(u), r, i), i)
    ensures First(SymbolsRegex(u), r, i).Some? <==> k > i
  {
    hide First;
    hide RunEnd;
    var n := |r|;
    k := i;
    if k < n && r[k] == ' ' {
      k := k + 1;
    }
    var start := k;
    while k < n && !u.isSpace(r[k]) && !u.isLetter(r[k]) && !u.isNumber(r[k])
      invariant start <= k <= n
      invariant forall j :: start <= j < k ==> Symbol(u)(r[j])
    {
      k := k + 1;
    }
    SymbolsFirst(u, r, i);
    if k == start {
      return i;
    }
    var mid := k;
    RunEndIs(Symbol(u), r, start, mid);
    while k < n && (r[k] == '\r' || r[k] == '\n')
      invariant mid <= k <= n
      invariant forall j :: mid <= j < k ==> IsNewline(r[j])
    {
      k := k + 1;
    }
    RunEndIs(IsNewline, r, mid, k);
    return k;
  }

  method MatchNewlineRun(u: Unicode, r: string, i: nat) returns (k: nat)
    requires u.Valid() && i < |r|
    ensures k == EndOr(First(NewlineRegex(u), r, i), i)
    ensures First(NewlineRegex(u), r, i).Some? <==> k > i
  {
    hide First;
    var n := |r|;
    if !u.isSpace(r[i]) {
      RunEndIs(u.isSpace, r, i, i);
      NewlineNone(u, r, i);
      return i;
    }
    var e := i;
    var last := -1;
    while e < n && u.isSpace(r[e])
      invariant i <= e <= n
      invariant forall j :: i <= j < e ==> u.isSpace(r[j])
      invariant last == -1 || (i <= last < e && IsNewline(r[last]))
      invariant forall j :: i <= j < e && last < j ==> !IsNewline(r[j])
      decreases n - e
    {
      if r[e] == '\r' || r[e] == '\n' {
        last := e;
      }
      e := e + 1;
    }
    RunEndIs(u.isSpace, r, i, e);
    if last < 0 {
      NewlineNone(u, r, i);
      return i;
    }
    NewlineFirst(u, r, i, last);
    return last + 1;
  }

  method MatchContraction(u: Unicode, r: string, i: nat) returns (k: nat)
    requires i < |r|
    ensures k == EndOr(First(ContractionRegex(Lowered(u)), r, i), i)
    ensures First(ContractionRegex(Lowered(u)), r, i).Some? <==> k > i
  {
    hide First;
    hide AnyOf;
    ContractionFirst(Lowered(u), r, i);
    if r[i] == '\'' && i + 1 < |r| {
      for c := 0 to |CONTRACTIONS|
        invariant forall j :: 0 <= j < c ==> !LiteralAt(Lowered(u), r, i + 1, CONTRACTIONS[j])
      {
        var hit := HasFoldSuffix(u, r, i + 1, CONTRACTIONS[c]);
        if hit {
          AnyOfFirst(Lowered(u), CONTRACTIONS, r, i + 1, c);
          return i + 1 + |CONTRACTIONS[c]|;
        }
      }
    }
    if r[i] == '\'' {
      AnyOfNone(Lowered(u), CONTRACTIONS, r, i + 1);
    }
    return i;
  }

  /** Alternatives 6 and 7: a whitespace run, minus its last character when text follows a longer run. */
  method MatchSpaces(u: Unicode, r: string, i: nat) returns (k: nat)
    requires i < |r|
    ensures k == EndOr(First(Alt(TrailingRegex(u), Plus(Class(u.isSpace))), r, i), i)
    ensures First(Alt(TrailingRegex(u), Plus(Class(u.isSpace))), r, i).Some? <==> k > i
  {
    hide First;
    var n := |r|;
    TrailingFirst(u, r, i);
    PlusFirst(u.isSpace, r, i);
    AltFirst(TrailingRegex(u), Plus(Class(u.isSpace)), r, i);
    if u.isSpace(r[i]) {
      var e := i;
      while e < n && u.isSpace(r[e])
        invariant i <= e <= n
        invariant forall j :: i <= j < e ==> u.isSpace(r[j])
      {
        e := e + 1;
      }
      RunEndIs(u.isSpace, r, i, e);
      if e == n {
        return e;
      }
      if e - 1 > i {
        return e - 1;
      }
      return e;
    }
    return i;
  }

  // Lower-casing against case folding.

  /** A contraction stands after the quote at `i` up to folding but not up to lower-casing, and a letter follows it. */
  ghost predicate Misread(u: Unicode, r: string, i: nat) {
    && i < |r| && r[i] == '\''
    && exists k :: 0 <= k < |CONTRACTIONS| && MisreadAt(u, r, i + 1, CONTRACTIONS[k])
  }

  ghost predicate MisreadAt(u: Unicode, r: string, i: nat, suf: string) {
    LiteralAt(u.folds, r, i, suf) && !LiteralAt(Lowered(u), r, i, suf) && i + |suf| < |r| && u.isLetter(r[i + |suf|])
  }

  lemma SuffixLetters(k: nat)
    requires k < |CONTRACTIONS|
    ensures CONTRACTIONS[k] != "" && forall j :: 0 <= j < |CONTRACTIONS[k]| ==> CONTRACTIONS[k][j] in SUFFIX_LETTERS
  {
  }

  lemma FirstLettersDiffer(k: nat, l: nat)
    requires k < |CONTRACTIONS| && l < |CONTRACTIONS| && CONTRACTIONS[k][0] == CONTRACTIONS[l][0]
    ensures k == l
  {
  }

  lemma LoweredFolds(u: Unicode, r: string, i: nat, k: nat)
    requires u.Valid() && k < |CONTRACTIONS| && LiteralAt(Lowered(u), r, i, CONTRACTIONS[k])
    ensures LiteralAt(u.folds, r, i, CONTRACTIONS[k])
  {
    SuffixLetters(k);
    var suf := CONTRACTIONS[k];
    forall j | i <= j < i + |suf| ensures u.folds(r[j], suf[j - i]) {
      assert Lowered(u)(r[j], suf[j - i]) && suf[j - i] in SUFFIX_LETTERS;
    }
  }

  lemma FoldedOnce(u: Unicode, r: string, i: nat, k: nat, l: nat)
    requires u.Valid() && k < |CONTRACTIONS| && l < |CONTRACTIONS|
    requires LiteralAt(u.folds, r, i, CONTRACTIONS[k]) && LiteralAt(u.folds, r, i, CONTRACTIONS[l])
    ensures k == l
  {
    SuffixLetters(k);
    SuffixLetters(l);
    assert u.folds(r[i], CONTRACTIONS[k][i - i]) && u.folds(r[i], CONTRACTIONS[l][i - i]);
    FirstLettersDiffer(k, l);
  }

  lemma FoldedLetters(u: Unicode, r: string, i: nat, k: nat)
    requires u.Valid() && k < |CONTRACTIONS| && LiteralAt(u.folds, r, i, CONTRACTIONS[k])
    ensures forall j :: i <= j < i + |CONTRACTIONS[k]| ==> u.isLetter(r[j])
  {
    SuffixLetters(k);
    var suf := CONTRACTIONS[k];
    forall j | i <= j < i + |suf| ensures u.isLetter(r[j]) {
      assert u.folds(r[j], suf[j - i]) && suf[j - i] in SUFFIX_LETTERS;
    }
  }

  /** Where the only contraction that can stand there does not end the piece alike. */
  lemma FoldedPiece(u: Unicode, r: string, i: nat, k: nat)
    requires u.Valid() && i < |r| && r[i] == '\'' && k < |CONTRACTIONS| && LiteralAt(u.folds, r, i + 1, CONTRACTIONS[k])
    ensures First(PieceRegex(u), r, i) == Some(i + 1 + |CONTRACTIONS[k]|)
    ensures First(ScannerRegex(u), r, i)
         == if LiteralAt(Lowered(u), r, i + 1, CONTRACTIONS[k]) then Some(i + 1 + |CONTRACTIONS[k]|)
            else Some(RunEnd(u.isLetter, r, i + 1))
  {
    hide First;
    hide AnyOf;
    hide LiteralAt;
    AlternativesFirst(u, u.folds, r, i);
    AlternativesFirst(u, Lowered(u), r, i);
    ContractionFirst(u.folds, r, i);
    ContractionFirst(Lowered(u), r, i);
    forall l | 0 <= l < |CONTRACTIONS| && LiteralAt(u.folds, r, i + 1, CONTRACTIONS[l]) ensures l == k {
      FoldedOnce(u, r, i + 1, k, l);
    }
    forall l | 0 <= l < |CONTRACTIONS| && LiteralAt(Lowered(u), r, i + 1, CONTRACTIONS[l]) ensures l == k {
      LoweredFolds(u, r, i + 1, l);
    }
    AnyOfFirst(u.folds, CONTRACTIONS, r, i + 1, k);
    if LiteralAt(Lowered(u), r, i + 1, CONTRACTIONS[k]) {
      AnyOfFirst(Lowered(u), CONTRACTIONS, r, i + 1, k);
    } else {
      AnyOfNone(Lowered(u), CONTRACTIONS, r, i + 1);
      LettersFirst(u, r, i);
      FoldedStart(u, r, i + 1, k);
    }
  }

  lemma FoldedStart(u: Unicode, r: string, i: nat, k: nat)
    requires u.Valid() && k < |CONTRACTIONS| && LiteralAt(u.folds, r, i, CONTRACTIONS[k])
    ensures i < |r| && u.isLetter(r[i])
  {
    SuffixLetters(k);
    FoldedLetters(u, r, i, k);
  }

  /** The scanner's regex and the published one match alike at a position exactly when no contraction is
      misread there. */
  lemma ScannerExact(u: Unicode, r: string, i: nat)
    requires u.Valid() && i < |r|
    ensures First(ScannerRegex(u), r, i) == First(PieceRegex(u), r, i) <==> !Misread(u, r, i)
  {
    hide First;
    hide AnyOf;
    hide LiteralAt;
    AlternativesFirst(u, u.folds, r, i);
    AlternativesFirst(u, Lowered(u), r, i);
    ContractionFirst(u.folds, r, i);
    ContractionFirst(Lowered(u), r, i);
    if r[i] == '\'' {
      if k: nat :| k < |CONTRACTIONS| && LiteralAt(u.folds, r, i + 1, CONTRACTIONS[k]) {
        FoldedPiece(u, r, i, k);
        MisreadOnce(u, r, i, k);
      } else {
        forall l | 0 <= l < |CONTRACTIONS| ensures !LiteralAt(Lowered(u), r, i + 1, CONTRACTIONS[l]) {
          if LiteralAt(Lowered(u), r, i + 1, CONTRACTIONS[l]) {
            LoweredFolds(u, r, i + 1, l);
          }
        }
        AnyOfNone(u.folds, CONTRACTIONS, r, i + 1);
        AnyOfNone(Lowered(u), CONTRACTIONS, r, i + 1);
      }
    }
  }

  /** With a contraction folded at `i`, being misread is about that contraction: the letters go on past it. */
  lemma MisreadOnce(u: Unicode, r: string, i: nat, k: nat)
    requires u.Valid() && i < |r| && r[i] == '\'' && k < |CONTRACTIONS| && LiteralAt(u.folds, r, i + 1, CONTRACTIONS[k])
    ensures Misread(u, r, i) <==>
      !LiteralAt(Lowered(u), r, i + 1, CONTRACTIONS[k]) && RunEnd(u.isLetter, r, i + 1) != i + 1 + |CONTRACTIONS[k]|
  {
    var e := i + 1 + |CONTRACTIONS[k]|;
    FoldedLetters(u, r, i + 1, k);
    forall l | 0 <= l < |CONTRACTIONS| && MisreadAt(u, r, i + 1, CONTRACTIONS[l]) ensures l == k {
      FoldedOnce(u, r, i + 1, k, l);
    }
    if e == |r| || !u.isLetter(r[e]) {
      RunEndIs(u.isLetter, r, i + 1, e);
    }
    assert MisreadAt(u, r, i + 1, CONTRACTIONS[k]) ==> Misread(u, r, i);
  }

  /** The long s (U+017F) folds to `s` but lower-cases to itself. */
  const LONG_S: string := ['\'', '\U{17F}', 'a']

  lemma LongSMisread(u: Unicode)
    requires u.Valid() && u.folds('\U{17F}', 's') && u.toLower('\U{17F}') == '\U{17F}' && u.isLetter('a')
    ensures LiteralAt(u.folds, LONG_S, 1, CONTRACTIONS[0]) && !LiteralAt(Lowered(u), LONG_S, 1, CONTRACTIONS[0])
    ensures Misread(u, LONG_S, 0)
  {
    assert !Lowered(u)(LONG_S[1], CONTRACTIONS[0][1 - 1]);
    assert MisreadAt(u, LONG_S, 1, CONTRACTIONS[0]);
  }

  /** A quote, a long s and an `a`: the regex ends the piece after two characters, the scanner after three. */
  lemma LongS(u: Unicode)
    requires u.Valid() && u.folds('\U{17F}', 's') && u.toLower('\U{17F}') == '\U{17F}' && u.isLetter('a')
    ensures First(PieceRegex(u), LONG_S, 0) == Some(2) && First(ScannerRegex(u), LONG_S, 0) == Some(3)
  {
    hide First;
    hide LiteralAt;
    hide Misread;
    hide PieceRegex;
    hide ScannerRegex;
    LongSMisread(u);
    FoldedPiece(u, LONG_S, 0, 0);
    FoldedLetters(u, LONG_S, 1, 0);
    RunEndIs(u.isLetter, LONG_S, 1, 3);
  }

  /** The end of the piece starting at `i`: the first match of the ordered alternation, which always
      exists, so the caller always advances. It is the published regex's first match exactly when no
      contraction is misread. */
  method MatchPiece(u: Unicode, r: string, i: nat) returns (m: nat)
    requires u.Valid() && i < |r|
    ensures First(ScannerRegex(u), r, i) == Some(m)
    ensures First(PieceRegex(u), r, i) == Some(m) <==> !Misread(u, r, i)
    ensures i < m <= |r|
  {
    hide First;
    hide Misread;
    ScannerExact(u, r, i);
    PieceMatches(u, Lowered(u), r, i);
    AlternativesFirst(u, Lowered(u), r, i);
    ClassFirst(u.isNumber, r, i);
    var k := MatchContraction(u, r, i);
    if k > i {
      return k;
    }
    k := MatchLetters(u, r, i);
    if k > i {
      return k;
    }
    if u.isNumber(r[i]) {
      return i + 1;
    }
    k := MatchSymbols(u, r, i);
    if k > i {
      return k;
    }
    k := MatchNewlineRun(u, r, i);
    if k > i {
      return k;
    }
    k := MatchSpaces(u, r, i);
    return k;
  }

  /** The alternation matches and advances at every position. */
  lemma PieceMatches(u: Unicode, same: (char, char) -> bool, r: string, i: nat)
    requires u.Valid() && i < |r|
    ensures First(Alternatives(u, same), r, i).Some?
    ensures First(Alternatives(u, same), r, i).value > i
  {
    hide First;
    AlternativesFirst(u, same, r, i);
    ContractionAdvances(same, r, i);
    LettersFirst(u, r, i);
    SymbolsFirst(u, r, i);
    NewlineAdvances(u, r, i);
    ClassFirst(u.isNumber, r, i);
    TrailingFirst(u, r, i);
    PlusFirst(u.isSpace, r, i);
    AltFirst(TrailingRegex(u), Plus(Class(u.isSpace)), r, i);
  }

  lemma ContractionAdvances(same: (char, char) -> bool, r: string, i: nat)
    requires i < |r|
    ensures First(ContractionRegex(same), r, i).Some? ==> First(ContractionRegex(same), r, i).value > i
  {
    hide First;
    ContractionFirst(same, r, i);
  }

  lemma NewlineAdvances(u: Unicode, r: string, i: nat)
    requires u.Valid() && i < |r|
    ensures First(NewlineRegex(u), r, i).Some? ==> First(NewlineRegex(u), r, i).value > i
  {
    hide First;
    var e := RunEnd(u.isSpace, r, i);
    if k :| i <= k < e && IsNewline(r[k]) {
      var last := LastNewline(u, r, k, e);
      NewlineFirst(u, r, i, last);
    } else {
      NewlineNone(u, r, i);
    }
  }

  lemma LastNewline(u: Unicode, r: string, k: nat, e: nat) returns (last: nat)
    requires k < e <= |r| && IsNewline(r[k])
    ensures k <= last < e && IsNewline(r[last])
    ensures forall j :: last < j < e ==> !IsNewline(r[j])
    decreases e - k
  {
    if j :| k < j < e && IsNewline(r[j]) {
      last := LastNewline(u, r, j, e);
    } else {
      last := k;
    }
  }

  /** No piece of the scanner's split from `i` on starts at a misread contraction. */
  ghost predicate WellRead(u: Unicode, s: string, i: nat)
    requires i <= |s|
    decreases |s| - i
  {
    i == |s| || (!Misread(u, s, i) && WellRead(u, s, PieceEnd(ScannerRegex(u), s, i)))
  }

  /** The scanner splits a text as the published regex does exactly when it misreads no contraction. */
  lemma {:induction false} SplitExact(u: Unicode, s: string, i: nat)
    requires u.Valid() && i <= |s|
    ensures Split(ScannerRegex(u), s, i) == Split(PieceRegex(u), s, i) <==> WellRead(u, s, i)
    decreases |s| - i
  {
    hide First;
    hide Misread;
    hide ScannerRegex;
    hide PieceRegex;
    hide PieceEnd;
    hide Split;
    if i == |s| {
      NothingLeft(ScannerRegex(u), PieceRegex(u), s);
    } else {
      var e, f := PieceEnd(ScannerRegex(u), s, i), PieceEnd(PieceRegex(u), s, i);
      EndsExact(u, s, i);
      SplitHead(ScannerRegex(u), s, i);
      SplitHead(PieceRegex(u), s, i);
      HeadsDecide(s, i, e, f, Split(ScannerRegex(u), s, e), Split(PieceRegex(u), s, f));
      if e == f {
        SplitExact(u, s, e);
      }
    }
  }

  lemma NothingLeft(a: Regex, b: Regex, s: string)
    ensures Split(a, s, |s|) == Split(b, s, |s|) == []
  {
  }

  lemma EndsExact(u: Unicode, s: string, i: nat)
    requires u.Valid() && i < |s|
    ensures PieceEnd(ScannerRegex(u), s, i) == PieceEnd(PieceRegex(u), s, i) <==> !Misread(u, s, i)
  {
    hide First;
    hide Misread;
    hide ScannerRegex;
    hide PieceRegex;
    ScannerExact(u, s, i);
    PieceMatches(u, u.folds, s, i);
    PieceMatches(u, Lowered(u), s, i);
    RegexesAre(u);
  }

  lemma HeadsDecide(s: string, i: nat, e: nat, f: nat, a: seq<string>, b: seq<string>)
    requires i < e <= |s| && i < f <= |s|
    ensures [s[i..e]] + a == [s[i..f]] + b <==> e == f && a == b
  {
    var x, y := [s[i..e]] + a, [s[i..f]] + b;
    assert x[0] == s[i..e] && y[0] == s[i..f] && x[1..] == a && y[1..] == b;
  }

  lemma RegexesAre(u: Unicode)
    ensures PieceRegex(u) == Alternatives(u, u.folds) && ScannerRegex(u) == Alternatives(u, Lowered(u))
  {
  }

  method PreTokenize(u: Unicode, s: string) returns (out: seq<string>)
    requires u.Valid()
    ensures out == Split(ScannerRegex(u), s, 0)
    ensures out == Split(PieceRegex(u), s, 0) <==> WellRead(u, s, 0)
    ensures Concat(out) == s
    ensures forall k :: 0 <= k < |out| ==> out[k] != ""
  {
    hide ScannerRegex, PieceRegex, First;
    hide WellRead;
    hide Misread;
    out := [];
    SplitExact(u, s, 0);
    var i := 0;
    while i < |s|
      invariant i <= |s|
      invariant out + Split(ScannerRegex(u), s, i) == Split(ScannerRegex(u), s, 0)
    {
      var m := MatchPiece(u, s, i);
      if m > i {
        out := out + [s[i..m]];
        i := m;
        continue;
      }
      assert false; // the stall guard is unreachable
    }
    SplitCovers(ScannerRegex(u), s, 0);
  }
}
