/** The byte-level BPE tokenizer: ranked merging, special-token segmentation and
    the buffered decoder, up to the full encode/decode round trip. */
module Bpe {
  import opened Basics
  import opened Regex
  import opened ByteLevel
  import opened PreTokenize

  datatype Tables = Tables(
    fwd: seq<char>,
    rev: map<char, Byte>,
    vocab: map<string, int>,
    idToTok: map<int, string>,
    rank: map<(string, string), int>,
    ignoreMerges: bool,
    specialByContent: map<string, int>,
    specialByID: map<int, string>,
    specials: seq<string>)           // special contents in matching order
  {
    /** What the encode/decode round trip needs of the tables. */
    ghost predicate Lossless() {
      && Inverse(fwd, rev)
      && (forall b: Byte :: [RuneOf(b)] in vocab)
      && (forall a, b :: (a, b) in rank ==> a + b in vocab)
      && VocabInverted(vocab, idToTok, specialByID)
      && SpecialsInverted(specials, specialByContent, specialByID)
    }
  }

  ghost predicate VocabInverted(vocab: map<string, int>, idToTok: map<int, string>, byID: map<int, string>) {
    forall tok :: tok in vocab ==> vocab[tok] in idToTok && idToTok[vocab[tok]] == tok && vocab[tok] !in byID
  }

  ghost predicate SpecialsInverted(specials: seq<string>, byContent: map<string, int>, byID: map<int, string>) {
    && (forall c :: c in specials ==> c in byContent)
    && (forall c :: c in byContent ==> byContent[c] in byID && byID[byContent[c]] == c)
  }

  // Building the tables.

  datatype AddedToken = AddedToken(id: int, content: string)

  function InsertLongest(c: string, sorted: seq<string>): (r: seq<string>)
    ensures forall x :: x in r <==> x == c || x in sorted
  {
    if sorted == [] then [c]
    else if |Utf8(c)| > |Utf8(sorted[0])| then [c] + sorted
    else [sorted[0]] + InsertLongest(c, sorted[1..])
  }

  ghost predicate LongestFirst(cs: seq<string>) {
    forall i, j :: 0 <= i < j < |cs| ==> |Utf8(cs[i])| >= |Utf8(cs[j])|
  }

  lemma LongestCons(c: string, rest: seq<string>)
    requires LongestFirst(rest) && forall x :: x in rest ==> |Utf8(c)| >= |Utf8(x)|
    ensures LongestFirst([c] + rest)
  {
  }

  lemma {:induction false} InsertSorted(c: string, sorted: seq<string>)
    requires LongestFirst(sorted)
    ensures LongestFirst(InsertLongest(c, sorted))
  {
    if sorted != [] {
      assert forall x :: x in sorted[1..] ==> |Utf8(sorted[0])| >= |Utf8(x)|;
      if |Utf8(c)| > |Utf8(sorted[0])| {
        assert forall x :: x in sorted ==> x == sorted[0] || x in sorted[1..];
        LongestCons(c, sorted);
      } else {
        InsertSorted(c, sorted[1..]);
        LongestCons(sorted[0], InsertLongest(c, sorted[1..]));
      }
    }
  }

  function SortLongest(cs: seq<string>): (r: seq<string>)
    ensures LongestFirst(r)
    ensures forall x :: x in r <==> x in cs
  {
    if cs == [] then []
    else
      InsertSorted(cs[0], SortLongest(cs[1..]));
      InsertLongest(cs[0], SortLongest(cs[1..]))
  }

  /** What a tokenizer file must satisfy for its tables to be lossless. */
  ghost predicate LosslessInput(vocab: map<string, int>, merges: seq<(string, string)>, added: seq<AddedToken>) {
    && (forall b: Byte :: [RuneOf(b)] in vocab)
    && (forall i :: 0 <= i < |merges| ==> merges[i].0 + merges[i].1 in vocab)
    && (forall a, b :: a in vocab && b in vocab && vocab[a] == vocab[b] ==> a == b)
    && (forall i :: 0 <= i < |added| ==> added[i].id !in vocab.Values)
    && (forall i, j :: 0 <= i < j < |added| && added[i].id == added[j].id ==> added[i].content == added[j].content)
  }

  /** Inverts the vocabulary; for a repeated id some token wins. */
  method InvertVocab(vocab: map<string, int>) returns (idToTok: map<int, string>)
    ensures Inverts(vocab, idToTok)
  {
    idToTok := map[];
    var todo := vocab.Keys;
    while todo != {}
      invariant todo <= vocab.Keys
      invariant forall tok :: tok in vocab && tok !in todo ==> vocab[tok] in idToTok
      invariant forall id :: id in idToTok ==> idToTok[id] in vocab && vocab[idToTok[id]] == id
      decreases |todo|
    {
      var tok :| tok in todo;
      idToTok := idToTok[vocab[tok] := tok];
      todo := todo - {tok};
    }
  }

  /** The rank of a pair is the position of its last occurrence in the merge list. */
  ghost predicate RanksOf(merges: seq<(string, string)>, rank: map<(string, string), int>) {
    && (forall p :: p in rank <==> p in merges)
    && (forall p :: p in rank ==> 0 <= rank[p] < |merges| && merges[rank[p]] == p)
    && (forall p, j :: p in rank && rank[p] < j < |merges| ==> merges[j] != p)
  }

  method BuildRanks(merges: seq<(string, string)>) returns (rank: map<(string, string), int>)
    ensures RanksOf(merges, rank)
  {
    rank := map[];
    for i := 0 to |merges|
      invariant RanksOf(merges[..i], rank)
    {
      assert merges[..i + 1] == merges[..i] + [merges[i]];
      rank := rank[merges[i] := i];
    }
    assert merges[..|merges|] == merges;
  }

  /** Records the added tokens, in order, over the inverted vocabulary. */
  method AddSpecials(added: seq<AddedToken>, plain: map<int, string>)
    returns (byContent: map<string, int>, byID: map<int, string>, idToTok: map<int, string>, contents: seq<string>)
    ensures |contents| == |added| && forall j :: 0 <= j < |added| ==> contents[j] == added[j].content
    ensures Recorded(added, byContent, byID) && LastWins(added, byContent, byID)
    ensures idToTok == plain + byID
  {
    hide LastWins;
    byContent, byID, idToTok, contents := map[], map[], plain, [];
    NothingWins(added);
    for i := 0 to |added|
      invariant |contents| == i && forall j :: 0 <= j < i ==> contents[j] == added[j].content
      invariant forall j :: 0 <= j < i ==> added[j].content in byContent && added[j].id in byID
      invariant forall c :: c in byContent ==> AddedToken(byContent[c], c) in added
      invariant forall id :: id in byID ==> AddedToken(id, byID[id]) in added
      invariant idToTok == plain + byID
      invariant LastWins(added[..i], byContent, byID)
    {
      LastWinsMore(added, i, byContent, byID);
      var a := added[i];
      assert AddedToken(a.id, a.content) == added[i];
      byContent := byContent[a.content := a.id];
      byID := byID[a.id := a.content];
      idToTok := idToTok[a.id := a.content];
      contents := contents + [a.content];
    }
    assert added[..|added|] == added;
  }

  /** The id of the last added token with this content. */
  ghost function IDOf(added: seq<AddedToken>, c: string): Option<int> {
    if added == [] then None
    else if added[|added| - 1].content == c then Some(added[|added| - 1].id)
    else IDOf(added[..|added| - 1], c)
  }

  /** The content of the last added token with this id. */
  ghost function ContentOf(added: seq<AddedToken>, id: int): Option<string> {
    if added == [] then None
    else if added[|added| - 1].id == id then Some(added[|added| - 1].content)
    else ContentOf(added[..|added| - 1], id)
  }

  /** Of several added tokens with one content or one id the last decides. */
  ghost predicate LastWins(added: seq<AddedToken>, byContent: map<string, int>, byID: map<int, string>) {
    && (forall c :: IDOf(added, c) == if c in byContent then Some(byContent[c]) else None)
    && (forall id :: ContentOf(added, id) == if id in byID then Some(byID[id]) else None)
  }

  lemma NothingWins(added: seq<AddedToken>)
    ensures LastWins(added[..0], map[], map[])
  {
  }

  lemma LastWinsMore(added: seq<AddedToken>, i: nat, byContent: map<string, int>, byID: map<int, string>)
    requires i < |added| && LastWins(added[..i], byContent, byID)
    ensures LastWins(added[..i + 1], byContent[added[i].content := added[i].id], byID[added[i].id := added[i].content])
  {
    assert added[..i + 1][..i] == added[..i];
  }

  /** An id stands for the added token with it, else for some token of the vocabulary with it. */
  ghost predicate Named(vocab: map<string, int>, byID: map<int, string>, idToTok: map<int, string>) {
    && (forall tok :: tok in vocab ==> vocab[tok] in idToTok)
    && (forall id :: id in byID ==> id in idToTok && idToTok[id] == byID[id])
    && (forall id :: id in idToTok && id !in byID ==> idToTok[id] in vocab && vocab[idToTok[id]] == id)
  }

  lemma NamedBy(vocab: map<string, int>, byID: map<int, string>, plain: map<int, string>)
    requires Inverts(vocab, plain)
    ensures Named(vocab, byID, plain + byID)
  {
  }

  lemma ContentsSorted(added: seq<AddedToken>, contents: seq<string>)
    requires |contents| == |added| && forall j :: 0 <= j < |added| ==> contents[j] == added[j].content
    ensures AreContents(added, SortLongest(contents))
  {
    forall c ensures c in SortLongest(contents) <==> exists i :: 0 <= i < |added| && added[i].content == c {
      if c in contents {
        var i :| 0 <= i < |contents| && contents[i] == c;
      }
    }
  }

  /** The maps a parsed tokenizer file yields; an empty vocabulary is an error. */
  method Build(vocab: map<string, int>, merges: seq<(string, string)>, ignoreMerges: bool, added: seq<AddedToken>)
    returns (r: Option<Tables>)
    ensures r.None? <==> |vocab| == 0
    ensures r.Some? ==>
      && r.value.vocab == vocab && r.value.ignoreMerges == ignoreMerges
      && Inverse(r.value.fwd, r.value.rev)
      && RanksOf(merges, r.value.rank)
      && LongestFirst(r.value.specials)
      && AreContents(added, r.value.specials)
      && Recorded(added, r.value.specialByContent, r.value.specialByID)
      && LastWins(added, r.value.specialByContent, r.value.specialByID)
      && Named(vocab, r.value.specialByID, r.value.idToTok)
    ensures r.Some? && LosslessInput(vocab, merges, added) ==> r.value.Lossless()
  {
    hide LastWins;
    hide Named;
    hide LosslessInput;
    hide Tables.Lossless;
    hide AreContents;
    hide Recorded;
    hide Inverse;
    hide Inverts;
    hide RanksOf;
    hide SortLongest;
    hide LongestFirst;
    if |vocab| == 0 {
      return None;
    }
    var fwd, rev := ByteToRune();
    var plain := InvertVocab(vocab);
    var rank := BuildRanks(merges);
    var byContent, byID, idToTok, contents := AddSpecials(added, plain);
    var t := Tables(fwd, rev, vocab, idToTok, rank, ignoreMerges, byContent, byID, SortLongest(contents));
    ContentsSorted(added, contents);
    NamedBy(vocab, byID, plain);
    if LosslessInput(vocab, merges, added) {
      BuiltLossless(t, merges, added, plain);
    }
    r := Some(t);
  }

  lemma BuiltLossless(t: Tables, merges: seq<(string, string)>, added: seq<AddedToken>, plain: map<int, string>)
    requires LosslessInput(t.vocab, merges, added) && Inverse(t.fwd, t.rev) && RanksOf(merges, t.rank)
    requires Inverts(t.vocab, plain) && t.idToTok == plain + t.specialByID
    requires Recorded(added, t.specialByContent, t.specialByID)
    requires AreContents(added, t.specials)
    ensures t.Lossless()
  {
    VocabBuilt(t.vocab, added, plain, t.specialByID);
    SpecialsBuilt(added, t.specials, t.specialByContent, t.specialByID);
    RanksBuilt(t.vocab, merges, added, t.rank);
  }

  ghost predicate Inverts(vocab: map<string, int>, plain: map<int, string>) {
    && (forall tok :: tok in vocab ==> vocab[tok] in plain)
    && (forall id :: id in plain ==> plain[id] in vocab && vocab[plain[id]] == id)
  }

  ghost predicate AreContents(added: seq<AddedToken>, specials: seq<string>) {
    forall c :: c in specials <==> exists i :: 0 <= i < |added| && added[i].content == c
  }

  /** The maps know every listed token and nothing else. */
  ghost predicate Recorded(added: seq<AddedToken>, byContent: map<string, int>, byID: map<int, string>) {
    && (forall j :: 0 <= j < |added| ==> added[j].content in byContent && added[j].id in byID)
    && (forall c :: c in byContent ==> AddedToken(byContent[c], c) in added)
    && (forall id :: id in byID ==> AddedToken(id, byID[id]) in added)
  }

  lemma Listed(added: seq<AddedToken>, a: AddedToken) returns (i: nat)
    requires a in added
    ensures i < |added| && added[i] == a
  {
    i :| i < |added| && added[i] == a;
  }

  lemma VocabBuilt(vocab: map<string, int>, added: seq<AddedToken>, plain: map<int, string>, byID: map<int, string>)
    requires forall a, b :: a in vocab && b in vocab && vocab[a] == vocab[b] ==> a == b
    requires forall i :: 0 <= i < |added| ==> added[i].id !in vocab.Values
    requires Inverts(vocab, plain)
    requires forall id :: id in byID ==> AddedToken(id, byID[id]) in added
    ensures VocabInverted(vocab, plain + byID, byID)
  {
    forall tok | tok in vocab
      ensures vocab[tok] in plain && plain[vocab[tok]] == tok && vocab[tok] !in byID
    {
      var id := vocab[tok];
      assert id in vocab.Values;
      if id in byID {
        var i := Listed(added, AddedToken(id, byID[id]));
        assert false;
      }
    }
  }

  lemma SpecialsBuilt(added: seq<AddedToken>, specials: seq<string>, byContent: map<string, int>, byID: map<int,
                      string>)
    requires forall i, j :: 0 <= i < j < |added| && added[i].id == added[j].id ==> added[i].content == added[j].content
    requires AreContents(added, specials) && Recorded(added, byContent, byID)
    ensures SpecialsInverted(specials, byContent, byID)
  {
    hide SortLongest;
    forall c | c in byContent ensures byContent[c] in byID && byID[byContent[c]] == c {
      var id := byContent[c];
      var i := Listed(added, AddedToken(id, c));
      assert added[i].id in byID;
      var j := Listed(added, AddedToken(id, byID[id]));
    }
  }

  lemma RanksBuilt(vocab: map<string, int>, merges: seq<(string, string)>, added: seq<AddedToken>,
                   rank: map<(string, string), int>)
    requires LosslessInput(vocab, merges, added) && RanksOf(merges, rank)
    ensures forall a, b :: (a, b) in rank ==> a + b in vocab
  {
    forall a, b | (a, b) in rank ensures a + b in vocab {
      assert merges[rank[(a, b)]] == (a, b);
    }
  }

  // Merging.

  predicate Ranked(rank: map<(string, string), int>, symbols: seq<string>, i: nat) {
    i + 1 < |symbols| && (symbols[i], symbols[i + 1]) in rank
  }

  function RankAt(rank: map<(string, string), int>, symbols: seq<string>, i: nat): int
    requires Ranked(rank, symbols, i)
  {
    rank[(symbols[i], symbols[i + 1])]
  }

  /** `at` is the leftmost pair of lowest rank. */
  ghost predicate BindsFirst(rank: map<(string, string), int>, symbols: seq<string>, at: nat) {
    && Ranked(rank, symbols, at)
    && forall i: nat :: Ranked(rank, symbols, i) ==>
         && RankAt(rank, symbols, at) <= RankAt(rank, symbols, i)
         && (RankAt(rank, symbols, at) == RankAt(rank, symbols, i) ==> at <= i)
  }

  function MergeAt(symbols: seq<string>, at: nat): (r: seq<string>)
    requires at + 1 < |symbols|
    ensures |r| == |symbols| - 1
  {
    symbols[..at] + [symbols[at] + symbols[at + 1]] + symbols[at + 2..]
  }

  /** Merging the leftmost lowest-ranked pair until no adjacent pair is ranked. */
  ghost function MergeAll(rank: map<(string, string), int>, symbols: seq<string>): seq<string>
    decreases |symbols|
  {
    if at: nat :| BindsFirst(rank, symbols, at) then MergeAll(rank, MergeAt(symbols, at)) else symbols
  }

  lemma BindsFirstUnique(rank: map<(string, string), int>, symbols: seq<string>, a: nat, b: nat)
    requires BindsFirst(rank, symbols, a) && BindsFirst(rank, symbols, b)
    ensures a == b
  {
  }

  lemma MergeAllStep(rank: map<(string, string), int>, symbols: seq<string>, at: nat)
    requires BindsFirst(rank, symbols, at)
    ensures MergeAll(rank, symbols) == MergeAll(rank, MergeAt(symbols, at))
  {
    forall b: nat | BindsFirst(rank, symbols, b) ensures b == at {
      BindsFirstUnique(rank, symbols, a := at, b := b);
    }
  }

  /** If some pair is ranked, one binds first. */
  lemma BestExists(rank: map<(string, string), int>, symbols: seq<string>, n: nat) returns (at: nat)
    requires Ranked(rank, symbols, n)
    ensures BindsFirst(rank, symbols, at)
  {
    at := n;
    for i := 0 to |symbols|
      invariant Ranked(rank, symbols, at)
      invariant forall j: nat :: j < i && Ranked(rank, symbols, j) ==>
        && RankAt(rank, symbols, at) <= RankAt(rank, symbols, j)
        && (RankAt(rank, symbols, at) == RankAt(rank, symbols, j) ==> at <= j)
    {
      if Ranked(rank, symbols, i) {
        var here, best := RankAt(rank, symbols, i), RankAt(rank, symbols, at);
        if here < best || (here == best && i < at) {
          at := i;
        }
      }
    }
  }

  /** Merging keeps the text, stops only when no adjacent pair is ranked, and stays in the vocabulary. */
  lemma {:induction false} MergeAllSound(rank: map<(string, string), int>, symbols: seq<string>, vocab: set<string>)
    ensures Concat(MergeAll(rank, symbols)) == Concat(symbols)
    ensures forall i: nat :: !Ranked(rank, MergeAll(rank, symbols), i)
    ensures (forall a, b :: (a, b) in rank ==> a + b in vocab) && (forall s :: s in symbols ==> s in vocab)
        ==> forall s :: s in MergeAll(rank, symbols) ==> s in vocab
    decreases |symbols|
  {
    if n: nat :| Ranked(rank, symbols, n) {
      var at := BestExists(rank, symbols, n);
      MergeAllStep(rank, symbols, at);
      ConcatMergeAt(symbols, at);
      var merged := MergeAt(symbols, at);
      assert forall s :: s in merged ==> s in symbols || s == symbols[at] + symbols[at + 1];
      MergeAllSound(rank, merged, vocab);
    }
  }

  lemma ConcatOne<T>(x: seq<T>)
    ensures Concat([x]) == x
  {
    assert Concat([x][1..]) == [];
  }

  lemma {:induction false} ConcatMergeAt(symbols: seq<string>, at: nat)
    requires at + 1 < |symbols|
    ensures Concat(MergeAt(symbols, at)) == Concat(symbols)
    decreases at
  {
    if at == 0 {
      assert MergeAt(symbols, 0)[1..] == symbols[2..] == symbols[1..][1..];
      assert Concat(symbols) == symbols[0] + (symbols[1] + Concat(symbols[2..]));
    } else {
      assert MergeAt(symbols, at)[1..] == MergeAt(symbols[1..], at - 1);
      ConcatMergeAt(symbols[1..], at - 1);
    }
  }

  function Singles(piece: string): (symbols: seq<string>)
    ensures |symbols| == |piece|
    ensures forall i :: 0 <= i < |piece| ==> symbols[i] == [piece[i]]
  {
    seq(|piece|, i requires 0 <= i < |piece| => [piece[i]])
  }

  lemma {:induction false} ConcatSingles(piece: string)
    ensures Concat(Singles(piece)) == piece
  {
    if piece != [] {
      assert Singles(piece)[1..] == Singles(piece[1..]);
      ConcatSingles(piece[1..]);
    }
  }

  /** The ids of the symbols that have one. */
  function Ids(vocab: map<string, int>, symbols: seq<string>): seq<int> {
    if symbols == [] then []
    else (if symbols[0] in vocab then [vocab[symbols[0]]] else []) + Ids(vocab, symbols[1..])
  }

  lemma {:induction false} IdsSnoc(vocab: map<string, int>, symbols: seq<string>, s: string)
    ensures Ids(vocab, symbols + [s]) == Ids(vocab, symbols) + Ids(vocab, [s])
    decreases |symbols|
  {
    hide Ids;
    if symbols == [] {
      assert symbols + [s] == [s];
      NoIds(vocab);
    } else {
      var rest, all := symbols[1..], symbols + [s];
      assert all[1..] == rest + [s] && all[0] == symbols[0];
      IdsHead(vocab, all);
      IdsHead(vocab, symbols);
      IdsSnoc(vocab, rest, s);
    }
  }

  lemma NoIds(vocab: map<string, int>)
    ensures Ids(vocab, []) == []
  {
  }

  lemma IdsHead(vocab: map<string, int>, symbols: seq<string>)
    requires symbols != []
    ensures Ids(vocab, symbols) == (if symbols[0] in vocab then [vocab[symbols[0]]] else []) + Ids(vocab, symbols[1..])
  {
  }

  lemma IdsOne(vocab: map<string, int>, s: string)
    ensures Ids(vocab, [s]) == if s in vocab then [vocab[s]] else []
  {
    assert [s][1..] == [];
  }

  ghost function BpeIds(t: Tables, piece: string): seq<int> {
    if piece == "" then []
    else if t.ignoreMerges && piece in t.vocab then [t.vocab[piece]]
    else Ids(t.vocab, MergeAll(t.rank, Singles(piece)))
  }

  /** The pair the merge loop joins next, or -1. */
  method BestPair(rank: map<(string, string), int>, symbols: seq<string>) returns (bestAt: int)
    requires |symbols| > 0
    ensures bestAt < 0 ==> forall j: nat :: !Ranked(rank, symbols, j)
    ensures bestAt >= 0 ==> BindsFirst(rank, symbols, bestAt)
  {
    var bestRank := 0;
    bestAt := -1;
    for i := 0 to |symbols| - 1
      invariant bestAt < i
      invariant bestAt < 0 ==> forall j: nat :: j < i ==> !Ranked(rank, symbols, j)
      invariant bestAt >= 0 ==>
        && Ranked(rank, symbols, bestAt) && bestRank == RankAt(rank, symbols, bestAt)
        && forall j: nat :: j < i && Ranked(rank, symbols, j) ==>
             && bestRank <= RankAt(rank, symbols, j)
             && (bestRank == RankAt(rank, symbols, j) ==> bestAt <= j)
    {
      if (symbols[i], symbols[i + 1]) in rank {
        var rk := rank[(symbols[i], symbols[i + 1])];
        assert Ranked(rank, symbols, i) && rk == RankAt(rank, symbols, i);
        if bestAt < 0 || rk < bestRank {
          bestRank, bestAt := rk, i;
        }
      }
    }
  }

  method Merge(rank: map<(string, string), int>, piece: string) returns (symbols: seq<string>)
    requires piece != ""
    ensures symbols == MergeAll(rank, Singles(piece))
  {
    symbols := Singles(piece);
    while |symbols| > 1
      invariant |symbols| > 0
      invariant MergeAll(rank, symbols) == MergeAll(rank, Singles(piece))
      decreases |symbols|
    {
      var bestAt := BestPair(rank, symbols);
      if bestAt < 0 {
        break;
      }
      MergeAllStep(rank, symbols, bestAt);
      var merged := symbols[bestAt] + symbols[bestAt + 1];
      assert MergeAt(symbols, bestAt) == symbols[..bestAt] + ([merged] + symbols[bestAt + 2..]);
      symbols := symbols[..bestAt] + ([merged] + symbols[bestAt + 2..]);
    }
    assert forall j: nat :: !Ranked(rank, symbols, j);
  }

  method EncodePiece(t: Tables, piece: string) returns (ids: seq<int>)
    ensures ids == BpeIds(t, piece)
  {
    hide MergeAll;
    if piece == "" {
      return [];
    }
    if t.ignoreMerges {
      if piece in t.vocab {
        return [t.vocab[piece]];
      }
    }
    var symbols := Merge(t.rank, piece);
    ids := [];
    for i := 0 to |symbols|
      invariant ids == Ids(t.vocab, symbols[..i])
    {
      IdsSnoc(t.vocab, symbols[..i], symbols[i]);
      IdsOne(t.vocab, symbols[i]);
      assert symbols[..i + 1] == symbols[..i] + [symbols[i]];
      if symbols[i] in t.vocab {
        ids := ids + [t.vocab[symbols[i]]];
      }
    }
    assert symbols[..|symbols|] == symbols;
  }

  // Segmentation around special tokens.

  function Same(): (char, char) -> bool { (c, d) => c == d }

  /** The first position at or after `i` where `re` matches. */
  function Find(re: Regex, s: string, i: nat): (at: Option<nat>)
    requires i <= |s|
    ensures at.Some? ==> i <= at.value <= |s| && First(re, s, at.value).Some?
    decreases |s| - i
  {
    if First(re, s, i).Some? then Some(i)
    else if i == |s| then None
    else Find(re, s, i + 1)
  }

  /** A stretch of text, and the id of the special token it spells, or -1. */
  datatype Segment = Segment(text: string, special: int)

  function SpecialRegex(t: Tables): Regex
    requires t.specials != []
  {
    AnyOf(Same(), t.specials)
  }

  function SpecialID(t: Tables, content: string): int {
    if content in t.specialByContent then t.specialByContent[content] else 0
  }

  function Plain(s: string): seq<Segment> {
    if s == "" then [] else [Segment(s, -1)]
  }

  /** The segments of `s` from `last`, searching from `pos`: non-overlapping leftmost hits and the spans
      between them. An empty hit right after another hit (`began`) is passed over. */
  function SegmentsFrom(t: Tables, s: string, last: nat, pos: nat, began: bool): seq<Segment>
    requires t.specials != [] && last <= |s| && last <= pos <= |s| + 1
    decreases |s| + 1 - pos
  {
    if pos > |s| then Plain(s[last..])
    else
      var at := Find(SpecialRegex(t), s, pos);
      if at.None? then Plain(s[last..])
      else
        var lo := at.value;
        var hi := First(SpecialRegex(t), s, lo).value;
        if Abuts(last, pos, began, lo, hi) then SegmentsFrom(t, s, last, pos + 1, began)
        else Plain(s[last..lo]) + [Hit(t, s, lo, hi)] + SegmentsFrom(t, s, hi, Onward(pos, hi), true)
  }

  predicate Abuts(last: nat, pos: nat, began: bool, lo: nat, hi: nat) {
    hi == pos && began && lo == last
  }

  /** Where the search goes on after a hit: past an empty one. */
  function Onward(pos: nat, hi: nat): nat {
    if hi == pos then pos + 1 else hi
  }

  function Hit(t: Tables, s: string, lo: nat, hi: nat): Segment
    requires lo <= hi <= |s|
  {
    Segment(s[lo..hi], SpecialID(t, s[lo..hi]))
  }

  function Segments(t: Tables, s: string): seq<Segment> {
    if t.specials == [] then [Segment(s, -1)] else SegmentsFrom(t, s, 0, 0, false)
  }

  /** A hit of the special-token pattern spells one of the contents: the first listed that is present. */
  lemma SpecialHit(t: Tables, s: string, i: nat) returns (k: nat)
    requires t.specials != [] && i <= |s| && First(SpecialRegex(t), s, i).Some?
    ensures k < |t.specials| && LiteralAt(Same(), s, i, t.specials[k])
    ensures forall j :: 0 <= j < k ==> !LiteralAt(Same(), s, i, t.specials[j])
    ensures First(SpecialRegex(t), s, i) == Some(i + |t.specials[k]|)
    ensures s[i..i + |t.specials[k]|] == t.specials[k]
  {
    hide First;
    hide AnyOf;
    if forall j :: 0 <= j < |t.specials| ==> !LiteralAt(Same(), s, i, t.specials[j]) {
      AnyOfNone(Same(), t.specials, s, i);
      assert false;
    }
    k := 0;
    while !LiteralAt(Same(), s, i, t.specials[k])
      invariant k < |t.specials|
      invariant forall j :: 0 <= j < k ==> !LiteralAt(Same(), s, i, t.specials[j])
      invariant exists j :: k <= j < |t.specials| && LiteralAt(Same(), s, i, t.specials[j])
      decreases |t.specials| - k
    {
      k := k + 1;
    }
    AnyOfFirst(Same(), t.specials, s, i, k);
  }

  lemma TextOfHit(p: string, hit: Segment, rest: seq<Segment>)
    ensures SegmentsText(Plain(p) + [hit] + rest) == p + (hit.text + SegmentsText(rest))
  {
    var tail := [hit] + rest;
    assert tail[1..] == rest;
    assert Plain(p) + [hit] + rest == Plain(p) + tail;
    if p != "" {
      assert (Plain(p) + tail)[1..] == tail;
    } else {
      assert Plain(p) + tail == tail;
    }
  }

  lemma TextOfPlain(p: string)
    ensures SegmentsText(Plain(p)) == p
  {
    if p != "" {
      assert Plain(p)[1..] == [];
    }
  }

  lemma ThreeParts(s: string, last: nat, lo: nat, hi: nat)
    requires last <= lo <= hi <= |s|
    ensures s[last..] == s[last..lo] + (s[lo..hi] + s[hi..])
  {
  }

  /** Sorted longest first, overlapping contents match greedily: no longer one starts at the same place. */
  lemma LongestSpecialWins(t: Tables, s: string, i: nat, c: string)
    requires t.specials != [] && i <= |s| && First(SpecialRegex(t), s, i).Some?
    requires LongestFirst(t.specials)
    requires c in t.specials && LiteralAt(Same(), s, i, c)
    ensures i + |c| <= First(SpecialRegex(t), s, i).value
  {
    hide First;
    hide AnyOf;
    var k := SpecialHit(t, s, i);
    var hit := t.specials[k];
    if |c| > |hit| {
      assert c[..|hit|] == hit by {
        forall j | 0 <= j < |hit| ensures c[j] == hit[j] {
          assert Same()(s[i + j], c[i + j - i]) && Same()(s[i + j], hit[i + j - i]);
        }
      }
      assert c == hit + c[|hit|..];
      Utf8Concat(hit, c[|hit|..]);
      assert false;
    }
  }

  /** The segments put the text back together. */
  lemma {:induction false} SegmentsCover(t: Tables, s: string, last: nat, pos: nat, began: bool)
    requires t.specials != [] && last <= |s| && last <= pos <= |s| + 1
    ensures SegmentsText(SegmentsFrom(t, s, last, pos, began)) == s[last..]
    decreases |s| + 1 - pos
  {
    hide First;
    hide AnyOf;
    hide Find;
    hide SegmentsText;
    TextOfPlain(s[last..]);
    if pos <= |s| {
      var at := Find(SpecialRegex(t), s, pos);
      if at.Some? {
        var lo, hi := at.value, First(SpecialRegex(t), s, at.value).value;
        if Abuts(last, pos, began, lo, hi) {
          SegmentsCover(t, s, last, pos + 1, began);
        } else {
          SegmentsCover(t, s, hi, Onward(pos, hi), true);
          TextOfHit(s[last..lo], Hit(t, s, lo, hi), SegmentsFrom(t, s, hi, Onward(pos, hi), true));
          ThreeParts(s, last, lo, hi);
        }
      }
    }
  }

  function SegmentsText(segs: seq<Segment>): string {
    if segs == [] then [] else segs[0].text + SegmentsText(segs[1..])
  }

  /** Leftmost search, as the library's match list is built. */
  method FindNext(re: Regex, s: string, i: nat) returns (at: Option<nat>)
    requires i <= |s|
    ensures at == Find(re, s, i)
  {
    hide First;
    hide AnyOf;
    var j := i;
    while j < |s| && First(re, s, j).None?
      invariant i <= j <= |s|
      invariant Find(re, s, j) == Find(re, s, i)
    {
      j := j + 1;
    }
    return if First(re, s, j).Some? then Some(j) else None;
  }

  lemma SegmentsHit(t: Tables, s: string, last: nat, pos: nat, began: bool, lo: nat, hi: nat, done: seq<Segment>)
    requires t.specials != [] && last <= pos <= lo <= hi <= |s| && !Abuts(last, pos, began, lo, hi)
    requires Find(SpecialRegex(t), s, pos) == Some(lo) && First(SpecialRegex(t), s, lo) == Some(hi)
    ensures done + SegmentsFrom(t, s, last, pos, began)
         == done + Plain(s[last..lo]) + [Hit(t, s, lo, hi)] + SegmentsFrom(t, s, hi, Onward(pos, hi), true)
  {
    hide Find;
    hide First;
    hide SpecialRegex;
  }

  /** Emits a plain span unless it is empty. */
  method AppendSpan(segs: seq<Segment>, span: string) returns (r: seq<Segment>)
    ensures r == segs + Plain(span)
  {
    if |span| > 0 {
      return segs + [Segment(span, -1)];
    }
    return segs;
  }

  method EachSegment(t: Tables, text: string) returns (segs: seq<Segment>)
    ensures segs == Segments(t, text)
  {
    hide First;
    hide Find;
    hide SpecialRegex;
    if t.specials == [] {
      return [Segment(text, -1)];
    }
    segs := [];
    var last, pos, began := 0, 0, false;
    while pos <= |text|
      invariant 0 <= last <= |text| && last <= pos <= |text| + 1
      invariant segs + SegmentsFrom(t, text, last, pos, began) == SegmentsFrom(t, text, 0, 0, false)
      decreases |text| + 1 - pos
    {
      var at := FindNext(SpecialRegex(t), text, pos);
      if at.None? {
        break;
      }
      var lo, hi := at.value, First(SpecialRegex(t), text, at.value).value;
      if hi == pos && began && lo == last {
        pos := pos + 1;
        continue;
      }
      SegmentsHit(t, text, last, pos, began, lo, hi, segs);
      segs := AppendSpan(segs, text[last..lo]);
      segs := segs + [Hit(t, text, lo, hi)];
      last, pos, began := hi, Onward(pos, hi), true;
    }
    assert SegmentsFrom(t, text, last, pos, began) == Plain(text[last..]);
    segs := AppendSpan(segs, text[last..]);
  }

  // Encoding.

  ghost function PieceIds(t: Tables, pieces: seq<string>): seq<int> {
    if pieces == [] then [] else BpeIds(t, Lift(Utf8(pieces[0]))) + PieceIds(t, pieces[1..])
  }

  ghost function SegmentIds(t: Tables, u: Unicode, seg: Segment): seq<int> {
    if seg.special >= 0 then [seg.special] else PieceIds(t, Split(ScannerRegex(u), seg.text, 0))
  }

  ghost function SegmentsIds(t: Tables, u: Unicode, segs: seq<Segment>): seq<int> {
    if segs == [] then [] else SegmentIds(t, u, segs[0]) + SegmentsIds(t, u, segs[1..])
  }

  ghost function EncodeIds(t: Tables, u: Unicode, text: string): seq<int> {
    SegmentsIds(t, u, Segments(t, text))
  }

  lemma {:induction false} PieceIdsAppend(t: Tables, a: seq<string>, b: seq<string>)
    ensures PieceIds(t, a + b) == PieceIds(t, a) + PieceIds(t, b)
  {
    if a == [] {
      assert a + b == b;
    } else {
      assert (a + b)[1..] == a[1..] + b;
      PieceIdsAppend(t, a[1..], b);
    }
  }

  lemma PieceIdsOne(t: Tables, piece: string)
    ensures PieceIds(t, [piece]) == BpeIds(t, Lift(Utf8(piece)))
  {
    assert PieceIds(t, [piece][1..]) == [];
  }

  lemma {:induction false} SegmentsIdsAppend(t: Tables, u: Unicode, a: seq<Segment>, b: seq<Segment>)
    ensures SegmentsIds(t, u, a + b) == SegmentsIds(t, u, a) + SegmentsIds(t, u, b)
  {
    if a == [] {
      assert a + b == b;
    } else {
      assert (a + b)[1..] == a[1..] + b;
      SegmentsIdsAppend(t, u, a[1..], b);
    }
  }

  lemma SegmentsIdsOne(t: Tables, u: Unicode, seg: Segment)
    ensures SegmentsIds(t, u, [seg]) == SegmentIds(t, u, seg)
  {
    assert SegmentsIds(t, u, [seg][1..]) == [];
  }

  ghost predicate KnowsBytes(t: Tables) {
    |t.fwd| == 256 && forall b: Byte :: t.fwd[b] == RuneOf(b)
  }

  method EncodeSegment(t: Tables, u: Unicode, seg: Segment) returns (ids: seq<int>)
    requires u.Valid() && KnowsBytes(t)
    ensures ids == SegmentIds(t, u, seg)
  {
    hide ScannerRegex;
    hide PieceRegex;
    hide WellRead;
    hide Unicode.Valid;
    hide Split;
    hide MergeAll;
    hide BpeIds;
    hide Concat;
    if seg.special >= 0 {
      return [seg.special];
    }
    ids := [];
    var pieces := PreTokenize.PreTokenize(u, seg.text);
    for p := 0 to |pieces|
      invariant ids == PieceIds(t, pieces[..p])
    {
      var lifted := EncodeBytes(t.fwd, Utf8(pieces[p]));
      var more := EncodePiece(t, lifted);
      PieceIdsAppend(t, pieces[..p], [pieces[p]]);
      PieceIdsOne(t, pieces[p]);
      assert pieces[..p + 1] == pieces[..p] + [pieces[p]];
      ids := ids + more;
    }
    assert pieces[..|pieces|] == pieces;
  }

  method Encode(t: Tables, u: Unicode, text: string) returns (ids: seq<int>)
    requires u.Valid() && KnowsBytes(t)
    ensures ids == EncodeIds(t, u, text)
    ensures t.Lossless() && LongestFirst(t.specials) ==> Tokenized(t, u, text, ids)
  {
    hide Tokenized;
    hide LongestFirst;
    hide Tables.Lossless;
    hide SegmentIds;
    hide Segments;
    ids := [];
    var segs := EachSegment(t, text);
    for i := 0 to |segs|
      invariant ids == SegmentsIds(t, u, segs[..i])
    {
      var more := EncodeSegment(t, u, segs[i]);
      SegmentsIdsAppend(t, u, segs[..i], [segs[i]]);
      SegmentsIdsOne(t, u, segs[i]);
      assert segs[..i + 1] == segs[..i] + [segs[i]];
      ids := ids + more;
    }
    assert segs[..|segs|] == segs;
    if t.Lossless() && LongestFirst(t.specials) {
      EncodeTokenizes(t, u, text);
    }
  }

  // Decoding.

  /** The bytes a run of buffered characters flushes to. */
  function Flush(rev: map<char, Byte>, runes: string): seq<Byte> {
    if runes == [] then []
    else (if runes[0] in rev then [rev[runes[0]]] else Utf8Char(runes[0])) + Flush(rev, runes[1..])
  }

  lemma {:induction false} FlushAppend(rev: map<char, Byte>, a: string, b: string)
    ensures Flush(rev, a + b) == Flush(rev, a) + Flush(rev, b)
  {
    if a == [] {
      assert a + b == b;
    } else {
      assert (a + b)[1..] == a[1..] + b;
      FlushAppend(rev, a[1..], b);
    }
  }

  /** What one id contributes to the decoded text. */
  function TokenBytes(t: Tables, id: int, skipSpecial: bool): seq<Byte> {
    if id in t.specialByID then (if skipSpecial then [] else Utf8(t.specialByID[id]))
    else if id in t.idToTok then Flush(t.rev, t.idToTok[id])
    else []
  }

  function DecodeBytes(t: Tables, ids: seq<int>, skipSpecial: bool): seq<Byte> {
    if ids == [] then [] else TokenBytes(t, ids[0], skipSpecial) + DecodeBytes(t, ids[1..], skipSpecial)
  }

  /** Decoding is a concatenation homomorphism. */
  lemma {:induction false} DecodeAppend(t: Tables, a: seq<int>, b: seq<int>, skipSpecial: bool)
    ensures DecodeBytes(t, a + b, skipSpecial) == DecodeBytes(t, a, skipSpecial) + DecodeBytes(t, b, skipSpecial)
  {
    if a == [] {
      assert a + b == b;
    } else {
      assert (a + b)[1..] == a[1..] + b;
      DecodeAppend(t, a[1..], b, skipSpecial);
    }
  }

  lemma FlushOne(rev: map<char, Byte>, c: char)
    ensures Flush(rev, [c]) == if c in rev then [rev[c]] else Utf8Char(c)
  {
    assert Flush(rev, [c][1..]) == [];
  }

  method FlushPending(rev: map<char, Byte>, pending: string) returns (buf: seq<Byte>)
    ensures buf == Flush(rev, pending)
  {
    buf := [];
    for i := 0 to |pending|
      invariant buf == Flush(rev, pending[..i])
    {
      var c := pending[i];
      FlushAppend(rev, pending[..i], [c]);
      FlushOne(rev, c);
      assert pending[..i + 1] == pending[..i] + [c];
      if c in rev {
        buf := buf + [rev[c]];
      } else {
        buf := buf + Utf8Char(c);
      }
    }
    assert pending[..|pending|] == pending;
  }

  lemma DecodeOne(t: Tables, id: int, skipSpecial: bool)
    ensures DecodeBytes(t, [id], skipSpecial) == TokenBytes(t, id, skipSpecial)
  {
    assert DecodeBytes(t, [id][1..], skipSpecial) == [];
  }

  lemma DecodeSnoc(t: Tables, ids: seq<int>, i: nat, skipSpecial: bool)
    requires i < |ids|
    ensures DecodeBytes(t, ids[..i + 1], skipSpecial)
         == DecodeBytes(t, ids[..i], skipSpecial) + TokenBytes(t, ids[i], skipSpecial)
  {
    DecodeAppend(t, ids[..i], [ids[i]], skipSpecial);
    DecodeOne(t, ids[i], skipSpecial);
    assert ids[..i + 1] == ids[..i] + [ids[i]];
  }

  lemma FlushAfter(rev: map<char, Byte>, out: seq<Byte>, pending: string, tok: string)
    ensures out + Flush(rev, pending + tok) == (out + Flush(rev, pending)) + Flush(rev, tok)
  {
    FlushAppend(rev, pending, tok);
  }

  /** The buffered decoder computes the plain per-id concatenation. */
  method Decode(t: Tables, ids: seq<int>, skipSpecial: bool) returns (out: seq<Byte>)
    ensures out == DecodeBytes(t, ids, skipSpecial)
  {
    out := [];
    var pending: string := [];
    for i := 0 to |ids|
      invariant out + Flush(t.rev, pending) == DecodeBytes(t, ids[..i], skipSpecial)
    {
      var id := ids[i];
      DecodeSnoc(t, ids, i, skipSpecial);
      if id in t.specialByID {
        var buf := FlushPending(t.rev, pending);
        out := out + buf;
        pending := [];
        if !skipSpecial {
          out := out + Utf8(t.specialByID[id]);
        }
        continue;
      }
      if id !in t.idToTok {
        continue;
      }
      FlushAfter(t.rev, out, pending, t.idToTok[id]);
      pending := pending + t.idToTok[id];
    }
    var buf := FlushPending(t.rev, pending);
    out := out + buf;
    assert ids[..|ids|] == ids;
  }

  // The round trip.

  lemma {:induction false} FlushLift(t: Tables, bytes: seq<Byte>)
    requires Inverse(t.fwd, t.rev)
    ensures Flush(t.rev, Lift(bytes)) == bytes
  {
    if bytes != [] {
      assert Lift(bytes)[1..] == Lift(bytes[1..]);
      assert t.fwd[bytes[0]] == RuneOf(bytes[0]);
      FlushLift(t, bytes[1..]);
    }
  }

  /** Characters outside the byte alphabet come out as their own UTF-8. */
  lemma {:induction false} FlushForeign(rev: map<char, Byte>, s: string)
    requires forall c :: c in s ==> c !in rev
    ensures Flush(rev, s) == Utf8(s)
  {
    if s != [] {
      FlushForeign(rev, s[1..]);
    }
  }

  /** Ids of vocabulary symbols decode to the symbols' bytes. */
  lemma {:induction false} IdsDecode(t: Tables, symbols: seq<string>, skipSpecial: bool)
    requires t.Lossless()
    requires forall s :: s in symbols ==> s in t.vocab
    ensures DecodeBytes(t, Ids(t.vocab, symbols), skipSpecial) == Flush(t.rev, Concat(symbols))
  {
    if symbols != [] {
      var s := symbols[0];
      IdsDecode(t, symbols[1..], skipSpecial);
      FlushAppend(t.rev, s, Concat(symbols[1..]));
      assert s in t.vocab;
      var rest := Ids(t.vocab, symbols[1..]);
      assert Ids(t.vocab, symbols) == [t.vocab[s]] + rest;
      assert ([t.vocab[s]] + rest)[1..] == rest;
    }
  }

  lemma BpeDecode(t: Tables, bytes: seq<Byte>, skipSpecial: bool)
    requires t.Lossless()
    ensures DecodeBytes(t, BpeIds(t, Lift(bytes)), skipSpecial) == bytes
  {
    var piece := Lift(bytes);
    FlushLift(t, bytes);
    if piece != "" {
      if t.ignoreMerges && piece in t.vocab {
        IdsDecode(t, [piece], skipSpecial);
        ConcatOne(piece);
        assert Ids(t.vocab, [piece][1..]) == [];
        assert Ids(t.vocab, [piece]) == [t.vocab[piece]];
      } else {
        var symbols := Singles(piece);
        forall s | s in symbols ensures s in t.vocab {
          var i :| 0 <= i < |symbols| && symbols[i] == s;
          assert s == [RuneOf(bytes[i])];
        }
        MergeAllSound(t.rank, symbols, t.vocab.Keys);
        ConcatSingles(piece);
        IdsDecode(t, MergeAll(t.rank, symbols), skipSpecial);
      }
    }
  }

  lemma {:induction false} PiecesDecode(t: Tables, pieces: seq<string>, skipSpecial: bool)
    requires t.Lossless()
    ensures DecodeBytes(t, PieceIds(t, pieces), skipSpecial) == Utf8(Concat(pieces))
  {
    if pieces != [] {
      PiecesDecode(t, pieces[1..], skipSpecial);
      BpeDecode(t, Utf8(pieces[0]), skipSpecial);
      DecodeAppend(t, BpeIds(t, Lift(Utf8(pieces[0]))), PieceIds(t, pieces[1..]), skipSpecial);
      Utf8Concat(pieces[0], Concat(pieces[1..]));
    }
  }

  /** The text a segment decodes to; skipping drops the segments that are special tokens. */
  function Rendered(segs: seq<Segment>, skipSpecial: bool): string {
    if segs == [] then []
    else (if skipSpecial && segs[0].special >= 0 then [] else segs[0].text) + Rendered(segs[1..], skipSpecial)
  }

  ghost predicate Genuine(t: Tables, seg: Segment) {
    seg.special >= 0 ==> seg.special in t.specialByID && t.specialByID[seg.special] == seg.text
  }

  lemma SegmentDecode(t: Tables, u: Unicode, seg: Segment, skipSpecial: bool)
    requires t.Lossless() && Genuine(t, seg)
    ensures DecodeBytes(t, SegmentIds(t, u, seg), skipSpecial)
         == Utf8(if skipSpecial && seg.special >= 0 then [] else seg.text)
  {
    hide Split;
    hide ScannerRegex;
    hide PieceIds;
    if seg.special >= 0 {
      DecodeOne(t, seg.special, skipSpecial);
    } else {
      SplitCovers(ScannerRegex(u), seg.text, 0);
      PiecesDecode(t, Split(ScannerRegex(u), seg.text, 0), skipSpecial);
    }
  }

  lemma {:induction false} SegmentsDecode(t: Tables, u: Unicode, segs: seq<Segment>, skipSpecial: bool)
    requires t.Lossless() && forall seg :: seg in segs ==> Genuine(t, seg)
    ensures DecodeBytes(t, SegmentsIds(t, u, segs), skipSpecial) == Utf8(Rendered(segs, skipSpecial))
  {
    if segs != [] {
      var seg := segs[0];
      SegmentsDecode(t, u, segs[1..], skipSpecial);
      SegmentDecode(t, u, seg, skipSpecial);
      DecodeAppend(t, SegmentIds(t, u, seg), SegmentsIds(t, u, segs[1..]), skipSpecial);
      Utf8Concat(if skipSpecial && seg.special >= 0 then [] else seg.text, Rendered(segs[1..], skipSpecial));
    }
  }

  lemma {:induction false} SegmentsGenuine(t: Tables, s: string, last: nat, pos: nat, began: bool)
    requires t.Lossless() && t.specials != [] && last <= |s| && last <= pos <= |s| + 1
    ensures forall seg :: seg in SegmentsFrom(t, s, last, pos, began) ==> Genuine(t, seg)
    decreases |s| + 1 - pos
  {
    hide First;
    hide AnyOf;
    hide Find;
    hide Genuine;
    hide Tables.Lossless;
    PlainGenuine(t, s[last..]);
    if pos <= |s| {
      var at := Find(SpecialRegex(t), s, pos);
      if at.Some? {
        var lo, hi := at.value, First(SpecialRegex(t), s, at.value).value;
        if Abuts(last, pos, began, lo, hi) {
          SegmentsGenuine(t, s, last, pos + 1, began);
        } else {
          PlainGenuine(t, s[last..lo]);
          HitGenuine(t, s, lo, hi);
          SegmentsGenuine(t, s, hi, Onward(pos, hi), true);
        }
      }
    }
  }

  lemma PlainGenuine(t: Tables, s: string)
    ensures forall seg :: seg in Plain(s) ==> Genuine(t, seg)
  {
  }

  lemma HitGenuine(t: Tables, s: string, lo: nat, hi: nat)
    requires t.Lossless() && t.specials != [] && lo <= |s| && First(SpecialRegex(t), s, lo) == Some(hi)
    ensures Genuine(t, Hit(t, s, lo, hi))
  {
    hide First;
    hide AnyOf;
    var k := SpecialHit(t, s, lo);
    assert t.specials[k] in t.specials;
  }

  lemma {:induction false} RenderedAll(segs: seq<Segment>)
    ensures Rendered(segs, false) == SegmentsText(segs)
  {
    if segs != [] {
      RenderedAll(segs[1..]);
    }
  }

  /** Decoding an encoding gives back the text, minus exactly its special-token segments when those are skipped. */
  lemma DecodeEncode(t: Tables, u: Unicode, text: string, skipSpecial: bool)
    requires t.Lossless()
    ensures DecodeBytes(t, EncodeIds(t, u, text), skipSpecial) == Utf8(Rendered(Segments(t, text), skipSpecial))
  {
    hide SegmentIds;
    hide PieceIds;
    hide DecodeBytes;
    if t.specials != [] {
      SegmentsGenuine(t, text, 0, 0, false);
    }
    SegmentsDecode(t, u, Segments(t, text), skipSpecial);
  }

  lemma SegmentsWhole(t: Tables, text: string)
    ensures SegmentsText(Segments(t, text)) == text
  {
    if t.specials == [] {
      assert SegmentsText([Segment(text, -1)][1..]) == [];
    } else {
      SegmentsCover(t, text, 0, 0, false);
    }
  }

  /** The round trip: the decoder with special tokens kept inverts the encoder on every text. */
  lemma RoundTrip(t: Tables, u: Unicode, text: string)
    requires t.Lossless()
    ensures DecodeBytes(t, EncodeIds(t, u, text), false) == Utf8(text)
  {
    hide EncodeIds;
    hide DecodeBytes;
    DecodeEncode(t, u, text, false);
    RenderedAll(Segments(t, text));
    SegmentsWhole(t, text);
  }

  /** So two texts never have the same ids. */
  lemma EncodingsDiffer(t: Tables, u: Unicode, a: string, b: string)
    requires t.Lossless() && EncodeIds(t, u, a) == EncodeIds(t, u, b)
    ensures a == b
  {
    hide EncodeIds;
    hide DecodeBytes;
    hide Tables.Lossless;
    RoundTrip(t, u, a);
    RoundTrip(t, u, b);
    Utf8Injective(a, b);
  }

  // What the ids of a text are, stretch by stretch.

  /** A special token stands at `i`; the empty ones are not counted. */
  ghost predicate Stands(t: Tables, s: string, i: nat) {
    exists c :: c in t.specials && c != "" && LiteralAt(Same(), s, i, c)
  }

  /** The segment is a special token, of which no longer one stands there, with its id. */
  ghost predicate IsHit(t: Tables, s: string, at: nat, seg: Segment) {
    && seg.text in t.specials
    && (forall c :: c in t.specials && LiteralAt(Same(), s, at, c) ==> |c| <= |seg.text|)
    && (seg.text in t.specialByContent ==> seg.special == t.specialByContent[seg.text])
  }

  /** The segment is a span in which no special token begins. */
  ghost predicate IsSpan(t: Tables, s: string, at: nat, seg: Segment) {
    && seg.text !in t.specials && seg.special == -1
    && forall i :: at <= i < at + |seg.text| ==> !Stands(t, s, i)
  }

  /** From `at` on the segments are the text: special tokens, each the longest that stands in its place, and
      between them whole spans in which none begins. */
  ghost predicate Reads(t: Tables, s: string, at: nat, segs: seq<Segment>)
    decreases |segs|
  {
    if segs == [] then at == |s|
    else
      var end := at + |segs[0].text|;
      && end <= |s| && s[at..end] == segs[0].text
      && (IsHit(t, s, at, segs[0])
          || (segs[0].text != "" && IsSpan(t, s, at, segs[0]) && (|segs| > 1 ==> IsHit(t, s, end, segs[1]))))
      && Reads(t, s, end, segs[1..])
  }

  lemma ReadsCons(t: Tables, s: string, at: nat, seg: Segment, rest: seq<Segment>)
    requires at + |seg.text| <= |s| && s[at..at + |seg.text|] == seg.text
    requires IsHit(t, s, at, seg)
          || (seg.text != "" && IsSpan(t, s, at, seg) && (rest != [] ==> IsHit(t, s, at + |seg.text|, rest[0])))
    requires Reads(t, s, at + |seg.text|, rest)
    ensures Reads(t, s, at, [seg] + rest)
  {
    hide IsHit;
    hide IsSpan;
    assert ([seg] + rest)[1..] == rest;
  }

  lemma PlainReads(t: Tables, s: string, last: nat)
    requires last <= |s| && forall i :: last <= i < |s| ==> !Stands(t, s, i)
    ensures Reads(t, s, last, Plain(s[last..]))
  {
    if last < |s| {
      NotSpecial(t, s, last, |s|);
      ReadsCons(t, s, last, Segment(s[last..], -1), []);
    }
  }

  lemma NotSpecial(t: Tables, s: string, lo: nat, hi: nat)
    requires lo < hi <= |s| && !Stands(t, s, lo)
    ensures s[lo..hi] !in t.specials
  {
    var c := s[lo..hi];
    if c in t.specials {
      assert LiteralAt(Same(), s, lo, c);
    }
  }

  /** Where the search passes, no special token stands. */
  lemma {:induction false} FindPasses(t: Tables, s: string, i: nat)
    requires t.specials != [] && i <= |s|
    ensures var at := Find(SpecialRegex(t), s, i);
      forall j :: i <= j <= |s| && (at.Some? ==> j < at.value) ==> !Stands(t, s, j)
    decreases |s| - i
  {
    hide First;
    hide AnyOf;
    if First(SpecialRegex(t), s, i).None? {
      NoneStands(t, s, i);
      if i < |s| {
        FindPasses(t, s, i + 1);
      }
    }
  }

  lemma NoneStands(t: Tables, s: string, i: nat)
    requires t.specials != [] && i <= |s| && First(SpecialRegex(t), s, i).None?
    ensures !Stands(t, s, i)
  {
    hide First;
    hide AnyOf;
    if c :| c in t.specials && c != "" && LiteralAt(Same(), s, i, c) {
      var k :| 0 <= k < |t.specials| && t.specials[k] == c;
      SpecialFound(t, s, i, k);
    }
  }

  lemma {:induction false} SpecialFound(t: Tables, s: string, i: nat, k: nat)
    requires k < |t.specials| && i <= |s| && LiteralAt(Same(), s, i, t.specials[k])
    ensures First(SpecialRegex(t), s, i).Some?
    decreases k
  {
    hide First;
    hide AnyOf;
    hide LiteralAt;
    if j :| 0 <= j < k && LiteralAt(Same(), s, i, t.specials[j]) {
      SpecialFound(t, s, i, j);
    } else {
      AnyOfFirst(Same(), t.specials, s, i, k);
    }
  }

  /** What a hit of the pattern takes is the longest special token that stands there. */
  lemma HitIs(t: Tables, s: string, lo: nat, hi: nat)
    requires t.specials != [] && LongestFirst(t.specials)
    requires lo <= |s| && First(SpecialRegex(t), s, lo) == Some(hi)
    ensures IsHit(t, s, lo, Hit(t, s, lo, hi))
    ensures hi == lo ==> !Stands(t, s, lo)
  {
    hide First;
    hide AnyOf;
    hide LongestFirst;
    var k := SpecialHit(t, s, lo);
    forall c | c in t.specials && LiteralAt(Same(), s, lo, c) ensures lo + |c| <= hi {
      LongestSpecialWins(t, s, lo, c);
    }
  }

  /** The segments are the text read as it should be. */
  lemma {:induction false} SegmentsRead(t: Tables, s: string, last: nat, pos: nat, began: bool)
    requires t.specials != [] && LongestFirst(t.specials) && last <= |s| && last <= pos <= |s| + 1
    requires forall i :: last <= i < pos ==> !Stands(t, s, i)
    ensures Reads(t, s, last, SegmentsFrom(t, s, last, pos, began))
    decreases |s| + 1 - pos
  {
    hide First;
    hide AnyOf;
    hide Find;
    hide Stands;
    hide IsHit;
    hide IsSpan;
    hide Reads;
    hide LongestFirst;
    if pos > |s| {
      PlainReads(t, s, last);
    } else {
      FindPasses(t, s, pos);
      var at := Find(SpecialRegex(t), s, pos);
      if at.None? {
        PlainReads(t, s, last);
      } else {
        var lo, hi := at.value, First(SpecialRegex(t), s, at.value).value;
        HitIs(t, s, lo, hi);
        if Abuts(last, pos, began, lo, hi) {
          SegmentsRead(t, s, last, pos + 1, began);
        } else {
          SegmentsRead(t, s, hi, Onward(pos, hi), true);
          HitReads(t, s, last, lo, hi, SegmentsFrom(t, s, hi, Onward(pos, hi), true));
        }
      }
    }
  }

  lemma HitReads(t: Tables, s: string, last: nat, lo: nat, hi: nat, rest: seq<Segment>)
    requires last <= lo <= hi <= |s| && IsHit(t, s, lo, Hit(t, s, lo, hi)) && Reads(t, s, hi, rest)
    requires forall i :: last <= i < lo ==> !Stands(t, s, i)
    ensures Reads(t, s, last, Plain(s[last..lo]) + [Hit(t, s, lo, hi)] + rest)
  {
    hide Stands;
    hide IsHit;
    hide Reads;
    var hit := Hit(t, s, lo, hi);
    ReadsCons(t, s, lo, hit, rest);
    if last < lo {
      NotSpecial(t, s, last, lo);
      ReadsCons(t, s, last, Segment(s[last..lo], -1), [hit] + rest);
      assert Plain(s[last..lo]) + [hit] + rest == [Segment(s[last..lo], -1)] + ([hit] + rest);
    } else {
      assert Plain(s[last..lo]) + [hit] + rest == [hit] + rest;
    }
  }

  lemma HitStands(t: Tables, s: string, at: nat, seg: Segment)
    requires "" !in t.specials && IsHit(t, s, at, seg)
    requires at + |seg.text| <= |s| && s[at..at + |seg.text|] == seg.text
    ensures LiteralAt(Same(), s, at, seg.text) && Stands(t, s, at) && seg.text != ""
  {
    assert LiteralAt(Same(), s, at, seg.text);
  }

  /** There is only one way to read a text, if no special token is empty. */
  lemma {:induction false} ReadsUnique(t: Tables, s: string, at: nat, a: seq<Segment>, b: seq<Segment>)
    requires "" !in t.specials && forall c :: c in t.specials ==> c in t.specialByContent
    requires Reads(t, s, at, a) && Reads(t, s, at, b)
    ensures a == b
    decreases |a|
  {
    hide IsHit;
    hide IsSpan;
    if a != [] && b != [] {
      SameHead(t, s, at, a, b);
      ReadsUnique(t, s, at + |a[0].text|, a[1..], b[1..]);
      assert a == [a[0]] + a[1..] && b == [b[0]] + b[1..];
    } else if a != [] {
      ReadsOn(t, s, at, a);
    } else if b != [] {
      ReadsOn(t, s, at, b);
    }
  }

  lemma ReadsOn(t: Tables, s: string, at: nat, segs: seq<Segment>)
    requires "" !in t.specials && Reads(t, s, at, segs) && segs != []
    ensures at < |s|
  {
    if IsHit(t, s, at, segs[0]) {
      HitStands(t, s, at, segs[0]);
    }
  }

  lemma SameHead(t: Tables, s: string, at: nat, a: seq<Segment>, b: seq<Segment>)
    requires "" !in t.specials && forall c :: c in t.specials ==> c in t.specialByContent
    requires Reads(t, s, at, a) && Reads(t, s, at, b) && a != [] && b != []
    ensures a[0] == b[0]
  {
    hide IsHit;
    hide IsSpan;
    hide Stands;
    if IsHit(t, s, at, a[0]) {
      HitFirst(t, s, at, a[0], b[0]);
    } else if IsHit(t, s, at, b[0]) {
      HitFirst(t, s, at, b[0], a[0]);
    } else {
      SpansEnd(t, s, at, a, b);
      SpansEnd(t, s, at, b, a);
      SpansSame(t, s, at, a[0], b[0]);
    }
  }

  lemma HitFirst(t: Tables, s: string, at: nat, hit: Segment, seg: Segment)
    requires "" !in t.specials && forall c :: c in t.specials ==> c in t.specialByContent
    requires at + |hit.text| <= |s| && s[at..at + |hit.text|] == hit.text && IsHit(t, s, at, hit)
    requires at + |seg.text| <= |s| && s[at..at + |seg.text|] == seg.text
    requires IsHit(t, s, at, seg) || (seg.text != "" && IsSpan(t, s, at, seg))
    ensures seg == hit
  {
    HitStands(t, s, at, hit);
    if IsHit(t, s, at, seg) {
      HitStands(t, s, at, seg);
      assert |seg.text| == |hit.text|;
    }
  }

  lemma SpansSame(t: Tables, s: string, at: nat, a: Segment, b: Segment)
    requires at + |a.text| <= |s| && s[at..at + |a.text|] == a.text && IsSpan(t, s, at, a)
    requires at + |b.text| <= |s| && s[at..at + |b.text|] == b.text && IsSpan(t, s, at, b)
    requires |a.text| == |b.text|
    ensures a == b
  {
  }

  /** A span ends where a special token begins, so not inside another one. */
  lemma SpansEnd(t: Tables, s: string, at: nat, a: seq<Segment>, b: seq<Segment>)
    requires "" !in t.specials && Reads(t, s, at, a) && Reads(t, s, at, b) && a != [] && b != []
    requires IsSpan(t, s, at, a[0]) && IsSpan(t, s, at, b[0]) && !IsHit(t, s, at, a[0])
    ensures |a[0].text| >= |b[0].text|
  {
    hide IsHit;
    hide Stands;
    var end := at + |a[0].text|;
    if |a[0].text| < |b[0].text| {
      assert a[1..] != [] && Reads(t, s, end, a[1..]);
      HitStands(t, s, end, a[1]);
      assert false;
    }
  }

  /** What is tokenized on its own: a special token, or a piece of the text between them. */
  datatype Unit = Special(id: int) | Piece(text: string)

  ghost function PieceUnits(pieces: seq<string>): (units: seq<Unit>)
    ensures |units| == |pieces| && forall k :: 0 <= k < |units| ==> units[k] == Piece(pieces[k])
  {
    seq(|pieces|, k requires 0 <= k < |pieces| => Piece(pieces[k]))
  }

  /** A segment's id, or the pieces the scanner's regex splits it into. */
  ghost function UnitsIn(u: Unicode, seg: Segment): seq<Unit> {
    if seg.special >= 0 then [Special(seg.special)] else PieceUnits(Split(ScannerRegex(u), seg.text, 0))
  }

  ghost function UnitsOf(u: Unicode, segs: seq<Segment>): seq<Unit> {
    if segs == [] then [] else UnitsIn(u, segs[0]) + UnitsOf(u, segs[1..])
  }

  /** The one pair joined is ranked lowest, and leftmost among the pairs of its rank. */
  ghost predicate MergeStep(rank: map<(string, string), int>, before: seq<string>, after: seq<string>) {
    exists at: nat :: BindsFirst(rank, before, at)
      && after == before[..at] + [before[at] + before[at + 1]] + before[at + 2..]
  }

  /** The symbols come from the characters by joining one pair after the other until no pair is ranked. */
  ghost predicate MergedFrom(rank: map<(string, string), int>, piece: string, symbols: seq<string>) {
    exists chain: seq<seq<string>> ::
      && |chain| > 0 && chain[|chain| - 1] == symbols
      && |chain[0]| == |piece| && (forall i :: 0 <= i < |piece| ==> chain[0][i] == [piece[i]])
      && (forall k :: 0 < k < |chain| ==> MergeStep(rank, chain[k - 1], chain[k]))
      && forall a, b, i :: 0 <= i < |symbols| - 1 && a == symbols[i] && b == symbols[i + 1] ==> (a, b) !in rank
  }

  /** The ids of one unit. A piece's are those of its symbols, which are the piece itself if that may be looked up
      whole, and they decode to the piece. */
  ghost predicate RunOf(t: Tables, unit: Unit, run: seq<int>) {
    match unit
    case Special(id) => run == [id]
    case Piece(text) =>
      var lifted := Lift(Utf8(text));
      && DecodeBytes(t, run, false) == Utf8(text)
      && exists symbols: seq<string> ::
        && |run| == |symbols|
        && (forall k :: 0 <= k < |run| ==> symbols[k] in t.vocab && run[k] == t.vocab[symbols[k]])
        && if t.ignoreMerges && lifted in t.vocab then symbols == [lifted] else MergedFrom(t.rank, lifted, symbols)
  }

  /** The ids fall into consecutive runs, one for each unit. */
  ghost predicate InRuns(t: Tables, units: seq<Unit>, ids: seq<int>) {
    exists runs: seq<seq<int>> :: RunsOf(t, units, runs) && Concat(runs) == ids
  }

  ghost predicate RunsOf(t: Tables, units: seq<Unit>, runs: seq<seq<int>>) {
    |runs| == |units| && forall k :: 0 <= k < |units| ==> RunOf(t, units[k], runs[k])
  }

  /** The ids are those of the text's special tokens and of the pieces of the text between them, unit by unit. */
  ghost predicate Tokenized(t: Tables, u: Unicode, text: string, ids: seq<int>) {
    exists segs :: Reads(t, text, 0, segs) && InRuns(t, UnitsOf(u, segs), ids)
  }

  lemma {:induction false} Derivation(rank: map<(string, string), int>, symbols: seq<string>)
    returns (chain: seq<seq<string>>)
    ensures |chain| > 0 && chain[0] == symbols && chain[|chain| - 1] == MergeAll(rank, symbols)
    ensures forall k :: 0 < k < |chain| ==> MergeStep(rank, chain[k - 1], chain[k])
    decreases |symbols|
  {
    hide MergeStep;
    if n: nat :| Ranked(rank, symbols, n) {
      var at := BestExists(rank, symbols, n);
      MergeAllStep(rank, symbols, at);
      var rest := Derivation(rank, MergeAt(symbols, at));
      StepIs(rank, symbols, at);
      chain := [symbols] + rest;
    } else {
      chain := [symbols];
    }
  }

  lemma StepIs(rank: map<(string, string), int>, symbols: seq<string>, at: nat)
    requires BindsFirst(rank, symbols, at)
    ensures MergeStep(rank, symbols, MergeAt(symbols, at))
  {
  }

  lemma AllMerged(rank: map<(string, string), int>, piece: string)
    ensures MergedFrom(rank, piece, MergeAll(rank, Singles(piece)))
  {
    var chain := Derivation(rank, Singles(piece));
    var symbols := MergeAll(rank, Singles(piece));
    MergeAllSound(rank, Singles(piece), {});
    forall i | 0 <= i < |symbols| - 1 ensures (symbols[i], symbols[i + 1]) !in rank {
      assert !Ranked(rank, symbols, i);
    }
  }

  lemma {:induction false} IdsOfKnown(vocab: map<string, int>, symbols: seq<string>)
    requires forall s :: s in symbols ==> s in vocab
    ensures |Ids(vocab, symbols)| == |symbols|
    ensures forall k :: 0 <= k < |symbols| ==> symbols[k] in vocab && Ids(vocab, symbols)[k] == vocab[symbols[k]]
  {
    if symbols != [] {
      assert symbols[0] in vocab;
      IdsOfKnown(vocab, symbols[1..]);
    }
  }

  /** The symbols whose ids a piece gets. */
  ghost function SymbolsOf(t: Tables, piece: string): seq<string> {
    if t.ignoreMerges && piece in t.vocab then [piece] else MergeAll(t.rank, Singles(piece))
  }

  lemma SymbolsKnown(t: Tables, bytes: seq<Byte>)
    requires t.Lossless() && bytes != []
    ensures forall s :: s in SymbolsOf(t, Lift(bytes)) ==> s in t.vocab
    ensures BpeIds(t, Lift(bytes)) == Ids(t.vocab, SymbolsOf(t, Lift(bytes)))
  {
    var piece := Lift(bytes);
    if t.ignoreMerges && piece in t.vocab {
      IdsOne(t.vocab, piece);
    } else {
      var symbols := Singles(piece);
      forall s | s in symbols ensures s in t.vocab {
        var i :| 0 <= i < |symbols| && symbols[i] == s;
        assert s == [RuneOf(bytes[i])];
      }
      MergeAllSound(t.rank, symbols, t.vocab.Keys);
    }
  }

  lemma PieceRun(t: Tables, piece: string)
    requires t.Lossless() && piece != ""
    ensures RunOf(t, Piece(piece), BpeIds(t, Lift(Utf8(piece))))
  {
    hide MergedFrom;
    hide MergeAll;
    hide Tables.Lossless;
    var bytes := Utf8(piece);
    BpeDecode(t, bytes, false);
    SymbolsKnown(t, bytes);
    IdsOfKnown(t.vocab, SymbolsOf(t, Lift(bytes)));
    AllMerged(t.rank, Lift(bytes));
  }

  lemma {:induction false} PieceRuns(t: Tables, pieces: seq<string>) returns (runs: seq<seq<int>>)
    requires t.Lossless() && forall k :: 0 <= k < |pieces| ==> pieces[k] != ""
    ensures RunsOf(t, PieceUnits(pieces), runs) && Concat(runs) == PieceIds(t, pieces)
  {
    hide RunOf;
    hide BpeIds;
    hide Tables.Lossless;
    if pieces == [] {
      runs := [];
    } else {
      var rest := PieceRuns(t, pieces[1..]);
      PieceRun(t, pieces[0]);
      runs := [BpeIds(t, Lift(Utf8(pieces[0])))] + rest;
      assert runs[1..] == rest;
    }
  }

  lemma {:induction false} ConcatAppend<T>(a: seq<seq<T>>, b: seq<seq<T>>)
    ensures Concat(a + b) == Concat(a) + Concat(b)
  {
    if a == [] {
      assert a + b == b;
    } else {
      assert (a + b)[1..] == a[1..] + b;
      ConcatAppend(a[1..], b);
    }
  }

  lemma {:induction false} SegmentRuns(t: Tables, u: Unicode, segs: seq<Segment>) returns (runs: seq<seq<int>>)
    requires t.Lossless()
    ensures RunsOf(t, UnitsOf(u, segs), runs) && Concat(runs) == SegmentsIds(t, u, segs)
  {
    hide RunsOf;
    hide UnitsIn;
    hide SegmentIds;
    hide Tables.Lossless;
    if segs == [] {
      runs := [];
      NoRuns(t);
    } else {
      var rest := SegmentRuns(t, u, segs[1..]);
      var first := OneSegmentRuns(t, u, segs[0]);
      ConcatAppend(first, rest);
      RunsAppend(t, UnitsIn(u, segs[0]), UnitsOf(u, segs[1..]), first, rest);
      runs := first + rest;
    }
  }

  lemma NoRuns(t: Tables)
    ensures RunsOf(t, [], [])
  {
  }

  lemma RunsAppend(t: Tables, a: seq<Unit>, b: seq<Unit>, x: seq<seq<int>>, y: seq<seq<int>>)
    requires RunsOf(t, a, x) && RunsOf(t, b, y)
    ensures RunsOf(t, a + b, x + y)
  {
    hide RunOf;
  }

  lemma OneSegmentRuns(t: Tables, u: Unicode, seg: Segment) returns (runs: seq<seq<int>>)
    requires t.Lossless()
    ensures RunsOf(t, UnitsIn(u, seg), runs) && Concat(runs) == SegmentIds(t, u, seg)
  {
    hide RunOf;
    hide Split;
    hide ScannerRegex;
    hide PieceIds;
    hide Tables.Lossless;
    if seg.special >= 0 {
      runs := [[seg.special]];
      ConcatOne(runs[0]);
      SpecialRun(t, seg.special);
    } else {
      SplitCovers(ScannerRegex(u), seg.text, 0);
      runs := PieceRuns(t, Split(ScannerRegex(u), seg.text, 0));
    }
  }

  lemma SpecialRun(t: Tables, id: int)
    ensures RunOf(t, Special(id), [id])
  {
  }

  /** The ids of a text are those of its units, read off the text itself. */
  lemma EncodeTokenizes(t: Tables, u: Unicode, text: string)
    requires t.Lossless() && LongestFirst(t.specials)
    ensures Tokenized(t, u, text, EncodeIds(t, u, text))
  {
    hide Reads;
    hide UnitsOf;
    hide RunsOf;
    hide SegmentsIds;
    hide LongestFirst;
    hide Tables.Lossless;
    var segs := Segments(t, text);
    var runs := SegmentRuns(t, u, segs);
    if t.specials != [] {
      SegmentsRead(t, text, 0, 0, false);
    } else {
      NoSpecialsRead(t, u, text);
    }
    assert InRuns(t, UnitsOf(u, segs), EncodeIds(t, u, text));
  }

  lemma NoSpecialsRead(t: Tables, u: Unicode, text: string)
    requires t.specials == []
    ensures text != "" ==> Reads(t, text, 0, [Segment(text, -1)])
    ensures text == "" ==> Reads(t, text, 0, []) && UnitsOf(u, [Segment(text, -1)]) == UnitsOf(u, [])
  {
    if text != "" {
      ReadsCons(t, text, 0, Segment(text, -1), []);
    }
  }

  /** In a text without special tokens the units are its pieces: no id straddles two of them. */
  lemma PlainTokenized(t: Tables, u: Unicode, text: string, ids: seq<int>)
    requires Tokenized(t, u, text, ids) && "" !in t.specials && forall i :: 0 <= i <= |text| ==> !Stands(t, text, i)
    ensures InRuns(t, PieceUnits(Split(ScannerRegex(u), text, 0)), ids)
  {
    hide Split;
    hide ScannerRegex;
    hide InRuns;
    hide Stands;
    var segs: seq<Segment> :| Reads(t, text, 0, segs) && InRuns(t, UnitsOf(u, segs), ids);
    if segs == [] {
      NoUnits(u, text);
    } else {
      OneSpan(t, text, segs);
      OneUnit(u, text);
    }
  }

  lemma OneSpan(t: Tables, s: string, segs: seq<Segment>)
    requires "" !in t.specials && forall i :: 0 <= i <= |s| ==> !Stands(t, s, i)
    requires segs != [] && Reads(t, s, 0, segs)
    ensures segs == [Segment(s, -1)]
  {
    hide Stands;
    hide IsHit;
    var end := |segs[0].text|;
    NoHit(t, s, 0, segs[0]);
    if |segs| > 1 {
      assert Reads(t, s, end, segs[1..]);
      NoHit(t, s, end, segs[1]);
      assert false;
    }
    assert segs[1..] == [] && s[0..end] == s;
  }

  lemma NoHit(t: Tables, s: string, at: nat, seg: Segment)
    requires "" !in t.specials && !Stands(t, s, at)
    requires at + |seg.text| <= |s| && s[at..at + |seg.text|] == seg.text
    ensures !IsHit(t, s, at, seg)
  {
    if seg.text in t.specials {
      assert LiteralAt(Same(), s, at, seg.text);
      assert false;
    }
  }

  lemma NoUnits(u: Unicode, text: string)
    requires text == ""
    ensures UnitsOf(u, []) == PieceUnits(Split(ScannerRegex(u), text, 0))
  {
    hide ScannerRegex;
  }

  lemma OneUnit(u: Unicode, text: string)
    ensures UnitsOf(u, [Segment(text, -1)]) == PieceUnits(Split(ScannerRegex(u), text, 0))
  {
    hide Split;
    hide ScannerRegex;
    assert [Segment(text, -1)][1..] == [];
  }
}
