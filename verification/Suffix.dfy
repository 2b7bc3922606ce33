/** The suffix decoder: an incremental n-gram index over a sliding token window, and the drafts it votes for. */
module Suffix {
  import opened Basics

  // Window keys.

  /** The token's 32 bits as an unsigned number. */
  function Bits(t: Token): (u: nat)
    ensures u < 0x1_0000_0000
  {
    if t < 0 then t + 0x1_0000_0000 else t
  }

  function TokenKey(t: Token): (bytes: seq<Byte>)
    ensures |bytes| == 4
  {
    var u := Bits(t);
    [u % 0x100, u / 0x100 % 0x100, u / 0x1_0000 % 0x100, u / 0x100_0000 % 0x100]
  }

  /** The fixed-width little-endian key of a token window. */
  function NgramKey(window: seq<Token>): (key: seq<Byte>)
    ensures |key| == 4 * |window|
  {
    if window == [] then [] else TokenKey(window[0]) + NgramKey(window[1..])
  }

  lemma FourBytes(u: nat)
    requires u < 0x1_0000_0000
    ensures u == u % 0x100 + 0x100 * (u / 0x100 % 0x100) + 0x1_0000 * (u / 0x1_0000 % 0x100)
              + 0x100_0000 * (u / 0x100_0000 % 0x100)
  {
    var a := u / 0x100;
    var b := a / 0x100;
    var c := b / 0x100;
    assert b == u / 0x1_0000 && c == u / 0x100_0000 && c < 0x100;
  }

  lemma TokenKeyInjective(s: Token, t: Token)
    requires TokenKey(s) == TokenKey(t)
    ensures s == t
  {
    FourBytes(Bits(s));
    FourBytes(Bits(t));
    var a, b := TokenKey(s), TokenKey(t);
    assert a[0] == b[0] && a[1] == b[1] && a[2] == b[2] && a[3] == b[3];
  }

  /** Distinct windows never share a key. */
  lemma {:induction false} NgramKeyInjective(v: seq<Token>, w: seq<Token>)
    requires NgramKey(v) == NgramKey(w)
    ensures v == w
  {
    if v != [] {
      assert NgramKey(v)[..4] == TokenKey(v[0]) && NgramKey(w)[..4] == TokenKey(w[0]);
      assert NgramKey(v)[4..] == NgramKey(v[1..]) && NgramKey(w)[4..] == NgramKey(w[1..]);
      TokenKeyInjective(v[0], w[0]);
      NgramKeyInjective(v[1..], w[1..]);
    }
  }

  // Occurrences.

  /** The k-token window ending at local index `i` has this key. */
  predicate EndsAt(tokens: seq<Token>, k: nat, key: seq<Byte>, i: int) {
    k > 0 && k - 1 <= i < |tokens| && NgramKey(tokens[i + 1 - k..i + 1]) == key
  }

  /** The ascending absolute end positions, below local index `n`, of the windows with this key. */
  function Ends(tokens: seq<Token>, shift: nat, k: nat, key: seq<Byte>, n: nat): (ends: seq<int>)
    requires n <= |tokens|
    ensures forall j :: 0 <= j < |ends| ==> shift <= ends[j] < shift + n
  {
    if n == 0 then []
    else Ends(tokens, shift, k, key, n - 1) + if EndsAt(tokens, k, key, n - 1) then [shift + n - 1] else []
  }

  /** `Ends` lists exactly the occurrences, each once and in order. */
  lemma {:induction false} EndsExact(tokens: seq<Token>, shift: nat, k: nat, key: seq<Byte>, n: nat, e: int)
    requires n <= |tokens|
    ensures e in Ends(tokens, shift, k, key, n) <==> e - shift < n && EndsAt(tokens, k, key, e - shift)
    decreases n
  {
    hide EndsAt;
    EndsAtRange(tokens, k, key, e - shift);
    if n > 0 {
      EndsExact(tokens, shift, k, key, n - 1, e);
    }
  }

  lemma EndsAtRange(tokens: seq<Token>, k: nat, key: seq<Byte>, i: int)
    ensures EndsAt(tokens, k, key, i) ==> 0 <= i < |tokens|
  {
    hide NgramKey;
  }

  lemma {:induction false} EndsAscend(tokens: seq<Token>, shift: nat, k: nat, key: seq<Byte>, n: nat, i: nat, j: nat)
    requires n <= |tokens| && i < j < |Ends(tokens, shift, k, key, n)|
    ensures Ends(tokens, shift, k, key, n)[i] < Ends(tokens, shift, k, key, n)[j]
    decreases n
  {
    hide EndsAt;
    if n > 0 {
      var before := Ends(tokens, shift, k, key, n - 1);
      if j < |before| {
        EndsAscend(tokens, shift, k, key, n - 1, i, j);
      } else {
        assert before[i] < shift + n - 1;
      }
    }
  }

  function AtLeast(ends: seq<int>, threshold: int): (r: seq<int>)
    ensures |r| <= |ends|
  {
    if ends == [] then []
    else AtLeast(ends[..|ends| - 1], threshold) + if ends[|ends| - 1] >= threshold then [ends[|ends| - 1]] else []
  }

  lemma AtLeastSnoc(ends: seq<int>, e: int, threshold: int)
    ensures AtLeast(ends + [e], threshold) == AtLeast(ends, threshold) + if e >= threshold then [e] else []
  {
    assert (ends + [e])[..|ends + [e]| - 1] == ends;
  }

  /** A window that survives the drop ends at the shifted local index; one that does not is below the threshold. */
  lemma TrimmedEndsAt(tokens: seq<Token>, k: nat, key: seq<Byte>, i: int, drop: nat)
    requires drop <= i < |tokens| && k > 0
    ensures EndsAt(tokens[drop..], k, key, i - drop) <==> EndsAt(tokens, k, key, i) && i - drop >= k - 1
  {
    hide NgramKey;
    if i - drop >= k - 1 {
      assert tokens[drop..][i - drop + 1 - k..i - drop + 1] == tokens[i + 1 - k..i + 1];
    }
  }

  /** Filtering by the threshold is recomputing over the shortened window. */
  lemma {:induction false} TrimmedEnds(tokens: seq<Token>, shift: nat, k: nat, key: seq<Byte>, n: nat, drop: nat)
    requires drop <= n <= |tokens| && k > 0
    ensures AtLeast(Ends(tokens, shift, k, key, n), shift + drop + k - 1)
         == Ends(tokens[drop..], shift + drop, k, key, n - drop)
    decreases n
  {
    hide EndsAt;
    hide AtLeast;
    if n == drop {
      AllBelow(Ends(tokens, shift, k, key, n), shift + drop + k - 1);
    } else {
      TrimmedEnds(tokens, shift, k, key, n - 1, drop);
      TrimmedEndsAt(tokens, k, key, n - 1, drop);
      var before, e := Ends(tokens, shift, k, key, n - 1), shift + n - 1;
      AtLeastSnoc(before, e, shift + drop + k - 1);
      assert before + [] == before;
      assert AtLeast(before, shift + drop + k - 1) + [] == AtLeast(before, shift + drop + k - 1);
      if EndsAt(tokens, k, key, n - 1) {
        assert Ends(tokens, shift, k, key, n) == before + [e];
      }
    }
  }

  lemma {:induction false} AllBelow(ends: seq<int>, threshold: int)
    requires forall j :: 0 <= j < |ends| ==> ends[j] < threshold
    ensures AtLeast(ends, threshold) == []
  {
    if ends != [] {
      AllBelow(ends[..|ends| - 1], threshold);
    }
  }

  /** A bucket map holds exactly the occurrences in the window. */
  ghost predicate Indexed(bucket: map<seq<Byte>, seq<int>>, tokens: seq<Token>, shift: nat, k: nat) {
    forall key ::
      BucketAt(bucket, key) == Ends(tokens, shift, k, key, |tokens|) && (key in bucket ==> bucket[key] != [])
  }

  function BucketAt(bucket: map<seq<Byte>, seq<int>>, key: seq<Byte>): seq<int> {
    if key in bucket then bucket[key] else []
  }

  // Votes.

  /** The token a match predicts at `offset`, one vote per match that reaches that far. */
  function Votes(tokens: seq<Token>, shift: nat, matches: seq<int>, currentEnd: int, offset: nat): seq<Token>
  {
    if matches == [] then []
    else
      Votes(tokens, shift, matches[..|matches| - 1], currentEnd, offset)
      + Vote(tokens, shift, matches[|matches| - 1], currentEnd, offset)
  }

  function Vote(tokens: seq<Token>, shift: nat, end: int, currentEnd: int, offset: nat): (v: seq<Token>)
    ensures |v| <= 1
  {
    var local := end + 1 + offset - shift;
    if end != currentEnd && 0 <= local < |tokens| then [tokens[local]] else []
  }

  /** The matches whose prediction at `offset` was `top`. */
  function Agreeing(tokens: seq<Token>, shift: nat, matches: seq<int>, currentEnd: int, offset: nat,
                    top: Token): (r: seq<int>)
    ensures |r| <= |matches|
  {
    if matches == [] then []
    else
      var e := matches[|matches| - 1];
      Agreeing(tokens, shift, matches[..|matches| - 1], currentEnd, offset, top)
      + if Vote(tokens, shift, e, currentEnd, offset) == [top] then [e] else []
  }

  /** `t` is the plurality winner, ties going to the smaller id. */
  ghost predicate IsTop(votes: multiset<Token>, t: Token) {
    && t in votes
    && forall u :: u in votes ==> votes[u] < votes[t] || (votes[u] == votes[t] && t <= u)
  }

  lemma TopUnique(votes: multiset<Token>, s: Token, t: Token)
    requires IsTop(votes, s) && IsTop(votes, t)
    ensures s == t
  {
  }

  /** The winner among the votes, scanning the counts in any order. */
  method TopToken(counts: map<Token, nat>, ghost votes: seq<Token>) returns (top: Token, count: nat)
    requires votes != [] && Tallied(votes, counts)
    ensures IsTop(multiset(votes), top) && count == multiset(votes)[top]
  {
    var todo := counts.Keys;
    var first := true;
    top, count := 0, 0;
    while todo != {}
      invariant todo <= counts.Keys
      invariant first ==> todo == counts.Keys
      invariant !first ==> top in counts && top !in todo && count == counts[top]
      invariant !first ==> forall u :: u in counts && u !in todo ==>
        counts[u] < count || (counts[u] == count && top <= u)
      decreases |todo|
    {
      var tok :| tok in todo;
      var c := counts[tok];
      if first || c > count || (c == count && tok < top) {
        top, count := tok, c;
        first := false;
      }
      todo := todo - {tok};
    }
    assert votes[0] in multiset(votes) && votes[0] in counts;
  }

  /** The confidence of `top`: its share of the votes. */
  function Share(votes: multiset<Token>, top: Token): real
    requires |votes| > 0
  {
    votes[top] as real / |votes| as real
  }

  // The naive reference: rescan the window for every token of the draft.

  /** An earlier occurrence of the current k-token suffix ends at local index `i`, and `draft` follows it. */
  predicate Follows(tokens: seq<Token>, k: nat, draft: seq<Token>, i: int)
  {
    && 0 < k <= |tokens| && k - 1 <= i < |tokens| - 1
    && tokens[i + 1 - k..i + 1] == tokens[|tokens| - k..]
    && i + 1 + |draft| <= |tokens| && tokens[i + 1..i + 1 + |draft|] == draft
  }

  /** What comes next after each occurrence that `draft` follows, among the ends below `n`. */
  function NextTokens(tokens: seq<Token>, k: nat, draft: seq<Token>, n: nat): seq<Token> {
    if n == 0 then []
    else NextTokens(tokens, k, draft, n - 1)
         + if Follows(tokens, k, draft, n - 1) && n + |draft| < |tokens| then [tokens[n + |draft|]] else []
  }

  ghost predicate Extends(tokens: seq<Token>, k: nat, floor: real, draft: seq<Token>, t: Token) {
    var votes := multiset(NextTokens(tokens, k, draft, |tokens|));
    |votes| > 0 && IsTop(votes, t) && Share(votes, t) >= floor
  }

  /** Extend `draft` by the plurality continuation while it clears the floor. */
  ghost function Grow(tokens: seq<Token>, k: nat, floor: real, max: nat, draft: seq<Token>): (d: seq<Token>)
    ensures draft <= d && |d| <= if |draft| > max then |draft| else max
    decreases max - |draft|
  {
    if |draft| >= max then draft
    else if t :| Extends(tokens, k, floor, draft, t) then Grow(tokens, k, floor, max, draft + [t])
    else draft
  }

  /** The draft for the longest suffix, up to `k` tokens, that yields one. */
  ghost function NaiveDraft(tokens: seq<Token>, k: nat, floor: real, max: nat): seq<Token> {
    if k == 0 then []
    else
      var d := Grow(tokens, k, floor, max, []);
      if d != [] then d else NaiveDraft(tokens, k - 1, floor, max)
  }

  lemma GrowStep(tokens: seq<Token>, k: nat, floor: real, max: nat, draft: seq<Token>, t: Token)
    requires |draft| < max && Extends(tokens, k, floor, draft, t)
    ensures Grow(tokens, k, floor, max, draft) == Grow(tokens, k, floor, max, draft + [t])
  {
    hide NextTokens;
    forall u | Extends(tokens, k, floor, draft, u) ensures u == t {
      TopUnique(multiset(NextTokens(tokens, k, draft, |tokens|)), t, u);
    }
  }

  /** Every token of a grown draft is the plurality vote, at or above the floor, of the occurrences the draft
      so far follows. */
  lemma {:induction false} GrownTokensVoted(tokens: seq<Token>, k: nat, floor: real, max: nat, draft: seq<Token>,
                                            o: nat)
    requires |draft| <= o < |Grow(tokens, k, floor, max, draft)|
    ensures
      var d := Grow(tokens, k, floor, max, draft);
      Extends(tokens, k, floor, d[..o], d[o])
    decreases max - |draft|
  {
    hide Extends;
    if t: Token :| Extends(tokens, k, floor, draft, t) {
      GrowStep(tokens, k, floor, max, draft, t);
      var d := Grow(tokens, k, floor, max, draft + [t]);
      if o > |draft| {
        GrownTokensVoted(tokens, k, floor, max, draft + [t], o);
      } else {
        assert d[..o] == draft && d[o] == (draft + [t])[o] == t;
      }
    }
  }

  lemma {:induction false} NextTokenSource(tokens: seq<Token>, k: nat, draft: seq<Token>, n: nat,
                                           t: Token) returns (i: nat)
    requires t in NextTokens(tokens, k, draft, n)
    ensures Follows(tokens, k, draft + [t], i)
  {
    hide Follows;
    FollowsEarlier(tokens, k, draft, n - 1);
    FollowsMore(tokens, k, draft, t, n - 1);
    if Follows(tokens, k, draft, n - 1) && n + |draft| < |tokens| && tokens[n + |draft|] == t {
      i := n - 1;
    } else {
      i := NextTokenSource(tokens, k, draft, n - 1, t);
    }
  }

  /** A non-empty draft literally follows an earlier occurrence of the current suffix. */
  lemma GrownDraftFollows(tokens: seq<Token>, k: nat, floor: real, max: nat) returns (i: nat)
    requires Grow(tokens, k, floor, max, []) != []
    ensures Follows(tokens, k, Grow(tokens, k, floor, max, []), i)
  {
    hide Follows;
    var d := Grow(tokens, k, floor, max, []);
    var o := |d| - 1;
    GrownTokensVoted(tokens, k, floor, max, [], o);
    i := NextTokenSource(tokens, k, d[..o], |tokens|, d[o]);
    assert d[..o] + [d[o]] == d;
  }

  // What a draft is, said without growing it.

  /** Where earlier occurrences of the current k-token suffix end that `draft` follows. */
  ghost function Places(tokens: seq<Token>, k: nat, draft: seq<Token>): set<nat> {
    set i: nat | i < |tokens| && Follows(tokens, k, draft, i)
  }

  /** Those of them after which the window has one more token. */
  ghost function Voters(tokens: seq<Token>, k: nat, draft: seq<Token>): set<nat> {
    set i: nat | i < |tokens| && Follows(tokens, k, draft, i) && i + 1 + |draft| < |tokens|
  }

  /** `t` continues `draft` at more places than any other token, or at as many as a larger one, and at a share of
      all places that is no less than the floor. */
  ghost predicate Elected(tokens: seq<Token>, k: nat, floor: real, draft: seq<Token>, t: Token) {
    var n := |Places(tokens, k, draft + [t])|;
    && n > 0
    && (forall u: Token :: |Places(tokens, k, draft + [u])| < n || (|Places(tokens, k, draft + [u])| == n && t <= u))
    && |Voters(tokens, k, draft)| > 0 && n as real / |Voters(tokens, k, draft)| as real >= floor
  }

  /** Every token of the draft is elected after the ones before it, and the draft is as long as it may be. */
  ghost predicate Drafted(tokens: seq<Token>, k: nat, floor: real, max: nat, draft: seq<Token>) {
    && |draft| <= max
    && (forall o :: 0 <= o < |draft| ==> Elected(tokens, k, floor, draft[..o], draft[o]))
    && (|draft| < max ==> forall t :: !Elected(tokens, k, floor, draft, t))
  }

  /** The draft for the longest suffix of at most `n` tokens that yields one. */
  ghost predicate BestDraft(tokens: seq<Token>, n: nat, floor: real, max: nat, draft: seq<Token>) {
    if draft == [] then forall k :: 1 <= k <= n ==> Drafted(tokens, k, floor, max, [])
    else exists k ::
      && 1 <= k <= n && Drafted(tokens, k, floor, max, draft)
      && forall longer :: k < longer <= n ==> Drafted(tokens, longer, floor, max, [])
  }

  lemma {:induction false} DraftedUnique(tokens: seq<Token>, k: nat, floor: real, max: nat, a: seq<Token>,
                                         b: seq<Token>, n: nat)
    requires Drafted(tokens, k, floor, max, a) && Drafted(tokens, k, floor, max, b) && n <= |a| && n <= |b|
    ensures a[..n] == b[..n]
    ensures n == |a| ==> a == b
  {
    hide Elected;
    if n > 0 {
      DraftedUnique(tokens, k, floor, max, a, b, n - 1);
      assert Elected(tokens, k, floor, a[..n - 1], a[n - 1]) && Elected(tokens, k, floor, b[..n - 1], b[n - 1]);
      ElectedUnique(tokens, k, floor, a[..n - 1], a[n - 1], b[n - 1]);
      assert a[..n] == a[..n - 1] + [a[n - 1]] && b[..n] == b[..n - 1] + [b[n - 1]];
    }
    if n == |a| {
      assert a[..n] == a && b[..|b|] == b;
      assert b[..n] == a;
      assert n == |b|;
    }
  }

  lemma ElectedUnique(tokens: seq<Token>, k: nat, floor: real, draft: seq<Token>, s: Token, t: Token)
    requires Elected(tokens, k, floor, draft, s) && Elected(tokens, k, floor, draft, t)
    ensures s == t
  {
    hide Places;
    hide Voters;
  }

  /** There is just one such draft. */
  lemma BestDraftUnique(tokens: seq<Token>, n: nat, floor: real, max: nat, a: seq<Token>, b: seq<Token>)
    requires BestDraft(tokens, n, floor, max, a) && BestDraft(tokens, n, floor, max, b)
    ensures a == b
  {
    hide Drafted;
    if a != [] {
      var k :| 1 <= k <= n && Drafted(tokens, k, floor, max, a)
        && forall longer :: k < longer <= n ==> Drafted(tokens, longer, floor, max, []);
      if b != [] {
        var l :| 1 <= l <= n && Drafted(tokens, l, floor, max, b)
          && forall longer :: l < longer <= n ==> Drafted(tokens, longer, floor, max, []);
        SameDraft(tokens, if k > l then k else l, floor, max, if k < l then [] else a, if l < k then [] else b);
      } else {
        SameDraft(tokens, k, floor, max, a, []);
      }
    } else if b != [] {
      var l :| 1 <= l <= n && Drafted(tokens, l, floor, max, b)
        && forall longer :: l < longer <= n ==> Drafted(tokens, longer, floor, max, []);
      SameDraft(tokens, l, floor, max, [], b);
    }
  }

  lemma SameDraft(tokens: seq<Token>, k: nat, floor: real, max: nat, a: seq<Token>, b: seq<Token>)
    requires Drafted(tokens, k, floor, max, a) && Drafted(tokens, k, floor, max, b)
    ensures a == b
  {
    if |a| <= |b| {
      DraftedUnique(tokens, k, floor, max, a, b, |a|);
    } else {
      DraftedUnique(tokens, k, floor, max, b, a, |b|);
    }
  }

  /** The places below `n`. */
  ghost function PlacesBelow(tokens: seq<Token>, k: nat, draft: seq<Token>, n: nat): set<nat> {
    set i: nat | i < n && Follows(tokens, k, draft, i)
  }

  ghost function VotersBelow(tokens: seq<Token>, k: nat, draft: seq<Token>, n: nat): set<nat> {
    set i: nat | i < n && Follows(tokens, k, draft, i) && i + 1 + |draft| < |tokens|
  }

  lemma PlacesStep(tokens: seq<Token>, k: nat, draft: seq<Token>, n: nat)
    ensures |PlacesBelow(tokens, k, draft, n + 1)|
         == |PlacesBelow(tokens, k, draft, n)| + if Follows(tokens, k, draft, n) then 1 else 0
  {
    hide Follows;
    var now := PlacesBelow(tokens, k, draft, n);
    if Follows(tokens, k, draft, n) {
      assert PlacesBelow(tokens, k, draft, n + 1) == now + {n} && n !in now;
    } else {
      assert PlacesBelow(tokens, k, draft, n + 1) == now;
    }
  }

  lemma VotersStep(tokens: seq<Token>, k: nat, draft: seq<Token>, n: nat)
    ensures |VotersBelow(tokens, k, draft, n + 1)|
         == |VotersBelow(tokens, k, draft, n)|
            + if Follows(tokens, k, draft, n) && n + 1 + |draft| < |tokens| then 1 else 0
  {
    hide Follows;
    var now := VotersBelow(tokens, k, draft, n);
    if Follows(tokens, k, draft, n) && n + 1 + |draft| < |tokens| {
      assert VotersBelow(tokens, k, draft, n + 1) == now + {n} && n !in now;
    } else {
      assert VotersBelow(tokens, k, draft, n + 1) == now;
    }
  }

  lemma OneMore(votes: seq<Token>, last: Token, t: Token)
    ensures multiset(votes + [last])[t] == multiset(votes)[t] + if last == t then 1 else 0
  {
    assert multiset(votes + [last]) == multiset(votes) + multiset{last};
  }

  lemma NextTokensStep(tokens: seq<Token>, k: nat, draft: seq<Token>, n: nat, t: Token)
    ensures multiset(NextTokens(tokens, k, draft, n + 1))[t]
         == multiset(NextTokens(tokens, k, draft, n))[t] + if Follows(tokens, k, draft + [t], n) then 1 else 0
  {
    hide Follows;
    hide NextTokens;
    LiveStep(tokens, 0, k, draft, n);
    FollowsMore(tokens, k, draft, t, n);
    if Follows(tokens, k, draft, n) && n + 1 + |draft| < |tokens| {
      OneMore(NextTokens(tokens, k, draft, n), tokens[n + 1 + |draft|], t);
    }
  }

  /** The votes counted are the places. */
  lemma {:induction false} VotesArePlaces(tokens: seq<Token>, k: nat, draft: seq<Token>, n: nat, t: Token)
    ensures multiset(NextTokens(tokens, k, draft, n))[t] == |PlacesBelow(tokens, k, draft + [t], n)|
  {
    hide Follows;
    hide PlacesBelow;
    hide NextTokens;
    if n == 0 {
      NoPlaces(tokens, k, draft);
      NoPlaces(tokens, k, draft + [t]);
    } else {
      VotesArePlaces(tokens, k, draft, n - 1, t);
      PlacesStep(tokens, k, draft + [t], n - 1);
      NextTokensStep(tokens, k, draft, n - 1, t);
    }
  }

  lemma {:induction false} VotesAreVoters(tokens: seq<Token>, k: nat, draft: seq<Token>, n: nat)
    ensures |NextTokens(tokens, k, draft, n)| == |VotersBelow(tokens, k, draft, n)|
  {
    hide Follows;
    hide VotersBelow;
    hide NextTokens;
    if n == 0 {
      NoPlaces(tokens, k, draft);
    } else {
      VotesAreVoters(tokens, k, draft, n - 1);
      VotersStep(tokens, k, draft, n - 1);
      LiveStep(tokens, 0, k, draft, n - 1);
    }
  }

  lemma NoPlaces(tokens: seq<Token>, k: nat, draft: seq<Token>)
    ensures PlacesBelow(tokens, k, draft, 0) == {} && VotersBelow(tokens, k, draft, 0) == {}
    ensures NextTokens(tokens, k, draft, 0) == []
  {
  }

  lemma BelowAll(tokens: seq<Token>, k: nat, draft: seq<Token>)
    ensures PlacesBelow(tokens, k, draft, |tokens|) == Places(tokens, k, draft)
    ensures VotersBelow(tokens, k, draft, |tokens|) == Voters(tokens, k, draft)
  {
  }

  lemma CountsAre(tokens: seq<Token>, k: nat, draft: seq<Token>, t: Token)
    ensures multiset(NextTokens(tokens, k, draft, |tokens|))[t] == |Places(tokens, k, draft + [t])|
    ensures |multiset(NextTokens(tokens, k, draft, |tokens|))| == |Voters(tokens, k, draft)|
  {
    VotesArePlaces(tokens, k, draft, |tokens|, t);
    VotesAreVoters(tokens, k, draft, |tokens|);
    BelowAll(tokens, k, draft);
    BelowAll(tokens, k, draft + [t]);
  }

  lemma ExtendsIsElected(tokens: seq<Token>, k: nat, floor: real, draft: seq<Token>, t: Token)
    ensures Extends(tokens, k, floor, draft, t) <==> Elected(tokens, k, floor, draft, t)
  {
    hide NextTokens;
    hide Places;
    hide Voters;
    CountsAre(tokens, k, draft, t);
    forall u: Token
      ensures multiset(NextTokens(tokens, k, draft, |tokens|))[u] == |Places(tokens, k, draft + [u])|
    {
      CountsAre(tokens, k, draft, u);
    }
    if Extends(tokens, k, floor, draft, t) {
      ExtendsElects(tokens, k, floor, draft, t);
    }
  }

  lemma ExtendsElects(tokens: seq<Token>, k: nat, floor: real, draft: seq<Token>, t: Token)
    requires Extends(tokens, k, floor, draft, t)
    requires forall u: Token ::
      multiset(NextTokens(tokens, k, draft, |tokens|))[u] == |Places(tokens, k, draft + [u])|
    requires |multiset(NextTokens(tokens, k, draft, |tokens|))| == |Voters(tokens, k, draft)|
    ensures Elected(tokens, k, floor, draft, t)
  {
    hide NextTokens;
    hide Places;
    hide Voters;
    var votes := multiset(NextTokens(tokens, k, draft, |tokens|));
    forall u: Token ensures votes[u] < votes[t] || (votes[u] == votes[t] && t <= u) {
      assert u in votes || votes[u] == 0;
    }
  }

  lemma {:induction false} GrowDrafts(tokens: seq<Token>, k: nat, floor: real, max: nat, draft: seq<Token>)
    requires |draft| <= max
    requires forall o :: 0 <= o < |draft| ==> Elected(tokens, k, floor, draft[..o], draft[o])
    ensures Drafted(tokens, k, floor, max, Grow(tokens, k, floor, max, draft))
    decreases max - |draft|
  {
    hide Extends;
    hide Elected;
    forall t ensures Extends(tokens, k, floor, draft, t) <==> Elected(tokens, k, floor, draft, t) {
      ExtendsIsElected(tokens, k, floor, draft, t);
    }
    if |draft| < max {
      if t: Token :| Extends(tokens, k, floor, draft, t) {
        GrowStep(tokens, k, floor, max, draft, t);
        var more := draft + [t];
        forall o | 0 <= o < |more| ensures Elected(tokens, k, floor, more[..o], more[o]) {
          assert o < |draft| ==> more[..o] == draft[..o];
          assert more[..|draft|] == draft;
        }
        GrowDrafts(tokens, k, floor, max, more);
      }
    }
  }

  /** The rescan finds it. */
  lemma {:induction false} NaiveIsBest(tokens: seq<Token>, n: nat, floor: real, max: nat)
    ensures BestDraft(tokens, n, floor, max, NaiveDraft(tokens, n, floor, max))
  {
    hide Drafted;
    hide Grow;
    if n > 0 {
      var d := Grow(tokens, n, floor, max, []);
      GrowDrafts(tokens, n, floor, max, []);
      if d == [] {
        NaiveIsBest(tokens, n - 1, floor, max);
      }
    }
  }

  // The incremental form computes the same votes.

  /** The absolute ends, below local index `n`, of the occurrences `draft` follows. */
  function Live(tokens: seq<Token>, shift: nat, k: nat, draft: seq<Token>, n: nat): (ends: seq<int>)
    ensures forall j :: 0 <= j < |ends| ==> shift <= ends[j] < shift + n
  {
    if n == 0 then []
    else Live(tokens, shift, k, draft, n - 1) + if Follows(tokens, k, draft, n - 1) then [shift + n - 1] else []
  }

  lemma VotesSnoc(tokens: seq<Token>, shift: nat, ms: seq<int>, e: int, currentEnd: int, offset: nat)
    ensures Votes(tokens, shift, ms + [e], currentEnd, offset)
         == Votes(tokens, shift, ms, currentEnd, offset) + Vote(tokens, shift, e, currentEnd, offset)
  {
    hide Vote;
    assert (ms + [e])[..|ms + [e]| - 1] == ms;
  }

  lemma AgreeingSnoc(tokens: seq<Token>, shift: nat, ms: seq<int>, e: int, currentEnd: int, offset: nat, top: Token)
    ensures Agreeing(tokens, shift, ms + [e], currentEnd, offset, top)
         == Agreeing(tokens, shift, ms, currentEnd, offset, top)
            + if Vote(tokens, shift, e, currentEnd, offset) == [top] then [e] else []
  {
    hide Vote;
    assert (ms + [e])[..|ms + [e]| - 1] == ms;
  }

  lemma {:induction false} LiveVotes(tokens: seq<Token>, shift: nat, k: nat, draft: seq<Token>, n: nat)
    requires n <= |tokens|
    ensures Votes(tokens, shift, Live(tokens, shift, k, draft, n), shift + |tokens| - 1, |draft|)
         == NextTokens(tokens, k, draft, n)
  {
    hide Votes;
    hide Vote;
    hide Live;
    hide Follows;
    hide NextTokens;
    if n == 0 {
      NothingLive(tokens, shift, k, draft);
      NoVotes(tokens, shift, shift + |tokens| - 1, |draft|);
    } else {
      LiveVotes(tokens, shift, k, draft, n - 1);
      LiveStep(tokens, shift, k, draft, n - 1);
      VotesStep(tokens, shift, k, draft, n - 1);
    }
  }

  lemma VotesStep(tokens: seq<Token>, shift: nat, k: nat, draft: seq<Token>, n: nat)
    requires n < |tokens|
    ensures var end := shift + |tokens| - 1;
      var before := Votes(tokens, shift, Live(tokens, shift, k, draft, n), end, |draft|);
      Votes(tokens, shift, Live(tokens, shift, k, draft, n + 1), end, |draft|)
      == if Follows(tokens, k, draft, n) && n + 1 + |draft| < |tokens| then before + [tokens[n + 1 + |draft|]]
         else before
  {
    hide Votes;
    hide Vote;
    hide Live;
    hide Follows;
    hide NextTokens;
    var live, end := Live(tokens, shift, k, draft, n), shift + |tokens| - 1;
    var before := Votes(tokens, shift, live, end, |draft|);
    assert before + [] == before;
    LiveStep(tokens, shift, k, draft, n);
    VotesSnoc(tokens, shift, live, shift + n, end, |draft|);
    VoteIs(tokens, shift, n, |draft|);
  }

  lemma NothingLive(tokens: seq<Token>, shift: nat, k: nat, draft: seq<Token>)
    ensures Live(tokens, shift, k, draft, 0) == [] && NextTokens(tokens, k, draft, 0) == []
  {
  }

  lemma LiveStep(tokens: seq<Token>, shift: nat, k: nat, draft: seq<Token>, n: nat)
    ensures Live(tokens, shift, k, draft, n + 1)
         == if Follows(tokens, k, draft, n) then Live(tokens, shift, k, draft, n) + [shift + n]
            else Live(tokens, shift, k, draft, n)
    ensures NextTokens(tokens, k, draft, n + 1)
         == if Follows(tokens, k, draft, n) && n + 1 + |draft| < |tokens|
            then NextTokens(tokens, k, draft, n) + [tokens[n + 1 + |draft|]]
            else NextTokens(tokens, k, draft, n)
  {
    hide Follows;
    var live, next := Live(tokens, shift, k, draft, n), NextTokens(tokens, k, draft, n);
    assert live + [] == live && next + [] == next;
  }

  lemma VoteIs(tokens: seq<Token>, shift: nat, i: nat, offset: nat)
    requires i < |tokens|
    ensures Vote(tokens, shift, shift + i, shift + |tokens| - 1, offset)
         == if i + 1 + offset < |tokens| then [tokens[i + 1 + offset]] else []
  {
  }

  lemma NoVotes(tokens: seq<Token>, shift: nat, currentEnd: int, offset: nat)
    ensures Votes(tokens, shift, [], currentEnd, offset) == []
  {
  }

  lemma FollowsMore(tokens: seq<Token>, k: nat, draft: seq<Token>, t: Token, i: int)
    ensures Follows(tokens, k, draft + [t], i)
        <==> Follows(tokens, k, draft, i) && i + 1 + |draft| < |tokens| && tokens[i + 1 + |draft|] == t
  {
    if 0 < k <= |tokens| && k - 1 <= i < |tokens| - 1 && i + 1 + |draft| < |tokens| {
      var m := |draft|;
      assert |draft + [t]| == m + 1;
      assert tokens[i + 1..i + 1 + m + 1] == tokens[i + 1..i + 1 + m] + [tokens[i + 1 + m]];
      if tokens[i + 1..i + 1 + m + 1] == draft + [t] {
        assert tokens[i + 1..i + 1 + m + 1][m] == t;
        assert tokens[i + 1..i + 1 + m + 1][..m] == draft;
      }
    }
  }

  /** Narrowing the live matches to those that predicted `top` leaves the live matches of the longer draft. */
  lemma {:induction false} LiveNarrows(tokens: seq<Token>, shift: nat, k: nat, draft: seq<Token>, n: nat, top: Token)
    requires n <= |tokens|
    ensures Agreeing(tokens, shift, Live(tokens, shift, k, draft, n), shift + |tokens| - 1, |draft|, top)
         == Live(tokens, shift, k, draft + [top], n)
  {
    hide Agreeing;
    hide Follows;
    if n == 0 {
      NoneAgree(tokens, shift, shift + |tokens| - 1, |draft|, top);
    } else {
      var before := Live(tokens, shift, k, draft, n - 1);
      LiveNarrows(tokens, shift, k, draft, n - 1, top);
      FollowsMore(tokens, k, draft, top, n - 1);
      FollowsEarlier(tokens, k, draft, n - 1);
      if Follows(tokens, k, draft, n - 1) {
        AgreeingSnoc(tokens, shift, before, shift + n - 1, shift + |tokens| - 1, |draft|, top);
      } else {
        assert before + [] == before;
      }
    }
  }

  lemma FollowsEarlier(tokens: seq<Token>, k: nat, draft: seq<Token>, i: int)
    ensures Follows(tokens, k, draft, i) ==> 0 <= i < |tokens| - 1
  {
  }

  lemma NoneAgree(tokens: seq<Token>, shift: nat, currentEnd: int, offset: nat, top: Token)
    ensures Agreeing(tokens, shift, [], currentEnd, offset, top) == []
  {
  }

  /** The indexed ends of the current suffix are its earlier occurrences, then the suffix itself. */
  lemma EndsOfSuffix(tokens: seq<Token>, shift: nat, k: nat)
    requires 0 < k <= |tokens|
    ensures Ends(tokens, shift, k, NgramKey(tokens[|tokens| - k..]), |tokens|)
         == Live(tokens, shift, k, [], |tokens|) + [shift + |tokens| - 1]
  {
    hide NgramKey;
    var key := NgramKey(tokens[|tokens| - k..]);
    var n := |tokens|;
    EndsAreLive(tokens, shift, k, n - 1);
    assert tokens[n - k..n] == tokens[n - k..];
    assert !Follows(tokens, k, [], n - 1);
    var live := Live(tokens, shift, k, [], n - 1);
    assert Live(tokens, shift, k, [], n) == live + [] == live;
  }

  lemma EndsAtFollows(tokens: seq<Token>, k: nat, i: int)
    requires 0 < k <= |tokens| && i < |tokens| - 1
    ensures EndsAt(tokens, k, NgramKey(tokens[|tokens| - k..]), i) <==> Follows(tokens, k, [], i)
  {
    hide NgramKey;
    if k - 1 <= i {
      assert tokens[i + 1..i + 1] == [];
      if NgramKey(tokens[i + 1 - k..i + 1]) == NgramKey(tokens[|tokens| - k..]) {
        NgramKeyInjective(tokens[i + 1 - k..i + 1], tokens[|tokens| - k..]);
      }
    }
  }

  lemma {:induction false} EndsAreLive(tokens: seq<Token>, shift: nat, k: nat, n: nat)
    requires 0 < k <= |tokens| && n < |tokens|
    ensures Ends(tokens, shift, k, NgramKey(tokens[|tokens| - k..]), n) == Live(tokens, shift, k, [], n)
    decreases n
  {
    hide NgramKey;
    hide EndsAt;
    hide Follows;
    if n > 0 {
      EndsAreLive(tokens, shift, k, n - 1);
      EndsAtFollows(tokens, k, n - 1);
    }
  }

  // The decoder object.

  datatype Stats = Stats(
    proposed: nat,
    tokensProposed: nat,
    tokensAccepted: nat,
    sumLength: nat,
    calls: nat,
    returned: nat)

  const NO_STATS := Stats(0, 0, 0, 0, 0, 0)

  /** The statistics after a request that returned `draft`. */
  function Counted(s: Stats, draft: seq<Token>): Stats {
    if draft == [] then s.(calls := s.calls + 1)
    else s.(calls := s.calls + 1, proposed := s.proposed + 1, tokensProposed := s.tokensProposed + |draft|,
            returned := s.returned + 1, sumLength := s.sumLength + |draft|)
  }

  /** The retained window after one more token. */
  function Window(tokens: seq<Token>, t: Token, maxHistory: int): seq<Token> {
    if maxHistory <= 0 || |tokens| + 1 <= maxHistory then tokens + [t]
    else (tokens + [t])[|tokens| + 1 - maxHistory..]
  }

  /** How many old tokens that drops. */
  function Dropped(tokens: seq<Token>, maxHistory: int): nat {
    if maxHistory <= 0 || |tokens| + 1 <= maxHistory then 0 else |tokens| + 1 - maxHistory
  }

  function Min(a: int, b: int): int { if a < b then a else b }

  /** One more token adds an occurrence of exactly the window that now ends there. */
  lemma EndsAppend(tokens: seq<Token>, shift: nat, k: nat, key: seq<Byte>, t: Token)
    requires k > 0
    ensures Ends(tokens + [t], shift, k, key, |tokens| + 1)
         == Ends(tokens, shift, k, key, |tokens|)
            + if |tokens| + 1 >= k && NgramKey((tokens + [t])[|tokens| + 1 - k..]) == key then [shift + |tokens|]
              else []
  {
    hide NgramKey;
    var more, n := tokens + [t], |tokens|;
    EndsPrefix(tokens, more, shift, k, key, n);
    if n + 1 >= k {
      assert more[n + 1 - k..n + 1] == more[n + 1 - k..];
    }
  }

  lemma IndexedAppend(bucket: map<seq<Byte>, seq<int>>, tokens: seq<Token>, shift: nat, k: nat, t: Token)
    requires k > 0 && Indexed(bucket, tokens, shift, k)
    ensures |tokens| + 1 < k ==> Indexed(bucket, tokens + [t], shift, k)
    ensures |tokens| + 1 >= k ==>
      var key := NgramKey((tokens + [t])[|tokens| + 1 - k..]);
      Indexed(bucket[key := BucketAt(bucket, key) + [shift + |tokens|]], tokens + [t], shift, k)
  {
    hide NgramKey;
    hide Ends;
    forall key ensures Ends(tokens + [t], shift, k, key, |tokens| + 1)
      == BucketAt(bucket, key)
         + if |tokens| + 1 >= k && NgramKey((tokens + [t])[|tokens| + 1 - k..]) == key then [shift + |tokens|] else []
    {
      EndsAppend(tokens, shift, k, key, t);
    }
    assert forall xs: seq<int> :: xs + [] == xs;
  }

  lemma SliceOfPrefix<T>(s: seq<T>, n: nat, a: nat, b: nat)
    requires a <= b <= n <= |s|
    ensures s[..n][a..b] == s[a..b]
  {
    assert forall j :: 0 <= j < b - a ==> s[..n][a..b][j] == s[a..b][j];
  }

  lemma EndsAtPrefix(tokens: seq<Token>, more: seq<Token>, k: nat, key: seq<Byte>, i: int)
    requires i < |tokens| <= |more| && more[..|tokens|] == tokens
    ensures EndsAt(more, k, key, i) == EndsAt(tokens, k, key, i)
  {
    hide NgramKey;
    if 0 < k && k - 1 <= i {
      SliceOfPrefix(more, |tokens|, i + 1 - k, i + 1);
    }
  }

  lemma {:induction false} EndsPrefix(tokens: seq<Token>, more: seq<Token>, shift: nat, k: nat, key: seq<Byte>, n: nat)
    requires n <= |tokens| <= |more| && more[..|tokens|] == tokens
    ensures Ends(more, shift, k, key, n) == Ends(tokens, shift, k, key, n)
    decreases n
  {
    hide EndsAt;
    if n > 0 {
      EndsPrefix(tokens, more, shift, k, key, n - 1);
      EndsAtPrefix(tokens, more, k, key, n - 1);
    }
  }

  class SuffixDecoder {
    const maxDraftTokens: nat
    const maxSuffixLen: nat
    const minConfidence: real
    const maxHistory: int
    var tokens: seq<Token>
    var shift: nat
    var index: seq<map<seq<Byte>, seq<int>>>
    var stats: Stats

    /** For every suffix length, the index holds exactly the occurrences inside the window. */
    ghost predicate Valid()
      reads this
    {
      && maxDraftTokens >= 1 && maxSuffixLen >= 1
      && |index| == maxSuffixLen + 1
      && forall k :: 1 <= k <= maxSuffixLen ==> Indexed(index[k], tokens, shift, k)
    }

    constructor (maxDraftTokens: int, maxSuffixLen: int, minConfidence: real, maxHistory: int)
      ensures Valid() && tokens == [] && shift == 0 && stats == NO_STATS
      ensures this.maxDraftTokens == (if maxDraftTokens < 1 then 8 else maxDraftTokens)
      ensures this.maxSuffixLen == (if maxSuffixLen < 1 then 4 else maxSuffixLen)
      ensures this.minConfidence == (if minConfidence < 0.0 || minConfidence > 1.0 then 0.3 else minConfidence)
      ensures this.maxHistory == maxHistory
    {
      this.maxDraftTokens := if maxDraftTokens < 1 then 8 else maxDraftTokens;
      this.maxSuffixLen := if maxSuffixLen < 1 then 4 else maxSuffixLen;
      this.minConfidence := if minConfidence < 0.0 || minConfidence > 1.0 then 0.3 else minConfidence;
      this.maxHistory := maxHistory;
      tokens, shift, stats := [], 0, NO_STATS;
      index := seq((if maxSuffixLen < 1 then 4 else maxSuffixLen) + 1, _ => map[]);
    }

    method AddPrompt(prompt: seq<Token>)
      requires Valid()
      modifies this`tokens, this`shift, this`index
      ensures Valid()
      ensures (tokens, shift) == Slid(old(tokens), old(shift), prompt, maxHistory)
    {
      hide SuffixDecoder.Valid;
      hide Window;
      hide Dropped;
      for i := 0 to |prompt|
        invariant Valid()
        invariant Slid(tokens, shift, prompt[i..], maxHistory) == Slid(old(tokens), old(shift), prompt, maxHistory)
      {
        assert prompt[i..][1..] == prompt[i + 1..];
        Add(prompt[i]);
      }
    }

    method AddToken(t: Token)
      requires Valid()
      modifies this`tokens, this`shift, this`index
      ensures Valid()
      ensures tokens == Window(old(tokens), t, maxHistory) && shift == old(shift) + Dropped(old(tokens), maxHistory)
    {
      Add(t);
    }

    method Add(t: Token)
      requires Valid()
      modifies this`tokens, this`shift, this`index
      ensures Valid()
      ensures tokens == Window(old(tokens), t, maxHistory) && shift == old(shift) + Dropped(old(tokens), maxHistory)
    {
      hide Indexed;
      hide NgramKey;
      tokens := tokens + [t];
      var absPos := shift + |tokens| - 1;
      for k := 1 to maxSuffixLen + 1
        invariant tokens == old(tokens) + [t] && shift == old(shift) && |index| == maxSuffixLen + 1
        invariant forall j :: 1 <= j < k ==> Indexed(index[j], tokens, shift, j)
        invariant forall j :: k <= j <= maxSuffixLen ==> Indexed(index[j], old(tokens), shift, j)
      {
        IndexedAppend(index[k], old(tokens), shift, k, t);
        var start := |tokens| - k;
        if start < 0 {
          continue;
        }
        assert tokens[start..start + k] == tokens[start..];
        var key := NgramKey(tokens[start..start + k]);
        index := index[k := index[k][key := BucketAt(index[k], key) + [absPos]]];
      }
      Trim();
    }

    /** Drops the oldest tokens beyond the cap, and every index entry whose span does not survive whole. */
    method Trim()
      requires Valid()
      modifies this`tokens, this`shift, this`index
      ensures Valid()
      ensures maxHistory <= 0 || |old(tokens)| <= maxHistory ==> tokens == old(tokens) && shift == old(shift)
      ensures maxHistory > 0 && |old(tokens)| > maxHistory ==>
        && tokens == old(tokens)[|old(tokens)| - maxHistory..]
        && shift == old(shift) + |old(tokens)| - maxHistory
    {
      hide Indexed;
      if maxHistory <= 0 || |tokens| <= maxHistory {
        return;
      }
      var drop := |tokens| - maxHistory;
      tokens := tokens[drop..];
      shift := shift + drop;
      for k := 1 to maxSuffixLen + 1
        invariant tokens == old(tokens)[drop..] && shift == old(shift) + drop && |index| == maxSuffixLen + 1
        invariant forall j :: 1 <= j < k ==> Indexed(index[j], tokens, shift, j)
        invariant forall j :: k <= j <= maxSuffixLen ==> Indexed(index[j], old(tokens), old(shift), j)
      {
        var bucket := TrimBucket(index[k], shift + k - 1, old(tokens), old(shift), k, drop);
        index := index[k := bucket];
      }
    }

    /** A draft for the current history, exactly as a rescan of the window would find it. */
    method Draft() returns (draft: seq<Token>)
      requires Valid()
      modifies this`stats
      ensures draft == NaiveDraft(tokens, Min(maxSuffixLen, |tokens|), minConfidence, maxDraftTokens)
      ensures stats == Counted(old(stats), draft)
    {
      hide NaiveDraft;
      hide Grow;
      hide Indexed;
      stats := stats.(calls := stats.calls + 1);
      if |tokens| == 0 {
        NoDraft(tokens, minConfidence, maxDraftTokens);
        return [];
      }
      var maxK := Min(maxSuffixLen, |tokens|);
      var k := maxK;
      while k >= 1
        invariant 0 <= k <= maxK
        invariant stats == old(stats).(calls := old(stats).calls + 1)
        invariant NaiveDraft(tokens, k, minConfidence, maxDraftTokens)
               == NaiveDraft(tokens, maxK, minConfidence, maxDraftTokens)
      {
        DraftAt(tokens, k, minConfidence, maxDraftTokens);
        SuffixBucket(index[k], tokens, shift, k);
        var query := NgramKey(tokens[|tokens| - k..]);
        var positions := BucketAt(index[k], query);
        assert |positions| > 0;
        draft := BuildDraft(tokens, shift, positions, shift + |tokens| - 1, maxDraftTokens, minConfidence, k);
        if |draft| > 0 {
          stats := stats.(proposed := stats.proposed + 1, tokensProposed := stats.tokensProposed + |draft|,
                          returned := stats.returned + 1, sumLength := stats.sumLength + |draft|);
          return draft;
        }
        k := k - 1;
      }
      NoDraft(tokens, minConfidence, maxDraftTokens);
      return [];
    }
  }

  /** The window and shift after a run of tokens. */
  function Slid(tokens: seq<Token>, shift: nat, more: seq<Token>, maxHistory: int): (seq<Token>, nat)
    decreases |more|
  {
    if more == [] then (tokens, shift)
    else Slid(Window(tokens, more[0], maxHistory), shift + Dropped(tokens, maxHistory), more[1..], maxHistory)
  }

  lemma WindowIsSuffix(history: seq<Token>, shift: nat, t: Token, maxHistory: int)
    requires shift <= |history|
    ensures
      var d := Dropped(history[shift..], maxHistory);
      && shift + d <= |history| + 1
      && Window(history[shift..], t, maxHistory) == (history + [t])[shift + d..]
      && (if maxHistory > 0 && |history| + 1 - shift > maxHistory then
            |Window(history[shift..], t, maxHistory)| == maxHistory
          else d == 0)
  {
    assert (history + [t])[shift..] == history[shift..] + [t];
  }

  /** Absolute positions: the window is always the end of everything ever added, from `shift` on, and within the cap. */
  lemma {:induction false} SlidIsSuffix(history: seq<Token>, shift: nat, more: seq<Token>, maxHistory: int)
    requires shift <= |history|
    ensures
      var (w, s) := Slid(history[shift..], shift, more, maxHistory);
      && s <= |history + more| && w == (history + more)[s..]
      && (if maxHistory > 0 && more != [] && |history + more| - shift > maxHistory then |w| == maxHistory
          else s == shift)
    decreases |more|
  {
    hide Window;
    hide Dropped;
    if more == [] {
      assert history + more == history;
    } else {
      var t := more[0];
      var d := Dropped(history[shift..], maxHistory);
      WindowIsSuffix(history, shift, t, maxHistory);
      SlidIsSuffix(history + [t], shift + d, more[1..], maxHistory);
      assert history + [t] + more[1..] == history + more;
    }
  }

  lemma NoDraft(tokens: seq<Token>, floor: real, max: nat)
    ensures NaiveDraft(tokens, 0, floor, max) == []
  {
  }

  lemma DraftAt(tokens: seq<Token>, k: nat, floor: real, max: nat)
    requires k > 0
    ensures NaiveDraft(tokens, k, floor, max)
         == if Grow(tokens, k, floor, max, []) != [] then Grow(tokens, k, floor, max, [])
            else NaiveDraft(tokens, k - 1, floor, max)
  {
  }

  lemma SuffixBucket(bucket: map<seq<Byte>, seq<int>>, tokens: seq<Token>, shift: nat, k: nat)
    requires Indexed(bucket, tokens, shift, k) && 0 < k <= |tokens|
    ensures BucketAt(bucket, NgramKey(tokens[|tokens| - k..]))
         == Live(tokens, shift, k, [], |tokens|) + [shift + |tokens| - 1]
  {
    hide NgramKey;
    EndsOfSuffix(tokens, shift, k);
  }

  method KeepAtLeast(ends: seq<int>, threshold: int) returns (kept: seq<int>)
    ensures kept == AtLeast(ends, threshold)
  {
    hide AtLeast;
    kept := [];
    NoneKept(threshold);
    for i := 0 to |ends|
      invariant kept == AtLeast(ends[..i], threshold)
    {
      AtLeastSnoc(ends[..i], ends[i], threshold);
      assert ends[..i + 1] == ends[..i] + [ends[i]];
      if ends[i] >= threshold {
        kept := kept + [ends[i]];
      }
    }
    assert ends[..|ends|] == ends;
  }

  lemma NoneKept(threshold: int)
    ensures AtLeast([], threshold) == []
  {
  }

  /** Filters every list of a bucket by the survival threshold and deletes the lists that become empty. */
  method TrimBucket(bucket: map<seq<Byte>, seq<int>>, threshold: int, ghost tokens: seq<Token>, ghost shift: nat,
                    k: nat, ghost drop: nat)
    returns (trimmed: map<seq<Byte>, seq<int>>)
    requires k > 0 && drop <= |tokens| && Indexed(bucket, tokens, shift, k) && threshold == shift + drop + k - 1
    ensures Indexed(trimmed, tokens[drop..], shift + drop, k)
  {
    hide Indexed;
    hide AtLeast;
    trimmed := bucket;
    var todo := bucket.Keys;
    NoneKept(threshold);
    BucketsFull(bucket, tokens, shift, k);
    while todo != {}
      invariant todo <= bucket.Keys
      invariant forall key :: key in todo ==> BucketAt(trimmed, key) == BucketAt(bucket, key)
      invariant forall key :: key !in todo ==> BucketAt(trimmed, key) == AtLeast(BucketAt(bucket, key), threshold)
      invariant forall key :: key in trimmed ==> trimmed[key] != []
      decreases |todo|
    {
      var key :| key in todo;
      var kept := KeepAtLeast(bucket[key], threshold);
      if |kept| == 0 {
        trimmed := trimmed - {key};
      } else {
        trimmed := trimmed[key := kept];
      }
      todo := todo - {key};
    }
    IndexedTrim(bucket, trimmed, tokens, shift, k, drop);
  }

  lemma BucketsFull(bucket: map<seq<Byte>, seq<int>>, tokens: seq<Token>, shift: nat, k: nat)
    requires Indexed(bucket, tokens, shift, k)
    ensures forall key :: key in bucket ==> bucket[key] != []
  {
    hide Ends;
  }

  lemma IndexedTrim(bucket: map<seq<Byte>, seq<int>>, trimmed: map<seq<Byte>, seq<int>>, tokens: seq<Token>,
                    shift: nat, k: nat, drop: nat)
    requires k > 0 && drop <= |tokens| && Indexed(bucket, tokens, shift, k)
    requires forall key :: BucketAt(trimmed, key) == AtLeast(BucketAt(bucket, key), shift + drop + k - 1)
    requires forall key :: key in trimmed ==> trimmed[key] != []
    ensures Indexed(trimmed, tokens[drop..], shift + drop, k)
  {
    hide AtLeast;
    hide Ends;
    forall key ensures BucketAt(trimmed, key) == Ends(tokens[drop..], shift + drop, k, key, |tokens| - drop) {
      TrimmedEnds(tokens, shift, k, key, |tokens|, drop);
    }
  }

  // Building one draft.

  ghost predicate Tallied(votes: seq<Token>, counts: map<Token, nat>) {
    && (forall t :: t in counts <==> t in multiset(votes))
    && (forall t :: t in counts ==> counts[t] == multiset(votes)[t])
  }

  lemma TallyOne(votes: seq<Token>, counts: map<Token, nat>, t: Token)
    requires Tallied(votes, counts)
    ensures Tallied(votes + [t], counts[t := (if t in counts then counts[t] else 0) + 1])
  {
    assert multiset(votes + [t]) == multiset(votes) + multiset{t};
  }

  /** Tallies the votes of the matches. */
  method CountVotes(tokens: seq<Token>, shift: nat, matches: seq<int>, currentEnd: int, offset: nat)
    returns (counts: map<Token, nat>, total: nat)
    ensures total == |Votes(tokens, shift, matches, currentEnd, offset)|
    ensures Tallied(Votes(tokens, shift, matches, currentEnd, offset), counts)
  {
    hide Votes;
    hide Tallied;
    counts, total := map[], 0;
    NoTally(tokens, shift, currentEnd, offset);
    for i := 0 to |matches|
      invariant total == |Votes(tokens, shift, matches[..i], currentEnd, offset)|
      invariant Tallied(Votes(tokens, shift, matches[..i], currentEnd, offset), counts)
    {
      var end := matches[i];
      ghost var before := Votes(tokens, shift, matches[..i], currentEnd, offset);
      VotesSnoc(tokens, shift, matches[..i], end, currentEnd, offset);
      assert matches[..i + 1] == matches[..i] + [end];
      assert before + [] == before;
      if end == currentEnd {
        continue;
      }
      var local := end + 1 + offset - shift;
      if local >= 0 && local < |tokens| {
        var t := tokens[local];
        TallyOne(before, counts, t);
        counts := counts[t := (if t in counts then counts[t] else 0) + 1];
        total := total + 1;
      }
    }
    assert matches[..|matches|] == matches;
  }

  lemma NoTally(tokens: seq<Token>, shift: nat, currentEnd: int, offset: nat)
    ensures Votes(tokens, shift, [], currentEnd, offset) == [] && Tallied([], map[])
  {
  }

  method KeepAgreeing(tokens: seq<Token>, shift: nat, matches: seq<int>, currentEnd: int, offset: nat, top: Token)
    returns (kept: seq<int>)
    ensures kept == Agreeing(tokens, shift, matches, currentEnd, offset, top)
  {
    hide Agreeing;
    kept := [];
    NoneAgree(tokens, shift, currentEnd, offset, top);
    for i := 0 to |matches|
      invariant kept == Agreeing(tokens, shift, matches[..i], currentEnd, offset, top)
    {
      var end := matches[i];
      AgreeingSnoc(tokens, shift, matches[..i], end, currentEnd, offset, top);
      assert matches[..i + 1] == matches[..i] + [end];
      if end == currentEnd {
        continue;
      }
      var local := end + 1 + offset - shift;
      if local >= 0 && local < |tokens| && tokens[local] == top {
        kept := kept + [end];
      }
    }
    assert matches[..|matches|] == matches;
  }

  /** The matches are the live ones, possibly still with the current end, which never votes. */
  ghost predicate Matching(tokens: seq<Token>, shift: nat, k: nat, draft: seq<Token>, matches: seq<int>) {
    || matches == Live(tokens, shift, k, draft, |tokens|)
    || matches == Live(tokens, shift, k, draft, |tokens|) + [shift + |tokens| - 1]
  }

  lemma MatchingVotes(tokens: seq<Token>, shift: nat, k: nat, draft: seq<Token>, matches: seq<int>)
    requires |tokens| > 0 && Matching(tokens, shift, k, draft, matches)
    ensures Votes(tokens, shift, matches, shift + |tokens| - 1, |draft|) == NextTokens(tokens, k, draft, |tokens|)
  {
    hide Votes;
    hide Live;
    var live, e := Live(tokens, shift, k, draft, |tokens|), shift + |tokens| - 1;
    LiveVotes(tokens, shift, k, draft, |tokens|);
    VotesSnoc(tokens, shift, live, e, e, |draft|);
    assert NextTokens(tokens, k, draft, |tokens|) + [] == NextTokens(tokens, k, draft, |tokens|);
  }

  lemma MatchingNarrows(tokens: seq<Token>, shift: nat, k: nat, draft: seq<Token>, matches: seq<int>, top: Token)
    requires |tokens| > 0 && Matching(tokens, shift, k, draft, matches)
    ensures Matching(tokens, shift, k, draft + [top],
                     Agreeing(tokens, shift, matches, shift + |tokens| - 1, |draft|, top))
  {
    hide Agreeing;
    hide Live;
    var live, e := Live(tokens, shift, k, draft, |tokens|), shift + |tokens| - 1;
    LiveNarrows(tokens, shift, k, draft, |tokens|, top);
    AgreeingSnoc(tokens, shift, live, e, e, |draft|, top);
    var next := Live(tokens, shift, k, draft + [top], |tokens|);
    assert next + [] == next;
  }

  lemma GrowStops(tokens: seq<Token>, k: nat, floor: real, max: nat, draft: seq<Token>)
    requires |draft| >= max || forall t :: !Extends(tokens, k, floor, draft, t)
    ensures Grow(tokens, k, floor, max, draft) == draft
  {
    hide Extends;
  }

  /** A winner of the vote is still matched by the occurrence that voted for it. */
  lemma {:induction false} AgreeingNonEmpty(tokens: seq<Token>, shift: nat, matches: seq<int>, currentEnd: int,
                                            offset: nat, top: Token)
    requires top in Votes(tokens, shift, matches, currentEnd, offset)
    ensures |Agreeing(tokens, shift, matches, currentEnd, offset, top)| > 0
  {
    hide Vote;
    var n := |matches| - 1;
    if Vote(tokens, shift, matches[n], currentEnd, offset) != [top] {
      OneVote(tokens, shift, matches[n], currentEnd, offset, top);
      AgreeingNonEmpty(tokens, shift, matches[..n], currentEnd, offset, top);
    }
  }

  lemma OneVote(tokens: seq<Token>, shift: nat, end: int, currentEnd: int, offset: nat, top: Token)
    ensures top in Vote(tokens, shift, end, currentEnd, offset)
       <==> Vote(tokens, shift, end, currentEnd, offset) == [top]
  {
  }

  /** Votes position by position over the matches, narrowing them to the agreeing ones after each token. */
  method BuildDraft(tokens: seq<Token>, shift: nat, positions: seq<int>, currentEnd: int, max: nat, floor: real,
                    ghost k: nat)
    returns (draft: seq<Token>)
    requires 0 < k <= |tokens| && currentEnd == shift + |tokens| - 1
    requires positions == Live(tokens, shift, k, [], |tokens|) + [currentEnd]
    ensures draft == Grow(tokens, k, floor, max, [])
  {
    hide Grow;
    hide Votes;
    hide Agreeing;
    hide NextTokens;
    hide Live;
    draft := [];
    var matches := positions;
    for offset := 0 to max
      invariant |draft| == offset
      invariant Matching(tokens, shift, k, draft, matches)
      invariant Grow(tokens, k, floor, max, draft) == Grow(tokens, k, floor, max, [])
    {
      var counts, total := CountVotes(tokens, shift, matches, currentEnd, offset);
      MatchingVotes(tokens, shift, k, draft, matches);
      ghost var votes := multiset(NextTokens(tokens, k, draft, |tokens|));
      assert |votes| == total;
      if total == 0 {
        GrowStops(tokens, k, floor, max, draft);
        break;
      }
      var top, topCount := TopToken(counts, NextTokens(tokens, k, draft, |tokens|));
      if topCount as real / total as real < floor {
        forall t ensures !Extends(tokens, k, floor, draft, t) {
          if IsTop(votes, t) {
            TopUnique(votes, t, top);
          }
        }
        GrowStops(tokens, k, floor, max, draft);
        break;
      }
      GrowStep(tokens, k, floor, max, draft, top);
      draft := draft + [top];
      AgreeingNonEmpty(tokens, shift, matches, currentEnd, offset, top);
      MatchingNarrows(tokens, shift, k, draft[..offset], matches, top);
      assert draft[..offset] + [top] == draft;
      matches := KeepAgreeing(tokens, shift, matches, currentEnd, offset, top);
      assert |matches| > 0; // the winning vote's own match agrees
    }
    if |draft| >= max {
      GrowStops(tokens, k, floor, max, draft);
    }
  }
}
