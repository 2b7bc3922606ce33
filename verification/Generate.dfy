/** Single-stream generation: what a run must answer, the loop that computes it, stop
    strings, and the text streamed while it runs. */
module Generate {
  import opened Basics
  import opened ByteLevel
  import opened PreTokenize
  import opened Bpe
  import opened Transformer

  type Bytes = seq<Byte>

  // Stop strings.

  predicate OccursAt(text: Bytes, s: Bytes, i: nat) {
    i + |s| <= |text| && text[i..i + |s|] == s
  }

  /** Some stop string that is not empty begins at `i`. */
  ghost predicate StopAt(text: Bytes, stops: seq<Bytes>, i: nat) {
    exists k :: 0 <= k < |stops| && stops[k] != [] && OccursAt(text, stops[k], i)
  }

  ghost predicate Silent(text: Bytes, stops: seq<Bytes>) {
    forall i: nat :: !StopAt(text, stops, i)
  }

  /** The text up to its earliest stop string. */
  ghost function Cut(text: Bytes, stops: seq<Bytes>): (cut: Bytes)
    requires !Silent(text, stops)
    ensures |cut| <= |text| && cut == text[..|cut|] && StopAt(text, stops, |cut|)
    ensures forall j: nat :: j < |cut| ==> !StopAt(text, stops, j)
  {
    var i: nat :| StopAt(text, stops, i);
    text[..EarliestStop(text, stops, i)]
  }

  ghost function EarliestStop(text: Bytes, stops: seq<Bytes>, i: nat): (e: nat)
    requires StopAt(text, stops, i)
    ensures e <= |text| && StopAt(text, stops, e) && forall j: nat :: j < e ==> !StopAt(text, stops, j)
  {
    if j: nat :| j < i && StopAt(text, stops, j) then EarliestStop(text, stops, j) else i
  }

  function IndexFrom(text: Bytes, s: Bytes, i: nat): (at: Option<nat>)
    requires i <= |text|
    ensures at.Some? ==> i <= at.value <= |text| && OccursAt(text, s, at.value)
    ensures forall j: nat :: i <= j && (at.Some? ==> j < at.value) ==> !OccursAt(text, s, j)
    decreases |text| - i
  {
    if OccursAt(text, s, i) then Some(i)
    else if i == |text| then None
    else IndexFrom(text, s, i + 1)
  }

  /** Looks for the earliest stop string; the empty ones never match. */
  method HitStopString(text: Bytes, stops: seq<Bytes>) returns (hit: bool, cut: Bytes)
    ensures hit <==> !Silent(text, stops)
    ensures cut == if hit then Cut(text, stops) else text
  {
    var best: int := -1;
    for k := 0 to |stops|
      invariant best <= |text|
      invariant best >= 0 ==> StopAt(text, stops, best)
      invariant forall l, j: nat :: 0 <= l < k && stops[l] != [] && (best >= 0 ==> j < best) ==>
        !OccursAt(text, stops[l], j)
    {
      if stops[k] == [] {
        continue;
      }
      var i := IndexFrom(text, stops[k], 0);
      if i.Some? && (best < 0 || i.value < best) {
        best := i.value;
      }
    }
    if best < 0 {
      return false, text;
    }
    assert |Cut(text, stops)| == best;
    return true, text[..best];
  }

  lemma OccursInLonger(text: Bytes, n: nat, s: Bytes, i: nat)
    requires n <= |text| && OccursAt(text[..n], s, i)
    ensures OccursAt(text, s, i) && (s != [] ==> i < n)
  {
    assert text[i..i + |s|] == text[..n][i..i + |s|];
  }

  /** A stop string in a shorter text is one in the longer text too. */
  lemma StopInLonger(text: Bytes, n: nat, stops: seq<Bytes>, i: nat)
    requires n <= |text| && StopAt(text[..n], stops, i)
    ensures StopAt(text, stops, i) && i < n
  {
    var k :| 0 <= k < |stops| && stops[k] != [] && OccursAt(text[..n], stops[k], i);
    OccursInLonger(text, n, stops[k], i);
  }

  /** Nothing before the earliest stop string contains one. */
  lemma CutSilent(text: Bytes, stops: seq<Bytes>)
    requires !Silent(text, stops)
    ensures Silent(Cut(text, stops), stops)
  {
    hide StopAt;
    var cut := Cut(text, stops);
    if i: nat :| StopAt(cut, stops, i) {
      StopInLonger(text, |cut|, stops, i);
      assert false;
    }
  }

  // What a run answers.

  type Rng(!new)  // the state of a seeded random source

  datatype Config = Config(
    maxTokens: int,
    penalize: bool,
    stop: seq<Bytes>,
    seed: int,
    streams: bool,               // whether the caller listens to the text as it grows
    cancelled: nat -> bool)      // what the context says at each check
  {
    function Budget(): (n: nat)
      ensures n > 0
    {
      if maxTokens <= 0 then 256 else maxTokens
    }
  }

  /** The largest capacity the allocator grants a list of ints; the default token limit is well below it. */
  type Capacity = n: nat | n >= 256 witness 256

  datatype Host = Host(
    maxCap: Capacity,
    model: Model,
    tables: Tables,
    unicode: Unicode,
    eos: set<int>,
    penalties: (Row, seq<int>) -> Row,
    sample: (Row, Rng) -> (int, Rng),
    source: int -> Rng)

  datatype Reason = Stop | Length | Cancel

  datatype GenResult = GenResult(
    text: Bytes,
    tokens: seq<int>,
    promptTokens: nat,
    completionTokens: nat,
    reason: Reason)

  function Penalized(h: Host, c: Config, row: Row, hist: seq<int>): Row {
    if c.penalize then h.penalties(row, hist) else row
  }

  /** The token chosen after `tokens`, and the random source left behind. */
  ghost function Choice(h: Host, c: Config, prompt: seq<int>, tokens: seq<int>): (int, Rng)
    decreases |tokens|, 1
  {
    var hist := prompt + tokens;
    h.sample(Penalized(h, c, RowAfter(h.model, hist), hist), Source(h, c, prompt, tokens))
  }

  ghost function Source(h: Host, c: Config, prompt: seq<int>, tokens: seq<int>): Rng
    decreases |tokens|, 0
  {
    if tokens == [] then h.source(c.seed) else Choice(h, c, prompt, tokens[..|tokens| - 1]).1
  }

  function Text(h: Host, tokens: seq<int>): Bytes {
    DecodeBytes(h.tables, tokens, true)
  }

  /** Token `i` was not cancelled, is what the model chose there, and does not end the text. */
  ghost predicate Kept(h: Host, c: Config, prompt: seq<int>, tokens: seq<int>, i: nat)
    requires i < |tokens|
  {
    !c.cancelled(i) && tokens[i] == Choice(h, c, prompt, tokens[..i]).0 && tokens[i] !in h.eos
  }

  ghost predicate Quiet(h: Host, c: Config, tokens: seq<int>) {
    Silent(Text(h, tokens), c.stop)
  }

  /** A run in progress: everything so far was kept and no stop string has appeared. */
  ghost predicate Going(h: Host, c: Config, prompt: seq<int>, tokens: seq<int>)
  {
    && (forall i :: 0 <= i < |tokens| ==> Kept(h, c, prompt, tokens, i))
    && (forall i :: 0 <= i <= |tokens| ==> Quiet(h, c, tokens[..i]))
  }

  /** The run must end after exactly `tokens`, for this reason. */
  ghost predicate Ends(h: Host, c: Config, prompt: seq<int>, tokens: seq<int>, reason: Reason)
  {
    if !Quiet(h, c, tokens) then tokens != [] && reason == Stop
    else if |tokens| == c.Budget() then reason == Length
    else if c.cancelled(|tokens|) then reason == Cancel
    else Choice(h, c, prompt, tokens).0 in h.eos && reason == Stop
  }

  /** The answer of a run, said without running it. */
  ghost predicate Answer(h: Host, c: Config, prompt: seq<int>, tokens: seq<int>, reason: Reason)
  {
    && |tokens| <= c.Budget()
    && (forall i :: 0 <= i < |tokens| ==> Kept(h, c, prompt, tokens, i))
    && (forall i :: 0 <= i < |tokens| ==> Quiet(h, c, tokens[..i]))
    && Ends(h, c, prompt, tokens, reason)
  }

  /** Every token is drawn in its turn: from the row that the prompt and the tokens before it lead to, penalized
      for them if the request asks for that, with the random source as the draw before left it. */
  ghost predicate DrawnInTurn(h: Host, c: Config, prompt: seq<int>, tokens: seq<int>) {
    && Source(h, c, prompt, []) == h.source(c.seed)
    && forall i :: 0 <= i < |tokens| ==>
         var hist := prompt + tokens[..i];
         var row := RowAfter(h.model, hist);
         (tokens[i], Source(h, c, prompt, tokens[..i + 1]))
         == h.sample(if c.penalize then h.penalties(row, hist) else row, Source(h, c, prompt, tokens[..i]))
  }

  /** An answer in the terms of its request: tokens drawn in turn, as many as the limit allows (256 if there is
      none), all of them before a cancellation or an end token; and an end that is what its reason says. */
  ghost predicate AsAsked(h: Host, c: Config, prompt: seq<int>, tokens: seq<int>, reason: Reason) {
    && (c.maxTokens > 0 ==> |tokens| <= c.maxTokens)
    && (c.maxTokens <= 0 ==> |tokens| <= 256)
    && DrawnInTurn(h, c, prompt, tokens)
    && (forall i :: 0 <= i < |tokens| ==> !c.cancelled(i) && tokens[i] !in h.eos)
    && match reason
       case Length => |tokens| == if c.maxTokens <= 0 then 256 else c.maxTokens
       case Cancel => c.cancelled(|tokens|)
       case Stop =>
         || !Silent(DecodeBytes(h.tables, tokens, true), c.stop)
         || exists tok :: tok in h.eos && !c.cancelled(|tokens|) && DrawnInTurn(h, c, prompt, tokens + [tok])
  }

  /** Every answer is as its request asks. */
  lemma AnswerAsAsked(h: Host, c: Config, prompt: seq<int>, tokens: seq<int>, reason: Reason)
    requires Answer(h, c, prompt, tokens, reason)
    ensures AsAsked(h, c, prompt, tokens, reason)
  {
    hide RowAfter;
    hide Quiet;
    hide DrawnInTurn;
    hide Choice;
    AnswerDrawn(h, c, prompt, tokens);
    AllKept(h, c, prompt, tokens);
    QuietIs(h, c, tokens);
    if Quiet(h, c, tokens) && reason == Stop {
      DrawnMore(h, c, prompt, tokens, Choice(h, c, prompt, tokens).0);
    }
  }

  /** A result in the terms of its request: its tokens as asked for, and as its text all they decode to, special
      tokens dropped, up to the earliest stop string. */
  ghost predicate GivenAsAsked(h: Host, c: Config, prompt: seq<int>, res: GenResult) {
    && AsAsked(h, c, prompt, res.tokens, res.reason)
    && var all := DecodeBytes(h.tables, res.tokens, true);
       res.text == if Silent(all, c.stop) then all else Cut(all, c.stop)
  }

  lemma AllKept(h: Host, c: Config, prompt: seq<int>, tokens: seq<int>)
    requires forall i :: 0 <= i < |tokens| ==> Kept(h, c, prompt, tokens, i)
    ensures forall i :: 0 <= i < |tokens| ==> !c.cancelled(i) && tokens[i] !in h.eos
  {
    forall i | 0 <= i < |tokens| ensures !c.cancelled(i) && tokens[i] !in h.eos {
      assert Kept(h, c, prompt, tokens, i);
    }
  }

  lemma AnswerDrawn(h: Host, c: Config, prompt: seq<int>, tokens: seq<int>)
    requires forall i :: 0 <= i < |tokens| ==> Kept(h, c, prompt, tokens, i)
    ensures DrawnInTurn(h, c, prompt, tokens)
  {
    hide RowAfter;
    forall i | 0 <= i < |tokens|
      ensures (tokens[i], Source(h, c, prompt, tokens[..i + 1])) == Choice(h, c, prompt, tokens[..i])
    {
      assert Kept(h, c, prompt, tokens, i);
      assert tokens[..i + 1][..i] == tokens[..i];
    }
  }

  lemma DrawnMore(h: Host, c: Config, prompt: seq<int>, tokens: seq<int>, tok: int)
    requires DrawnInTurn(h, c, prompt, tokens) && tok == Choice(h, c, prompt, tokens).0
    ensures DrawnInTurn(h, c, prompt, tokens + [tok])
  {
    hide RowAfter;
    var more := tokens + [tok];
    forall i | 0 <= i < |more|
      ensures (more[i], Source(h, c, prompt, more[..i + 1])) == Choice(h, c, prompt, more[..i])
    {
      assert more[..i + 1][..i] == more[..i];
      assert i < |tokens| ==> more[..i] == tokens[..i] && more[..i + 1] == tokens[..i + 1];
      assert more[..|tokens|] == tokens;
    }
  }

  lemma {:induction false} CommonStart(h: Host, c: Config, prompt: seq<int>, a: seq<int>, b: seq<int>, n: nat)
    requires n <= |a| && n <= |b|
    requires forall i :: 0 <= i < |a| ==> Kept(h, c, prompt, a, i)
    requires forall i :: 0 <= i < |b| ==> Kept(h, c, prompt, b, i)
    ensures a[..n] == b[..n]
  {
    hide Choice;
    if n > 0 {
      CommonStart(h, c, prompt, a, b, n - 1);
      assert Kept(h, c, prompt, a, n - 1) && Kept(h, c, prompt, b, n - 1);
      assert a[..n] == a[..n - 1] + [a[n - 1]] && b[..n] == b[..n - 1] + [b[n - 1]];
    }
  }

  lemma NotShorter(h: Host, c: Config, prompt: seq<int>, a: seq<int>, ra: Reason, b: seq<int>, rb: Reason)
    requires Answer(h, c, prompt, a, ra) && Answer(h, c, prompt, b, rb)
    ensures |a| >= |b|
  {
    hide Choice;
    hide Quiet;
    if |a| < |b| {
      assert Kept(h, c, prompt, b, |a|) && Quiet(h, c, b[..|a|]);
      assert a[..|a|] == a;
      CommonStart(h, c, prompt, a, b, |a|);
      assert false;
    }
  }

  /** There is just one answer: whoever computes it, in whatever company, gets the same. */
  lemma AnswerUnique(h: Host, c: Config, prompt: seq<int>, a: seq<int>, ra: Reason, b: seq<int>, rb: Reason)
    requires Answer(h, c, prompt, a, ra) && Answer(h, c, prompt, b, rb)
    ensures a == b && ra == rb
  {
    hide Choice;
    hide Quiet;
    NotShorter(h, c, prompt, a, ra, b, rb);
    NotShorter(h, c, prompt, b, rb, a, ra);
    CommonStart(h, c, prompt, a, b, |a|);
    assert a == a[..|a|] && b == b[..|b|];
  }

  // The text and the stream.

  /** The answer's text: everything decoded, up to the earliest stop string. */
  ghost function FinalText(h: Host, c: Config, tokens: seq<int>): Bytes {
    if Quiet(h, c, tokens) then Text(h, tokens) else Cut(Text(h, tokens), c.stop)
  }

  /** What a listener has received once the run ends. */
  ghost function Streamed(h: Host, c: Config, tokens: seq<int>): Bytes {
    if Quiet(h, c, tokens) || tokens == [] then Text(h, tokens)
    else
      var before, cut := Text(h, tokens[..|tokens| - 1]), Cut(Text(h, tokens), c.stop);
      if |cut| > |before| then cut else before
  }

  /** How the single-stream call ends: with a panic, with the device's error, or with a result. */
  datatype Outcome = Panicked | Failed | Done(res: GenResult)

  /** A result of the single-stream loop for a prompt, and what it has streamed. */
  ghost predicate Alone(h: Host, c: Config, prompt: seq<int>, stream: Bytes, res: GenResult)
  {
    && Answer(h, c, prompt, res.tokens, res.reason)
    && res.text == FinalText(h, c, res.tokens)
    && res.promptTokens == |prompt| && res.completionTokens == |res.tokens|
    && stream == if c.streams then Streamed(h, c, res.tokens) else []
  }

  /** The allocator grants a list as long as the token limit: it is neither negative nor too large. */
  predicate Granted(h: Host, c: Config) {
    0 <= c.maxTokens <= h.maxCap
  }

  /** The single-stream call panics exactly when its token limit is not granted, and a result is the right one. */
  ghost predicate AloneEnds(h: Host, c: Config, prompt: seq<int>, stream: Bytes, end: Outcome) {
    && (end.Panicked? <==> !Granted(h, c))
    && (end.Done? ==> Alone(h, c, prompt, stream, end.res))
  }

  // Which steps of the device a run needs.

  /** After `t` tokens the run has not ended. */
  ghost predicate Alive(h: Host, c: Config, prompt: seq<int>, t: nat) {
    t < c.Budget() && exists tokens :: |tokens| == t && Going(h, c, prompt, tokens)
  }

  /** The single-stream loop makes its pass number `t`: it looks at the context first. */
  ghost predicate Reached(h: Host, c: Config, prompt: seq<int>, t: nat) {
    Alive(h, c, prompt, t) && !c.cancelled(t)
  }

  ghost predicate FaultReached(h: Host, c: Config, prompt: seq<int>, faults: nat -> nat) {
    exists t: nat :: Reached(h, c, prompt, t) && faults(t) <= |h.model.layers|
  }

  /** Once there is an answer the run is not alive any more, but perhaps for choosing to end. */
  lemma AnswerStops(h: Host, c: Config, prompt: seq<int>, tokens: seq<int>, reason: Reason, t: nat)
    requires Answer(h, c, prompt, tokens, reason) && Alive(h, c, prompt, t)
    ensures t <= |tokens| && (t == |tokens| ==> Quiet(h, c, tokens) && |tokens| < c.Budget())
  {
    hide Choice;
    hide Quiet;
    var n := |tokens|;
    var more :| |more| == t && Going(h, c, prompt, more);
    assert tokens[..n] == tokens && more[..t] == more;
    if t >= n {
      CommonStart(h, c, prompt, tokens, more, n);
      assert Quiet(h, c, more[..n]);
      assert t > n ==> Kept(h, c, prompt, more, n);
    }
  }

  /** No fault stands in the way of an answer whose passes all went well. */
  lemma NoFaultReached(h: Host, c: Config, prompt: seq<int>, tokens: seq<int>, reason: Reason,
                       faults: nat -> nat, ran: nat)
    requires Answer(h, c, prompt, tokens, reason)
    requires forall t: nat :: t < ran ==> faults(t) > |h.model.layers|
    requires |tokens| <= ran
    requires Quiet(h, c, tokens) && |tokens| < c.Budget() && !c.cancelled(|tokens|) ==> |tokens| < ran
    ensures !FaultReached(h, c, prompt, faults)
  {
    hide Answer;
    hide Alive;
    hide Quiet;
    if t: nat :| Reached(h, c, prompt, t) && faults(t) <= |h.model.layers| {
      AnswerStops(h, c, prompt, tokens, reason, t);
      assert false;
    }
  }

  lemma TextGrows(h: Host, tokens: seq<int>, tok: int)
    ensures |Text(h, tokens)| <= |Text(h, tokens + [tok])|
    ensures Text(h, tokens) == Text(h, tokens + [tok])[..|Text(h, tokens)|]
  {
    DecodeAppend(h.tables, tokens, [tok], true);
  }

  lemma BeforeGrows(h: Host, tokens: seq<int>)
    requires tokens != []
    ensures |Text(h, tokens[..|tokens| - 1])| <= |Text(h, tokens)|
    ensures Text(h, tokens[..|tokens| - 1]) == Text(h, tokens)[..|Text(h, tokens[..|tokens| - 1])|]
  {
    TextGrows(h, tokens[..|tokens| - 1], tokens[|tokens| - 1]);
    assert tokens[..|tokens| - 1] + [tokens[|tokens| - 1]] == tokens;
  }

  lemma NothingSilent(stops: seq<Bytes>)
    ensures Silent([], stops)
  {
  }

  /** A run that ends with an answer has streamed no stop string. */
  lemma StreamSilent(h: Host, c: Config, prompt: seq<int>, tokens: seq<int>, reason: Reason)
    requires Answer(h, c, prompt, tokens, reason)
    ensures Silent(Streamed(h, c, tokens), c.stop)
  {
    if !Quiet(h, c, tokens) {
      CutSilent(Text(h, tokens), c.stop);
      assert Quiet(h, c, tokens[..|tokens| - 1]);
    }
  }

  /** The final text starts the stream, and is all of it unless the stop string began in
      text already sent. */
  lemma TextStartsStream(h: Host, c: Config, prompt: seq<int>, tokens: seq<int>, reason: Reason)
    requires Answer(h, c, prompt, tokens, reason)
    ensures var text, stream := FinalText(h, c, tokens), Streamed(h, c, tokens);
      && |text| <= |stream| && text == stream[..|text|]
      && (text == stream <==> Quiet(h, c, tokens) || |text| >= |Text(h, tokens[..|tokens| - 1])|)
  {
    if !Quiet(h, c, tokens) {
      BeforeGrows(h, tokens);
    }
  }

  /** A stop string that begins in text already sent: the whole text of a run that sent some of it. The
      final text is empty and the stream is not. */
  lemma StopInSentText(h: Host, c: Config, prompt: seq<int>, tokens: seq<int>)
    requires Answer(h, c, prompt, tokens, Stop) && tokens != []
    requires c.stop == [Text(h, tokens)] && Text(h, tokens[..|tokens| - 1]) != []
    ensures FinalText(h, c, tokens) == [] && Streamed(h, c, tokens) == Text(h, tokens[..|tokens| - 1])
  {
    BeforeGrows(h, tokens);
    WholeTextStops(Text(h, tokens));
  }

  lemma WholeTextStops(text: Bytes)
    requires text != []
    ensures StopAt(text, [text], 0) && !Silent(text, [text]) && Cut(text, [text]) == []
  {
    assert OccursAt(text, [text][0], 0);
  }

  // The loop.

  lemma GoingMore(h: Host, c: Config, prompt: seq<int>, tokens: seq<int>, tok: int)
    requires Going(h, c, prompt, tokens) && |tokens| < c.Budget()
    requires !c.cancelled(|tokens|) && tok == Choice(h, c, prompt, tokens).0 && tok !in h.eos
    ensures Source(h, c, prompt, tokens + [tok]) == Choice(h, c, prompt, tokens).1
    ensures Quiet(h, c, tokens + [tok]) ==> Going(h, c, prompt, tokens + [tok])
    ensures !Quiet(h, c, tokens + [tok]) ==> Answer(h, c, prompt, tokens + [tok], Stop)
    ensures |tokens| + 1 == c.Budget() && Quiet(h, c, tokens + [tok]) ==> Answer(h, c, prompt, tokens + [tok], Length)
  {
    hide Quiet;
    var more := tokens + [tok];
    assert more[..|tokens|] == tokens && more[..|more|] == more;
    assert Source(h, c, prompt, more) == Choice(h, c, prompt, more[..|more| - 1]).1;
    KeptMore(h, c, prompt, tokens, tok);
    forall i | 0 <= i <= |tokens| ensures Quiet(h, c, more[..i]) {
      assert more[..i] == tokens[..i];
    }
  }

  lemma KeptMore(h: Host, c: Config, prompt: seq<int>, tokens: seq<int>, tok: int)
    requires Going(h, c, prompt, tokens)
    requires !c.cancelled(|tokens|) && tok == Choice(h, c, prompt, tokens).0 && tok !in h.eos
    ensures forall i :: 0 <= i <= |tokens| ==> Kept(h, c, prompt, tokens + [tok], i)
  {
    hide Choice;
    hide Quiet;
    var more := tokens + [tok];
    forall i | 0 <= i <= |tokens| ensures Kept(h, c, prompt, more, i) {
      assert more[..i] == tokens[..i];
      if i < |tokens| {
        assert Kept(h, c, prompt, tokens, i);
      } else {
        assert tokens[..i] == tokens;
      }
    }
  }

  /** A run in progress ends here if it is cancelled or the model ends the text. */
  lemma GoingEnds(h: Host, c: Config, prompt: seq<int>, tokens: seq<int>)
    requires Going(h, c, prompt, tokens) && |tokens| < c.Budget()
    ensures c.cancelled(|tokens|) ==> Answer(h, c, prompt, tokens, Cancel)
    ensures !c.cancelled(|tokens|) && Choice(h, c, prompt, tokens).0 in h.eos ==> Answer(h, c, prompt, tokens, Stop)
    ensures Quiet(h, c, tokens)
  {
    hide Choice;
    hide Quiet;
    assert tokens[..|tokens|] == tokens;
  }

  lemma NothingYet(h: Host, c: Config, prompt: seq<int>)
    ensures Going(h, c, prompt, []) && Source(h, c, prompt, []) == h.source(c.seed) && Text(h, []) == []
  {
    forall i: nat ensures !StopAt([], c.stop, i) {
    }
    var none: seq<int> := [];
    assert none[..0] == none;
  }

  /** What a listener gets in one step: the text that goes beyond what was sent before. */
  function Delta(c: Config, text: Bytes, sent: Bytes): Bytes {
    if c.streams && |text| > |sent| then text[|sent|..] else []
  }

  lemma DeltaExtends(h: Host, c: Config, tokens: seq<int>, tok: int)
    ensures var before, text := Text(h, tokens), Text(h, tokens + [tok]);
      && (c.streams ==> before + Delta(c, text, before) == text)
      && (!c.streams ==> Delta(c, text, before) == [])
  {
    TextGrows(h, tokens, tok);
  }

  lemma CutDelta(h: Host, c: Config, tokens: seq<int>, tok: int)
    requires c.streams && !Quiet(h, c, tokens + [tok])
    ensures var before, cut := Text(h, tokens), Cut(Text(h, tokens + [tok]), c.stop);
      before + Delta(c, cut, before) == Streamed(h, c, tokens + [tok])
  {
    TextGrows(h, tokens, tok);
    assert (tokens + [tok])[..|tokens + [tok]| - 1] == tokens;
  }

  /** A finished run: its answer, the text cut at a stop string if there was one, and the stream. */
  ghost predicate Settled(h: Host, c: Config, prompt: seq<int>, tokens: seq<int>, reason: Option<Reason>, text: Bytes,
                          heard: Bytes)
  {
    && reason.Some? && Answer(h, c, prompt, tokens, reason.value)
    && text == (if Quiet(h, c, tokens) then [] else Cut(Text(h, tokens), c.stop))
    && heard == if c.streams then Streamed(h, c, tokens) else []
  }

  /** A run that must still choose a token. */
  ghost predicate Live(h: Host, c: Config, prompt: seq<int>, tokens: seq<int>, rng: Rng, prevText: Bytes, heard: Bytes)
  {
    && Going(h, c, prompt, tokens) && |tokens| < c.Budget()
    && rng == Source(h, c, prompt, tokens) && prevText == Text(h, tokens)
    && heard == if c.streams then prevText else []
  }

  /** All that one step of an unfinished run can lead to. */
  lemma LiveStep(h: Host, c: Config, prompt: seq<int>, tokens: seq<int>, rng: Rng, prevText: Bytes, heard: Bytes,
                 row: Row)
    requires Live(h, c, prompt, tokens, rng, prevText, heard)
    requires row == RowAfter(h.model, prompt + tokens)
    ensures c.cancelled(|tokens|) ==> Settled(h, c, prompt, tokens, Some(Cancel), [], heard)
    ensures !c.cancelled(|tokens|) ==>
      var (tok, rng') := h.sample(Penalized(h, c, row, prompt + tokens), rng);
      var more := tokens + [tok];
      var full := Text(h, more);
      && (tok in h.eos ==> Settled(h, c, prompt, tokens, Some(Stop), [], heard))
      && (tok !in h.eos ==>
            if !Silent(full, c.stop) then
              var cut := Cut(full, c.stop);
              Settled(h, c, prompt, more, Some(Stop), cut, heard + Delta(c, cut, prevText))
            else if |more| == c.Budget() then
              Settled(h, c, prompt, more, Some(Length), [], heard + Delta(c, full, prevText))
            else
              Live(h, c, prompt, more, rng', full, heard + Delta(c, full, prevText)))
  {
    hide Choice;
    hide Source;
    hide Quiet;
    hide Going;
    hide Answer;
    hide Streamed;
    hide RowAfter;
    hide Cut;
    hide Silent;
    hide Text;
    GoingEnds(h, c, prompt, tokens);
    StreamedQuiet(h, c, prompt, tokens);
    if !c.cancelled(|tokens|) {
      ChoiceIs(h, c, prompt, tokens, row, rng);
      var (tok, rng') := h.sample(Penalized(h, c, row, prompt + tokens), rng);
      var more := tokens + [tok];
      QuietIs(h, c, more);
      if tok !in h.eos {
        GoingMore(h, c, prompt, tokens, tok);
        DeltaExtends(h, c, tokens, tok);
        if !Quiet(h, c, more) {
          CutHeard(h, c, tokens, tok);
        } else {
          QuietStreamed(h, c, more);
        }
      }
    }
  }

  lemma QuietStreamed(h: Host, c: Config, tokens: seq<int>)
    requires Quiet(h, c, tokens)
    ensures Streamed(h, c, tokens) == Text(h, tokens)
  {
  }

  lemma CutHeard(h: Host, c: Config, tokens: seq<int>, tok: int)
    requires !Quiet(h, c, tokens + [tok])
    ensures !Silent(Text(h, tokens + [tok]), c.stop)
    ensures var before, cut := Text(h, tokens), Cut(Text(h, tokens + [tok]), c.stop);
      if c.streams then before + Delta(c, cut, before) == Streamed(h, c, tokens + [tok])
      else Delta(c, cut, before) == []
  {
    if c.streams {
      CutDelta(h, c, tokens, tok);
    }
  }

  /** Decodes one token at a time on growing caches. The device may fail at step `t` in layer
      `faults(t)`. However it ends, no stop string has been streamed. */
  method Generate(h: Host, text: string, c: Config, faults: nat -> nat) returns (end: Outcome, stream: Bytes)
    requires h.unicode.Valid() && KnowsBytes(h.tables) && EncodeIds(h.tables, h.unicode, text) != []
    ensures AloneEnds(h, c, EncodeIds(h.tables, h.unicode, text), stream, end)
    ensures end.Failed? <==>
      Granted(h, c) && FaultReached(h, c, EncodeIds(h.tables, h.unicode, text), faults)
    ensures end.Done? ==> GivenAsAsked(h, c, EncodeIds(h.tables, h.unicode, text), end.res)
    ensures Silent(stream, c.stop)
  {
    hide GivenAsAsked;
    hide FaultReached;
    hide Live;
    hide Settled;
    hide Alone;
    hide NextRow;
    hide RowAfter;
    hide Caches;
    hide EncodeIds;
    hide Penalized;
    hide KnowsBytes;
    hide Cut;
    hide Silent;
    hide Text;
    hide Delta;
    hide DecodeBytes;
    hide StopAt;
    hide Config.Budget;
    hide Unicode.Valid;
    var prompt := Encode(h.tables, h.unicode, text);
    var caches := NewCaches(h.model);
    ghost var hist: seq<int> := [];
    var offset, cur := 0, prompt;
    NothingSilent(c.stop);
    if c.maxTokens < 0 || c.maxTokens > h.maxCap {
      return Panicked, []; // the list of generated tokens cannot be made
    }
    var generated: seq<int> := [];
    var prevText, rng := [], h.source(c.seed);
    stream := [];
    LiveStart(h, c, prompt);
    var reason := Length;
    ghost var ran := 0; // passes that went well
    for step := 0 to c.Budget()
      invariant |generated| == step && reason == Length && prevText == Text(h, generated)
      invariant step < c.Budget() ==> Live(h, c, prompt, generated, rng, prevText, stream)
      invariant step == c.Budget() ==>
        Settled(h, c, prompt, generated, Some(Length), [], stream) && Silent(prevText, c.stop)
      invariant ran == step && forall t: nat :: t < ran ==> faults(t) > |h.model.layers|
      invariant cur != [] && hist + cur == prompt + generated && offset == |hist|
      invariant forall n :: 0 <= n < |h.model.layers| ==> Caches(h.model, caches[n], hist, n)
    {
      LiveSilent(h, c, prompt, generated, rng, prevText, stream);
      LiveStep(h, c, prompt, generated, rng, prevText, stream, RowAfter(h.model, prompt + generated));
      if c.cancelled(step) {
        reason := Cancel;
        break;
      }
      var rows := Forward(h.model, cur, caches, offset, faults(step), hist);
      if rows.None? {
        LiveFault(h, c, prompt, generated, rng, prevText, stream, faults);
        return Failed, stream;
      }
      ran := ran + 1;
      offset := offset + |cur|;
      LastOf(h.model, hist, cur);
      var row := rows.value[|cur| - 1];
      var (next, rng') := h.sample(Penalized(h, c, row, prompt + generated), rng);
      rng := rng';
      if next in h.eos {
        reason := Stop;
        break;
      }
      generated := generated + [next];
      var full := Decode(h.tables, generated, true);
      DecodedIs(h, generated, full);
      var hit, cut := HitStopString(full, c.stop);
      if hit {
        stream := stream + Delta(c, cut, prevText);
        SettledAlone(h, c, prompt, generated, Stop, cut, stream);
        SettledHealthy(h, c, prompt, generated, Stop, cut, stream, faults, ran);
        return Done(GenResult(cut, generated, |prompt|, |generated|, Stop)), stream;
      }
      stream := stream + Delta(c, full, prevText);
      prevText := full;
      hist := hist + cur;
      cur := [next];
    }
    var all := Decode(h.tables, generated, true);
    DecodedIs(h, generated, all);
    SettledAlone(h, c, prompt, generated, reason, [], stream);
    SettledHealthy(h, c, prompt, generated, reason, [], stream, faults, ran);
    end := Done(GenResult(all, generated, |prompt|, |generated|, reason));
  }

  lemma LiveFault(h: Host, c: Config, prompt: seq<int>, tokens: seq<int>, rng: Rng, prevText: Bytes, heard: Bytes,
                  faults: nat -> nat)
    requires Live(h, c, prompt, tokens, rng, prevText, heard)
    requires !c.cancelled(|tokens|) && faults(|tokens|) <= |h.model.layers|
    ensures FaultReached(h, c, prompt, faults)
  {
    hide Going;
    assert Reached(h, c, prompt, |tokens|);
  }

  lemma SettledHealthy(h: Host, c: Config, prompt: seq<int>, tokens: seq<int>, reason: Reason, text: Bytes,
                       stream: Bytes, faults: nat -> nat, ran: nat)
    requires Settled(h, c, prompt, tokens, Some(reason), text, stream)
    requires forall t: nat :: t < ran ==> faults(t) > |h.model.layers|
    requires |tokens| <= ran
    requires Silent(Text(h, tokens), c.stop) && |tokens| < c.Budget() && !c.cancelled(|tokens|) ==> |tokens| < ran
    ensures !FaultReached(h, c, prompt, faults)
  {
    hide Answer;
    QuietIs(h, c, tokens);
    NoFaultReached(h, c, prompt, tokens, reason, faults, ran);
  }

  lemma DecodedIs(h: Host, tokens: seq<int>, text: Bytes)
    requires text == DecodeBytes(h.tables, tokens, true)
    ensures text == Text(h, tokens)
  {
  }

  lemma LiveStart(h: Host, c: Config, prompt: seq<int>)
    ensures Live(h, c, prompt, [], h.source(c.seed), [], []) && Text(h, []) == []
  {
    NothingYet(h, c, prompt);
  }

  lemma LiveSilent(h: Host, c: Config, prompt: seq<int>, tokens: seq<int>, rng: Rng, prevText: Bytes, heard: Bytes)
    requires Live(h, c, prompt, tokens, rng, prevText, heard)
    ensures Silent(prevText, c.stop) && prevText == Text(h, tokens) && Silent(heard, c.stop)
  {
    NothingSilent(c.stop);
    StreamedQuiet(h, c, prompt, tokens);
  }

  lemma SettledAlone(h: Host, c: Config, prompt: seq<int>, tokens: seq<int>, reason: Reason, text: Bytes, stream: Bytes)
    requires Settled(h, c, prompt, tokens, Some(reason), text, stream)
    ensures var final := if Silent(Text(h, tokens), c.stop) then Text(h, tokens) else text;
      && Alone(h, c, prompt, stream, GenResult(final, tokens, |prompt|, |tokens|, reason))
      && GivenAsAsked(h, c, prompt, GenResult(final, tokens, |prompt|, |tokens|, reason))
    ensures Silent(stream, c.stop)
  {
    hide AsAsked;
    hide Answer;
    AnswerAsAsked(h, c, prompt, tokens, reason);
    QuietIs(h, c, tokens);
    NothingSilent(c.stop);
    StreamSilent(h, c, prompt, tokens, reason);
  }

  /** The last row of a pass over `cur` decides what follows the history it completes. */
  lemma LastOf(m: Model, hist: seq<int>, cur: seq<int>)
    requires cur != []
    ensures hist + cur[..|cur| - 1 + 1] == hist + cur && RowAfter(m, hist + cur) == NextRow(m, hist + cur)
  {
    hide NextRow;
  }

  lemma ChoiceIs(h: Host, c: Config, prompt: seq<int>, tokens: seq<int>, row: Row, rng: Rng)
    requires row == RowAfter(h.model, prompt + tokens) && rng == Source(h, c, prompt, tokens)
    ensures h.sample(Penalized(h, c, row, prompt + tokens), rng) == Choice(h, c, prompt, tokens)
  {
  }

  lemma QuietIs(h: Host, c: Config, tokens: seq<int>)
    ensures Quiet(h, c, tokens) <==> Silent(Text(h, tokens), c.stop)
    ensures FinalText(h, c, tokens) == if Quiet(h, c, tokens) then Text(h, tokens) else Cut(Text(h, tokens), c.stop)
  {
  }

  lemma StreamedQuiet(h: Host, c: Config, prompt: seq<int>, tokens: seq<int>)
    requires Going(h, c, prompt, tokens)
    ensures Quiet(h, c, tokens) && Streamed(h, c, tokens) == Text(h, tokens) == FinalText(h, c, tokens)
  {
    assert tokens[..|tokens|] == tokens;
  }
}
