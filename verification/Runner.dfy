/** Many requests decoded in lockstep on one device: every job gets exactly one result,
    and it is the answer the job would have had alone. */
module Runner {
  import opened Basics
  import opened Bpe
  import opened Transformer
  import opened Batch
  import opened Generate

  datatype JobResult = Err | Ok(res: GenResult)

  class Job {
    const text: string
    const c: Config
    var prompt: seq<int>
    var done: seq<JobResult>  // everything sent on the job's channel
    var heard: Bytes          // the text its listener has received

    constructor (text: string, c: Config)
      ensures this.text == text && this.c == c && done == [] && heard == []
    {
      this.text, this.c := text, c;
      prompt, done, heard := [], [], [];
    }
  }

  /** The delivered text: an empty cut counts as none. */
  ghost function DeliveredText(h: Host, c: Config, tokens: seq<int>): Bytes {
    if Quiet(h, c, tokens) || Cut(Text(h, tokens), c.stop) == [] then Text(h, tokens)
    else Cut(Text(h, tokens), c.stop)
  }

  /** It is the text of the single-stream loop unless a stop string matched at the very start. */
  lemma DeliveredTextAgrees(h: Host, c: Config, tokens: seq<int>)
    ensures DeliveredText(h, c, tokens) == FinalText(h, c, tokens) <==> !StopAt(Text(h, tokens), c.stop, 0)
  {
    var text := Text(h, tokens);
    if StopAt(text, c.stop, 0) {
      var k :| 0 <= k < |c.stop| && c.stop[k] != [] && OccursAt(text, c.stop[k], 0);
      assert text != [];
    }
  }

  /** A stop string that matches at the start: the whole text of a run. The runner delivers it, the loop nothing. */
  lemma WholeTextDiffers(h: Host, c: Config, prompt: seq<int>, tokens: seq<int>)
    requires Answer(h, c, prompt, tokens, Stop) && Text(h, tokens) != [] && c.stop == [Text(h, tokens)]
    ensures DeliveredText(h, c, tokens) == Text(h, tokens) && FinalText(h, c, tokens) == []
  {
    WholeTextStops(Text(h, tokens));
  }

  /** The right result for a job. */
  ghost predicate Right(h: Host, c: Config, prompt: seq<int>, heard: Bytes, res: GenResult) {
    && Answer(h, c, prompt, res.tokens, res.reason)
    && res.text == DeliveredText(h, c, res.tokens)
    && res.promptTokens == |prompt| && res.completionTokens == |res.tokens|
    && heard == if c.streams then Streamed(h, c, res.tokens) else []
  }

  /** A result in the terms of its request: its tokens as asked for, and as its text all they decode to, up to
      the earliest stop string unless that is at the very start. */
  ghost predicate ResultAsAsked(h: Host, c: Config, prompt: seq<int>, res: GenResult) {
    && AsAsked(h, c, prompt, res.tokens, res.reason)
    && var all := DecodeBytes(h.tables, res.tokens, true);
       res.text == if Silent(all, c.stop) || StopAt(all, c.stop, 0) then all else Cut(all, c.stop)
  }

  lemma RightAsAsked(h: Host, c: Config, prompt: seq<int>, heard: Bytes, res: GenResult)
    requires Right(h, c, prompt, heard, res)
    ensures ResultAsAsked(h, c, prompt, res)
  {
    hide Answer;
    hide AsAsked;
    AnswerAsAsked(h, c, prompt, res.tokens, res.reason);
    DeliveredTextAgrees(h, c, res.tokens);
  }

  /** A job's result next to the end of a single-stream call for the same prompt on a healthy device. The call
      has a result exactly when the allocator grants the token limit; then tokens, counts, finish reason and
      stream are the same, and the whole result is unless a stop string matched at the very start. */
  lemma SameAsAlone(h: Host, c: Config, prompt: seq<int>, heard: Bytes, res: GenResult, stream: Bytes, end: Outcome)
    requires Right(h, c, prompt, heard, res) && AloneEnds(h, c, prompt, stream, end) && !end.Failed?
    ensures end.Done? <==> Granted(h, c)
    ensures end.Done? ==>
      && res.tokens == end.res.tokens && res.reason == end.res.reason && heard == stream
      && res.promptTokens == end.res.promptTokens && res.completionTokens == end.res.completionTokens
    ensures end == Done(res) <==> Granted(h, c) && !StopAt(Text(h, res.tokens), c.stop, 0)
  {
    hide Answer;
    hide StopAt;
    hide Granted;
    DeliveredTextAgrees(h, c, res.tokens);
    if end.Done? {
      AnswerUnique(h, c, prompt, res.tokens, res.reason, end.res.tokens, end.res.reason);
    }
  }

  const NEGATIVE_LIMIT: Config := Config(-1, false, [], 0, false, _ => false)

  /** A token limit of -1: the runner gives a right result within its default of 256 tokens, and the
      single-stream call panics. */
  lemma NegativeLimitDiffers(h: Host, prompt: seq<int>, heard: Bytes, res: GenResult, stream: Bytes, end: Outcome)
    requires Right(h, NEGATIVE_LIMIT, prompt, heard, res) && AloneEnds(h, NEGATIVE_LIMIT, prompt, stream, end)
    ensures |res.tokens| <= 256 && end == Panicked
  {
  }

  const HUGE_LIMIT: Config := Config(0x4000_0000_0000_0000, false, [], 0, false, _ => false)

  /** A token limit of 2^62, which no 64-bit allocator grants: the single-stream call panics, and a batch with
      such a job takes the runner down. */
  lemma HugeLimitPanics(h: Host, prompt: seq<int>, stream: Bytes, end: Outcome, batch: seq<Job>)
    requires h.maxCap < 0x4000_0000_0000_0000 && AloneEnds(h, HUGE_LIMIT, prompt, stream, end)
    requires exists i :: 0 <= i < |batch| && batch[i].c == HUGE_LIMIT
    ensures end == Panicked && TakesDown(h, batch)
  {
    var i :| 0 <= i < |batch| && batch[i].c == HUGE_LIMIT;
    assert TooLong(h, batch[i].c);
  }

  /** Making a list of this token limit panics. A negative or zero limit has become the default by then. */
  ghost predicate TooLong(h: Host, c: Config) {
    c.maxTokens > h.maxCap
  }

  /** The device goroutine panics on some job of the batch. */
  ghost predicate TakesDown(h: Host, batch: seq<Job>) {
    exists i :: 0 <= i < |batch| && TooLong(h, batch[i].c)
  }

  class SeqState {
    const job: Job
    const maxTokens: nat
    var hist: seq<int>
    var generated: seq<int>
    var prevText: Bytes
    var rng: Rng
    var finished: bool
    var reason: Option<Reason>
    var text: Bytes

    constructor (h: Host, job: Job)
      ensures this.job == job && maxTokens == job.c.Budget()
      ensures hist == job.prompt && generated == [] && prevText == [] && rng == h.source(job.c.seed)
      ensures !finished && reason == None && text == []
    {
      this.job, maxTokens := job, job.c.Budget();
      hist, generated, prevText, rng := job.prompt, [], [], h.source(job.c.seed);
      finished, reason, text := false, None, [];
    }

    ghost predicate Valid(h: Host)
      reads this, job
    {
      && maxTokens == job.c.Budget()
      && hist == job.prompt + generated
      && (!finished ==> reason == None && text == [] && |generated| < maxTokens)
      && if finished then Settled(h, job.c, job.prompt, generated, reason, text, job.heard)
         else Live(h, job.c, job.prompt, generated, rng, prevText, job.heard)
    }

    /** One token for an unfinished sequence, from its own logits row. */
    method StepSeq(h: Host, row: Row) returns (tok: int)
      requires Valid(h) && !finished
      requires row == RowAfter(h.model, hist)
      modifies this, job`heard
      ensures Valid(h)
      ensures !finished ==> generated == old(generated) + [tok]
      ensures finished ==> NeedsNoPass(h, job, |old(generated)| + 1)
    {
      hide Alive;
      hide DecodeBytes;
      hide Quiet;
      hide Config.Budget;
      hide StopAt;
      hide Text;
      hide Delta;
      hide Settled;
      hide Live;
      hide RowAfter;
      hide Cut;
      hide Silent;
      hide Penalized;
      ghost var c, prompt, before := job.c, job.prompt, generated;
      LiveStep(h, c, prompt, generated, rng, prevText, job.heard, row);
      if job.c.cancelled(|generated|) {
        finished, reason := true, Some(Cancel);
        SettledStops(h, c, prompt, generated, reason, text, job.heard, |before| + 1);
        return 0;
      }
      var (next, rng') := h.sample(Penalized(h, job.c, row, hist), rng);
      rng := rng';
      if next in h.eos {
        finished, reason := true, Some(Stop);
        SettledStops(h, c, prompt, generated, reason, text, job.heard, |before| + 1);
        return 0;
      }
      tok := next;
      generated := generated + [tok];
      hist := hist + [tok];
      assert hist == prompt + generated;
      var full := Decode(h.tables, generated, true);
      DecodedIs(h, generated, full);
      var hit, cut := HitStopString(full, job.c.stop);
      if hit {
        job.heard := job.heard + Delta(job.c, cut, prevText);
        finished, reason, text := true, Some(Stop), cut;
        SettledStops(h, c, prompt, generated, reason, text, job.heard, |before| + 1);
        return;
      }
      job.heard := job.heard + Delta(job.c, full, prevText);
      prevText := full;
      if |generated| >= maxTokens {
        finished, reason := true, Some(Length);
        SettledStops(h, c, prompt, generated, reason, text, job.heard, |before| + 1);
      }
    }

    /** Sends the result to the waiting caller. */
    method Deliver(h: Host)
      requires Valid(h)
      modifies this`reason, job`done
      ensures |job.done| == |old(job.done)| + 1 && job.done[..|old(job.done)|] == old(job.done)
      ensures var result := job.done[|old(job.done)|];
        result.Ok? && (finished ==> Right(h, job.c, job.prompt, job.heard, result.res))
    {
      if reason.None? {
        reason := Some(Length);
      }
      var all := text;
      if all == [] {
        all := Decode(h.tables, generated, true);
      }
      var res := GenResult(all, generated, |job.prompt|, |generated|, reason.value);
      job.done := job.done + [Ok(res)];
    }
  }

  /** A settled run needs no pass from number `n` on. */
  lemma SettledStops(h: Host, c: Config, prompt: seq<int>, tokens: seq<int>, reason: Option<Reason>, text: Bytes,
                     heard: Bytes, n: nat)
    requires Settled(h, c, prompt, tokens, reason, text, heard) && |tokens| <= n
    requires |tokens| == n ==> !Silent(Text(h, tokens), c.stop) || |tokens| == c.Budget()
    ensures forall t: nat :: Alive(h, c, prompt, t) ==> t < n
  {
    hide Answer;
    hide Alive;
    hide Quiet;
    QuietIs(h, c, tokens);
    forall t: nat | Alive(h, c, prompt, t) ensures t < n {
      AnswerStops(h, c, prompt, tokens, reason.value, t);
    }
  }

  // The device loop.

  /** The states of a batch: one per job, all different. */
  ghost predicate Paired(states: seq<SeqState>, batch: seq<Job>) {
    && |states| == |batch|
    && (forall i :: 0 <= i < |batch| ==> states[i].job == batch[i])
    && (forall i, j :: 0 <= i < j < |batch| ==> states[i] != states[j] && batch[i] != batch[j])
  }

  /** Each row decides the token after its history. */
  ghost predicate Ready(h: Host, hists: seq<seq<int>>, rows: seq<Row>) {
    |rows| == |hists| && forall i :: 0 <= i < |hists| ==> rows[i] == RowAfter(h.model, hists[i])
  }

  /** What is known of a sequence between two steps: its history and number of tokens, or that it is done. */
  ghost predicate SeqIn(h: Host, st: SeqState, hist: seq<int>, step: nat)
    reads st, st.job
  {
    && st.Valid(h)
    && (!st.finished ==> hist == st.hist && |st.generated| == step)
    && (st.finished ==> NeedsNoPass(h, st.job, step))
  }

  /** What is known between two steps of a batch. */
  ghost predicate InStep(h: Host, batch: seq<Job>, states: seq<SeqState>, hists: seq<seq<int>>, step: nat,
                         maxSteps: nat)
    reads states, batch
  {
    && |states| == |hists| && Paired(states, batch)
    && forall i :: 0 <= i < |states| ==> SeqIn(h, states[i], hists[i], step) && states[i].maxTokens <= maxSteps
  }

  /** The job's run does not need pass `step` or any later one. */
  ghost predicate NeedsNoPass(h: Host, job: Job, step: nat)
    reads job`prompt
  {
    forall t: nat :: Alive(h, job.c, job.prompt, t) ==> t < step
  }

  /** A pass the job's run needs, because it has not ended by then, goes wrong. */
  ghost predicate LosesPass(h: Host, job: Job, faults: nat -> nat)
    reads job`prompt
  {
    exists t: nat :: Alive(h, job.c, job.prompt, t) && faults(t) <= |h.model.layers|
  }

  /** No pass before `step` went wrong. */
  ghost predicate Healthy(h: Host, faults: nat -> nat, step: nat) {
    forall t: nat :: t < step ==> faults(t) > |h.model.layers|
  }

  /** Tokenizes every prompt and sets up its state; the longest budget bounds the steps. Panics at the first
      job whose list of generated tokens cannot be made. */
  method Prepare(h: Host, batch: seq<Job>)
    returns (panicked: bool, prompts: seq<seq<int>>, states: seq<SeqState>, maxSteps: nat)
    requires h.unicode.Valid() && KnowsBytes(h.tables)
    requires forall i, j :: 0 <= i < j < |batch| ==> batch[i] != batch[j]
    requires forall i :: 0 <= i < |batch| ==> batch[i].heard == []
    modifies set i | 0 <= i < |batch| :: batch[i]`prompt
    ensures panicked <==> TakesDown(h, batch)
    ensures !panicked ==>
      && Paired(states, batch) && fresh(states) && |prompts| == |states| == |batch|
      && InStep(h, batch, states, prompts, 0, maxSteps)
      && (maxSteps > 0 || batch == [])
    ensures !panicked ==> forall i :: 0 <= i < |batch| ==>
      prompts[i] == batch[i].prompt == EncodeIds(h.tables, h.unicode, batch[i].text)
  {
    hide Starting;
    hide EncodeIds;
    panicked, prompts, states, maxSteps := false, [], [], 0;
    for i := 0 to |batch|
      invariant |prompts| == |states| == i && fresh(states)
      invariant forall k :: 0 <= k < i ==> states[k].job == batch[k] && !TooLong(h, batch[k].c)
      invariant forall k :: 0 <= k < i ==> Starting(h, states[k], batch[k], prompts[k], maxSteps)
      invariant forall k, l :: 0 <= k < l < i ==> states[k] != states[l]
      invariant maxSteps > 0 || i == 0
    {
      var j := batch[i];
      j.prompt := Encode(h.tables, h.unicode, j.text);
      if j.c.Budget() > h.maxCap {
        return true, prompts, states, maxSteps;
      }
      prompts := prompts + [j.prompt];
      var st := new SeqState(h, j);
      states := states + [st];
      StartsValid(h, st, j);
      ghost var before := maxSteps;
      if st.maxTokens > maxSteps {
        maxSteps := st.maxTokens;
      }
      forall k | 0 <= k < i ensures Starting(h, states[k], batch[k], prompts[k], maxSteps) {
        StartingMore(h, states[k], batch[k], prompts[k], before, maxSteps);
      }
    }
    AllStart(h, batch, states, prompts, maxSteps);
  }

  lemma AllStart(h: Host, batch: seq<Job>, states: seq<SeqState>, prompts: seq<seq<int>>, maxSteps: nat)
    requires Paired(states, batch) && |prompts| == |batch|
    requires forall i :: 0 <= i < |batch| ==> Starting(h, states[i], batch[i], prompts[i], maxSteps)
    ensures InStep(h, batch, states, prompts, 0, maxSteps)
    ensures forall i :: 0 <= i < |batch| ==>
      prompts[i] == batch[i].prompt == EncodeIds(h.tables, h.unicode, batch[i].text)
  {
    hide EncodeIds;
    forall i | 0 <= i < |batch| ensures prompts[i] == states[i].hist {
      assert states[i].Valid(h);
    }
  }

  ghost predicate Starting(h: Host, st: SeqState, job: Job, prompt: seq<int>, maxSteps: nat)
    reads st, job
  {
    && st.job == job && st.Valid(h) && !st.finished && st.generated == [] && st.maxTokens <= maxSteps
    && prompt == job.prompt == EncodeIds(h.tables, h.unicode, job.text)
  }

  lemma StartingMore(h: Host, st: SeqState, job: Job, prompt: seq<int>, maxSteps: nat, more: nat)
    requires Starting(h, st, job, prompt, maxSteps) && maxSteps <= more
    ensures Starting(h, st, job, prompt, more)
  {
  }

  lemma StartsValid(h: Host, st: SeqState, job: Job)
    requires st.job == job && st.maxTokens == job.c.Budget() && job.heard == []
    requires st.hist == job.prompt && st.generated == [] && st.prevText == [] && st.rng == h.source(job.c.seed)
    requires !st.finished && st.reason == None && st.text == []
    requires job.prompt == EncodeIds(h.tables, h.unicode, job.text)
    ensures forall n :: st.maxTokens <= n ==> Starting(h, st, job, job.prompt, n)
  {
    hide EncodeIds;
    NothingYet(h, job.c, job.prompt);
  }

  /** Between steps every sequence is valid, and none outlives the longest budget. */
  lemma StillValid(h: Host, batch: seq<Job>, states: seq<SeqState>, hists: seq<seq<int>>, step: nat, maxSteps: nat)
    requires InStep(h, batch, states, hists, step, maxSteps)
    ensures Paired(states, batch) && |hists| == |states| == |batch|
    ensures forall i :: 0 <= i < |states| ==> states[i].Valid(h)
    ensures maxSteps <= step ==> forall i :: 0 <= i < |states| ==> states[i].finished
  {
    forall i | 0 <= i < |states| ensures states[i].Valid(h) && (maxSteps <= step ==> states[i].finished) {
      assert states[i].Valid(h);
    }
  }

  /** One step of one sequence; a finished one is passed over, with the token 0. */
  method StepOne(h: Host, st: SeqState, row: Row, ghost hist: seq<int>, ghost step: nat) returns (tok: int)
    requires SeqIn(h, st, hist, step) && row == RowAfter(h.model, hist)
    modifies st, st.job`heard
    ensures SeqIn(h, st, hist + [tok], step + 1)
  {
    hide RowAfter;
    hide Settled;
    hide Live;
    if st.finished {
      NeedsLess(h, st.job, step);
      return 0;
    }
    ghost var before := st.generated;
    tok := st.StepSeq(h, row);
    if st.finished {
      return 0;
    }
    assert st.job.prompt + st.generated == st.job.prompt + before + [tok];
  }

  /** One step of every unfinished sequence. */
  method StepAll(h: Host, batch: seq<Job>, states: seq<SeqState>, rows: seq<Row>,
                 ghost hists: seq<seq<int>>, ghost step: nat, ghost maxSteps: nat)
    returns (next: seq<int>, allDone: bool)
    requires InStep(h, batch, states, hists, step, maxSteps) && Ready(h, hists, rows)
    modifies states, set i | 0 <= i < |batch| :: batch[i]`heard
    ensures |next| == |hists| && InStep(h, batch, states, Extended(hists, next), step + 1, maxSteps)
    ensures allDone <==> forall i :: 0 <= i < |states| ==> states[i].finished
  {
    hide SeqIn;
    hide RowAfter;
    next, allDone := [], true;
    for i := 0 to |states|
      invariant |next| == i
      invariant forall k :: 0 <= k < i ==> SeqIn(h, states[k], hists[k] + [next[k]], step + 1)
      invariant forall k :: i <= k < |states| ==> SeqIn(h, states[k], hists[k], step)
      invariant allDone <==> forall k :: 0 <= k < i ==> states[k].finished
    {
      var tok := StepOne(h, states[i], rows[i], hists[i], step);
      if !states[i].finished {
        allDone := false;
      }
      next := next + [tok];
    }
  }

  lemma NeedsLess(h: Host, job: Job, step: nat)
    requires NeedsNoPass(h, job, step)
    ensures NeedsNoPass(h, job, step + 1)
  {
  }

  /** The job got one result, a failure exactly when it `fails` and otherwise the right one, which is as the
      request asks, and its listener never a stop string. */
  ghost predicate OneResult(h: Host, job: Job, fails: bool)
    reads job
  {
    && |job.done| == 1 && Silent(job.heard, job.c.stop)
    && match job.done[0] {
         case Err => fails
         case Ok(res) =>
           !fails && Right(h, job.c, job.prompt, job.heard, res) && ResultAsAsked(h, job.c, job.prompt, res)
       }
  }

  lemma ValidSilent(h: Host, st: SeqState)
    requires st.Valid(h)
    ensures Silent(st.job.heard, st.job.c.stop)
  {
    hide Answer;
    hide Going;
    NothingSilent(st.job.c.stop);
    if st.finished {
      StreamSilent(h, st.job.c, st.job.prompt, st.generated, st.reason.value);
    } else {
      LiveSilent(h, st.job.c, st.job.prompt, st.generated, st.rng, st.prevText, st.job.heard);
    }
  }

  /** Sends one result to every job of the batch: after a failure of the device, to the finished ones still theirs. */
  method DeliverAll(h: Host, batch: seq<Job>, states: seq<SeqState>, failed: bool, ghost faults: nat -> nat)
    requires Paired(states, batch)
    requires forall i :: 0 <= i < |states| ==> Decided(h, states[i], failed, faults)
    requires forall i :: 0 <= i < |batch| ==> batch[i].done == []
    modifies states, set i | 0 <= i < |batch| :: batch[i]`done
    ensures forall i :: 0 <= i < |batch| ==> OneResult(h, batch[i], LosesPass(h, batch[i], faults))
  {
    hide SeqState.Valid;
    hide Right;
    hide ResultAsAsked;
    hide Silent;
    hide LosesPass;
    for i := 0 to |states|
      invariant forall k :: i <= k < |states| ==> Decided(h, states[k], failed, faults)
      invariant forall k :: i <= k < |batch| ==> batch[k].done == []
      invariant forall k :: 0 <= k < i ==> OneResult(h, batch[k], LosesPass(h, batch[k], faults))
    {
      ValidSilent(h, states[i]);
      if !states[i].finished && failed {
        batch[i].done := batch[i].done + [Err];
      } else {
        states[i].Deliver(h);
        RightAsAsked(h, batch[i].c, batch[i].prompt, batch[i].heard, batch[i].done[0].res);
      }
    }
  }

  /** When the loop is over, a sequence is finished exactly when no pass it needs went wrong. */
  ghost predicate Decided(h: Host, st: SeqState, failed: bool, faults: nat -> nat)
    reads st, st.job
  {
    st.Valid(h) && (failed || st.finished) && (st.finished <==> !LosesPass(h, st.job, faults))
  }

  lemma RowsReady(h: Host, hists: seq<seq<int>>, rows: seq<Row>)
    requires |rows| == |hists| && forall i :: 0 <= i < |hists| ==> rows[i] == RowAfter(h.model, hists[i])
    ensures Ready(h, hists, rows)
  {
  }

  /** The job fails: there is no token in any prompt of its batch, or a pass its own run needs goes wrong. */
  ghost predicate Fails(h: Host, batch: seq<Job>, job: Job, faults: nat -> nat)
    reads job`prompt
  {
    NoTokens(h, batch) || LosesPass(h, job, faults)
  }

  ghost predicate NoTokens(h: Host, batch: seq<Job>) {
    forall k :: 0 <= k < |batch| ==> EncodeIds(h.tables, h.unicode, batch[k].text) == []
  }

  lemma PrefillFails(h: Host, batch: seq<Job>, faults: nat -> nat, prompts: seq<seq<int>>)
    requires |prompts| == |batch|
    requires forall k :: 0 <= k < |batch| ==> prompts[k] == EncodeIds(h.tables, h.unicode, batch[k].text)
    requires faults(0) <= |h.model.layers| || forall k :: 0 <= k < |prompts| ==> prompts[k] == []
    ensures forall i :: 0 <= i < |batch| ==> Fails(h, batch, batch[i], faults)
  {
    hide EncodeIds;
    hide Alive;
    if faults(0) <= |h.model.layers| {
      forall i | 0 <= i < |batch| ensures LosesPass(h, batch[i], faults) {
        AliveAtFirst(h, batch[i].c, batch[i].prompt);
      }
    }
  }

  lemma AliveAtFirst(h: Host, c: Config, prompt: seq<int>)
    ensures Alive(h, c, prompt, 0)
  {
    NothingYet(h, c, prompt);
  }

  lemma SomeTokens(h: Host, batch: seq<Job>, prompts: seq<seq<int>>)
    requires |prompts| == |batch|
    requires forall k :: 0 <= k < |batch| ==> prompts[k] == EncodeIds(h.tables, h.unicode, batch[k].text)
    requires exists k :: 0 <= k < |prompts| && prompts[k] != []
    ensures !NoTokens(h, batch)
  {
    hide EncodeIds;
  }

  /** Runs a batch to completion, or panics on a token limit that is too large. Otherwise each job gets exactly
      one result, a failure exactly when a pass of the device it needs goes wrong (or no prompt has a token) and
      else the right one; and no listener ever hears a stop string. */
  method Run(h: Host, batch: seq<Job>, faults: nat -> nat) returns (panicked: bool)
    requires h.model.Relative() && Underflows(h.model) && h.unicode.Valid() && KnowsBytes(h.tables)
    requires forall i, j :: 0 <= i < j < |batch| ==> batch[i] != batch[j]
    requires forall i :: 0 <= i < |batch| ==> batch[i].done == [] && batch[i].heard == []
    modifies batch
    ensures panicked <==> TakesDown(h, batch)
    ensures panicked ==> forall i :: 0 <= i < |batch| ==> batch[i].done == [] && batch[i].heard == []
    ensures !panicked ==> forall i :: 0 <= i < |batch| ==>
      && batch[i].prompt == EncodeIds(h.tables, h.unicode, batch[i].text)
      && OneResult(h, batch[i], Fails(h, batch, batch[i], faults))
  {
    hide OneResult;
    hide Fails;
    hide NoTokens;
    hide TakesDown;
    hide Paired;
    hide SeqState.Valid;
    hide Right;
    hide RowAfter;
    hide EncodeIds;
    hide InStep;
    hide Ready;
    hide Holding;
    hide KnowsBytes;
    hide Model.Relative;
    hide Underflows;
    var prompts, states, maxSteps;
    panicked, prompts, states, maxSteps := Prepare(h, batch);
    if panicked {
      return;
    }
    var b := new Batch(h.model);
    var logits := b.Prefill(prompts, faults(0));
    if logits.None? {
      PrefillFails(h, batch, faults, prompts);
      FailAll(h, batch, faults);
      return;
    }
    SomeTokens(h, batch, prompts);
    RowsReady(h, prompts, logits.value);
    Finish(h, batch, states, b, logits.value, maxSteps, faults, prompts);
  }

  /** Everything after the prompt pass. */
  method Finish(h: Host, batch: seq<Job>, states: seq<SeqState>, b: Batch, first: seq<Row>, maxSteps: nat,
                faults: nat -> nat, ghost prompts: seq<seq<int>>)
    requires h.model.Relative() && Underflows(h.model) && b.m == h.model && b.Follows(prompts) && maxSteps > 0
    requires InStep(h, batch, states, prompts, 0, maxSteps) && Ready(h, prompts, first)
    requires forall i :: 0 <= i < |batch| ==> batch[i].done == []
    requires faults(0) > |h.model.layers| && !NoTokens(h, batch)
    modifies states, b, b.caches, set i | 0 <= i < |batch| :: batch[i]`heard, set i | 0 <= i < |batch| :: batch[i]`done
    ensures forall i :: 0 <= i < |batch| ==> OneResult(h, batch[i], Fails(h, batch, batch[i], faults))
  {
    hide SeqState.Valid;
    hide Right;
    hide RowAfter;
    hide NextRow;
    hide InStep;
    hide Ready;
    hide Holding;
    hide Model.Relative;
    hide Underflows;
    hide NoTokens;
    hide LosesPass;
    hide Decided;
    var failed := Lockstep(h, batch, states, b, first, maxSteps, faults, prompts);
    DeliverAll(h, batch, states, failed, faults);
  }

  /** The step loop: until every sequence is finished or the device fails. */
  method Lockstep(h: Host, batch: seq<Job>, states: seq<SeqState>, b: Batch, first: seq<Row>, maxSteps: nat,
                  faults: nat -> nat, ghost prompts: seq<seq<int>>) returns (failed: bool)
    requires h.model.Relative() && Underflows(h.model) && b.m == h.model && b.Follows(prompts) && maxSteps > 0
    requires InStep(h, batch, states, prompts, 0, maxSteps) && Ready(h, prompts, first)
    requires faults(0) > |h.model.layers|
    modifies states, b, b.caches, set i | 0 <= i < |batch| :: batch[i]`heard
    ensures |states| == |batch| && Paired(states, batch)
    ensures forall i :: 0 <= i < |states| ==> Decided(h, states[i], failed, faults)
  {
    hide Healthy;
    hide Decided;
    hide SeqState.Valid;
    hide RowAfter;
    hide NextRow;
    hide InStep;
    hide Ready;
    hide Holding;
    hide Model.Relative;
    hide Underflows;
    var rows, step := first, 0;
    ghost var hists := prompts;
    failed := false;
    StillValid(h, batch, states, hists, 0, maxSteps);
    HealthyFirst(h, faults);
    while step < maxSteps
      invariant step < maxSteps && !failed
      invariant b.Follows(hists)
      invariant InStep(h, batch, states, hists, step, maxSteps) && Ready(h, hists, rows)
      invariant |hists| == |states| == |batch| && Healthy(h, faults, step + 1)
    {
      ghost var before := hists;
      var next, allDone := StepAll(h, batch, states, rows, hists, step, maxSteps);
      hists := Extended(hists, next);
      StillValid(h, batch, states, hists, step + 1, maxSteps);
      if allDone || step == maxSteps - 1 {
        AllDecided(h, batch, states, hists, step + 1, maxSteps, faults);
        break;
      }
      var decoded := b.Decode(next, faults(step + 1), before);
      if decoded.None? {
        failed := true;
        DecidedByFault(h, batch, states, hists, step + 1, maxSteps, faults);
        break;
      }
      HealthyMore(h, faults, step + 1);
      rows := decoded.value;
      step := step + 1;
      RowsAfter(h.model, before, next);
      RowsReady(h, hists, rows);
    }
  }

  lemma RowsAfter(m: Model, hists: seq<seq<int>>, tokens: seq<int>)
    requires |hists| == |tokens|
    ensures forall s :: 0 <= s < |tokens| ==>
      RowAfter(m, Extended(hists, tokens)[s]) == NextRow(m, hists[s] + [tokens[s]])
  {
    hide NextRow;
  }

  lemma HealthyFirst(h: Host, faults: nat -> nat)
    requires faults(0) > |h.model.layers|
    ensures Healthy(h, faults, 1)
  {
  }

  lemma HealthyMore(h: Host, faults: nat -> nat, step: nat)
    requires Healthy(h, faults, step) && faults(step) > |h.model.layers|
    ensures Healthy(h, faults, step + 1)
  {
  }

  /** All sequences are finished, and every pass made went well. */
  lemma AllDecided(h: Host, batch: seq<Job>, states: seq<SeqState>, hists: seq<seq<int>>, step: nat, maxSteps: nat,
                   faults: nat -> nat)
    requires InStep(h, batch, states, hists, step, maxSteps) && Healthy(h, faults, step)
    requires forall i :: 0 <= i < |states| ==> states[i].finished
    ensures forall i :: 0 <= i < |states| ==> Decided(h, states[i], false, faults)
  {
    hide Alive;
    forall i | 0 <= i < |states| ensures Decided(h, states[i], false, faults) {
      assert states[i].Valid(h) && NeedsNoPass(h, states[i].job, step);
    }
  }

  /** Pass `step` goes wrong, the ones before went well: the finished sequences do not need it, the others do. */
  lemma DecidedByFault(h: Host, batch: seq<Job>, states: seq<SeqState>, hists: seq<seq<int>>, step: nat, maxSteps: nat,
                       faults: nat -> nat)
    requires InStep(h, batch, states, hists, step, maxSteps) && Healthy(h, faults, step)
    requires faults(step) <= |h.model.layers|
    ensures forall i :: 0 <= i < |states| ==> Decided(h, states[i], true, faults)
  {
    hide Alive;
    hide SeqState.Valid;
    forall i | 0 <= i < |states| ensures Decided(h, states[i], true, faults) {
      assert states[i].Valid(h);
      if states[i].finished {
        assert NeedsNoPass(h, states[i].job, step);
      } else {
        StillAlive(h, states[i]);
      }
    }
  }

  lemma StillAlive(h: Host, st: SeqState)
    requires st.Valid(h) && !st.finished
    ensures Alive(h, st.job.c, st.job.prompt, |st.generated|)
  {
    hide Going;
  }

  method FailAll(h: Host, batch: seq<Job>, faults: nat -> nat)
    requires forall i, j :: 0 <= i < j < |batch| ==> batch[i] != batch[j]
    requires forall i :: 0 <= i < |batch| ==> batch[i].done == [] && batch[i].heard == []
    requires forall i :: 0 <= i < |batch| ==> Fails(h, batch, batch[i], faults)
    modifies set i | 0 <= i < |batch| :: batch[i]`done
    ensures forall i :: 0 <= i < |batch| ==> OneResult(h, batch[i], Fails(h, batch, batch[i], faults))
  {
    hide Fails;
    hide Right;
    hide ResultAsAsked;
    for i := 0 to |batch|
      invariant forall k :: 0 <= k < |batch| ==> Fails(h, batch, batch[k], faults) && batch[k].heard == []
      invariant forall k :: 0 <= k < i ==> OneResult(h, batch[k], true)
      invariant forall k :: i <= k < |batch| ==> batch[k].done == []
    {
      NothingSilent(batch[i].c.stop);
      batch[i].done := batch[i].done + [Err];
    }
  }
}
