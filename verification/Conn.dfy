/** The JSON-RPC connection: concurrent calls, one read loop and a closer, as
    atomic steps at the granularity of the connection's lock and channels. */
module Conn {
  import opened Basics

  datatype Err = ConnClosed | Eof | Other(code: int)

  /** The id member of a response: an integer, or null, which JSON-RPC allows for errors. */
  datatype WireID = Null | Number(n: int)

  /** A response echoes the id of the request it answers and carries a result or an error object. */
  datatype Response = Response(wire: WireID, isError: bool, body: int)
  {
    /** The id it is routed by: decoding null into an integer leaves zero. */
    function Target(): int {
      if wire.Null? then 0 else wire.n
    }
  }

  /** What travels on a call's channel. */
  datatype Outcome = Replied(resp: Response) | Failed(err: Err)

  /** How a call ends. */
  datatype CallEnd =
    | Succeeded(resp: Response)
    | RpcError(resp: Response)
    | Undecodable(resp: Response)
    | Error(err: Err)

  // The fields behind the lock. A pending call's channel is named by its id.

  datatype Shared = Shared(nextID: nat, pending: set<nat>, closed: bool, closeErr: Option<Err>)

  const FRESH := Shared(0, {}, false, None)

  function Registered(s: Shared): Shared
    requires !s.closed
  {
    s.(nextID := s.nextID + 1, pending := s.pending + {s.nextID})
  }

  function Discarded(s: Shared, id: int): Shared {
    s.(pending := set p | p in s.pending && p != id)
  }

  function MarkedClosed(s: Shared): Shared
    requires !s.closed
  {
    s.(closed := true, closeErr := if s.closeErr.None? then Some(ConnClosed) else s.closeErr)
  }

  function ShutDown(s: Shared, err: Err): Shared {
    if s.closed then s else s.(closed := true, closeErr := Some(err))
  }

  function Drained(s: Shared): Shared {
    s.(pending := {})
  }

  function Reason(s: Shared): Err {
    if s.closeErr.Some? then s.closeErr.value else ConnClosed
  }

  function Recorded(err: Err): Err {
    if err == Eof then ConnClosed else err
  }

  /** The connection object; each method is one critical section. */
  class Conn {
    var nextID: nat
    var pending: set<nat>
    var closed: bool
    var closeErr: Option<Err>

    function View(): Shared
      reads this
    {
      Shared(nextID, pending, closed, closeErr)
    }

    constructor ()
      ensures View() == FRESH
    {
      nextID, pending, closed, closeErr := 0, {}, false, None;
    }

    /** The opening section of a call: refuse on a closed connection, else take a fresh id. */
    method Register() returns (r: Option<nat>, err: Err)
      modifies this
      ensures old(closed) ==> r.None? && err == Reason(old(View())) && View() == old(View())
      ensures !old(closed) ==> r == Some(old(nextID)) && View() == Registered(old(View()))
    {
      if closed {
        return None, if closeErr.None? then ConnClosed else closeErr.value;
      }
      var id := nextID;
      nextID := nextID + 1;
      pending := pending + {id};
      return Some(id), ConnClosed;
    }

    method Discard(id: int)
      modifies this
      ensures View() == Discarded(old(View()), id)
    {
      pending := set p | p in pending && p != id;
    }

    /** The routing section of a delivery: the response claims the pending call with its id, if any. */
    method Claim(id: int) returns (ok: bool)
      modifies this
      ensures ok <==> id in old(pending)
      ensures View() == Discarded(old(View()), id)
    {
      ok := id in pending;
      pending := set p | p in pending && p != id;
    }

    /** The section of `Close` under the lock; only the first closer proceeds. */
    method MarkClosed() returns (first: bool)
      modifies this
      ensures first <==> !old(closed)
      ensures View() == if first then MarkedClosed(old(View())) else old(View())
    {
      if closed {
        return false;
      }
      closed := true;
      if closeErr.None? {
        closeErr := Some(ConnClosed);
      }
      return true;
    }

    method MarkShutdown(err: Err)
      modifies this
      ensures View() == ShutDown(old(View()), err)
    {
      if !closed {
        closed := true;
        closeErr := Some(err);
      }
    }

    /** The section of `failPending`: every pending call is taken at once. */
    method TakePending() returns (taken: set<nat>)
      modifies this
      ensures taken == old(pending) && View() == Drained(old(View()))
    {
      taken := pending;
      pending := {};
    }

    method CloseReason() returns (err: Err)
      ensures err == Reason(View())
    {
      if closeErr.Some? {
        return closeErr.value;
      }
      return ConnClosed;
    }
  }

  // The concurrent system.

  /** A caller goroutine, from registration to return. */
  datatype Caller =
    | Writing(id: nat)
    | Waiting(id: nat)
    | Dropping(id: nat, err: Err)     // cancelled or write failed, about to discard
    | Ended(id: nat, how: CallEnd)
    | Refused(err: Err)

  datatype Reader =
    | Reading
    | Sending(id: nat, resp: Response)          // claimed a call, about to send on its channel
    | Stopping(err: Err)                        // the stream ended
    | Stopped(err: Err)                         // closed under the lock, about to fail pending calls
    | ReaderFailing(batch: set<nat>, err: Err)
    | ReaderDone                                // `done` is closed

  datatype Closer =
    | Idle
    | Marked(err: Err)
    | CloserFailing(batch: set<nat>, err: Err)
    | CloserDone

  /** A one-slot channel and the number of values ever sent on it. */
  datatype Chan = Chan(slot: Option<Outcome>, sends: nat)

  datatype State = State(shared: Shared, chans: seq<Chan>, callers: map<nat, Caller>, reader: Reader, closer: Closer)

  const INITIAL := State(FRESH, [], map[], Reading, Idle)

  datatype Step =
    | Start(c: nat)
    | WriteOk(c: nat)
    | WriteFail(c: nat, err: Err)
    | Cancel(c: nat, err: Err)
    | SeeDone(c: nat)
    | Receive(c: nat, decodes: bool)
    | Discard(c: nat)
    | ReadResponse(resp: Response)
    | ReadOther                                 // a notification, a request, or a response with a foreign id
    | SendReply
    | ReadFail(err: Err)
    | Shutdown
    | ReaderTake
    | ReaderSend(id: nat)
    | ReaderFinish
    | Close
    | CloserTake
    | CloserSend(id: nat)
    | CloserFinish

  predicate HasCaller(s: State, c: nat, waiting: bool) {
    c in s.callers && if waiting then s.callers[c].Waiting? else s.callers[c].Writing?
  }

  predicate CanSend(s: State, id: nat) {
    id < |s.chans| && s.chans[id].slot.None?
  }

  function Put(s: State, id: nat, o: Outcome): State
    requires id < |s.chans|
  {
    s.(chans := s.chans[id := Chan(Some(o), s.chans[id].sends + 1)])
  }

  function Answer(o: Outcome, decodes: bool): CallEnd {
    match o
    case Failed(err) => Error(err)
    case Replied(resp) =>
      if resp.isError then RpcError(resp) else if decodes then Succeeded(resp) else Undecodable(resp)
  }

  predicate Enabled(s: State, step: Step) {
    match step
    case Start(c) => c !in s.callers
    case WriteOk(c) => HasCaller(s, c, false)
    case WriteFail(c, _) => HasCaller(s, c, false)
    case Cancel(c, _) => HasCaller(s, c, true)
    case SeeDone(c) => HasCaller(s, c, true) && s.reader.ReaderDone?
    case Receive(c, _) => HasCaller(s, c, true) && s.callers[c].id < |s.chans| && s.chans[s.callers[c].id].slot.Some?
    case Discard(c) => c in s.callers && s.callers[c].Dropping?
    case ReadResponse(_) => s.reader.Reading?
    case ReadOther => s.reader.Reading?
    case SendReply => s.reader.Sending? && CanSend(s, s.reader.id)
    case ReadFail(_) => s.reader.Reading?
    case Shutdown => s.reader.Stopping?
    case ReaderTake => s.reader.Stopped?
    case ReaderSend(id) => s.reader.ReaderFailing? && id in s.reader.batch && CanSend(s, id)
    case ReaderFinish => s.reader.ReaderFailing? && s.reader.batch == {}
    case Close => true
    case CloserTake => s.closer.Marked?
    case CloserSend(id) => s.closer.CloserFailing? && id in s.closer.batch && CanSend(s, id)
    case CloserFinish => s.closer.CloserFailing? && s.closer.batch == {}
  }

  function Apply(s: State, step: Step): State
    requires Enabled(s, step)
  {
    match step
    case Start(c) =>
      if s.shared.closed then s.(callers := s.callers[c := Refused(Reason(s.shared))])
      else s.(shared := Registered(s.shared), chans := s.chans + [Chan(None, 0)],
              callers := s.callers[c := Writing(s.shared.nextID)])
    case WriteOk(c) => s.(callers := s.callers[c := Waiting(s.callers[c].id)])
    case WriteFail(c, err) => s.(callers := s.callers[c := Dropping(s.callers[c].id, err)])
    case Cancel(c, err) => s.(callers := s.callers[c := Dropping(s.callers[c].id, err)])
    case SeeDone(c) => s.(callers := s.callers[c := Ended(s.callers[c].id, Error(Reason(s.shared)))])
    case Receive(c, decodes) =>
      var id := s.callers[c].id;
      s.(chans := s.chans[id := s.chans[id].(slot := None)],
         callers := s.callers[c := Ended(id, Answer(s.chans[id].slot.value, decodes))])
    case Discard(c) =>
      var w := s.callers[c];
      s.(shared := Discarded(s.shared, w.id), callers := s.callers[c := Ended(w.id, Error(w.err))])
    case ReadResponse(resp) =>
      s.(shared := Discarded(s.shared, resp.Target()),
         reader := if resp.Target() in s.shared.pending then Sending(resp.Target(), resp) else Reading)
    case ReadOther => s
    case SendReply => Put(s, s.reader.id, Replied(s.reader.resp)).(reader := Reading)
    case ReadFail(err) => s.(reader := Stopping(Recorded(err)))
    case Shutdown => s.(shared := ShutDown(s.shared, s.reader.err), reader := Stopped(s.reader.err))
    case ReaderTake => s.(shared := Drained(s.shared), reader := ReaderFailing(s.shared.pending, s.reader.err))
    case ReaderSend(id) =>
      Put(s, id, Failed(s.reader.err)).(reader := ReaderFailing(s.reader.batch - {id}, s.reader.err))
    case ReaderFinish => s.(reader := ReaderDone)
    case Close =>
      if s.shared.closed then s
      else s.(shared := MarkedClosed(s.shared), closer := Marked(Reason(MarkedClosed(s.shared))))
    case CloserTake => s.(shared := Drained(s.shared), closer := CloserFailing(s.shared.pending, s.closer.err))
    case CloserSend(id) =>
      Put(s, id, Failed(s.closer.err)).(closer := CloserFailing(s.closer.batch - {id}, s.closer.err))
    case CloserFinish => s.(closer := CloserDone)
  }

  /** The state a schedule leads to, if every step of it was enabled. */
  function Run(s: State, steps: seq<Step>): Option<State>
    decreases |steps|
  {
    if steps == [] then Some(s)
    else if Enabled(s, steps[0]) then Run(Apply(s, steps[0]), steps[1..])
    else None
  }

  // The invariant.

  function ReaderHolds(s: State): set<nat> {
    match s.reader
    case Sending(id, _) => {id}
    case ReaderFailing(batch, _) => batch
    case _ => {}
  }

  function CloserHolds(s: State): set<nat> {
    if s.closer.CloserFailing? then s.closer.batch else {}
  }

  predicate Active(w: Caller) { w.Writing? || w.Waiting? }

  predicate HasID(w: Caller) { !w.Refused? }

  /** Some `failPending` has already emptied the pending table. */
  predicate Swept(s: State) {
    s.closer.CloserFailing? || s.closer.CloserDone? || s.reader.ReaderFailing? || s.reader.ReaderDone?
  }

  /** Pending, claimed and batched calls are separate, and nothing was yet sent to any of them. */
  ghost predicate Routed(s: State) {
    && |s.chans| == s.shared.nextID
    && s.shared.pending !! ReaderHolds(s)
    && s.shared.pending !! CloserHolds(s)
    && ReaderHolds(s) !! CloserHolds(s)
    && (forall id :: id in s.shared.pending + ReaderHolds(s) + CloserHolds(s) ==>
          id < |s.chans| && s.chans[id] == Chan(None, 0))
    && (forall id :: 0 <= id < |s.chans| ==> s.chans[id].sends <= 1)
  }

  /** No reply is misrouted. */
  ghost predicate Matched(s: State) {
    && (s.reader.Sending? ==> s.reader.resp.Target() == s.reader.id)
    && (forall id :: 0 <= id < |s.chans| && s.chans[id].slot.Some? && s.chans[id].slot.value.Replied? ==>
          s.chans[id].slot.value.resp.Target() == id)
    && (forall c :: c in s.callers && s.callers[c].Ended? && !s.callers[c].how.Error? ==>
          s.callers[c].how.resp.Target() == s.callers[c].id)
  }

  ghost predicate DistinctIDs(s: State) {
    && (forall c :: c in s.callers && HasID(s.callers[c]) ==> s.callers[c].id < s.shared.nextID)
    && (forall a, b :: a in s.callers && b in s.callers && a != b && HasID(s.callers[a]) && HasID(s.callers[b]) ==>
          s.callers[a].id != s.callers[b].id)
  }

  /** A call that has not returned or given up can still be answered. */
  ghost predicate Answerable(s: State, id: nat) {
    || id in s.shared.pending
    || id in ReaderHolds(s)
    || id in CloserHolds(s)
    || (id < |s.chans| && s.chans[id].slot.Some?)
  }

  ghost predicate Served(s: State) {
    forall c :: c in s.callers && Active(s.callers[c]) ==> Answerable(s, s.callers[c].id)
  }

  ghost predicate Closing(s: State) {
    && (s.closer != Idle || s.reader.Stopped? || s.reader.ReaderFailing? || s.reader.ReaderDone? ==> s.shared.closed)
    && (s.shared.closed ==> s.closer != Idle || s.reader.Stopped? || s.reader.ReaderFailing? || s.reader.ReaderDone?)
    && (Swept(s) ==> s.shared.pending == {})
    && (s.shared.closed ==> s.shared.closeErr.Some?)
  }

  /** A call that has returned is pending no more. */
  ghost predicate Released(s: State) {
    forall c :: c in s.callers && s.callers[c].Ended? ==> s.callers[c].id !in s.shared.pending
  }

  ghost predicate Inv(s: State) {
    Routed(s) && Matched(s) && DistinctIDs(s) && Served(s) && Closing(s) && Released(s)
  }

  predicate ByCaller(step: Step) {
    step.Start? || step.WriteOk? || step.WriteFail? || step.Cancel? || step.SeeDone? || step.Receive? || step.Discard?
  }

  predicate ByCloser(step: Step) {
    step.Close? || step.CloserTake? || step.CloserSend? || step.CloserFinish?
  }

  lemma RoutedKeptByCaller(s: State, step: Step)
    requires Inv(s) && Enabled(s, step) && ByCaller(step)
    ensures Routed(Apply(s, step))
  {
    hide Matched;
    hide DistinctIDs;
    hide Served;
    hide Released;
    hide Routed;
    if step.Start? {
      RoutedKeptByStart(s, step);
    } else if step.Receive? {
      RoutedKeptByReceive(s, step);
    } else {
      RoutedKeptByFewer(s, Apply(s, step));
    }
  }

  lemma RoutedKeptByStart(s: State, step: Step)
    requires Routed(s) && Enabled(s, step) && step.Start?
    ensures Routed(Apply(s, step))
  {
    var t, next := Apply(s, step), s.shared.nextID;
    assert ReaderHolds(t) == ReaderHolds(s) && CloserHolds(t) == CloserHolds(s);
    assert forall id :: id in Unsent(s) ==> id < next && s.chans[id] == Chan(None, 0);
    forall id | id in Unsent(t) ensures id < |t.chans| && t.chans[id] == Chan(None, 0) {
      assert id in Unsent(s) || id == next;
    }
    forall id | id in ReaderHolds(s) + CloserHolds(s) ensures id != next {
      assert id in Unsent(s);
    }
  }

  lemma RoutedKeptByReceive(s: State, step: Step)
    requires Routed(s) && Enabled(s, step) && step.Receive?
    ensures Routed(Apply(s, step))
  {
    var t := Apply(s, step);
    assert ReaderHolds(t) == ReaderHolds(s) && CloserHolds(t) == CloserHolds(s);
    forall id | id in Unsent(t) ensures id < |t.chans| && t.chans[id] == Chan(None, 0) {
      assert id in Unsent(s);
    }
  }

  /** Channels, reader and closer stay, and no more calls are pending. */
  lemma RoutedKeptByFewer(s: State, t: State)
    requires Routed(s) && t.chans == s.chans && t.reader == s.reader && t.closer == s.closer
    requires t.shared.nextID == s.shared.nextID && t.shared.pending <= s.shared.pending
    ensures Routed(t)
  {
    assert ReaderHolds(t) == ReaderHolds(s) && CloserHolds(t) == CloserHolds(s);
    forall id | id in Unsent(t) ensures id < |t.chans| && t.chans[id] == Chan(None, 0) {
      assert id in Unsent(s);
    }
  }

  lemma RoutedKeptByCloser(s: State, step: Step)
    requires Inv(s) && Enabled(s, step) && ByCloser(step)
    ensures Routed(Apply(s, step))
  {
    hide Matched;
    hide DistinctIDs;
    hide Served;
    hide Released;
    hide Routed;
    if step.CloserSend? {
      RoutedKeptByCloserSend(s, step);
    } else {
      RoutedKeptByMove(s, Apply(s, step));
    }
  }

  lemma RoutedKeptByCloserSend(s: State, step: Step)
    requires Routed(s) && Enabled(s, step) && step.CloserSend?
    ensures Routed(Apply(s, step))
  {
    var t := Apply(s, step);
    assert ReaderHolds(t) == ReaderHolds(s) && CloserHolds(t) == CloserHolds(s) - {step.id};
    assert step.id in Unsent(s);
    forall id | id in Unsent(t) ensures id < |t.chans| && t.chans[id] == Chan(None, 0) {
      assert id in Unsent(s) && id != step.id;
    }
  }

  /** No channel is touched, and the closer holds less or takes what is pending. */
  lemma RoutedKeptByMove(s: State, t: State)
    requires Routed(s) && t.chans == s.chans && t.reader == s.reader && t.shared.nextID == s.shared.nextID
    requires (t.shared.pending == s.shared.pending && CloserHolds(t) <= CloserHolds(s))
          || (t.shared.pending == {} && CloserHolds(t) <= s.shared.pending)
    ensures Routed(t)
  {
    assert ReaderHolds(t) == ReaderHolds(s);
    forall id | id in Unsent(t) ensures id in Unsent(s) {
    }
    forall id | id in Unsent(t) ensures id < |t.chans| && t.chans[id] == Chan(None, 0) {
      assert id in Unsent(s);
    }
  }

  lemma RoutedKeptByReader(s: State, step: Step)
    requires Inv(s) && Enabled(s, step) && !ByCaller(step) && !ByCloser(step)
    ensures Routed(Apply(s, step))
  {
    hide Matched;
    hide DistinctIDs;
    hide Served;
    hide Released;
    var t := Apply(s, step);
    match step {
      case SendReply =>
        assert s.reader.id in s.shared.pending + ReaderHolds(s) + CloserHolds(s);
        assert ReaderHolds(t) == {};
      case ReaderSend(id) =>
        assert id in s.shared.pending + ReaderHolds(s) + CloserHolds(s);
        assert ReaderHolds(t) == ReaderHolds(s) - {id};
      case ReadResponse(resp) =>
        assert t.shared.pending + ReaderHolds(t) == s.shared.pending;
      case ReaderTake =>
        assert ReaderHolds(t) == s.shared.pending;
      case _ =>
    }
  }

  lemma RoutedKept(s: State, step: Step)
    requires Inv(s) && Enabled(s, step)
    ensures Routed(Apply(s, step))
  {
    hide Routed;
    hide Apply;
    if ByCaller(step) {
      RoutedKeptByCaller(s, step);
    } else if ByCloser(step) {
      RoutedKeptByCloser(s, step);
    } else {
      RoutedKeptByReader(s, step);
    }
  }

  lemma MatchedKept(s: State, step: Step)
    requires Inv(s) && Enabled(s, step)
    ensures Matched(Apply(s, step))
  {
  }

  lemma DistinctIDsKept(s: State, step: Step)
    requires Inv(s) && Enabled(s, step)
    ensures DistinctIDs(Apply(s, step))
  {
  }

  lemma ServedKept(s: State, step: Step)
    requires Inv(s) && Enabled(s, step)
    ensures Served(Apply(s, step))
  {
  }

  lemma ClosingKept(s: State, step: Step)
    requires Inv(s) && Enabled(s, step)
    ensures Closing(Apply(s, step))
  {
  }

  lemma ReleasedKept(s: State, step: Step)
    requires Inv(s) && Enabled(s, step)
    ensures Released(Apply(s, step))
  {
  }

  /** Every state of every schedule satisfies the invariant. */
  lemma {:induction false} RunKeeps(s: State, steps: seq<Step>)
    requires Inv(s) && Run(s, steps).Some?
    ensures Inv(Run(s, steps).value)
    decreases |steps|
  {
    if steps != [] {
      StepKeeps(s, steps[0]);
      RunKeeps(Apply(s, steps[0]), steps[1..]);
    }
  }

  lemma StepKeeps(s: State, step: Step)
    requires Inv(s) && Enabled(s, step)
    ensures Inv(Apply(s, step))
  {
    RoutedKept(s, step);
    MatchedKept(s, step);
    DistinctIDsKept(s, step);
    ServedKept(s, step);
    ClosingKept(s, step);
    ReleasedKept(s, step);
  }

  ghost predicate Reachable(s: State) {
    exists steps :: Run(INITIAL, steps) == Some(s)
  }

  lemma ReachableInv(s: State)
    requires Reachable(s)
    ensures Inv(s)
  {
    var steps :| Run(INITIAL, steps) == Some(s);
    RunKeeps(INITIAL, steps);
  }

  // Safety over every schedule.

  /** A call that got a response got the one bearing its own id, unless the id is null: that one goes to
      call 0. */
  lemma OwnResponse(s: State, c: nat)
    requires Reachable(s) && c in s.callers && s.callers[c].Ended? && !s.callers[c].how.Error?
    ensures var id, wire := s.callers[c].id, s.callers[c].how.resp.wire;
      && (wire == Number(id) <==> wire != Null)
      && (wire == Null ==> id == 0)
  {
    ReachableInv(s);
  }

  /** A schedule in which a response without an id answers the first call. */
  const NULL_REPLY: seq<Step> := [
    Start(0), WriteOk(0), ReadResponse(Response(Null, false, 7)), SendReply, Receive(0, true)]

  lemma NullAnswersFirst()
    ensures Run(INITIAL, NULL_REPLY).Some?
    ensures var s := Run(INITIAL, NULL_REPLY).value;
      0 in s.callers && s.callers[0] == Ended(0, Succeeded(Response(Null, false, 7)))
  {
    var r := Response(Null, false, 7);
    var s1 := Apply(INITIAL, Start(0));
    var s2 := Apply(s1, WriteOk(0));
    var s3 := Apply(s2, ReadResponse(r));
    var s4 := Apply(s3, SendReply);
    RunStep(INITIAL, NULL_REPLY);
    RunStep(s1, NULL_REPLY[1..]);
    RunStep(s2, NULL_REPLY[2..]);
    RunStep(s3, NULL_REPLY[3..]);
    RunStep(s4, NULL_REPLY[4..]);
  }

  lemma RunStep(s: State, steps: seq<Step>)
    requires steps != [] && Enabled(s, steps[0])
    ensures Run(s, steps) == if |steps| == 1 then Some(Apply(s, steps[0])) else Run(Apply(s, steps[0]), steps[1..])
  {
  }

  // What the end of a call says.

  /** The stream ended with this error, a clean end of it being a closed connection. */
  ghost predicate StreamEnded(log: seq<Step>, err: Err) {
    exists e :: ReadFail(e) in log && err == if e == Eof then ConnClosed else e
  }

  /** The connection is closed, and `err` is its recorded reason or the one its stream ended with. */
  ghost predicate Broken(s: State, log: seq<Step>, err: Err) {
    s.shared.closed && (s.shared.closeErr == Some(err) || StreamEnded(log, err))
  }

  /** A call's end is what happened to it: a result that was read, decoded or not, the server's error that was
      read, its own failure to write, its own cancellation, or the end of the connection. */
  ghost predicate EndTold(s: State, log: seq<Step>, c: nat, how: CallEnd) {
    match how
    case Succeeded(resp) => !resp.isError && ReadResponse(resp) in log && Receive(c, true) in log
    case Undecodable(resp) => !resp.isError && ReadResponse(resp) in log && Receive(c, false) in log
    case RpcError(resp) => resp.isError && ReadResponse(resp) in log
    case Error(err) => WriteFail(c, err) in log || Cancel(c, err) in log || Broken(s, log, err)
  }

  /** The recorded reason is the one given by whoever closed the connection. */
  ghost predicate ReasonTold(s: State, log: seq<Step>) {
    if s.shared.closed
    then
      || (s.shared.closeErr == Some(ConnClosed) && Close in log)
      || (s.shared.closeErr.Some? && StreamEnded(log, s.shared.closeErr.value))
    else s.shared.closeErr == None
  }

  ghost predicate CallerTold(s: State, log: seq<Step>, c: nat)
    requires c in s.callers
  {
    match s.callers[c]
    case Dropping(_, err) => WriteFail(c, err) in log || Cancel(c, err) in log
    case Ended(_, how) => EndTold(s, log, c, how)
    case Refused(err) => s.shared.closed && s.shared.closeErr == Some(err)
    case _ => true
  }

  ghost predicate SlotTold(s: State, log: seq<Step>, o: Outcome) {
    match o
    case Replied(resp) => ReadResponse(resp) in log
    case Failed(err) => Broken(s, log, err)
  }

  ghost predicate ReaderTold(s: State, log: seq<Step>) {
    match s.reader
    case Sending(_, resp) => ReadResponse(resp) in log
    case Stopping(err) => StreamEnded(log, err)
    case Stopped(err) => StreamEnded(log, err)
    case ReaderFailing(_, err) => StreamEnded(log, err)
    case _ => true
  }

  ghost predicate CloserTold(s: State) {
    match s.closer
    case Marked(err) => s.shared.closed && s.shared.closeErr == Some(err)
    case CloserFailing(_, err) => s.shared.closed && s.shared.closeErr == Some(err)
    case _ => true
  }

  /** Everything a call has been told, or is about to be, is in the log. */
  ghost predicate Told(s: State, log: seq<Step>) {
    && ReasonTold(s, log) && ReaderTold(s, log) && CloserTold(s)
    && (forall c :: c in s.callers ==> CallerTold(s, log, c))
    && (forall id :: 0 <= id < |s.chans| && s.chans[id].slot.Some? ==> SlotTold(s, log, s.chans[id].slot.value))
  }

  /** A step keeps the reason of a closed connection and adds to the log. */
  lemma Onwards(s: State, log: seq<Step>, step: Step)
    requires Inv(s) && Told(s, log) && Enabled(s, step)
    ensures s.shared.closed ==> Apply(s, step).shared.closed && Apply(s, step).shared.closeErr == s.shared.closeErr
    ensures forall err :: StreamEnded(log, err) ==> StreamEnded(log + [step], err)
    ensures forall err :: Broken(s, log, err) ==> Broken(Apply(s, step), log + [step], err)
  {
    forall err | StreamEnded(log, err) ensures StreamEnded(log + [step], err) {
      var e :| ReadFail(e) in log && err == if e == Eof then ConnClosed else e;
      assert ReadFail(e) in log + [step];
    }
  }

  lemma ToldKept(s: State, log: seq<Step>, step: Step)
    requires Inv(s) && Told(s, log) && Enabled(s, step)
    ensures Told(Apply(s, step), log + [step])
  {
    Onwards(s, log, step);
    ReasonToldKept(s, log, step);
    SlotsToldKept(s, log, step);
    CallersToldKept(s, log, step);
  }

  lemma ReasonToldKept(s: State, log: seq<Step>, step: Step)
    requires Inv(s) && Told(s, log) && Enabled(s, step)
    ensures ReasonTold(Apply(s, step), log + [step])
    ensures ReaderTold(Apply(s, step), log + [step]) && CloserTold(Apply(s, step))
  {
    Onwards(s, log, step);
    if step.ReadFail? {
      assert ReadFail(step.err) in log + [step];
      assert StreamEnded(log + [step], Apply(s, step).reader.err);
    }
  }

  lemma SlotsToldKept(s: State, log: seq<Step>, step: Step)
    requires Inv(s) && Told(s, log) && Enabled(s, step)
    ensures var t := Apply(s, step);
      forall id :: 0 <= id < |t.chans| && t.chans[id].slot.Some? ==> SlotTold(t, log + [step], t.chans[id].slot.value)
  {
    Onwards(s, log, step);
  }

  lemma CallersToldKept(s: State, log: seq<Step>, step: Step)
    requires Inv(s) && Told(s, log) && Enabled(s, step)
    ensures forall c :: c in Apply(s, step).callers ==> CallerTold(Apply(s, step), log + [step], c)
  {
    hide Apply;
    hide Told;
    hide CallerTold;
    hide Inv;
    var t := Apply(s, step);
    forall c | c in t.callers ensures CallerTold(t, log + [step], c) {
      if c in s.callers && t.callers[c] == s.callers[c] {
        StillTold(s, log, step, c);
      } else if step.Receive? {
        ReceiverTold(s, log, step, c);
      } else {
        MovedTold(s, log, step, c);
      }
    }
  }

  /** A caller the step does not move. */
  lemma StillTold(s: State, log: seq<Step>, step: Step, c: nat)
    requires Inv(s) && Told(s, log) && Enabled(s, step)
    requires c in s.callers && c in Apply(s, step).callers && Apply(s, step).callers[c] == s.callers[c]
    ensures CallerTold(Apply(s, step), log + [step], c)
  {
    hide Apply;
    hide Inv;
    hide Broken;
    hide ReasonTold;
    hide ReaderTold;
    hide CloserTold;
    hide SlotTold;
    Onwards(s, log, step);
    assert CallerTold(s, log, c);
  }

  lemma ReceiverTold(s: State, log: seq<Step>, step: Step, c: nat)
    requires Inv(s) && Told(s, log) && Enabled(s, step) && step.Receive?
    requires c in Apply(s, step).callers && !(c in s.callers && Apply(s, step).callers[c] == s.callers[c])
    ensures CallerTold(Apply(s, step), log + [step], c)
  {
    hide Broken;
    hide Inv;
    hide ReasonTold;
    hide ReaderTold;
    hide CloserTold;
    hide CallerTold;
    Onwards(s, log, step);
    assert step.c == c;
    var o := s.chans[s.callers[c].id].slot.value;
    assert SlotTold(s, log, o);
    EndIs(Apply(s, step), log, step, c, o);
  }

  lemma EndIs(t: State, log: seq<Step>, step: Step, c: nat, o: Outcome)
    requires step.Receive? && step.c == c && c in t.callers
    requires t.callers[c].Ended? && t.callers[c].how == Answer(o, step.decodes)
    requires match o case Replied(resp) => ReadResponse(resp) in log case Failed(err) => Broken(t, log + [step], err)
    ensures CallerTold(t, log + [step], c)
  {
    hide Broken;
    assert step in log + [step];
  }

  /** A caller moved by one of its other steps. */
  lemma MovedTold(s: State, log: seq<Step>, step: Step, c: nat)
    requires Inv(s) && Told(s, log) && Enabled(s, step) && !step.Receive?
    requires c in Apply(s, step).callers && !(c in s.callers && Apply(s, step).callers[c] == s.callers[c])
    ensures CallerTold(Apply(s, step), log + [step], c)
  {
    hide SlotTold;
    hide StreamEnded;
    Onwards(s, log, step);
    assert step in log + [step];
    if step.Discard? {
      assert CallerTold(s, log, c);
    }
  }

  lemma {:induction false} RunTold(s: State, log: seq<Step>, steps: seq<Step>)
    requires Inv(s) && Told(s, log) && Run(s, steps).Some?
    ensures Told(Run(s, steps).value, log + steps)
    decreases |steps|
  {
    if steps == [] {
      assert log + steps == log;
    } else {
      StepKeeps(s, steps[0]);
      ToldKept(s, log, steps[0]);
      RunTold(Apply(s, steps[0]), log + [steps[0]], steps[1..]);
      assert log + [steps[0]] + steps[1..] == log + steps;
    }
  }

  /** After every schedule: a call that has ended says what happened to it and is pending no more, and a call
      that was refused says why the connection was closed. */
  lemma EndsTellTruth(steps: seq<Step>, s: State, c: nat)
    requires Run(INITIAL, steps) == Some(s) && c in s.callers
    ensures s.callers[c].Ended? ==> EndTold(s, steps, c, s.callers[c].how) && s.callers[c].id !in s.shared.pending
    ensures s.callers[c].Refused? ==> s.shared.closed && s.shared.closeErr == Some(s.callers[c].err)
    ensures ReasonTold(s, steps)
  {
    RunTold(INITIAL, [], steps);
    RunKeeps(INITIAL, steps);
    assert [] + steps == steps;
    assert CallerTold(s, steps, c);
  }

  /** A schedule in which the read loop fails a call after the connection was closed. */
  const LATE_ERROR: seq<Step> := [
    Start(0), WriteOk(0), Close, ReadFail(Other(5)), Shutdown, ReaderTake, ReaderSend(0), Receive(0, true)]

  /** Where its first four steps lead: a closed connection whose stream has ended with an error of its own. */
  const LATE: State := State(
    Shared(1, {0}, true, Some(ConnClosed)), [Chan(None, 0)], map[0 := Waiting(0)], Stopping(Other(5)),
    Marked(ConnClosed))

  lemma LateErrorStarts()
    ensures Run(INITIAL, LATE_ERROR) == Run(LATE, LATE_ERROR[4..])
  {
    hide Run;
    var s1 := Apply(INITIAL, Start(0));
    var s2 := Apply(s1, WriteOk(0));
    var s3 := Apply(s2, Close);
    RunStep(INITIAL, LATE_ERROR);
    RunStep(s1, LATE_ERROR[1..]);
    RunStep(s2, LATE_ERROR[2..]);
    RunStep(s3, LATE_ERROR[3..]);
    assert Apply(s3, ReadFail(Other(5))) == LATE;
  }

  /** The reason recorded is that of the closer, and the call ends with that of the stream. */
  lemma LateErrorWins()
    ensures Run(INITIAL, LATE_ERROR).Some?
    ensures var s := Run(INITIAL, LATE_ERROR).value;
      && 0 in s.callers && s.callers[0] == Ended(0, Error(Other(5)))
      && s.shared.closed && s.shared.closeErr == Some(ConnClosed)
  {
    hide Run;
    LateErrorStarts();
    var rest := LATE_ERROR[4..];
    var s5 := Apply(LATE, Shutdown);
    var s6 := Apply(s5, ReaderTake);
    var s7 := Apply(s6, ReaderSend(0));
    RunStep(LATE, rest);
    RunStep(s5, rest[1..]);
    RunStep(s6, rest[2..]);
    RunStep(s7, rest[3..]);
  }

  /** Every channel is sent to at most once, so no sender ever blocks. */
  lemma NoSenderBlocks(s: State)
    requires Reachable(s)
    ensures forall id :: 0 <= id < |s.chans| ==> s.chans[id].sends <= 1
    ensures s.reader.Sending? ==> Enabled(s, SendReply)
    ensures s.reader.ReaderFailing? ==> forall id :: id in s.reader.batch ==> Enabled(s, ReaderSend(id))
    ensures s.closer.CloserFailing? ==> forall id :: id in s.closer.batch ==> Enabled(s, CloserSend(id))
  {
    ReachableInv(s);
    forall id | id in ReaderHolds(s) + CloserHolds(s) ensures CanSend(s, id) {
      assert id in s.shared.pending + ReaderHolds(s) + CloserHolds(s);
    }
    if s.reader.Sending? {
      assert s.reader.id in ReaderHolds(s);
    }
  }

  /** A caller keeps its id, and the counter never goes back. */
  lemma {:induction false} IDKept(s: State, steps: seq<Step>, c: nat)
    requires Run(s, steps).Some? && c in s.callers
    ensures
      var t := Run(s, steps).value;
      && c in t.callers && s.shared.nextID <= t.shared.nextID
      && HasID(t.callers[c]) == HasID(s.callers[c])
      && (HasID(s.callers[c]) ==> t.callers[c].id == s.callers[c].id)
    decreases |steps|
  {
    if steps != [] {
      IDKept(Apply(s, steps[0]), steps[1..], c);
    }
  }

  /** Ids are never reused: whoever registers later differs from every id ever handed out before. */
  lemma IDsNeverReused(s: State, steps: seq<Step>, earlier: nat, later: nat)
    requires Reachable(s) && Run(s, steps).Some? && earlier != later
    requires earlier in s.callers && HasID(s.callers[earlier])
    requires later in Run(s, steps).value.callers && HasID(Run(s, steps).value.callers[later])
    ensures Run(s, steps).value.callers[later].id != s.callers[earlier].id
  {
    ReachableInv(s);
    RunKeeps(s, steps);
    IDKept(s, steps, earlier);
  }

  /** Once a `failPending` has run, the pending table stays empty for good. */
  lemma {:induction false} SweptForGood(s: State, steps: seq<Step>)
    requires Inv(s) && Swept(s) && Run(s, steps).Some?
    ensures Swept(Run(s, steps).value) && Run(s, steps).value.shared.pending == {}
    decreases |steps|
  {
    if steps != [] {
      StepKeeps(s, steps[0]);
      SweptForGood(Apply(s, steps[0]), steps[1..]);
    }
  }

  /** After that, every call still out has its answer waiting or on the way to it. */
  lemma SweptCallsAnswered(s: State, c: nat)
    requires Reachable(s) && Swept(s) && c in s.callers && Active(s.callers[c])
    ensures
      var id := s.callers[c].id;
      && id < |s.chans|
      && (s.chans[id].slot.Some? || (s.chans[id] == Chan(None, 0) && id in ReaderHolds(s) + CloserHolds(s)))
  {
    ReachableInv(s);
    var id := s.callers[c].id;
    if id in ReaderHolds(s) + CloserHolds(s) {
      assert id in s.shared.pending + ReaderHolds(s) + CloserHolds(s);
    }
  }

  // Closing answers every call.

  /** The steps that finish work already under way: nothing new arrives and nobody cancels. */
  predicate Draining(step: Step) {
    || step.WriteOk? || step.Receive? || step.Discard?
    || step.SendReply? || step.Shutdown? || step.ReaderTake? || step.ReaderSend? || step.ReaderFinish?
    || step.CloserTake? || step.CloserSend? || step.CloserFinish?
  }

  ghost predicate AllReturned(s: State) {
    forall c :: c in s.callers ==> s.callers[c].Ended? || s.callers[c].Refused?
  }

  function Unsent(s: State): set<nat> { s.shared.pending + ReaderHolds(s) + CloserHolds(s) }

  function Phases(s: State): nat {
    (match s.reader case Stopping(_) => 3 case Stopped(_) => 2 case ReaderFailing(_, _) => 1 case _ => 0)
    + (match s.closer case Marked(_) => 2 case CloserFailing(_, _) => 1 case _ => 0)
  }

  function Writers(s: State): set<nat> { set c | c in s.callers && s.callers[c].Writing? }

  function Waiters(s: State): set<nat> { set c | c in s.callers && s.callers[c].Waiting? }

  function Droppers(s: State): set<nat> { set c | c in s.callers && s.callers[c].Dropping? }

  /** On a closed connection with calls still out, some finishing step is enabled: closing cannot deadlock. */
  lemma NextDrain(s: State) returns (step: Step)
    requires Inv(s) && s.shared.closed && !AllReturned(s)
    ensures Draining(step) && Enabled(s, step)
  {
    forall id | id in ReaderHolds(s) + CloserHolds(s) ensures CanSend(s, id) {
      assert id in s.shared.pending + ReaderHolds(s) + CloserHolds(s);
    }
    match s.reader {
      case Sending(id, _) =>
        assert id in ReaderHolds(s);
        return SendReply;
      case Stopping(_) => return Shutdown;
      case Stopped(_) => return ReaderTake;
      case ReaderFailing(batch, _) =>
        if id :| id in batch {
          assert id in ReaderHolds(s);
          return ReaderSend(id);
        }
        return ReaderFinish;
      case _ =>
    }
    match s.closer {
      case Marked(_) => return CloserTake;
      case CloserFailing(batch, _) =>
        if id :| id in batch {
          return CloserSend(id);
        }
        return CloserFinish;
      case _ =>
    }
    var c :| c in s.callers && !(s.callers[c].Ended? || s.callers[c].Refused?);
    match s.callers[c] {
      case Writing(_) => return WriteOk(c);
      case Dropping(_, _) => return Discard(c);
      case _ => return Receive(c, true);
    }
  }

  /** A finishing step makes progress: something is sent, a phase ends, or a call moves on. */
  lemma DrainStepShrinks(s: State, step: Step)
    requires Inv(s) && Draining(step) && Enabled(s, step) && s.shared.closed
    ensures
      var t := Apply(s, step);
      && t.shared.closed && t.callers.Keys == s.callers.Keys
      && Unsent(t) <= Unsent(s)
      && (Unsent(t) == Unsent(s) ==>
            || Phases(t) < Phases(s)
            || (Phases(t) == Phases(s) && CallsShrink(s, t)))
  {
    var t := Apply(s, step);
    match step {
      case WriteOk(c) =>
        assert c in Writers(s) && c !in Writers(t);
      case Receive(c, _) =>
        assert c in Waiters(s) && c !in Waiters(t);
      case Discard(c) =>
        assert c in Droppers(s) && c !in Droppers(t);
      case SendReply =>
        assert s.reader.id in Unsent(s) && s.reader.id !in Unsent(t);
      case ReaderSend(id) =>
        assert id in Unsent(s) && id !in Unsent(t);
      case CloserSend(id) =>
        assert id in Unsent(s) && id !in Unsent(t);
      case _ =>
    }
  }

  /** The calls still out shrink lexicographically: writers, then waiters, then the ones giving up. */
  ghost predicate CallsShrink(s: State, t: State) {
    || Writers(t) < Writers(s)
    || (Writers(t) == Writers(s) && Waiters(t) < Waiters(s))
    || (Writers(t) == Writers(s) && Waiters(t) == Waiters(s) && Droppers(t) < Droppers(s))
  }

  /** From any closed state the finishing steps alone return every call that was ever started. */
  lemma {:induction false} Drains(s: State) returns (steps: seq<Step>)
    requires Inv(s) && s.shared.closed
    ensures forall i :: 0 <= i < |steps| ==> Draining(steps[i])
    ensures Run(s, steps).Some? && AllReturned(Run(s, steps).value)
    ensures Run(s, steps).value.callers.Keys == s.callers.Keys
    decreases Unsent(s), Phases(s), Writers(s), Waiters(s), Droppers(s)
  {
    if AllReturned(s) {
      return [];
    }
    var step := NextDrain(s);
    var t := Apply(s, step);
    StepKeeps(s, step);
    DrainStepShrinks(s, step);
    var rest := Drains(t);
    steps := [step] + rest;
    assert steps[1..] == rest;
  }

  /** A closed connection stays closed, and refuses every later call. */
  lemma {:induction false} ClosedRefuses(s: State, steps: seq<Step>, c: nat)
    requires s.shared.closed && Run(s, steps).Some? && c !in s.callers
    ensures Run(s, steps).value.shared.closed
    ensures c in Run(s, steps).value.callers ==> Run(s, steps).value.callers[c].Refused?
    decreases |steps|
  {
    if steps != [] {
      var t := Apply(s, steps[0]);
      if c in t.callers {
        RefusedStays(t, steps[1..], c);
      } else {
        ClosedRefuses(t, steps[1..], c);
      }
    }
  }

  lemma {:induction false} RefusedStays(s: State, steps: seq<Step>, c: nat)
    requires s.shared.closed && Run(s, steps).Some? && c in s.callers && s.callers[c].Refused?
    ensures Run(s, steps).value.shared.closed
    ensures c in Run(s, steps).value.callers && Run(s, steps).value.callers[c] == s.callers[c]
    decreases |steps|
  {
    if steps != [] {
      RefusedStays(Apply(s, steps[0]), steps[1..], c);
    }
  }
}
