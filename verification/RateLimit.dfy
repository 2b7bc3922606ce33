/** The sliding-window rate limiter: per-client admission times, pruned as the window moves. */
module RateLimit {
  type Clients = map<string, seq<int>>

  /** The times after the cutoff; the times are ascending, so the ones before come first. */
  function Pruned(ts: seq<int>, cutoff: int): (r: seq<int>)
    ensures |r| <= |ts|
  {
    if ts != [] && ts[0] <= cutoff then Pruned(ts[1..], cutoff) else ts
  }

  /** Pruning drops a prefix, all of it old, and stops at the first time that is not. */
  lemma {:induction false} PrunedIs(ts: seq<int>, cutoff: int)
    ensures var r := Pruned(ts, cutoff); r == ts[|ts| - |r|..] && (r != [] ==> r[0] > cutoff)
    ensures forall i :: 0 <= i < |ts| - |Pruned(ts, cutoff)| ==> ts[i] <= cutoff
  {
    if ts != [] && ts[0] <= cutoff {
      PrunedIs(ts[1..], cutoff);
      forall i | 0 <= i < |ts| - |Pruned(ts, cutoff)| ensures ts[i] <= cutoff {
        assert i > 0 ==> ts[i] == ts[1..][i - 1];
      }
    }
  }

  method Prune(ts: seq<int>, cutoff: int) returns (kept: seq<int>)
    ensures kept == Pruned(ts, cutoff)
  {
    var i := 0;
    while i < |ts| && ts[i] <= cutoff
      invariant i <= |ts| && Pruned(ts, cutoff) == Pruned(ts[i..], cutoff)
    {
      assert ts[i..][1..] == ts[i + 1..];
      i := i + 1;
    }
    kept := ts[i..];
  }

  function Times(clients: Clients, key: string): seq<int> {
    if key in clients then clients[key] else []
  }

  // The limiter.

  function AllowStep(limit: int, window: int, clients: Clients, key: string, now: int): (r: (Clients, bool)) {
    if limit <= 0 then (clients, true)
    else
      var kept := Pruned(Times(clients, key), now - window);
      if |kept| >= limit then (clients[key := kept], false) else (clients[key := kept + [now]], true)
  }

  ghost predicate IsSwept(clients: Clients, cutoff: int, swept: Clients) {
    && swept.Keys <= clients.Keys
    && forall key :: key in clients ==> SweptAt(clients[key], cutoff, swept, key)
  }

  /** A client with nothing left in the window is gone; another keeps what is left. */
  predicate SweptAt(ts: seq<int>, cutoff: int, swept: Clients, key: string) {
    var kept := Pruned(ts, cutoff);
    if kept == [] then key !in swept else key in swept && swept[key] == kept
  }

  function Swept(clients: Clients, cutoff: int): (swept: Clients)
    ensures IsSwept(clients, cutoff, swept)
  {
    map key | key in clients && Pruned(clients[key], cutoff) != [] :: Pruned(clients[key], cutoff)
  }

  class RateLimiter {
    const limit: int
    const window: int
    var clients: Clients

    constructor (limit: int, window: int)
      ensures this.limit == limit && this.window == window && clients == map[]
    {
      this.limit, this.window, clients := limit, window, map[];
    }

    method Allow(key: string, now: int) returns (ok: bool)
      modifies this
      ensures (clients, ok) == AllowStep(limit, window, old(clients), key, now)
    {
      if limit <= 0 {
        return true;
      }
      var kept := Prune(if key in clients then clients[key] else [], now - window);
      if |kept| >= limit {
        clients := clients[key := kept];
        return false;
      }
      clients := clients[key := kept + [now]];
      ok := true;
    }

    method Sweep(now: int)
      modifies this
      ensures clients == Swept(old(clients), now - window)
      ensures forall key :: key in clients <==> key in old(clients) && Live(old(clients)[key], now - window)
    {
      hide Pruned;
      hide Swept;
      hide Live;
      SweptLive(clients, now - window);
      var todo := clients.Keys;
      while todo != {}
        invariant todo <= old(clients).Keys
        invariant forall key :: key in todo ==> key in clients && clients[key] == old(clients)[key]
        invariant clients.Keys <= old(clients).Keys
        invariant forall key :: key in old(clients) && key !in todo ==>
          SweptAt(old(clients)[key], now - window, clients, key)
        decreases |todo|
      {
        var key :| key in todo;
        var kept := Prune(clients[key], now - window);
        if |kept| == 0 {
          clients := clients - {key};
        } else {
          clients := clients[key := kept];
        }
        todo := todo - {key};
      }
      SweptUnique(old(clients), now - window, clients, Swept(old(clients), now - window));
    }
  }

  /** Some of the times lies after the cutoff. */
  ghost predicate Live(ts: seq<int>, cutoff: int) {
    exists t :: t in ts && t > cutoff
  }

  /** A sweep keeps exactly the clients with a time inside the window. */
  lemma SweptLive(clients: Clients, cutoff: int)
    ensures forall key :: key in Swept(clients, cutoff) <==> key in clients && Live(clients[key], cutoff)
  {
    hide Pruned;
    hide Live;
    forall key | key in clients ensures Pruned(clients[key], cutoff) != [] <==> Live(clients[key], cutoff) {
      PrunedLive(clients[key], cutoff);
    }
  }

  lemma PrunedLive(ts: seq<int>, cutoff: int)
    ensures Pruned(ts, cutoff) != [] <==> Live(ts, cutoff)
  {
    hide Pruned;
    PrunedIs(ts, cutoff);
    var r := Pruned(ts, cutoff);
    if r != [] {
      assert ts[|ts| - |r|] == r[0] && r[0] in ts;
    }
  }

  lemma SweptUnique(clients: Clients, cutoff: int, a: Clients, b: Clients)
    requires IsSwept(clients, cutoff, a) && IsSwept(clients, cutoff, b)
    ensures a == b
  {
    assert a.Keys == b.Keys;
  }

  // Runs.

  datatype Op = Allow(key: string, now: int) | Sweep(now: int)

  function Step(limit: int, window: int, clients: Clients, op: Op): (Clients, bool) {
    match op
    case Allow(key, now) => AllowStep(limit, window, clients, key, now)
    case Sweep(now) => (Swept(clients, now - window), true)
  }

  /** The clock never goes back. */
  predicate Clocked(from: int, ops: seq<Op>)
    decreases |ops|
  {
    ops == [] || (from <= ops[0].now && Clocked(ops[0].now, ops[1..]))
  }

  function After(limit: int, window: int, clients: Clients, ops: seq<Op>): Clients
    decreases |ops|
  {
    if ops == [] then clients else After(limit, window, Step(limit, window, clients, ops[0]).0, ops[1..])
  }

  /** What every `Allow` of the run answered, in order. */
  function Decisions(limit: int, window: int, clients: Clients, ops: seq<Op>): seq<bool>
    decreases |ops|
  {
    if ops == [] then []
    else
      var (next, ok) := Step(limit, window, clients, ops[0]);
      (if ops[0].Allow? then [ok] else []) + Decisions(limit, window, next, ops[1..])
  }

  /** All times at which a client was admitted, never pruned. */
  function Record(ledger: Clients, op: Op, ok: bool): Clients {
    if op.Allow? && ok then ledger[op.key := Times(ledger, op.key) + [op.now]] else ledger
  }

  function Ledger(limit: int, window: int, clients: Clients, ledger: Clients, ops: seq<Op>): Clients
    decreases |ops|
  {
    if ops == [] then ledger
    else
      var (next, ok) := Step(limit, window, clients, ops[0]);
      Ledger(limit, window, next, Record(ledger, ops[0], ok), ops[1..])
  }

  function LastNow(from: int, ops: seq<Op>): int
    decreases |ops|
  {
    if ops == [] then from else LastNow(ops[0].now, ops[1..])
  }

  // Pruning facts.

  lemma {:induction false} PruneTwice(ts: seq<int>, c: int, d: int)
    requires c <= d
    ensures Pruned(Pruned(ts, c), d) == Pruned(ts, d)
  {
    if ts != [] && ts[0] <= c {
      PruneTwice(ts[1..], c, d);
    }
  }

  lemma {:induction false} PruneAppend(ts: seq<int>, t: int, c: int)
    ensures Pruned(ts + [t], c) == if Pruned(ts, c) == [] then Pruned([t], c) else Pruned(ts, c) + [t]
  {
    if ts == [] {
      assert ts + [t] == [t];
    } else {
      assert (ts + [t])[1..] == ts[1..] + [t];
      if ts[0] <= c {
        PruneAppend(ts[1..], t, c);
      }
    }
  }

  /** Two limiters that agree on every time after the cutoff. */
  ghost predicate Agree(a: Clients, b: Clients, cutoff: int) {
    forall key :: Pruned(Times(a, key), cutoff) == Pruned(Times(b, key), cutoff)
  }

  lemma AgreeLater(a: Clients, b: Clients, c: int, d: int)
    requires Agree(a, b, c) && c <= d
    ensures Agree(a, b, d)
  {
    hide Pruned;
    forall key ensures Pruned(Times(a, key), d) == Pruned(Times(b, key), d) {
      PruneTwice(Times(a, key), c, d);
      PruneTwice(Times(b, key), c, d);
    }
  }

  lemma NothingPruned(cutoff: int)
    ensures Pruned([], cutoff) == []
  {
  }

  lemma SweepAgrees(clients: Clients, cutoff: int)
    ensures Agree(Swept(clients, cutoff), clients, cutoff)
  {
    hide Pruned;
    var s := Swept(clients, cutoff);
    NothingPruned(cutoff);
    forall key ensures Pruned(Times(s, key), cutoff) == Pruned(Times(clients, key), cutoff) {
      PruneTwice(Times(clients, key), cutoff, cutoff);
    }
  }

  /** What a client's times become when a request is admitted, pruned or not. */
  lemma AppendAgrees(kept: seq<int>, ts: seq<int>, t: int, cutoff: int)
    requires kept == Pruned(ts, cutoff)
    ensures Pruned(kept + [t], cutoff) == Pruned(ts + [t], cutoff) && Pruned(kept, cutoff) == kept
  {
    hide Pruned;
    PruneTwice(ts, cutoff, cutoff);
    PruneAppend(kept, t, cutoff);
    PruneAppend(ts, t, cutoff);
  }

  // Sweeping changes no decision.

  lemma StepAgrees(limit: int, window: int, a: Clients, b: Clients, from: int, op: Op)
    requires Agree(a, b, from - window) && from <= op.now
    ensures Step(limit, window, a, op).1 == Step(limit, window, b, op).1
    ensures Agree(Step(limit, window, a, op).0, Step(limit, window, b, op).0, op.now - window)
  {
    hide Pruned;
    hide Swept;
    hide Agree;
    var cutoff := op.now - window;
    AgreeLater(a, b, from - window, cutoff);
    match op {
      case Sweep(now) =>
        SweepAgrees(a, cutoff);
        SweepAgrees(b, cutoff);
        AgreeTrans(Swept(a, cutoff), a, b, cutoff);
        AgreeTrans(Swept(a, cutoff), b, Swept(b, cutoff), cutoff);
      case Allow(key, now) =>
        AllowAgrees(limit, window, a, b, key, now);
    }
  }

  lemma AgreeTrans(a: Clients, b: Clients, c: Clients, cutoff: int)
    requires Agree(a, b, cutoff) && (Agree(b, c, cutoff) || Agree(c, b, cutoff))
    ensures Agree(a, c, cutoff)
  {
    hide Pruned;
  }

  lemma AllowAgrees(limit: int, window: int, a: Clients, b: Clients, key: string, now: int)
    requires Agree(a, b, now - window)
    ensures AllowStep(limit, window, a, key, now).1 == AllowStep(limit, window, b, key, now).1
    ensures Agree(AllowStep(limit, window, a, key, now).0, AllowStep(limit, window, b, key, now).0, now - window)
  {
    hide Pruned;
    var cutoff := now - window;
    var a', b' := AllowStep(limit, window, a, key, now).0, AllowStep(limit, window, b, key, now).0;
    if limit > 0 {
      assert Pruned(Times(a, key), cutoff) == Pruned(Times(b, key), cutoff);
      forall k ensures Pruned(Times(a', k), cutoff) == Pruned(Times(b', k), cutoff) {
        assert Pruned(Times(a, k), cutoff) == Pruned(Times(b, k), cutoff);
      }
    }
  }

  lemma {:induction false} SameDecisions(limit: int, window: int, a: Clients, b: Clients, from: int, ops: seq<Op>)
    requires Agree(a, b, from - window) && Clocked(from, ops)
    ensures Decisions(limit, window, a, ops) == Decisions(limit, window, b, ops)
    decreases |ops|
  {
    hide Agree;
    hide Step;
    if ops != [] {
      StepAgrees(limit, window, a, b, from, ops[0]);
      SameDecisions(limit, window, Step(limit, window, a, ops[0]).0, Step(limit, window, b, ops[0]).0, ops[0].now,
                    ops[1..]);
    }
  }

  /** A sweep put anywhere into a run changes none of its decisions. */
  lemma {:induction false} SweepUnseen(limit: int, window: int, clients: Clients, from: int, before: seq<Op>, now: int,
                                       rest: seq<Op>)
    requires Clocked(from, before + [Sweep(now)] + rest)
    ensures Decisions(limit, window, clients, before + [Sweep(now)] + rest)
         == Decisions(limit, window, clients, before + rest)
    decreases |before|
  {
    hide Step;
    var ops := before + [Sweep(now)] + rest;
    if before == [] {
      assert ops == [Sweep(now)] + rest && ops[1..] == rest && before + rest == rest;
      SweepStep(limit, window, clients, now);
      SweepAgrees(clients, now - window);
      SameDecisions(limit, window, Swept(clients, now - window), clients, now, rest);
    } else {
      assert ops[1..] == before[1..] + [Sweep(now)] + rest && (before + rest)[1..] == before[1..] + rest;
      SweepUnseen(limit, window, Step(limit, window, clients, before[0]).0, before[0].now, before[1..], now, rest);
    }
  }

  lemma SweepStep(limit: int, window: int, clients: Clients, now: int)
    ensures Step(limit, window, clients, Sweep(now)).0 == Swept(clients, now - window)
  {
    hide Swept;
    hide Pruned;
  }

  // The window bound.

  ghost predicate Ascending(ts: seq<int>, last: int) {
    && (forall i, j :: 0 <= i < j < |ts| ==> ts[i] <= ts[j])
    && (forall i :: 0 <= i < |ts| ==> ts[i] <= last)
  }

  /** Any `limit + 1` admissions in a row span at least a whole window. */
  ghost predicate Spaced(ts: seq<int>, limit: nat, window: int) {
    forall j :: limit <= j < |ts| ==> ts[j - limit] <= ts[j] - window
  }

  /** How many times lie in the half-open interval `(lo, hi]`. */
  function CountIn(ts: seq<int>, lo: int, hi: int): (n: nat)
    ensures n <= |ts|
  {
    if ts == [] then 0
    else CountIn(ts[..|ts| - 1], lo, hi) + if lo < ts[|ts| - 1] <= hi then 1 else 0
  }

  /** The invariant of every run: the live times are what the full record would prune to, and
      the record is ascending and spaced. */
  ghost predicate Tracks(limit: nat, window: int, clients: Clients, ledger: Clients, now: int) {
    && Agree(clients, ledger, now - window)
    && forall key :: Ascending(Times(ledger, key), now) && Spaced(Times(ledger, key), limit, window)
  }

  lemma AdmittedSpaced(ts: seq<int>, limit: int, window: int, from: int, now: int)
    requires limit > 0 && Ascending(ts, from) && Spaced(ts, limit, window) && from <= now
    requires |Pruned(ts, now - window)| < limit
    ensures Ascending(ts + [now], now) && Spaced(ts + [now], limit, window)
  {
    hide Pruned;
    var more := ts + [now];
    PrunedIs(ts, now - window);
    forall j | limit <= j < |more| ensures more[j - limit] <= more[j] - window {
      if j == |ts| {
        assert j - limit < |ts| - |Pruned(ts, now - window)|;
      }
    }
  }

  lemma StepTracks(limit: int, window: int, clients: Clients, ledger: Clients, from: int, op: Op)
    requires limit > 0 && Tracks(limit, window, clients, ledger, from) && from <= op.now
    ensures var (next, ok) := Step(limit, window, clients, op);
      Tracks(limit, window, next, Record(ledger, op, ok), op.now)
  {
    hide Pruned;
    hide Swept;
    var (next, ok) := Step(limit, window, clients, op);
    var cutoff, record := op.now - window, Record(ledger, op, ok);
    AgreeLater(clients, ledger, from - window, cutoff);
    if op.Sweep? {
      SweepAgrees(clients, cutoff);
      AgreeTrans(next, clients, ledger, cutoff);
    } else {
      var ts := Times(ledger, op.key);
      assert Pruned(Times(clients, op.key), cutoff) == Pruned(ts, cutoff);
      AppendAgrees(Pruned(ts, cutoff), ts, op.now, cutoff);
      assert Ascending(ts, from) && Spaced(ts, limit, window);
      if ok {
        AdmittedSpaced(ts, limit, window, from, op.now);
      }
      RecordAgrees(clients, ledger, next, record, op.key, cutoff);
    }
    forall key ensures Ascending(Times(record, key), op.now) && Spaced(Times(record, key), limit, window) {
      assert Ascending(Times(ledger, key), from) && Spaced(Times(ledger, key), limit, window);
    }
  }

  lemma RecordAgrees(a: Clients, b: Clients, a': Clients, b': Clients, key: string, cutoff: int)
    requires Agree(a, b, cutoff)
    requires Pruned(Times(a', key), cutoff) == Pruned(Times(b', key), cutoff)
    requires forall k :: k != key ==> Times(a', k) == Times(a, k) && Times(b', k) == Times(b, k)
    ensures Agree(a', b', cutoff)
  {
    hide Pruned;
    forall k ensures Pruned(Times(a', k), cutoff) == Pruned(Times(b', k), cutoff) {
      assert Pruned(Times(a, k), cutoff) == Pruned(Times(b, k), cutoff);
    }
  }

  lemma {:induction false} RunTracks(limit: int, window: int, clients: Clients, ledger: Clients, from: int,
                                     ops: seq<Op>)
    requires limit > 0 && Tracks(limit, window, clients, ledger, from) && Clocked(from, ops)
    ensures Tracks(limit, window, After(limit, window, clients, ops), Ledger(limit, window, clients, ledger, ops),
                   LastNow(from, ops))
    decreases |ops|
  {
    hide Tracks;
    hide Step;
    hide Record;
    if ops != [] {
      StepTracks(limit, window, clients, ledger, from, ops[0]);
      var (next, ok) := Step(limit, window, clients, ops[0]);
      RunTracks(limit, window, next, Record(ledger, ops[0], ok), ops[0].now, ops[1..]);
    }
  }

  lemma {:induction false} CountBounded(ts: seq<int>, limit: int, window: int, last: int, a: int)
    requires limit > 0 && Ascending(ts, last) && Spaced(ts, limit, window)
    ensures CountIn(ts, a, a + window) <= limit
  {
    if |ts| > 0 {
      var init, t := ts[..|ts| - 1], ts[|ts| - 1];
      if a < t <= a + window {
        if |ts| > limit {
          assert ts[|ts| - 1 - limit] <= t - window;
          CountAfter(init, a, a + window, |ts| - limit);
        }
      } else {
        CountBounded(init, limit, window, last, a);
      }
    }
  }

  lemma {:induction false} CountAfter(ts: seq<int>, lo: int, hi: int, k: nat)
    requires k <= |ts| && forall i :: 0 <= i < k ==> ts[i] <= lo
    ensures CountIn(ts, lo, hi) <= |ts| - k
  {
    if |ts| > 0 {
      CountAfter(ts[..|ts| - 1], lo, hi, if k == |ts| then k - 1 else k);
    }
  }

  /** Over every run, no client is admitted more than `limit` times in any window. */
  lemma WindowBound(limit: int, window: int, from: int, ops: seq<Op>, key: string, a: int)
    requires limit > 0 && Clocked(from, ops)
    ensures CountIn(Times(Ledger(limit, window, map[], map[], ops), key), a, a + window) <= limit
  {
    hide Pruned;
    hide CountIn;
    hide Ledger;
    hide After;
    hide Step;
    NothingTracked(limit, window, from);
    RunTracks(limit, window, map[], map[], from, ops);
    CountBounded(Times(Ledger(limit, window, map[], map[], ops), key), limit, window, LastNow(from, ops), a);
  }

  lemma NothingTracked(limit: int, window: int, now: int)
    requires limit > 0
    ensures Tracks(limit, window, map[], map[], now)
  {
    hide Pruned;
  }

  lemma {:induction false} CountIsPruned(ts: seq<int>, cutoff: int, now: int)
    requires Ascending(ts, now)
    ensures CountIn(ts, cutoff, now) == |Pruned(ts, cutoff)|
  {
    hide Pruned;
    hide Ascending;
    NothingPruned(cutoff);
    if ts != [] {
      var init, t := ts[..|ts| - 1], ts[|ts| - 1];
      assert ts == init + [t];
      AscendingFront(ts, now);
      CountIsPruned(init, cutoff, now);
      PruneAppend(init, t, cutoff);
      PruneOne(t, cutoff);
      PrunedIs(init, cutoff);
      if Pruned(init, cutoff) != [] {
        assert t > cutoff;
      }
    }
  }

  lemma AscendingFront(ts: seq<int>, now: int)
    requires ts != [] && Ascending(ts, now)
    ensures Ascending(ts[..|ts| - 1], now) && ts[|ts| - 1] <= now && forall i :: 0 <= i < |ts| ==> ts[i] <= ts[|ts| - 1]
  {
  }

  lemma PruneOne(t: int, cutoff: int)
    ensures Pruned([t], cutoff) == if t > cutoff then [t] else []
  {
    assert [t][1..] == [];
  }

  /** After any run, a request is refused exactly when `limit` admissions of its client lie in the
      window that ends now. */
  lemma RefusedExactly(limit: int, window: int, from: int, ops: seq<Op>, key: string, now: int)
    requires limit > 0 && Clocked(from, ops) && LastNow(from, ops) <= now
    ensures AllowStep(limit, window, After(limit, window, map[], ops), key, now).1
        <==> CountIn(Times(Ledger(limit, window, map[], map[], ops), key), now - window, now) != limit
  {
    hide Pruned;
    hide CountIn;
    hide Ledger;
    hide After;
    hide Step;
    var clients, ledger := After(limit, window, map[], ops), Ledger(limit, window, map[], map[], ops);
    var last := LastNow(from, ops);
    NothingTracked(limit, window, from);
    RunTracks(limit, window, map[], map[], from, ops);
    AgreeLater(clients, ledger, last - window, now - window);
    var ts := Times(ledger, key);
    assert Pruned(Times(clients, key), now - window) == Pruned(ts, now - window);
    assert Ascending(ts, last) && Spaced(ts, limit, window);
    CountIsPruned(ts, now - window, now);
    CountBounded(ts, limit, window, last, now - window);
  }

  /** Without a limit everything is allowed. */
  lemma UnlimitedAllows(limit: int, window: int, clients: Clients, ops: seq<Op>)
    requires limit <= 0
    ensures forall i :: 0 <= i < |Decisions(limit, window, clients, ops)| ==> Decisions(limit, window, clients, ops)[i]
    decreases |ops|
  {
    if ops != [] {
      UnlimitedAllows(limit, window, Step(limit, window, clients, ops[0]).0, ops[1..]);
    }
  }
}
