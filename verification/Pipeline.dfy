/** The concurrent ingest front end as a protocol: every block under a lock is one atomic step of a
    submitter, a worker or a shutdown (src/ingest.cpp, include/fabric_observatory/ingest.hpp). */
module Pipelines {
  import opened Bytes
  import opened Observations
  import Capacity
  import Interleaving
  import Observatories
  import Ordering
  import Runs
  import Snapshots
  import ViewStability

  // ---- configuration ----

  function WorkerCount(workers: u32, maxWorkers: u32): (n: nat)
    requires workers > 0
    ensures 0 < n <= workers
  {
    Min(workers, Max(1, maxWorkers))
  }

  function ShardCapacity(maxQueue: u32, queueBound: u32, workers: nat): (n: nat)
    requires workers > 0
    ensures n >= 1
  {
    Max(1, Min(maxQueue, queueBound) / workers)
  }

  /** The bound on everything queued at once, over all the workers a pipeline opens with: the configured bound,
      or one item per shard; and no more workers than were asked for. */
  lemma CapacityBounds(maxQueue: u32, queueBound: u32, workers: u32, maxWorkers: u32)
    requires workers > 0
    ensures var n := WorkerCount(workers, maxWorkers);
            && n * ShardCapacity(maxQueue, queueBound, n) <= Max(n, Min(maxQueue, queueBound))
            && n <= workers && (maxWorkers > 0 ==> n <= maxWorkers)
  {
    var n, effective := WorkerCount(workers, maxWorkers), Min(maxQueue, queueBound);
    assert n * (effective / n) <= effective;
  }

  /** Deterministic in the source identity alone, computed in 64-bit arithmetic. */
  function ShardFor(source: u128, workers: nat): (k: nat)
    requires workers > 0
    ensures k < workers
  {
    var hi, lo := source / U64_MODULUS, source % U64_MODULUS;
    var a := ((hi * 0x9E37_79B9_7F4A_7C15) % U64_MODULUS) as bv64;
    var b := ((lo + 0x1656_67B1_9E37_79F9) % U64_MODULUS) as bv64;
    ((a ^ b) as int) % workers
  }

  /** Everything fixed for the lifetime of a pipeline. */
  datatype Params = Params(
    cfg: Observatories.Config,
    digest: Observation -> Digest,
    epoch: u64,
    workers: nat,
    capacity: nat,
    start: Observatories.Evidence)

  // ---- states ----

  datatype Shard = Shard(queue: seq<Observation>, peak: nat, stopping: bool, discard: bool)

  datatype Worker = Waiting | Holding(item: Observation) | Counting(disposition: Observatories.Disposition) | Exited

  datatype Counters = Counters(
    submitted: nat,
    queueFull: nat,
    accepted: nat,
    duplicates: nat,
    fenced: nat,
    rejected: nat,
    discarded: nat)

  /** uncounted: submitters that have enqueued but not yet reached the counters. The logs record what
      was enqueued, ingested (and when) and discarded, in order; no step reads them. */
  datatype State = State(
    shards: seq<Shard>,
    workers: seq<Worker>,
    counters: Counters,
    uncounted: nat,
    running: bool,
    evidence: Observatories.Evidence,
    enqueued: seq<Observation>,
    ingested: seq<Observation>,
    instants: seq<i64>,
    dropped: seq<Observation>)

  datatype Action =
    | Submit(observation: Observation)
    | CountSubmit
    | Take(worker: nat)
    | IngestItem(worker: nat, now: i64)
    | CountItem(worker: nat)
    | Cancel(shard: nat)
    | Stop(shard: nat, discardMode: bool)
    | Join

  function Initial(p: Params): State {
    State(seq(p.workers, _ => Shard([], 0, false, false)), seq(p.workers, _ => Waiting), Counters(0, 0, 0, 0, 0, 0, 0), 0, true,
          p.start, [], [], [], [])
  }

  predicate WellShaped(p: Params, st: State) { p.workers > 0 && |st.shards| == p.workers && |st.workers| == p.workers }

  // ---- steps ----

  function SubmitStep(p: Params, st: State, o: Observation): State
    requires WellShaped(p, st)
  {
    var k := ShardFor(o.source, p.workers);
    var shard := st.shards[k];
    if shard.stopping then st
    else if |shard.queue| >= p.capacity then st.(counters := st.counters.(queueFull := st.counters.queueFull + 1))
    else
      var queue := shard.queue + [o];
      st.(shards := st.shards[k := shard.(queue := queue, peak := Max(shard.peak, |queue|))],
          uncounted := st.uncounted + 1, enqueued := st.enqueued + [o])
  }

  /** The worker's wait has been satisfied: discard and leave, leave, or take the front item. */
  function TakeStep(p: Params, st: State, i: nat): State
    requires WellShaped(p, st) && i < p.workers
  {
    var shard := st.shards[i];
    if shard.discard && shard.stopping then
      st.(shards := st.shards[i := shard.(queue := [])], workers := st.workers[i := Exited],
          counters := st.counters.(discarded := st.counters.discarded + |shard.queue|), dropped := st.dropped + shard.queue)
    else if shard.queue == [] then st.(workers := st.workers[i := Exited])
    else
      st.(shards := st.shards[i := shard.(queue := shard.queue[1..])], workers := st.workers[i := Holding(shard.queue[0])])
  }

  /** The clock is read under the engine's lock. */
  function IngestStep(p: Params, st: State, i: nat, now: i64): State
    requires WellShaped(p, st) && i < p.workers && st.workers[i].Holding?
  {
    var o := st.workers[i].item;
    var (e, out) := Observatories.Ingest(p.cfg, p.digest, p.epoch, st.evidence, Observatories.Arrival(o, now));
    st.(evidence := e, workers := st.workers[i := Counting(out.disposition)], ingested := st.ingested + [o],
        instants := st.instants + [now])
  }

  function Tally(c: Counters, d: Observatories.Disposition): Counters {
    match d
    case Accepted => c.(accepted := c.accepted + 1)
    case Duplicate => c.(duplicates := c.duplicates + 1)
    case Fenced => c.(fenced := c.fenced + 1)
    case Refused => c.(rejected := c.rejected + 1)
  }

  predicate Enabled(p: Params, st: State, a: Action)
    requires WellShaped(p, st)
  {
    match a
    case Submit(_) => true
    case CountSubmit => st.uncounted > 0
    case Take(i) => i < p.workers && st.workers[i] == Waiting && (st.shards[i].queue != [] || st.shards[i].stopping)
    case IngestItem(i, _) => i < p.workers && st.workers[i].Holding?
    case CountItem(i) => i < p.workers && st.workers[i].Counting?
    case Cancel(i) => i < p.workers
    case Stop(i, _) => i < p.workers
    case Join => forall i :: 0 <= i < p.workers ==> st.workers[i] == Exited
  }

  function Next(p: Params, st: State, a: Action): (r: State)
    requires WellShaped(p, st) && Enabled(p, st, a)
    ensures WellShaped(p, r)
  {
    match a
    case Submit(o) => SubmitStep(p, st, o)
    case CountSubmit => st.(uncounted := st.uncounted - 1, counters := st.counters.(submitted := st.counters.submitted + 1))
    case Take(i) => TakeStep(p, st, i)
    case IngestItem(i, now) => IngestStep(p, st, i, now)
    case CountItem(i) => st.(counters := Tally(st.counters, st.workers[i].disposition), workers := st.workers[i := Waiting])
    case Cancel(i) => st.(shards := st.shards[i := st.shards[i].(stopping := true, discard := true)])
    case Stop(i, mode) => st.(shards := st.shards[i := st.shards[i].(stopping := true, discard := mode)])
    case Join => st.(running := false)
  }

  /** A schedule: steps in some order. A step that is not enabled does nothing. */
  function Exec(p: Params, schedule: seq<Action>): (st: State)
    requires p.workers > 0
    ensures WellShaped(p, st)
  {
    if schedule == [] then Initial(p)
    else
      var before, a := Exec(p, schedule[..|schedule| - 1]), schedule[|schedule| - 1];
      if Enabled(p, before, a) then Next(p, before, a) else before
  }

  // ---- what every state keeps ----

  function From(s: u128): Observation -> bool { (o: Observation) => o.source == s }

  function Only(items: seq<Observation>, s: u128): seq<Observation> { Ordering.Filter(items, From(s)) }

  function Held(w: Worker): seq<Observation> { if w.Holding? then [w.item] else [] }

  /** What one source enqueued is what was ingested of it, then what its worker holds, then what is queued,
      then what was discarded, in that order. */
  ghost predicate InOrder(p: Params, st: State, s: u128)
    requires WellShaped(p, st)
  {
    var k := ShardFor(s, p.workers);
    Only(st.enqueued, s) == Only(st.ingested, s) + Only(Held(st.workers[k]), s) + Only(st.shards[k].queue, s) + Only(st.dropped, s)
  }

  /** Shards hold only their own sources' observations, within capacity; a worker that has left has left
      nothing behind, and only then can anything have been discarded. */
  ghost predicate ShardKept(p: Params, st: State, i: nat)
    requires WellShaped(p, st) && i < p.workers
  {
    && |st.shards[i].queue| <= st.shards[i].peak <= p.capacity
    && (forall o :: o in st.shards[i].queue ==> ShardFor(o.source, p.workers) == i)
    && (st.workers[i].Holding? ==> ShardFor(st.workers[i].item.source, p.workers) == i)
    && (st.workers[i] == Exited ==> st.shards[i].stopping && st.shards[i].queue == [])
    && (st.workers[i] != Exited ==> forall o :: o in st.dropped ==> ShardFor(o.source, p.workers) != i)
  }

  function QueuedTotal(shards: seq<Shard>): nat {
    if shards == [] then 0 else QueuedTotal(shards[..|shards| - 1]) + |shards[|shards| - 1].queue|
  }

  /** Items taken from a queue whose outcome has not been counted yet. */
  function BusyTotal(workers: seq<Worker>): nat {
    if workers == [] then 0
    else
      var w := workers[|workers| - 1];
      BusyTotal(workers[..|workers| - 1]) + if w.Holding? || w.Counting? then 1 else 0
  }

  function Outcomes(c: Counters): nat { c.accepted + c.duplicates + c.fenced + c.rejected }

  ghost predicate Conserved(st: State) {
    && |st.enqueued| == QueuedTotal(st.shards) + BusyTotal(st.workers) + Outcomes(st.counters) + st.counters.discarded
    && st.counters.submitted + st.uncounted == |st.enqueued|
    && st.counters.discarded == |st.dropped|
  }

  function Arrivals(items: seq<Observation>, instants: seq<i64>): (w: seq<Observatories.Arrival>)
    requires |items| == |instants|
    ensures |w| == |items|
  {
    seq(|items|, i requires 0 <= i < |items| => Observatories.Arrival(items[i], instants[i]))
  }

  ghost predicate Safe(p: Params, st: State)
    requires WellShaped(p, st)
  {
    && (forall s :: InOrder(p, st, s))
    && (forall i :: 0 <= i < p.workers ==> ShardKept(p, st, i))
    && Conserved(st)
    && |st.instants| == |st.ingested|
    && st.evidence == Interleaving.Run(p.cfg, p.digest, p.epoch, p.start, Arrivals(st.ingested, st.instants))
  }

  // ---- sums over an update ----

  lemma {:induction false} QueuedUpdate(shards: seq<Shard>, i: nat, s: Shard)
    requires i < |shards|
    ensures QueuedTotal(shards[i := s]) == QueuedTotal(shards) - |shards[i].queue| + |s.queue|
    ensures QueuedTotal(shards) >= |shards[i].queue|
  {
    var front := shards[..|shards| - 1];
    if i < |shards| - 1 {
      QueuedUpdate(front, i, s);
      assert shards[i := s][..|shards| - 1] == front[i := s];
    } else {
      assert shards[i := s][..|shards| - 1] == front;
    }
  }

  function Busy(w: Worker): nat { if w.Holding? || w.Counting? then 1 else 0 }

  lemma {:induction false} BusyUpdate(workers: seq<Worker>, i: nat, w: Worker)
    requires i < |workers|
    ensures BusyTotal(workers[i := w]) == BusyTotal(workers) - Busy(workers[i]) + Busy(w)
    ensures BusyTotal(workers) >= Busy(workers[i])
  {
    var front := workers[..|workers| - 1];
    if i < |workers| - 1 {
      BusyUpdate(front, i, w);
      assert workers[i := w][..|workers| - 1] == front[i := w];
    } else {
      assert workers[i := w][..|workers| - 1] == front;
    }
  }

  lemma {:induction false} NothingQueued(n: nat)
    ensures QueuedTotal(seq(n, _ => Shard([], 0, false, false))) == 0
    ensures BusyTotal(seq(n, _ => Waiting)) == 0
  {
    if n > 0 {
      NothingQueued(n - 1);
      assert seq(n, _ => Shard([], 0, false, false))[..n - 1] == seq(n - 1, _ => Shard([], 0, false, false));
      assert seq(n, _ => Waiting)[..n - 1] == seq(n - 1, _ => Waiting);
    }
  }

  // ---- streams over an update ----

  lemma OnlyPush(items: seq<Observation>, o: Observation, s: u128)
    ensures Only(items + [o], s) == if o.source == s then Only(items, s) + [o] else Only(items, s)
  {
    Ordering.FilterAppend(items, o, From(s));
  }

  lemma {:induction false} OnlyAppend(a: seq<Observation>, b: seq<Observation>, s: u128)
    ensures Only(a + b, s) == Only(a, s) + Only(b, s)
  {
    if b == [] {
      assert a + b == a;
    } else {
      var front, last := b[..|b| - 1], b[|b| - 1];
      hide Only;
      OnlyAppend(a, front, s);
      OnlyPush(a + front, last, s);
      OnlyPush(front, last, s);
      assert a + b == a + front + [last] && b == front + [last];
      Regroup(Only(a, s), Only(front, s), [last]);
    }
  }

  lemma {:induction false} OnlyNone(items: seq<Observation>, s: u128)
    requires forall o :: o in items ==> o.source != s
    ensures Only(items, s) == []
  {
    if items != [] {
      OnlyNone(items[..|items| - 1], s);
    }
  }

  lemma OnlyOne(o: Observation, s: u128)
    ensures Only([o], s) == if o.source == s then [o] else []
  {
    OnlyPush([], o, s);
    assert [] + [o] == [o];
  }

  lemma NothingFrom(s: u128)
    ensures Only([], s) == []
  {
  }

  lemma ArrivalsPush(items: seq<Observation>, instants: seq<i64>, o: Observation, now: i64)
    requires |items| == |instants|
    ensures Arrivals(items + [o], instants + [now]) == Arrivals(items, instants) + [Observatories.Arrival(o, now)]
  {
  }

  // ---- each step is safe ----

  lemma InitialIsSafe(p: Params)
    requires p.workers > 0
    ensures Safe(p, Initial(p))
  {
    hide ShardFor, Only;
    NothingQueued(p.workers);
    forall s ensures InOrder(p, Initial(p), s) {
      NothingFrom(s);
    }
    assert Arrivals([], []) == [];
  }

  lemma SubmitConserved(p: Params, st: State, o: Observation)
    requires WellShaped(p, st) && Conserved(st)
    ensures Conserved(SubmitStep(p, st, o))
  {
    hide ShardFor, QueuedTotal, BusyTotal;
    var k := ShardFor(o.source, p.workers);
    var queue := st.shards[k].queue + [o];
    QueuedUpdate(st.shards, k, st.shards[k].(queue := queue, peak := Max(st.shards[k].peak, |queue|)));
  }

  lemma SubmitInOrder(p: Params, st: State, o: Observation, s: u128)
    requires WellShaped(p, st) && Safe(p, st)
    ensures InOrder(p, SubmitStep(p, st, o), s)
  {
    hide ShardFor, Conserved, Arrivals, Only;
    var k := ShardFor(o.source, p.workers);
    var after := SubmitStep(p, st, o);
    assert InOrder(p, st, s);
    OnlyPush(st.enqueued, o, s);
    OnlyPush(st.shards[k].queue, o, s);
    if after.enqueued != st.enqueued && o.source == s {
      assert ShardKept(p, st, k);
      assert st.workers[k] != Exited;
      OnlyNone(st.dropped, s);
    }
  }

  lemma SubmitKept(p: Params, st: State, o: Observation, i: nat)
    requires WellShaped(p, st) && i < p.workers && ShardKept(p, st, i)
    ensures ShardKept(p, SubmitStep(p, st, o), i)
  {
    hide ShardFor;
  }

  lemma SubmitIsSafe(p: Params, st: State, o: Observation)
    requires WellShaped(p, st) && Safe(p, st)
    ensures Safe(p, SubmitStep(p, st, o))
  {
    hide ShardFor, Conserved, InOrder, ShardKept, Arrivals;
    var after := SubmitStep(p, st, o);
    forall s ensures InOrder(p, after, s) {
      SubmitInOrder(p, st, o, s);
    }
    forall i | 0 <= i < p.workers ensures ShardKept(p, after, i) {
      SubmitKept(p, st, o, i);
    }
    SubmitConserved(p, st, o);
  }

  lemma TakeConserved(p: Params, st: State, i: nat)
    requires WellShaped(p, st) && Enabled(p, st, Take(i)) && Conserved(st)
    ensures Conserved(TakeStep(p, st, i))
  {
    hide QueuedTotal, BusyTotal;
    var shard, after := st.shards[i], TakeStep(p, st, i);
    QueuedUpdate(st.shards, i, after.shards[i]);
    BusyUpdate(st.workers, i, after.workers[i]);
    assert st.shards[i := shard] == st.shards;
  }

  lemma TakeInOrder(p: Params, st: State, i: nat, s: u128)
    requires WellShaped(p, st) && Enabled(p, st, Take(i)) && Safe(p, st)
    ensures InOrder(p, TakeStep(p, st, i), s)
  {
    hide ShardFor, Conserved, Arrivals, Only;
    var shard, after, k := st.shards[i], TakeStep(p, st, i), ShardFor(s, p.workers);
    assert InOrder(p, st, s);
    assert ShardKept(p, st, i);
    NothingFrom(s);
    if shard.discard && shard.stopping {
      OnlyAppend(st.dropped, shard.queue, s);
      if k == i {
        OnlyNone(st.dropped, s);
      } else {
        OnlyNone(shard.queue, s);
      }
    } else if shard.queue != [] {
      assert shard.queue == [shard.queue[0]] + shard.queue[1..];
      OnlyAppend([shard.queue[0]], shard.queue[1..], s);
    }
  }

  lemma TakeKept(p: Params, st: State, i: nat, j: nat)
    requires WellShaped(p, st) && Enabled(p, st, Take(i)) && j < p.workers && ShardKept(p, st, i) && ShardKept(p, st, j)
    ensures ShardKept(p, TakeStep(p, st, i), j)
  {
    hide ShardFor;
  }

  lemma TakeIsSafe(p: Params, st: State, i: nat)
    requires WellShaped(p, st) && Enabled(p, st, Take(i)) && Safe(p, st)
    ensures Safe(p, TakeStep(p, st, i))
  {
    hide ShardFor, Conserved, InOrder, ShardKept, Arrivals;
    var after := TakeStep(p, st, i);
    forall s ensures InOrder(p, after, s) {
      TakeInOrder(p, st, i, s);
    }
    forall j | 0 <= j < p.workers ensures ShardKept(p, after, j) {
      TakeKept(p, st, i, j);
    }
    TakeConserved(p, st, i);
  }

  lemma IngestInOrder(p: Params, st: State, i: nat, now: i64, s: u128)
    requires WellShaped(p, st) && Enabled(p, st, IngestItem(i, now)) && InOrder(p, st, s) && ShardKept(p, st, i)
    ensures InOrder(p, IngestStep(p, st, i, now), s)
  {
    hide ShardFor, Only, Observatories.Ingest;
    var o := st.workers[i].item;
    OnlyPush(st.ingested, o, s);
    OnlyOne(o, s);
    NothingFrom(s);
  }

  lemma IngestIsSafe(p: Params, st: State, i: nat, now: i64)
    requires WellShaped(p, st) && Enabled(p, st, IngestItem(i, now)) && Safe(p, st)
    ensures Safe(p, IngestStep(p, st, i, now))
  {
    hide ShardFor, InOrder, QueuedTotal, BusyTotal, Arrivals, Observatories.Ingest;
    var o, after := st.workers[i].item, IngestStep(p, st, i, now);
    assert ShardKept(p, st, i);
    forall s ensures InOrder(p, after, s) {
      IngestInOrder(p, st, i, now, s);
    }
    forall j | 0 <= j < p.workers ensures ShardKept(p, after, j) {
      assert ShardKept(p, st, j);
    }
    BusyUpdate(st.workers, i, after.workers[i]);
    ArrivalsPush(st.ingested, st.instants, o, now);
    Interleaving.RunStep(p.cfg, p.digest, p.epoch, p.start, Arrivals(st.ingested, st.instants), Observatories.Arrival(o, now));
  }

  lemma CountIsSafe(p: Params, st: State, i: nat)
    requires WellShaped(p, st) && Enabled(p, st, CountItem(i)) && Safe(p, st)
    ensures Safe(p, Next(p, st, CountItem(i)))
  {
    hide ShardFor, QueuedTotal, BusyTotal, Arrivals, Only;
    var after := Next(p, st, CountItem(i));
    forall s ensures InOrder(p, after, s) {
      assert InOrder(p, st, s);
    }
    forall j | 0 <= j < p.workers ensures ShardKept(p, after, j) {
      assert ShardKept(p, st, j);
    }
    BusyUpdate(st.workers, i, Waiting);
  }

  lemma FlagsAreSafe(p: Params, st: State, i: nat, mode: bool)
    requires WellShaped(p, st) && i < p.workers && Safe(p, st)
    ensures Safe(p, st.(shards := st.shards[i := st.shards[i].(stopping := true, discard := mode)]))
  {
    hide ShardFor, QueuedTotal, BusyTotal, Arrivals, Only;
    var after := st.(shards := st.shards[i := st.shards[i].(stopping := true, discard := mode)]);
    forall s ensures InOrder(p, after, s) {
      assert InOrder(p, st, s);
    }
    forall j | 0 <= j < p.workers ensures ShardKept(p, after, j) {
      assert ShardKept(p, st, j);
    }
    QueuedUpdate(st.shards, i, after.shards[i]);
  }

  lemma NextIsSafe(p: Params, st: State, a: Action)
    requires WellShaped(p, st) && Enabled(p, st, a) && Safe(p, st)
    ensures Safe(p, Next(p, st, a))
  {
    match a
    case Submit(o) => SubmitIsSafe(p, st, o);
    case CountSubmit => CountSubmitIsSafe(p, st);
    case Take(i) => TakeIsSafe(p, st, i);
    case IngestItem(i, now) => IngestIsSafe(p, st, i, now);
    case CountItem(i) => CountIsSafe(p, st, i);
    case Cancel(i) => FlagsAreSafe(p, st, i, true);
    case Stop(i, mode) => FlagsAreSafe(p, st, i, mode);
    case Join => JoinIsSafe(p, st);
  }

  lemma CountSubmitIsSafe(p: Params, st: State)
    requires WellShaped(p, st) && st.uncounted > 0 && Safe(p, st)
    ensures Safe(p, Next(p, st, CountSubmit))
  {
    hide ShardFor, QueuedTotal, BusyTotal, Arrivals, Only;
    var after := Next(p, st, CountSubmit);
    forall s ensures InOrder(p, after, s) {
      assert InOrder(p, st, s);
    }
    forall j | 0 <= j < p.workers ensures ShardKept(p, after, j) {
      assert ShardKept(p, st, j);
    }
  }

  lemma JoinIsSafe(p: Params, st: State)
    requires WellShaped(p, st) && Safe(p, st)
    ensures Safe(p, st.(running := false))
  {
    hide ShardFor, QueuedTotal, BusyTotal, Arrivals, Only;
    var after := st.(running := false);
    forall s ensures InOrder(p, after, s) {
      assert InOrder(p, st, s);
    }
    forall j | 0 <= j < p.workers ensures ShardKept(p, after, j) {
      assert ShardKept(p, st, j);
    }
  }

  /** Over all schedules, in every state: per-source order, queue bounds, conservation of every observation,
      and an engine state that is a run over what was ingested. */
  lemma {:induction false} EveryStateIsSafe(p: Params, schedule: seq<Action>)
    requires p.workers > 0
    ensures Safe(p, Exec(p, schedule))
  {
    hide Safe, Next, Enabled;
    if schedule == [] {
      InitialIsSafe(p);
    } else {
      var before := Exec(p, schedule[..|schedule| - 1]);
      EveryStateIsSafe(p, schedule[..|schedule| - 1]);
      if Enabled(p, before, schedule[|schedule| - 1]) {
        NextIsSafe(p, before, schedule[|schedule| - 1]);
      }
    }
  }

  lemma CountsWhatCame(p: Params, st: State)
    requires WellShaped(p, st) && Safe(p, st)
    ensures st.counters.submitted + st.uncounted == |st.enqueued|
  {
  }

  /** What was ingested of a source is always the front of what was enqueued of it. */
  lemma IngestedFirst(p: Params, st: State, s: u128)
    requires WellShaped(p, st) && Safe(p, st)
    ensures |Only(st.ingested, s)| <= |Only(st.enqueued, s)|
    ensures Only(st.ingested, s) == Only(st.enqueued, s)[..|Only(st.ingested, s)|]
    ensures |st.instants| == |st.ingested|
    ensures st.evidence == Interleaving.Run(p.cfg, p.digest, p.epoch, p.start, Arrivals(st.ingested, st.instants))
  {
    hide Only, Interleaving.Run, Arrivals, ShardFor;
    assert InOrder(p, st, s);
  }

  // ---- shutdown ----

  predicate Drained(p: Params, st: State)
    requires WellShaped(p, st)
  {
    forall i :: 0 <= i < p.workers ==> st.workers[i] == Exited
  }

  /** No step of the schedule sets a discard flag: no cancel, and every shutdown drains. */
  predicate OnlyDrains(schedule: seq<Action>) {
    forall i :: 0 <= i < |schedule| ==> !schedule[i].Cancel? && (schedule[i].Stop? ==> !schedule[i].discardMode)
  }

  ghost predicate NoDiscards(p: Params, st: State)
    requires WellShaped(p, st)
  {
    st.dropped == [] && forall i :: 0 <= i < p.workers ==> !st.shards[i].discard
  }

  lemma {:induction false} DrainsNeverDiscard(p: Params, schedule: seq<Action>)
    requires p.workers > 0 && OnlyDrains(schedule)
    ensures NoDiscards(p, Exec(p, schedule))
  {
    hide ShardFor, Observatories.Ingest;
    if schedule != [] {
      var front, a := schedule[..|schedule| - 1], schedule[|schedule| - 1];
      DrainsNeverDiscard(p, front);
      assert !a.Cancel? && (a.Stop? ==> !a.discardMode);
    }
  }

  /** After a shutdown every observation is accounted for; and if nothing ever asked for discarding,
      everything that was enqueued has been ingested, each source's own in the order it was enqueued. */
  lemma ShutdownAccounts(p: Params, schedule: seq<Action>)
    requires p.workers > 0 && Drained(p, Exec(p, schedule))
    ensures var st := Exec(p, schedule);
            && |st.enqueued| == Outcomes(st.counters) + st.counters.discarded
            && (OnlyDrains(schedule) ==> |st.enqueued| == Outcomes(st.counters))
            && (OnlyDrains(schedule) ==> forall s :: Only(st.ingested, s) == Only(st.enqueued, s))
  {
    hide Exec, ShardFor, Only, Arrivals, QueuedTotal, BusyTotal;
    var st := Exec(p, schedule);
    EveryStateIsSafe(p, schedule);
    forall i | 0 <= i < p.workers ensures st.shards[i].queue == [] {
      assert ShardKept(p, st, i);
    }
    AllIdle(st.shards, st.workers);
    if OnlyDrains(schedule) {
      DrainsNeverDiscard(p, schedule);
      forall s ensures Only(st.ingested, s) == Only(st.enqueued, s) {
        assert InOrder(p, st, s);
        NothingFrom(s);
      }
    }
  }

  lemma {:induction false} AllIdle(shards: seq<Shard>, workers: seq<Worker>)
    requires |shards| == |workers|
    requires forall i :: 0 <= i < |shards| ==> shards[i].queue == [] && workers[i] == Exited
    ensures QueuedTotal(shards) == 0 && BusyTotal(workers) == 0
  {
    if shards != [] {
      AllIdle(shards[..|shards| - 1], workers[..|workers| - 1]);
    }
  }

  // ---- the view does not depend on the schedule ----

  /** When the observations of s were ingested, in order. */
  function InstantsOf(items: seq<Observation>, instants: seq<i64>, s: u128): (r: seq<i64>)
    requires |items| == |instants|
    ensures |r| == |Only(items, s)|
  {
    if items == [] then []
    else
      var n := |items| - 1;
      var before := InstantsOf(items[..n], instants[..n], s);
      if items[n].source == s then before + [instants[n]] else before
  }

  lemma {:induction false} ArrivalStreams(items: seq<Observation>, instants: seq<i64>, s: u128)
    requires |items| == |instants|
    ensures Interleaving.Stream(Arrivals(items, instants), s) == Arrivals(Only(items, s), InstantsOf(items, instants, s))
  {
    if items == [] {
      assert Arrivals([], []) == [];
    } else {
      hide Arrivals, Interleaving.Stream, Only;
      var n := |items| - 1;
      var front, o, before, now := items[..n], items[n], instants[..n], instants[n];
      ArrivalStreams(front, before, s);
      assert items == front + [o] && instants == before + [now];
      ArrivalsPush(front, before, o, now);
      OnlyPush(front, o, s);
      Interleaving.StreamStep(Arrivals(front, before), Observatories.Arrival(o, now), s);
      if o.source == s {
        ArrivalsPush(Only(front, s), InstantsOf(front, before, s), o, now);
      }
    }
  }

  /** Two schedules of the same pipeline that drain without discarding, and in which every source enqueued
      the same observations in the same order and had each of them received at the same instant, end in the
      same published view, whatever the threads did. */
  lemma SchedulesShowOneView(p: Params, policy: Snapshots.Policy, derive: Text -> u128, count: u32, evaluation: i64,
                             one: seq<Action>, two: seq<Action>, pool: set<Observation>)
    requires p.workers > 0 && OnlyDrains(one) && OnlyDrains(two)
    requires Drained(p, Exec(p, one)) && Drained(p, Exec(p, two))
    requires forall s :: Only(Exec(p, one).enqueued, s) == Only(Exec(p, two).enqueued, s)
    requires SameClock(p, one, two)
    requires !p.cfg.strictGeneration && Runs.Keyed(p.start)
    requires var w := IngestedBy(p, one);
             && Capacity.BoundsIdle(p.cfg, p.digest, p.epoch, p.start, w)
             && Interleaving.Drawn(w, pool) && Interleaving.DigestsSeparate(p.digest, p.start, pool)
    requires ViewStability.OneRecordPerDigest(p.digest, Exec(p, one).evidence.records)
    ensures var q1 := Runs.RequestOf(p.cfg.fabric, policy, Exec(p, one).evidence, evaluation, p.epoch, count);
            var q2 := Runs.RequestOf(p.cfg.fabric, policy, Exec(p, two).evidence, evaluation, p.epoch, count);
            Snapshots.Build(p.digest, derive, q1) == Snapshots.Build(p.digest, derive, q2)
  {
    hide Exec, Only, Arrivals, Snapshots.Build, Interleaving.Run, Capacity.BoundsIdle, Interleaving.Drawn, Interleaving.DigestsSeparate,
      ViewStability.OneRecordPerDigest, Runs.Keyed, Runs.RequestOf, Conserved, InOrder, ShardKept, Interleaving.Stream, InstantsOf;
    var a, b := Exec(p, one), Exec(p, two);
    EveryStateIsSafe(p, one);
    EveryStateIsSafe(p, two);
    var w1, w2 := IngestedBy(p, one), IngestedBy(p, two);
    ShutdownAccounts(p, one);
    ShutdownAccounts(p, two);
    forall s ensures Interleaving.Stream(w1, s) == Interleaving.Stream(w2, s) {
      ArrivalStreams(a.ingested, a.instants, s);
      ArrivalStreams(b.ingested, b.instants, s);
    }
    Runs.InterleavingsShowOneView(p.cfg, policy, p.digest, derive, p.epoch, count, evaluation, p.start, w1, w2, pool);
  }

  /** Everything a schedule ingests, with the instants at which it does. */
  function IngestedBy(p: Params, schedule: seq<Action>): seq<Observatories.Arrival>
    requires p.workers > 0
  {
    EveryStateIsSafe(p, schedule);
    Arrivals(Exec(p, schedule).ingested, Exec(p, schedule).instants)
  }

  /** The n-th observation of a source is received at the same instant in both. */
  ghost predicate SameClock(p: Params, one: seq<Action>, two: seq<Action>)
    requires p.workers > 0
  {
    EveryStateIsSafe(p, one);
    EveryStateIsSafe(p, two);
    var a, b := Exec(p, one), Exec(p, two);
    forall s :: InstantsOf(a.ingested, a.instants, s) == InstantsOf(b.ingested, b.instants, s)
  }

  // ---- the object, one method per block under a lock ----

  class IngestPipeline {
    const params: Params
    var shards: seq<Shard>
    var workers: seq<Worker>
    var counters: Counters
    var uncounted: nat
    var running: bool
    var evidence: Observatories.Evidence
    ghost var enqueued: seq<Observation>
    ghost var ingested: seq<Observation>
    ghost var instants: seq<i64>
    ghost var dropped: seq<Observation>

    ghost function View(): State
      reads this
    {
      State(shards, workers, counters, uncounted, running, evidence, enqueued, ingested, instants, dropped)
    }

    /** Whatever holds in every state of every schedule. */
    ghost predicate Valid()
      reads this
    {
      WellShaped(params, View()) && Safe(params, View())
    }

    constructor (p: Params)
      requires p.workers > 0
      ensures Valid() && params == p && View() == Initial(p)
    {
      params := p;
      shards, workers := seq(p.workers, _ => Shard([], 0, false, false)), seq(p.workers, _ => Waiting);
      counters, uncounted, running, evidence := Counters(0, 0, 0, 0, 0, 0, 0), 0, true, p.start;
      enqueued, ingested, instants, dropped := [], [], [], [];
      new;
      InitialIsSafe(p);
    }

    /** submit, from taking the shard's lock to releasing it. */
    method SubmitBlock(o: Observation) returns (r: Result<()>)
      requires Valid()
      modifies this
      ensures Valid() && View() == old(Next(params, View(), Submit(o)))
      ensures r.Ok? <==> enqueued == old(enqueued) + [o]
      ensures r.Err? ==> r.code == (if old(shards)[ShardFor(o.source, params.workers)].stopping then ShuttingDown else QueueFull)
    {
      hide Safe, ShardFor;
      NextIsSafe(params, View(), Submit(o));
      var k := ShardFor(o.source, params.workers);
      var shard := shards[k];
      if shard.stopping {
        return Err(ShuttingDown);
      }
      if |shard.queue| >= params.capacity {
        counters := counters.(queueFull := counters.queueFull + 1);
        return Err(QueueFull);
      }
      shard := shard.(queue := shard.queue + [o]);
      shards := shards[k := shard.(peak := Max(shard.peak, |shard.queue|))];
      uncounted := uncounted + 1;
      enqueued := enqueued + [o];
      r := Ok(());
    }

    /** The submitter's second lock. Nothing moves, and what is counted or still to be counted is always
        what was enqueued. */
    method CountSubmitBlock()
      requires Valid() && uncounted > 0
      modifies this
      ensures Valid() && View() == old(Next(params, View(), CountSubmit))
      ensures shards == old(shards) && workers == old(workers) && evidence == old(evidence) && enqueued == old(enqueued)
      ensures counters.submitted == |enqueued| - uncounted && counters.submitted > old(counters).submitted
    {
      hide Safe;
      NextIsSafe(params, View(), CountSubmit);
      CountsWhatCame(params, View());
      counters := counters.(submitted := counters.submitted + 1);
      uncounted := uncounted - 1;
    }

    /** The worker's critical section after its wait: discard and leave, leave, or take the front item. */
    method TakeBlock(index: nat)
      requires Valid() && Enabled(params, View(), Take(index))
      modifies this
      ensures Valid() && View() == old(Next(params, View(), Take(index)))
    {
      hide Safe;
      NextIsSafe(params, View(), Take(index));
      var shard := shards[index];
      if shard.discard && shard.stopping {
        var amount := |shard.queue|;
        dropped := dropped + shard.queue;
        shards := shards[index := shard.(queue := [])];
        if amount > 0 {
          counters := counters.(discarded := counters.discarded + amount);
        }
        workers := workers[index := Exited];
        return;
      }
      if shard.queue == [] {
        workers := workers[index := Exited];
        return;
      }
      workers := workers[index := Holding(shard.queue[0])];
      shards := shards[index := shard.(queue := shard.queue[1..])];
    }

    /** Under the engine's lock: the item the worker holds is the next one of its source, in the order in which
        they were enqueued, and the engine has run over everything ingested so far. */
    method IngestBlock(index: nat, now: i64)
      requires Valid() && Enabled(params, View(), IngestItem(index, now))
      modifies this
      ensures Valid() && View() == old(Next(params, View(), IngestItem(index, now)))
      ensures shards == old(shards) && counters == old(counters) && workers[index].Counting? && instants == old(instants) + [now]
      ensures |instants| == |ingested|
      ensures evidence == Interleaving.Run(params.cfg, params.digest, params.epoch, params.start, Arrivals(ingested, instants))
      ensures var o := old(workers)[index].item;
              && Only(ingested, o.source) == Only(old(ingested), o.source) + [o]
              && |Only(ingested, o.source)| <= |Only(enqueued, o.source)|
              && Only(ingested, o.source) == Only(enqueued, o.source)[..|Only(ingested, o.source)|]
    {
      hide Safe, Observatories.Ingest, Interleaving.Run, Only, Arrivals;
      NextIsSafe(params, View(), IngestItem(index, now));
      IngestedFirst(params, Next(params, View(), IngestItem(index, now)), workers[index].item.source);
      OnlyPush(ingested, workers[index].item, workers[index].item.source);
      var o := workers[index].item;
      var (e, out) := Observatories.Ingest(params.cfg, params.digest, params.epoch, evidence, Observatories.Arrival(o, now));
      evidence := e;
      workers := workers[index := Counting(out.disposition)];
      ingested := ingested + [o];
      instants := instants + [now];
    }

    method CountItemBlock(index: nat)
      requires Valid() && Enabled(params, View(), CountItem(index))
      modifies this
      ensures Valid() && View() == old(Next(params, View(), CountItem(index)))
    {
      hide Safe;
      NextIsSafe(params, View(), CountItem(index));
      match workers[index].disposition {
        case Accepted => counters := counters.(accepted := counters.accepted + 1);
        case Duplicate => counters := counters.(duplicates := counters.duplicates + 1);
        case Fenced => counters := counters.(fenced := counters.fenced + 1);
        case Refused => counters := counters.(rejected := counters.rejected + 1);
      }
      workers := workers[index := Waiting];
    }

    /** One iteration of cancel: the shard takes nothing more, its queue is not touched yet, and a worker that
        is waiting on it wakes up, throws the queue away and leaves. */
    method CancelBlock(index: nat)
      requires Valid() && index < params.workers
      modifies this
      ensures Valid() && View() == old(Next(params, View(), Cancel(index)))
      ensures forall i :: 0 <= i < params.workers ==> shards[i].queue == old(shards)[i].queue
      ensures forall o: Observation :: ShardFor(o.source, params.workers) == index ==> Next(params, View(), Submit(o)) == View()
      ensures workers[index] == Waiting ==>
                && Enabled(params, View(), Take(index))
                && Next(params, View(), Take(index)).workers[index] == Exited
                && Next(params, View(), Take(index)).dropped == dropped + shards[index].queue
    {
      hide Safe, ShardFor;
      NextIsSafe(params, View(), Cancel(index));
      shards := shards[index := shards[index].(stopping := true, discard := true)];
    }

    /** One iteration of shutdown's first loop: the shard takes nothing more and a worker that is waiting on it
        wakes up; unless it is told to discard, it goes on with the front of the queue. */
    method StopBlock(index: nat, discardMode: bool)
      requires Valid() && index < params.workers
      modifies this
      ensures Valid() && View() == old(Next(params, View(), Stop(index, discardMode)))
      ensures forall i :: 0 <= i < params.workers ==> shards[i].queue == old(shards)[i].queue
      ensures forall o: Observation :: ShardFor(o.source, params.workers) == index ==> Next(params, View(), Submit(o)) == View()
      ensures workers[index] == Waiting ==>
                && Enabled(params, View(), Take(index))
                && (!discardMode && shards[index].queue != [] ==>
                      Next(params, View(), Take(index)).workers[index] == Holding(shards[index].queue[0]))
                && (!discardMode ==> Next(params, View(), Take(index)).dropped == dropped)
    {
      hide Safe, ShardFor;
      NextIsSafe(params, View(), Stop(index, discardMode));
      shards := shards[index := shards[index].(stopping := true, discard := discardMode)];
    }
  }
}
