/** Short runs from nothing that show where the engine does less than one might expect: what a restart
    changes, what a full window lets in again, and what order decides under strict fencing
    (src/observatory.cpp). */
module Heartbeats {
  import opened Bytes
  import opened Observations
  import opened Observatories
  import opened Interleaving
  import opened Restart
  import opened Rebuilt
  import opened Verdicts
  import Capacity
  import Ids
  import Ordering
  import Replay
  import Runs

  // ---- observations without claims ----

  /** A source may say that it is there and nothing else. */
  function Beat(cfg: Config, s: u128, incarnation: u128, sequence: u64, generation: u64, epoch: u64, now: i64): Observation {
    Observation(cfg.schema, cfg.fabric, s, incarnation, sequence, generation, epoch, now, [], [], [])
  }

  /** Sources are registered when they are first heard of. */
  predicate Welcoming(cfg: Config) { cfg.fabric != 0 && cfg.schema != [] && cfg.autoRegister }

  /** What the fences make of it. */
  function VerdictOn(cfg: Config, digest: Observation -> Digest, e: Evidence, o: Observation): Verdict {
    CheckLineage(cfg, SourceAt(e.sources, o.source), Seen(e.incarnations, o.source), Indexed(digest, e.records, digest(o)), HighOf(cfg, e), o)
  }

  lemma BeatInput(cfg: Config, o: Observation, now: i64)
    requires Welcoming(cfg) && o.source != 0 && o.incarnation != 0 && o.sequence != 0 && o.observedAt <= now
    requires o == Beat(cfg, o.source, o.incarnation, o.sequence, o.generation, o.epoch, o.observedAt)
    ensures CheckInput(cfg, o, now) == Pass
  {
    assert CheckMetaSizes(o.metadata, cfg.limits).Ok? && CheckClaims(o.claims, cfg.limits).Ok?;
  }

  lemma BeatAdmitted(cfg: Config, sources: map<u128, SourceState>, o: Observation)
    requires Welcoming(cfg) && o.source != 0 && (o.source in sources || |sources| < cfg.maxSources)
    ensures var r := Admit(cfg, sources, o);
            && r.Ok? && r.value.Keys == sources.Keys + {o.source}
            && Runs.SameLineage(r.value[o.source], SourceAt(sources, o.source))
            && forall s :: s in sources ==> r.value[s] == sources[s]
  {
    if o.source !in sources {
      Ids.IdTextLength(Ascii("src"), o.source);
      assert |Ascii("src")| == 3;
      assert Ordering.Sort<Text>([], TextLe) == [];
    }
  }

  lemma SameLineageSameVerdict(cfg: Config, x: SourceState, y: SourceState, seen: seq<u128>, indexed: bool, high: u64, o: Observation)
    requires Runs.SameLineage(x, y)
    ensures CheckLineage(cfg, x, seen, indexed, high, o) == CheckLineage(cfg, y, seen, indexed, high, o)
  {
  }

  /** The outcome is the verdict, and acceptance moves the lineage onto the observation. */
  ghost predicate Answers(cfg: Config, digest: Observation -> Digest, epoch: u64, e: Evidence, a: Arrival, v: Verdict, e1: Evidence, out: Outcome) {
    var o, src := a.observation, SourceAt(e.sources, a.observation.source);
    && (v == Pass <==> out.disposition == Accepted)
    && (v == Observatories.Replay <==> out.disposition == Duplicate)
    && (v.Refuse? ==> out.disposition == Refused && out.code == v.code)
    && e1.sources.Keys == e.sources.Keys + {o.source}
    && (v == Pass ==>
          && Runs.Lineage(e1.sources[o.source], o)
          && e1.records == Evict(digest, e.records + [NewRecord(a, epoch)], cfg.maxEvidence)
          && e1.evicted == e.evicted + DropCount(|e.records| + 1, cfg.maxEvidence)
          && Seen(e1.incarnations, o.source)
             == if src.incarnation == o.incarnation then Seen(e.incarnations, o.source)
                else PushWindow(Seen(e.incarnations, o.source), o.incarnation, cfg.maxIncarnations))
    && (v != Pass ==> e1.records == e.records && e1.evicted == e.evicted)
  }

  lemma KnownAnswers(cfg: Config, digest: Observation -> Digest, epoch: u64, e: Evidence, a: Arrival)
    requires a.observation.source in e.sources && a.observation.claims == []
    ensures var (e1, out) := IngestKnown(cfg, digest, epoch, e, a);
            Answers(cfg, digest, epoch, e, a, VerdictOn(cfg, digest, e, a.observation), e1, out)
  {
    hide CheckLineage, Indexed, HighWater, Evict, DropCount, PushWindow, RecordRejection;
    assert a.observation.claims == [];
  }

  lemma BeatAnswers(cfg: Config, digest: Observation -> Digest, epoch: u64, e: Evidence, a: Arrival)
    requires var o := a.observation;
             && Welcoming(cfg) && o.source != 0 && o.incarnation != 0 && o.sequence != 0 && o.observedAt <= a.receivedAt
             && o == Beat(cfg, o.source, o.incarnation, o.sequence, o.generation, o.epoch, o.observedAt)
             && (o.source in e.sources || |e.sources| < cfg.maxSources)
    ensures var (e1, out) := Ingest(cfg, digest, epoch, e, a);
            Answers(cfg, digest, epoch, e, a, VerdictOn(cfg, digest, e, a.observation), e1, out)
  {
    hide CheckLineage, Indexed, HighWater, Evict, DropCount, PushWindow, RecordRejection, CheckInput, Admit, IngestKnown;
    var o := a.observation;
    BeatInput(cfg, o, a.receivedAt);
    BeatAdmitted(cfg, e.sources, o);
    var m := Admit(cfg, e.sources, o).value;
    KnownAnswers(cfg, digest, epoch, e.(sources := m), a);
    SameLineageSameVerdict(cfg, m[o.source], SourceAt(e.sources, o.source), Seen(e.incarnations, o.source),
                           Indexed(digest, e.records, digest(o)), HighOf(cfg, e), o);
  }

  // ---- a boot that left the window comes back ----

  /** One observation from each of n boots, all in one generation and epoch. */
  function Reboots(cfg: Config, s: u128, n: nat, now: i64): (w: seq<Arrival>)
    requires n < U64_MODULUS
    ensures |w| == n && forall i :: 0 <= i < n ==> w[i] == Arrival(Beat(cfg, s, i + 1, 1, 0, 0, now), now)
  {
    seq(n, i requires 0 <= i < n => Arrival(Beat(cfg, s, i + 1, 1, 0, 0, now), now))
  }

  function UpTo(n: nat): (r: seq<u128>)
    requires n < U64_MODULUS
    ensures |r| == n && forall i :: 0 <= i < n ==> r[i] == i + 1
  {
    seq(n, i requires 0 <= i < n => i + 1)
  }

  lemma {:induction false} LevelHigh(rs: seq<ObservationRecord>)
    requires forall r :: r in rs ==> r.observation.generation == 0
    ensures HighWater(rs) == 0
  {
    if rs != [] {
      assert rs[|rs| - 1] in rs && forall r :: r in rs[..|rs| - 1] ==> r in rs;
      LevelHigh(rs[..|rs| - 1]);
    }
  }

  ghost predicate Rebooted(cfg: Config, epoch: u64, s: u128, n: nat, now: i64, e: Evidence)
    requires n < U64_MODULUS
  {
    && (n == 0 ==> e.sources == map[])
    && (n > 0 ==> e.sources.Keys == {s} && Runs.Lineage(e.sources[s], Beat(cfg, s, n, 1, 0, 0, now)))
    && Seen(e.incarnations, s) == Suffix(UpTo(n), cfg.maxIncarnations)
    && e.records == Stamp(Reboots(cfg, s, n, now), epoch)
  }

  /** A boot that is neither current nor in the window gets in at the last generation and epoch. */
  lemma NewBootPasses(cfg: Config, digest: Observation -> Digest, e: Evidence, s: u128, boot: u128, n: nat, now: i64)
    requires SourceAt(e.sources, s).incarnation != boot && boot !in Seen(e.incarnations, s)
    requires SourceAt(e.sources, s).lastGeneration == 0 && SourceAt(e.sources, s).lastEpoch == 0
    requires forall r :: r in e.records ==> r.observation.generation == 0
    ensures VerdictOn(cfg, digest, e, Beat(cfg, s, boot, 1, 0, 0, now)) == Pass
  {
    hide Indexed, HighWater;
    LevelHigh(e.records);
  }

  lemma StampedLevel(cfg: Config, s: u128, n: nat, now: i64, epoch: u64)
    requires n < U64_MODULUS
    ensures forall r :: r in Stamp(Reboots(cfg, s, n, now), epoch) ==> r.observation.generation == 0
  {
  }

  lemma NotInWindow(n: nat, x: u128, k: nat)
    requires n < U64_MODULUS && (x > n || x + k <= n)
    ensures x !in Suffix(UpTo(n), k)
  {
  }

  lemma {:induction false} RebootsAccepted(cfg: Config, digest: Observation -> Digest, epoch: u64, s: u128, n: nat, now: i64)
    requires Welcoming(cfg) && s != 0 && cfg.maxSources >= 1 && n <= cfg.maxEvidence && n < 0x1_0000_0000_0000
    ensures Rebooted(cfg, epoch, s, n, now, Run(cfg, digest, epoch, EMPTY, Reboots(cfg, s, n, now)))
  {
    hide Ingest, Evict, DropCount, Suffix, VerdictOn, PushWindow;
    var w := Reboots(cfg, s, n, now);
    if n == 0 {
      assert Suffix<u128>([], cfg.maxIncarnations) == [] by { NoStarts(cfg.maxIncarnations); }
      assert UpTo(0) == [];
    } else {
      var front, a := Reboots(cfg, s, n - 1, now), w[n - 1];
      assert w[..n - 1] == front;
      RebootsAccepted(cfg, digest, epoch, s, n - 1, now);
      var mid := Run(cfg, digest, epoch, EMPTY, front);
      StampedLevel(cfg, s, n - 1, now, epoch);
      NotInWindow(n - 1, n, cfg.maxIncarnations);
      NewBootPasses(cfg, digest, mid, s, n, n, now);
      BeatAnswers(cfg, digest, epoch, mid, a);
      EvictNothing(cfg, digest, mid.records + [NewRecord(a, epoch)]);
      PushRecent(UpTo(n - 1), n, cfg.maxIncarnations);
      assert UpTo(n) == UpTo(n - 1) + [n];
      assert Stamp(w, epoch) == Stamp(front, epoch) + [NewRecord(a, epoch)];
    }
  }

  /** So whatever the window holds: after two more boots of one source than it has room for, the first one's
      observation, which is still retained, is accepted a second time, and then retained twice. */
  lemma ForgottenBootReturns(cfg: Config, digest: Observation -> Digest, epoch: u64, s: u128, now: i64, later: i64)
    requires Welcoming(cfg) && s != 0 && cfg.maxSources >= 1 && now <= later
    requires cfg.maxIncarnations < 0x1_0000_0000 && cfg.maxIncarnations + 3 <= cfg.maxEvidence
    ensures var n := cfg.maxIncarnations + 2;
            var w, again := Reboots(cfg, s, n, now), Arrival(Beat(cfg, s, 1, 1, 0, 0, now), later);
            var e := Run(cfg, digest, epoch, EMPTY, w);
            var (e1, out) := Ingest(cfg, digest, epoch, e, again);
            && NewRecord(w[0], epoch) in e.records && !Replay.Remembered(e, again.observation)
            && out.disposition == Accepted && e1 == Run(cfg, digest, epoch, EMPTY, w + [again])
            && |e1.records| == n + 1 && e1.records[0].observation == e1.records[n].observation == again.observation
  {
    hide Ingest, Evict, DropCount, Suffix, VerdictOn, PushWindow;
    var n := cfg.maxIncarnations + 2;
    var w, again := Reboots(cfg, s, n, now), Arrival(Beat(cfg, s, 1, 1, 0, 0, now), later);
    var e := Run(cfg, digest, epoch, EMPTY, w);
    RebootsAccepted(cfg, digest, epoch, s, n, now);
    StampedLevel(cfg, s, n, now, epoch);
    NotInWindow(n, 1, cfg.maxIncarnations);
    NewBootPasses(cfg, digest, e, s, 1, n, now);
    BeatAnswers(cfg, digest, epoch, e, again);
    EvictNothing(cfg, digest, e.records + [NewRecord(again, epoch)]);
    assert (w + [again])[..n] == w;
    assert e.records[0] == NewRecord(w[0], epoch);
  }

  // ---- what a restart changes ----

  lemma PairRun(cfg: Config, digest: Observation -> Digest, epoch: u64, e: Evidence, a: Arrival, b: Arrival)
    ensures Run(cfg, digest, epoch, e, [a, b]) == Ingest(cfg, digest, epoch, Ingest(cfg, digest, epoch, e, a).0, b).0
    ensures var first, second := Ingest(cfg, digest, epoch, e, a), Ingest(cfg, digest, epoch, Ingest(cfg, digest, epoch, e, a).0, b);
            first.1.disposition == second.1.disposition == Accepted ==>
              JournalOf(cfg, digest, epoch, e, [a, b]) == [NewRecord(a, epoch), NewRecord(b, epoch)]
  {
    hide Ingest;
    assert [a, b][..1] == [a] && [a][..0] == [];
    assert Run(cfg, digest, epoch, e, []) == e && JournalOf(cfg, digest, epoch, e, []) == [];
    assert Run(cfg, digest, epoch, e, [a]) == Ingest(cfg, digest, epoch, e, a).0;
    if Ingest(cfg, digest, epoch, e, a).1.disposition == Accepted {
      assert JournalOf(cfg, digest, epoch, e, [a]) == [NewRecord(a, epoch)];
    }
  }

  /** Two beats of one source are accepted one after the other. */
  lemma TwoBeats(cfg: Config, digest: Observation -> Digest, epoch: u64, a: Arrival, b: Arrival)
    requires Welcoming(cfg) && cfg.maxSources >= 1 && cfg.maxEvidence >= 2
    requires var x, y, now := a.observation, b.observation, a.receivedAt;
             && x.source == y.source != 0 && x.incarnation != 0 && y.incarnation != 0 && x.sequence == 1 && y.sequence != 0
             && b.receivedAt == now && x == Beat(cfg, x.source, x.incarnation, 1, 0, x.epoch, now)
             && y == Beat(cfg, x.source, y.incarnation, y.sequence, y.generation, y.epoch, now)
    requires Runs.Follows(a.observation, b.observation) && b.observation.generation <= cfg.maxGenerationAdvance
    ensures var live := Run(cfg, digest, epoch, EMPTY, [a, b]);
            && live.sources.Keys == {a.observation.source} && Runs.Lineage(live.sources[a.observation.source], b.observation)
            && live.records == [NewRecord(a, epoch), NewRecord(b, epoch)] == JournalOf(cfg, digest, epoch, EMPTY, [a, b])
            && Seen(live.incarnations, a.observation.source)
               == if a.observation.incarnation == b.observation.incarnation
                  then PushWindow([], a.observation.incarnation, cfg.maxIncarnations)
                  else PushWindow(PushWindow([], a.observation.incarnation, cfg.maxIncarnations), b.observation.incarnation, cfg.maxIncarnations)
  {
    hide Ingest, Evict, DropCount, PushWindow, JournalOf, Run, Indexed, VerdictOn;
    var s := a.observation.source;
    PairRun(cfg, digest, epoch, EMPTY, a, b);
    FirstBeat(cfg, digest, epoch, a);
    var mid := Ingest(cfg, digest, epoch, EMPTY, a).0;
    SecondPasses(cfg, digest, mid, a.observation, b.observation);
    BeatAnswers(cfg, digest, epoch, mid, b);
    EvictNothing(cfg, digest, [NewRecord(a, epoch)] + [NewRecord(b, epoch)]);
    assert [NewRecord(a, epoch)] + [NewRecord(b, epoch)] == [NewRecord(a, epoch), NewRecord(b, epoch)];
  }

  lemma FirstBeat(cfg: Config, digest: Observation -> Digest, epoch: u64, a: Arrival)
    requires Welcoming(cfg) && cfg.maxSources >= 1 && cfg.maxEvidence >= 2
    requires var x := a.observation;
             x.source != 0 && x.incarnation != 0 && x == Beat(cfg, x.source, x.incarnation, 1, 0, x.epoch, a.receivedAt)
    ensures var (mid, out) := Ingest(cfg, digest, epoch, EMPTY, a);
            && out.disposition == Accepted && mid.sources.Keys == {a.observation.source}
            && Runs.Lineage(mid.sources[a.observation.source], a.observation)
            && mid.records == [NewRecord(a, epoch)] && HighWater(mid.records) == 0
            && Seen(mid.incarnations, a.observation.source) == PushWindow([], a.observation.incarnation, cfg.maxIncarnations)
  {
    hide Ingest, Evict, DropCount, PushWindow, Indexed;
    BeatAnswers(cfg, digest, epoch, EMPTY, a);
    EvictNothing(cfg, digest, [] + [NewRecord(a, epoch)]);
    OneHigh(NewRecord(a, epoch));
  }

  lemma SecondPasses(cfg: Config, digest: Observation -> Digest, mid: Evidence, x: Observation, y: Observation)
    requires x.source == y.source && x.source in mid.sources && Runs.Lineage(mid.sources[x.source], x) && x.generation == 0
    requires HighWater(mid.records) == 0 && Seen(mid.incarnations, x.source) == PushWindow([], x.incarnation, cfg.maxIncarnations)
    requires Runs.Follows(x, y) && y.generation <= cfg.maxGenerationAdvance
    ensures VerdictOn(cfg, digest, mid, y) == Pass
  {
    hide Indexed, PushWindow;
    PushedOnly(x.incarnation, cfg.maxIncarnations);
  }

  lemma PushedOnly(x: u128, n: nat)
    ensures forall y :: y in PushWindow([], x, n) ==> y == x
  {
  }

  /** The engine opened on two records that are in recovery order. */
  lemma PairRebuilt(cfg: Config, restart: u64, r: ObservationRecord, q: ObservationRecord)
    requires r.observation.source == q.observation.source && RecoverLe(r, q)
    ensures var s, back := r.observation.source, Recovered(cfg, restart, [r, q]);
            && s in back.sources && back.sources[s] == RecoverSource(cfg, restart, RecoverSource(cfg, restart, FRESH_SOURCE, r), q)
            && Seen(back.incarnations, s) == FoldSeen(cfg, restart, [r, q])
            && InRecovery([r, q], s) == [r, q]
  {
    hide RecoverSource, Recovered, RecoverLe;
    var s := r.observation.source;
    Ordering.SortOfSorted([r, q], RecoverLe);
    assert [r, q][..1] == [r] && [r][..0] == [];
    assert Ordering.Filter([r], RecordOf(s)) == [r];
    RecoveredSource(cfg, restart, [r, q], s);
    assert FoldSource(cfg, restart, [r]) == RecoverSource(cfg, restart, FRESH_SOURCE, r);
  }

  function FallingEpoch(cfg: Config, s: u128, now: i64): seq<Arrival> {
    [Arrival(Beat(cfg, s, 1, 1, 0, 1, now), now), Arrival(Beat(cfg, s, 1, 2, 1, 0, now), now)]
  }

  /** A source moves on to its next generation and starts its epochs over. From then on it is up to date with the
      running engine, and stale for the one that is opened on the journal: what it says next is accepted
      there and refused here. */
  lemma RestartRefusesNextGeneration(cfg: Config, digest: Observation -> Digest, epoch: u64, s: u128, now: i64, restart: u64)
    requires Welcoming(cfg) && s != 0 && cfg.maxSources >= 1 && cfg.maxEvidence >= 2
    requires 1 <= cfg.maxGenerationAdvance && cfg.maxGenerationAdvance + 1 < U64_MODULUS
    ensures var w, next := FallingEpoch(cfg, s, now), Arrival(Beat(cfg, s, 1, 3, 1, 0, now), now);
            var live, back := Run(cfg, digest, epoch, EMPTY, w), Recovered(cfg, restart, JournalOf(cfg, digest, epoch, EMPTY, w));
            && s in live.sources && s in back.sources && !DecideAlike(cfg, digest, live, back, s)
            && Ingest(cfg, digest, epoch, live, next).1.disposition == Accepted
            && Ingest(cfg, digest, restart, back, next).1.disposition == Refused
            && Ingest(cfg, digest, restart, back, next).1.code == FencedStaleEpoch
  {
    hide Ingest, Run, JournalOf, Recovered, Evict, DropCount, PushWindow, DecideAlike, VerdictOn, FoldSeen, RecoverSource;
    var w, next := FallingEpoch(cfg, s, now), Arrival(Beat(cfg, s, 1, 3, 1, 0, now), now);
    TwoBeats(cfg, digest, epoch, w[0], w[1]);
    assert w == [w[0], w[1]];
    var live, back := Run(cfg, digest, epoch, EMPTY, w), Recovered(cfg, restart, JournalOf(cfg, digest, epoch, EMPTY, w));
    FallenEpoch(cfg, epoch, s, now, restart);
    PairHigh(NewRecord(w[0], epoch), NewRecord(w[1], epoch), restart);
    NextPasses(cfg, digest, live, s, now);
    NextIsStale(cfg, digest, back, s, now);
    BeatAnswers(cfg, digest, epoch, live, next);
    BeatAnswers(cfg, digest, restart, back, next);
    TellsApart(cfg, digest, live, back, next.observation);
  }

  lemma FallenEpoch(cfg: Config, epoch: u64, s: u128, now: i64, restart: u64)
    ensures var w := FallingEpoch(cfg, s, now);
            var rs := [NewRecord(w[0], epoch), NewRecord(w[1], epoch)];
            var back := Recovered(cfg, restart, rs);
            && s in back.sources && Runs.Lineage(back.sources[s], Beat(cfg, s, 1, 2, 1, 1, now))
            && back.records == RebornAll(rs, restart)
  {
    hide Recovered, FoldSeen;
    var w := FallingEpoch(cfg, s, now);
    PairRebuilt(cfg, restart, NewRecord(w[0], epoch), NewRecord(w[1], epoch));
    RecoveredRecords(cfg, restart, [NewRecord(w[0], epoch), NewRecord(w[1], epoch)]);
  }

  lemma NextPasses(cfg: Config, digest: Observation -> Digest, live: Evidence, s: u128, now: i64)
    requires 1 <= cfg.maxGenerationAdvance && cfg.maxGenerationAdvance + 1 < U64_MODULUS
    requires s in live.sources && Runs.Lineage(live.sources[s], Beat(cfg, s, 1, 2, 1, 0, now)) && HighWater(live.records) == 1
    ensures VerdictOn(cfg, digest, live, Beat(cfg, s, 1, 3, 1, 0, now)) == Pass
  {
    hide Indexed;
  }

  lemma NextIsStale(cfg: Config, digest: Observation -> Digest, back: Evidence, s: u128, now: i64)
    requires 1 <= cfg.maxGenerationAdvance && cfg.maxGenerationAdvance + 1 < U64_MODULUS
    requires s in back.sources && Runs.Lineage(back.sources[s], Beat(cfg, s, 1, 2, 1, 1, now)) && HighWater(back.records) == 1
    ensures VerdictOn(cfg, digest, back, Beat(cfg, s, 1, 3, 1, 0, now)) == Refuse(FencedStaleEpoch, EpochBehind(0, 1))
  {
    hide Indexed;
  }

  lemma PairHigh(r: ObservationRecord, q: ObservationRecord, mark: u64)
    ensures HighWater([r, q]) == HighWater(RebornAll([r, q], mark)) == Max(r.observation.generation, q.observation.generation)
  {
    HighReborn([r, q], mark);
    assert [r, q][..1] == [r];
    OneHigh(r);
  }

  lemma TellsApart(cfg: Config, digest: Observation -> Digest, a: Evidence, b: Evidence, o: Observation)
    requires o.source in a.sources && o.source in b.sources && VerdictOn(cfg, digest, a, o) != VerdictOn(cfg, digest, b, o)
    ensures !DecideAlike(cfg, digest, a, b, o.source)
  {
    hide CheckLineage, Indexed, HighWater;
    assert Judge(cfg, digest, a, o) != Judge(cfg, digest, b, o);
  }

  function SmallerBoot(cfg: Config, s: u128, now: i64): seq<Arrival> {
    [Arrival(Beat(cfg, s, 2, 1, 0, 0, now), now), Arrival(Beat(cfg, s, 1, 1, 0, 0, now), now)]
  }

  /** A source reboots, and its new boot has the smaller identity. The running engine goes on with the new one; the
      engine that is opened on the journal believes in the old one and shuts the running boot out. */
  lemma RestartShutsOutTheBoot(cfg: Config, digest: Observation -> Digest, epoch: u64, s: u128, now: i64, restart: u64)
    requires Welcoming(cfg) && s != 0 && cfg.maxSources >= 1 && cfg.maxEvidence >= 2 && cfg.maxIncarnations >= 2
    ensures var w, next := SmallerBoot(cfg, s, now), Arrival(Beat(cfg, s, 1, 2, 0, 0, now), now);
            var live, back := Run(cfg, digest, epoch, EMPTY, w), Recovered(cfg, restart, JournalOf(cfg, digest, epoch, EMPTY, w));
            && s in live.sources && s in back.sources && !DecideAlike(cfg, digest, live, back, s)
            && Ingest(cfg, digest, epoch, live, next).1.disposition == Accepted
            && Ingest(cfg, digest, restart, back, next).1.disposition == Refused
            && Ingest(cfg, digest, restart, back, next).1.code == FencedIncarnation
  {
    hide Ingest, Run, JournalOf, Recovered, Evict, DropCount, Indexed, HighWater, DecideAlike;
    var w, next := SmallerBoot(cfg, s, now), Arrival(Beat(cfg, s, 1, 2, 0, 0, now), now);
    TwoBeats(cfg, digest, epoch, w[0], w[1]);
    assert w == [w[0], w[1]];
    var live, back := Run(cfg, digest, epoch, EMPTY, w), Recovered(cfg, restart, JournalOf(cfg, digest, epoch, EMPTY, w));
    var r, q := NewRecord(w[0], epoch), NewRecord(w[1], epoch);
    PairRebuilt(cfg, restart, q, r);
    SwappedRecovery(cfg, restart, r, q);
    PairHigh(r, q, restart);
    RecoveredRecords(cfg, restart, [r, q]);
    BothSeen(cfg, restart, q, r);
    BeatAnswers(cfg, digest, epoch, live, next);
    BeatAnswers(cfg, digest, restart, back, next);
    TellsApart(cfg, digest, live, back, next.observation);
  }

  /** Recovery sorts: the other arrangement of the same two records leads to the same lineages. */
  lemma SwappedRecovery(cfg: Config, restart: u64, r: ObservationRecord, q: ObservationRecord)
    requires RecoverLe(q, r) && !RecoverLe(r, q)
    ensures var a, b := Recovered(cfg, restart, [r, q]), Recovered(cfg, restart, [q, r]);
            a.sources == b.sources && a.incarnations == b.incarnations
  {
    hide RecoverAll;
    var x, y := Reborn(r, restart), Reborn(q, restart);
    assert RebornAll([r, q], restart) == [x, y] && RebornAll([q, r], restart) == [y, x];
    Ordering.SortOfSorted([y, x], RecoverLe);
    assert [x, y][1..] == [y] && [y][1..] == [];
    assert Ordering.Sort([y], RecoverLe) == [y] && Ordering.Insert(x, [], RecoverLe) == [x];
  }

  lemma BothSeen(cfg: Config, restart: u64, r: ObservationRecord, q: ObservationRecord)
    requires cfg.maxIncarnations >= 2 && r.observation.incarnation != 0 && q.observation.incarnation != 0
    ensures r.observation.incarnation in FoldSeen(cfg, restart, [r, q])
  {
    assert [r, q][..1] == [r] && [r][..0] == [];
    assert FoldSeen(cfg, restart, [r]) == [r.observation.incarnation];
    assert FoldSeen(cfg, restart, [r, q])[0] == r.observation.incarnation;
  }

  // ---- strict fencing looks across sources ----

  function Ahead(cfg: Config, now: i64): Arrival { Arrival(Beat(cfg, 1, 1, 1, 1, 0, now), now) }

  function Behind(cfg: Config, now: i64): Arrival { Arrival(Beat(cfg, 2, 1, 1, 0, 0, now), now) }

  /** Whoever is behind is refused if it comes second, */
  lemma BehindComesSecond(cfg: Config, digest: Observation -> Digest, epoch: u64, now: i64)
    requires Welcoming(cfg) && cfg.strictGeneration && cfg.maxGenerationAdvance >= 1 && cfg.maxSources >= 2 && cfg.maxEvidence >= 2
    ensures |Run(cfg, digest, epoch, EMPTY, [Ahead(cfg, now), Behind(cfg, now)]).records| == 1
  {
    hide Ingest, Run, Evict, DropCount, Indexed, PushWindow;
    var a, b := Ahead(cfg, now), Behind(cfg, now);
    PairRun(cfg, digest, epoch, EMPTY, a, b);
    BeatAnswers(cfg, digest, epoch, EMPTY, a);
    EvictNothing(cfg, digest, [] + [NewRecord(a, epoch)]);
    var x := Ingest(cfg, digest, epoch, EMPTY, a).0;
    OneHigh(NewRecord(a, epoch));
    assert |x.sources| == |x.sources.Keys|;
    OtherSource(cfg, digest, epoch, a, 2);
    BeatAnswers(cfg, digest, epoch, x, b);
  }

  /** and accepted if it comes first. */
  lemma BehindComesFirst(cfg: Config, digest: Observation -> Digest, epoch: u64, now: i64)
    requires Welcoming(cfg) && cfg.strictGeneration && cfg.maxGenerationAdvance >= 1 && cfg.maxSources >= 2 && cfg.maxEvidence >= 2
    ensures |Run(cfg, digest, epoch, EMPTY, [Behind(cfg, now), Ahead(cfg, now)]).records| == 2
  {
    hide Ingest, Run, Evict, DropCount, Indexed, PushWindow;
    var a, b := Ahead(cfg, now), Behind(cfg, now);
    PairRun(cfg, digest, epoch, EMPTY, b, a);
    BeatAnswers(cfg, digest, epoch, EMPTY, b);
    EvictNothing(cfg, digest, [] + [NewRecord(b, epoch)]);
    var y := Ingest(cfg, digest, epoch, EMPTY, b).0;
    OneHigh(NewRecord(b, epoch));
    assert |y.sources| == |y.sources.Keys|;
    OtherSource(cfg, digest, epoch, b, 1);
    BeatAnswers(cfg, digest, epoch, y, a);
    EvictNothing(cfg, digest, [NewRecord(b, epoch)] + [NewRecord(a, epoch)]);
  }

  /** With strict generation fencing the order in which sources are heard from does matter, though no bound is
      reached. */
  lemma StrictFencingSeesOrder(cfg: Config, digest: Observation -> Digest, epoch: u64, now: i64)
    requires Welcoming(cfg) && cfg.strictGeneration && cfg.maxGenerationAdvance >= 1
    requires cfg.maxSources >= 2 && cfg.maxEvidence >= 2 && cfg.maxRejections >= 2
    ensures var w1, w2 := [Ahead(cfg, now), Behind(cfg, now)], [Behind(cfg, now), Ahead(cfg, now)];
            && SameStreams(w1, w2) && Capacity.BoundsIdle(cfg, digest, epoch, EMPTY, w1) && Capacity.BoundsIdle(cfg, digest, epoch, EMPTY, w2)
            && |Run(cfg, digest, epoch, EMPTY, w1).records| == 1 && |Run(cfg, digest, epoch, EMPTY, w2).records| == 2
            && !Equivalent(Run(cfg, digest, epoch, EMPTY, w1), Run(cfg, digest, epoch, EMPTY, w2))
  {
    hide Run, Capacity.BoundsIdle, SameStreams, Fits, Ahead, Behind;
    var a, b := Ahead(cfg, now), Behind(cfg, now);
    SwapFits(cfg, now);
    Capacity.FittingRunsAreIdle(cfg, digest, epoch, EMPTY, [a, b]);
    Capacity.FittingRunsAreIdle(cfg, digest, epoch, EMPTY, [b, a]);
    BehindComesSecond(cfg, digest, epoch, now);
    BehindComesFirst(cfg, digest, epoch, now);
    var p, q := Run(cfg, digest, epoch, EMPTY, [a, b]).records, Run(cfg, digest, epoch, EMPTY, [b, a]).records;
    assert |multiset(p)| == |p| && |multiset(q)| == |q|;
  }

  lemma OneHigh(r: ObservationRecord)
    ensures HighWater([r]) == r.observation.generation
  {
    assert [r][..0] == [];
  }

  /** What one source does leaves no trace in another's window. */
  lemma OtherSource(cfg: Config, digest: Observation -> Digest, epoch: u64, a: Arrival, s: u128)
    requires s != a.observation.source
    ensures Seen(Ingest(cfg, digest, epoch, EMPTY, a).0.incarnations, s) == []
  {
    hide Ingest, PushWindow;
    StepSeen(cfg, digest, epoch, EMPTY, a);
  }

  lemma PairFits(cfg: Config, a: Arrival, b: Arrival)
    requires cfg.maxSources >= 2 && cfg.maxEvidence >= 2 && cfg.maxRejections >= 2
    requires a.observation.claims == [] && b.observation.claims == []
    ensures Fits(cfg, EMPTY, [a, b])
  {
    assert [a, b][..1] == [a] && [a][..0] == [];
    assert ClaimTotal([a]) == 0;
    Capacity.SourceCount({}, [a, b]);
    assert EMPTY.sources.Keys == {};
  }

  lemma SwapFits(cfg: Config, now: i64)
    requires cfg.maxSources >= 2 && cfg.maxEvidence >= 2 && cfg.maxRejections >= 2
    ensures var w1, w2 := [Ahead(cfg, now), Behind(cfg, now)], [Behind(cfg, now), Ahead(cfg, now)];
            SameStreams(w1, w2) && Fits(cfg, EMPTY, w1) && Fits(cfg, EMPTY, w2)
  {
    hide Fits;
    var a, b := Ahead(cfg, now), Behind(cfg, now);
    PairFits(cfg, a, b);
    PairFits(cfg, b, a);
    assert [a, b][..1] == [a] && [b, a][..1] == [b] && [a][..0] == [] && [b][..0] == [];
    forall s ensures Stream([a, b], s) == Stream([b, a], s) {
      assert Stream([], s) == [];
      assert Stream([a], s) == (if s == 1 then [a] else []) && Stream([b], s) == if s == 2 then [b] else [];
    }
  }
}
