/** What every run of the evidence engine keeps, and the view it leads to (src/observatory.cpp,
    src/snapshot.cpp). */
module Runs {
  import opened Bytes
  import opened Observations
  import opened Observatories
  import opened Interleaving
  import Capacity
  import Ordering
  import Snapshots
  import Truth
  import Views
  import ViewStability

  // ---- the request a publication builds its view from ----

  function SummaryOf(policy: Snapshots.Policy, records: seq<ObservationRecord>, evaluation: i64, s: SourceState): Snapshots.SourceSummary {
    var d := s.descriptor;
    Snapshots.SourceSummary(
      d.id, d.name, d.authorityName, d.maxAuthority, s.incarnation, s.bootTime, s.bootCounter, s.lastSequence, s.firstReceive,
      s.lastReceive, s.lastObservation, s.lastGeneration, s.lastEpoch, s.accepted,
      |Ordering.Filter(records, RecordOf(d.id))|,
      Truth.EvaluateFreshness(Truth.EvidenceTime(s.lastObservation, s.lastReceive), evaluation, policy.freshness, s.recovered),
      s.recovered)
  }

  /** source_summaries_locked: one per registered source, in identity order. */
  function Summaries(policy: Snapshots.Policy, e: Evidence, evaluation: i64): (r: seq<Snapshots.SourceSummary>)
    ensures |r| == |e.sources.Keys|
  {
    var ids := Truth.SortedIds(e.sources.Keys);
    seq(|ids|, i requires 0 <= i < |ids| => SummaryOf(policy, e.records, evaluation, e.sources[ids[i]]))
  }

  function RequestOf(fabric: u128, policy: Snapshots.Policy, e: Evidence, evaluation: i64, epoch: u64, count: u32): Snapshots.Request {
    Snapshots.Request(fabric, policy, evaluation, epoch, count, e.records, e.rejected, e.fencedClaims,
                      Summaries(policy, e, evaluation), e.truncated)
  }

  // ---- refusals, fences and sources are each recorded once ----

  ghost predicate Keyed(e: Evidence) {
    && (forall s :: s in e.sources ==> e.sources[s].descriptor.id == s)
    && ViewStability.OneRefusalPerDigest(e.rejected)
    && ViewStability.OneFencePerKey(e.fencedClaims)
  }

  lemma RecordRejectionKeyed(cfg: Config, indexed: bool, rejected: seq<Rejected>, r: Rejected)
    requires ViewStability.OneRefusalPerDigest(rejected)
    ensures ViewStability.OneRefusalPerDigest(RecordRejection(cfg, indexed, rejected, r))
  {
    var after := RecordRejection(cfg, indexed, rejected, r);
    forall x, y | x in after && y in after && x.observationId == y.observationId ensures x == y {
      assert x in rejected || x == r;
      assert y in rejected || y == r;
      if x in rejected && y == r {
        var i :| 0 <= i < |rejected| && rejected[i] == x;
      }
      if y in rejected && x == r {
        var i :| 0 <= i < |rejected| && rejected[i] == y;
      }
    }
  }

  lemma RecordFencedKeyed(cfg: Config, fenced: seq<FencedClaim>, f: FencedClaim)
    requires ViewStability.OneFencePerKey(fenced)
    ensures ViewStability.OneFencePerKey(RecordFenced(cfg, fenced, f))
  {
    var after := RecordFenced(cfg, fenced, f);
    forall x, y | x in after && y in after && Snapshots.KeyOfFence(x) == Snapshots.KeyOfFence(y) ensures x == y {
      assert x in fenced || x == f;
      assert y in fenced || y == f;
      if x in fenced && y == f {
        var i :| 0 <= i < |fenced| && fenced[i] == x;
      }
      if y in fenced && x == f {
        var i :| 0 <= i < |fenced| && fenced[i] == y;
      }
    }
  }

  lemma {:induction false} FoldKeyed(cfg: Config, digest: Observation -> Digest, declared: seq<Text>, o: Observation, now: i64, f: ClaimFold, cs: seq<Claim>)
    requires ViewStability.OneFencePerKey(f.fencedClaims)
    ensures ViewStability.OneFencePerKey(FoldClaims(cfg, digest, declared, o, now, f, cs).fencedClaims)
  {
    hide CheckClaim, RecordFenced, NoteRevision, ViewStability.OneFencePerKey;
    if cs != [] {
      var front, c := cs[..|cs| - 1], cs[|cs| - 1];
      FoldKeyed(cfg, digest, declared, o, now, f, front);
      var g := FoldClaims(cfg, digest, declared, o, now, f, front);
      match CheckClaim(cfg, declared, g.revisions, KeyOf(o, c), c)
      case Refuse(code, reason) => RecordFencedKeyed(cfg, g.fencedClaims, MakeFenced(digest, o, now, c, code, reason));
      case _ =>
    }
  }

  lemma FinishKeyed(cfg: Config, digest: Observation -> Digest, e: Evidence, a: Arrival, code: StatusCode, reason: Reason)
    requires Keyed(e)
    ensures Keyed(Finish(cfg, digest, e, a, code, reason).0)
  {
    hide Indexed, RecordRejection;
    var r := MakeRejection(digest, a.observation, a.receivedAt, code, reason);
    RecordRejectionKeyed(cfg, Indexed(digest, e.records, r.observationId), e.rejected, r);
  }

  lemma IngestClaimsKeyed(cfg: Config, digest: Observation -> Digest, epoch: u64, e: Evidence, a: Arrival)
    requires a.observation.source in e.sources && Keyed(e)
    ensures Keyed(IngestClaims(cfg, digest, epoch, e, a).0)
  {
    hide Finish, FoldClaims, Evict, DropCount, PushWindow, ViewStability.OneRefusalPerDigest, ViewStability.OneFencePerKey;
    var o := a.observation;
    var declared := e.sources[o.source].descriptor.aspects;
    FoldKeyed(cfg, digest, declared, o, a.receivedAt, StartFold(e), o.claims);
    var g := FoldClaims(cfg, digest, declared, o, a.receivedAt, StartFold(e), o.claims);
    var e1 := e.(revisions := g.revisions, fencedClaims := g.fencedClaims);
    FinishKeyed(cfg, digest, e1.(sources := BumpFenced(e1.sources, o.source)), a, g.firstCode, g.firstReason);
  }

  lemma AdmitKeyed(cfg: Config, sources: map<u128, SourceState>, o: Observation)
    requires forall s :: s in sources ==> sources[s].descriptor.id == s
    requires Admit(cfg, sources, o).Ok?
    ensures forall s :: s in Admit(cfg, sources, o).value ==> Admit(cfg, sources, o).value[s].descriptor.id == s
  {
    hide Ordering.Sort, AdjacentTwins;
  }

  lemma IngestKeyed(cfg: Config, digest: Observation -> Digest, epoch: u64, e: Evidence, a: Arrival)
    requires Keyed(e)
    ensures Keyed(Ingest(cfg, digest, epoch, e, a).0)
  {
    hide Finish, IngestKnown, CheckInput, Register, ViewStability.OneRefusalPerDigest, ViewStability.OneFencePerKey;
    var o := a.observation;
    match CheckInput(cfg, o, a.receivedAt)
    case Refuse(code, reason) => FinishKeyed(cfg, digest, e, a, code, reason);
    case _ =>
      match Admit(cfg, e.sources, o)
      case Err(code) =>
        FinishKeyed(cfg, digest, e, a, code, if cfg.autoRegister then RegistrationFailed(code) else NotRegistered(o.source));
      case Ok(m) =>
        AdmitKeyed(cfg, e.sources, o);
        IngestKnownKeyed(cfg, digest, epoch, e.(sources := m), a);
  }

  lemma IngestKnownKeyed(cfg: Config, digest: Observation -> Digest, epoch: u64, e: Evidence, a: Arrival)
    requires a.observation.source in e.sources && Keyed(e)
    ensures Keyed(IngestKnown(cfg, digest, epoch, e, a).0)
  {
    hide Finish, IngestClaims, CheckLineage, Indexed, ViewStability.OneRefusalPerDigest, ViewStability.OneFencePerKey;
    var o := a.observation;
    var high := if cfg.strictGeneration then HighWater(e.records) else 0;
    match CheckLineage(cfg, e.sources[o.source], Seen(e.incarnations, o.source), Indexed(digest, e.records, digest(o)), high, o)
    case Replay =>
    case Refuse(code, reason) =>
      FinishKeyed(cfg, digest, e.(sources := BumpFenced(e.sources, o.source)), a, code, reason);
    case Pass => IngestClaimsKeyed(cfg, digest, epoch, e, a);
  }

  /** In every reachable state a source has one summary, content one refusal and a claim one fence. */
  lemma {:induction false} RunKeyed(cfg: Config, digest: Observation -> Digest, epoch: u64, e: Evidence, w: seq<Arrival>)
    requires Keyed(e)
    ensures Keyed(Run(cfg, digest, epoch, e, w))
  {
    hide Ingest, Keyed;
    if w != [] {
      RunKeyed(cfg, digest, epoch, e, w[..|w| - 1]);
      IngestKeyed(cfg, digest, epoch, Run(cfg, digest, epoch, e, w[..|w| - 1]), w[|w| - 1]);
    }
  }

  /** The invariant holds before anything happened, and registering a source keeps it. */
  lemma NothingIsKeyed(e: Evidence)
    requires e.sources == map[] && e.rejected == [] && e.fencedClaims == []
    ensures Keyed(e)
  {
  }

  lemma RegisterKeyed(cfg: Config, e: Evidence, d: Descriptor)
    requires Keyed(e) && Register(cfg, e.sources, d).Ok?
    ensures Keyed(e.(sources := Register(cfg, e.sources, d).value))
  {
    hide Ordering.Sort, AdjacentTwins, ViewStability.OneRefusalPerDigest, ViewStability.OneFencePerKey;
  }

  // ---- every retained record is one that arrived ----

  ghost predicate FromRun(e: Evidence, w: seq<Arrival>, epoch: u64, r: ObservationRecord) {
    r in e.records || exists a :: a in w && r == NewRecord(a, epoch)
  }

  /** Only acceptance touches the evidence: it appends the stamped record and evicts what is over the bound. */
  ghost predicate Stores(cfg: Config, digest: Observation -> Digest, epoch: u64, e: Evidence, a: Arrival, e1: Evidence, out: Outcome) {
    if out.disposition == Accepted then
      && e1.records == Evict(digest, e.records + [NewRecord(a, epoch)], cfg.maxEvidence)
      && e1.evicted == e.evicted + DropCount(|e.records| + 1, cfg.maxEvidence)
      && e1.truncated == (e.truncated || |e.records| + 1 > cfg.maxEvidence)
    else
      e1.records == e.records && e1.evicted == e.evicted && e1.truncated == e.truncated
  }

  lemma IngestClaimsRecords(cfg: Config, digest: Observation -> Digest, epoch: u64, e: Evidence, a: Arrival)
    requires a.observation.source in e.sources
    ensures var (e1, out) := IngestClaims(cfg, digest, epoch, e, a); Stores(cfg, digest, epoch, e, a, e1, out)
  {
    hide FoldClaims, Evict, DropCount, Indexed, RecordRejection, AcceptSource, PushWindow;
  }

  lemma IngestRecords(cfg: Config, digest: Observation -> Digest, epoch: u64, e: Evidence, a: Arrival)
    ensures var (e1, out) := Ingest(cfg, digest, epoch, e, a); Stores(cfg, digest, epoch, e, a, e1, out)
  {
    hide CheckInput, Register, CheckLineage, IngestClaims, Evict, DropCount, Indexed, RecordRejection;
    if Admit(cfg, e.sources, a.observation).Ok? {
      IngestClaimsRecords(cfg, digest, epoch, e.(sources := Admit(cfg, e.sources, a.observation).value), a);
    }
  }

  lemma {:induction false} RunRecords(cfg: Config, digest: Observation -> Digest, epoch: u64, e: Evidence, w: seq<Arrival>)
    ensures forall r :: r in Run(cfg, digest, epoch, e, w).records ==> FromRun(e, w, epoch, r)
  {
    hide Ingest, Evict, DropCount;
    if w != [] {
      var front, a := w[..|w| - 1], w[|w| - 1];
      var mid := Run(cfg, digest, epoch, e, front);
      RunRecords(cfg, digest, epoch, e, front);
      IngestRecords(cfg, digest, epoch, mid, a);
      EvictKeepsSome(digest, mid.records + [NewRecord(a, epoch)], cfg.maxEvidence);
      assert a in w && forall x :: x in front ==> x in w;
    }
  }

  // ---- the view after two interleavings ----

  lemma SummariesAlike(policy: Snapshots.Policy, e1: Evidence, e2: Evidence, evaluation: i64)
    requires e1.sources == e2.sources && multiset(e1.records) == multiset(e2.records)
    ensures Summaries(policy, e1, evaluation) == Summaries(policy, e2, evaluation)
  {
    hide Truth.SortedIds;
    forall s: SourceState ensures SummaryOf(policy, e1.records, evaluation, s) == SummaryOf(policy, e2.records, evaluation, s) {
      Views.FilterPermuted(e1.records, e2.records, RecordOf(s.descriptor.id));
    }
  }

  lemma SummaryPerSource(policy: Snapshots.Policy, e: Evidence, evaluation: i64)
    requires Keyed(e)
    ensures ViewStability.OneSummaryPerSource(Summaries(policy, e, evaluation))
  {
    hide Truth.SortedIds, SummaryOf, ViewStability.OneRefusalPerDigest, ViewStability.OneFencePerKey;
    var ids, ss := Truth.SortedIds(e.sources.Keys), Summaries(policy, e, evaluation);
    forall i | 0 <= i < |ids| ensures ss[i].id == ids[i] {
      assert ids[i] in ids;
      SummaryId(policy, e.records, evaluation, e.sources[ids[i]]);
    }
    forall x, y | x in ss && y in ss && x.id == y.id ensures x == y {
      var i :| 0 <= i < |ss| && ss[i] == x;
      var j :| 0 <= j < |ss| && ss[j] == y;
    }
  }

  lemma SummaryId(policy: Snapshots.Policy, records: seq<ObservationRecord>, evaluation: i64, s: SourceState)
    ensures SummaryOf(policy, records, evaluation, s).id == s.descriptor.id
  {
  }

  /** The headline: two schedules that deliver every source's own observations in the same order lead to
      the same snapshot, whatever the sources did relative to each other, unless a bound is reached. */
  lemma InterleavingsShowOneView(cfg: Config, policy: Snapshots.Policy, digest: Observation -> Digest, derive: Text -> u128, epoch: u64,
                                 count: u32, evaluation: i64, e: Evidence, w1: seq<Arrival>, w2: seq<Arrival>, pool: set<Observation>)
    requires SameStreams(w1, w2)
    requires Capacity.BoundsIdle(cfg, digest, epoch, e, w1) && !cfg.strictGeneration
    requires Drawn(w1, pool) && DigestsSeparate(digest, e, pool)
    requires Keyed(e) && ViewStability.OneRecordPerDigest(digest, Run(cfg, digest, epoch, e, w1).records)
    ensures var e1, e2 := Run(cfg, digest, epoch, e, w1), Run(cfg, digest, epoch, e, w2);
            (Snapshots.Build(digest, derive, RequestOf(cfg.fabric, policy, e1, evaluation, epoch, count))
             == Snapshots.Build(digest, derive, RequestOf(cfg.fabric, policy, e2, evaluation, epoch, count)))
  {
    hide Run, Restrict, Capacity.BoundsIdle, DigestsSeparate, Keyed, Snapshots.Build, Summaries;
    var e1, e2 := Run(cfg, digest, epoch, e, w1), Run(cfg, digest, epoch, e, w2);
    Capacity.InterleavingIndependence(cfg, digest, epoch, e, w1, w2, pool);
    RunKeyed(cfg, digest, epoch, e, w1);
    SummariesAlike(policy, e1, e2, evaluation);
    SummaryPerSource(policy, e1, evaluation);
    KeyedParts(e1);
    ViewStability.ViewIgnoresArrangement(digest, derive, RequestOf(cfg.fabric, policy, e1, evaluation, epoch, count),
                                         RequestOf(cfg.fabric, policy, e2, evaluation, epoch, count));
  }

  /** Receipt is stamped once per content: equal digests mean the same record. */
  ghost predicate Stamped(digest: Observation -> Digest, e: Evidence, w: seq<Arrival>, epoch: u64) {
    forall x, y :: FromRun(e, w, epoch, x) && FromRun(e, w, epoch, y) && digest(x.observation) == digest(y.observation) ==> x == y
  }

  /** Checkable before the run: then no two retained records share a digest. */
  lemma StampedOnce(cfg: Config, digest: Observation -> Digest, epoch: u64, e: Evidence, w: seq<Arrival>)
    requires Stamped(digest, e, w, epoch)
    ensures ViewStability.OneRecordPerDigest(digest, Run(cfg, digest, epoch, e, w).records)
  {
    hide Run, FromRun;
    RunRecords(cfg, digest, epoch, e, w);
  }

  lemma KeyedParts(e: Evidence)
    requires Keyed(e)
    ensures ViewStability.OneRefusalPerDigest(e.rejected) && ViewStability.OneFencePerKey(e.fencedClaims)
  {
  }

  // ---- conservation ----

  function AcceptedCount(cfg: Config, digest: Observation -> Digest, epoch: u64, e: Evidence, w: seq<Arrival>): nat {
    if w == [] then 0
    else
      var mid := Run(cfg, digest, epoch, e, w[..|w| - 1]);
      AcceptedCount(cfg, digest, epoch, e, w[..|w| - 1])
      + if Ingest(cfg, digest, epoch, mid, w[|w| - 1]).1.disposition == Accepted then 1 else 0
  }

  /** What was there plus what was accepted is what is retained plus what was evicted; and the evidence
      bound holds if and only if it held before or anything has been accepted since. */
  lemma {:induction false} EvidenceIsConserved(cfg: Config, digest: Observation -> Digest, epoch: u64, e: Evidence, w: seq<Arrival>)
    ensures var e1, n := Run(cfg, digest, epoch, e, w), AcceptedCount(cfg, digest, epoch, e, w);
            && |e.records| + e.evicted + n == |e1.records| + e1.evicted
            && (n > 0 || |e.records| <= cfg.maxEvidence <==> |e1.records| <= cfg.maxEvidence)
            && (e1.evicted > e.evicted ==> e1.truncated)
            && (e.truncated ==> e1.truncated)
  {
    hide Ingest, Evict, DropCount;
    if w != [] {
      var front, a := w[..|w| - 1], w[|w| - 1];
      var mid := Run(cfg, digest, epoch, e, front);
      EvidenceIsConserved(cfg, digest, epoch, e, front);
      IngestRecords(cfg, digest, epoch, mid, a);
      EvictSizes(digest, mid.records + [NewRecord(a, epoch)], cfg.maxEvidence);
    }
  }

  lemma EvictSizes(digest: Observation -> Digest, records: seq<ObservationRecord>, bound: nat)
    ensures |Evict(digest, records, bound)| == |records| - DropCount(|records|, bound)
    ensures |records| <= bound ==> DropCount(|records|, bound) == 0
    ensures |Evict(digest, records, bound)| <= bound
  {
    hide Evict, KeepRest, Dropped;
    EvictDropsLeast(digest, records, bound);
  }

  // ---- the lineage of one source only moves forward ----

  /** The arrivals of one source a run accepted, in order. */
  function AcceptedOf(cfg: Config, digest: Observation -> Digest, epoch: u64, e: Evidence, w: seq<Arrival>, s: u128): seq<Arrival> {
    if w == [] then []
    else
      var before, a := AcceptedOf(cfg, digest, epoch, e, w[..|w| - 1], s), w[|w| - 1];
      var out := Ingest(cfg, digest, epoch, Run(cfg, digest, epoch, e, w[..|w| - 1]), a).1;
      if a.observation.source == s && out.disposition == Accepted then before + [a] else before
  }

  /** How one accepted observation may follow another of its source. */
  predicate Follows(x: Observation, y: Observation) {
    && (x.incarnation == y.incarnation ==> x.sequence < y.sequence)
    && x.generation <= y.generation
    && (x.generation == y.generation ==> x.epoch <= y.epoch)
  }

  predicate Lineage(src: SourceState, o: Observation) {
    src.incarnation == o.incarnation && src.lastSequence == o.sequence && src.lastGeneration == o.generation && src.lastEpoch == o.epoch
  }

  /** Everything about a source that decides whether its next observation is fenced. */
  predicate SameLineage(x: SourceState, y: SourceState) {
    x.incarnation == y.incarnation && x.lastSequence == y.lastSequence && x.lastGeneration == y.lastGeneration && x.lastEpoch == y.lastEpoch
  }

  /** One step: acceptance moves its own source's lineage forward onto the observation, and nothing else
      moves any lineage. */
  ghost predicate Moves(e: Evidence, e1: Evidence, o: Observation, accepted: bool) {
    && (accepted ==> o.source in e1.sources && Lineage(e1.sources[o.source], o))
    && (accepted && o.source in e.sources ==>
          var src := e.sources[o.source];
          && (src.incarnation == o.incarnation ==> src.lastSequence < o.sequence)
          && (src.incarnation != o.incarnation ==> o.incarnation !in Seen(e.incarnations, o.source))
          && src.lastGeneration <= o.generation
          && (src.lastGeneration == o.generation ==> src.lastEpoch <= o.epoch))
    && (forall s :: s in e.sources && (s != o.source || !accepted) ==>
          s in e1.sources && SameLineage(e.sources[s], e1.sources[s]))
  }

  lemma ClaimsMove(cfg: Config, digest: Observation -> Digest, epoch: u64, e: Evidence, a: Arrival)
    requires a.observation.source in e.sources
    requires CheckLineage(cfg, e.sources[a.observation.source], Seen(e.incarnations, a.observation.source),
                          Indexed(digest, e.records, digest(a.observation)),
                          if cfg.strictGeneration then HighWater(e.records) else 0, a.observation) == Pass
    ensures var (e1, out) := IngestClaims(cfg, digest, epoch, e, a);
            Moves(e, e1, a.observation, out.disposition == Accepted)
  {
    hide FoldClaims, Evict, DropCount, Indexed, RecordRejection, PushWindow, HighWater;
  }

  lemma KnownMoves(cfg: Config, digest: Observation -> Digest, epoch: u64, e: Evidence, a: Arrival)
    requires a.observation.source in e.sources
    ensures var (e1, out) := IngestKnown(cfg, digest, epoch, e, a);
            Moves(e, e1, a.observation, out.disposition == Accepted)
  {
    hide CheckLineage, Indexed, HighWater, IngestClaims, RecordRejection;
    var o := a.observation;
    var high := if cfg.strictGeneration then HighWater(e.records) else 0;
    if CheckLineage(cfg, e.sources[o.source], Seen(e.incarnations, o.source), Indexed(digest, e.records, digest(o)), high, o) == Pass {
      ClaimsMove(cfg, digest, epoch, e, a);
    }
  }

  lemma AdmitMoves(cfg: Config, sources: map<u128, SourceState>, o: Observation)
    requires Admit(cfg, sources, o).Ok?
    ensures var m := Admit(cfg, sources, o).value;
            forall s :: s in sources ==> s in m && m[s] == sources[s]
  {
    hide Ordering.Sort, AdjacentTwins;
  }

  lemma AcceptedMoves(cfg: Config, digest: Observation -> Digest, epoch: u64, e: Evidence, a: Arrival)
    ensures var (e1, out) := Ingest(cfg, digest, epoch, e, a);
            Moves(e, e1, a.observation, out.disposition == Accepted)
  {
    hide CheckInput, Admit, IngestKnown, RecordRejection;
    if CheckInput(cfg, a.observation, a.receivedAt).Refuse? {
    } else if Admit(cfg, e.sources, a.observation).Ok? {
      AdmitMoves(cfg, e.sources, a.observation);
      KnownMoves(cfg, digest, epoch, e.(sources := Admit(cfg, e.sources, a.observation).value), a);
    }
  }

  ghost predicate Tracks(e: Evidence, s: u128, accepted: seq<Arrival>) {
    accepted != [] ==> s in e.sources && Lineage(e.sources[s], accepted[|accepted| - 1].observation)
  }

  ghost predicate Rising(accepted: seq<Arrival>) {
    forall i :: 0 < i < |accepted| ==> Follows(accepted[i - 1].observation, accepted[i].observation)
  }

  lemma TracksStep(cfg: Config, digest: Observation -> Digest, epoch: u64, e: Evidence, a: Arrival, s: u128, accepted: seq<Arrival>)
    requires Tracks(e, s, accepted) && Rising(accepted)
    ensures var (e1, out) := Ingest(cfg, digest, epoch, e, a);
            var after := if a.observation.source == s && out.disposition == Accepted then accepted + [a] else accepted;
            Tracks(e1, s, after) && Rising(after)
  {
    hide Ingest;
    AcceptedMoves(cfg, digest, epoch, e, a);
  }

  lemma {:induction false} AcceptedTracks(cfg: Config, digest: Observation -> Digest, epoch: u64, e: Evidence, w: seq<Arrival>, s: u128)
    ensures var accepted := AcceptedOf(cfg, digest, epoch, e, w, s);
            Tracks(Run(cfg, digest, epoch, e, w), s, accepted) && Rising(accepted)
  {
    hide Ingest, Tracks, Rising;
    if w == [] {
      NothingTracks(e, s);
    } else {
      var front, a := w[..|w| - 1], w[|w| - 1];
      AcceptedTracks(cfg, digest, epoch, e, front, s);
      TracksStep(cfg, digest, epoch, Run(cfg, digest, epoch, e, front), a, s, AcceptedOf(cfg, digest, epoch, e, front, s));
    }
  }

  lemma NothingTracks(e: Evidence, s: u128)
    ensures Tracks(e, s, []) && Rising([])
  {
  }

  lemma {:induction false} RisingPairs(accepted: seq<Arrival>, i: nat, j: nat)
    requires Rising(accepted) && i < j < |accepted|
    ensures var x, y := accepted[i].observation, accepted[j].observation;
            && x.generation <= y.generation
            && (x.generation == y.generation ==> x.epoch <= y.epoch)
            && ((forall k :: i <= k <= j ==> accepted[k].observation.incarnation == x.incarnation) ==> x.sequence < y.sequence)
    decreases j - i
  {
    assert Follows(accepted[j - 1].observation, accepted[j].observation);
    if i < j - 1 {
      RisingPairs(accepted, i, j - 1);
    }
  }

  /** Over any run, from any state: generations never fall, epochs never fall within a generation, and
      sequences strictly rise for as long as an incarnation holds its source. */
  lemma LineageOnlyMovesForward(cfg: Config, digest: Observation -> Digest, epoch: u64, e: Evidence, w: seq<Arrival>, s: u128, i: nat, j: nat)
    requires i < j < |AcceptedOf(cfg, digest, epoch, e, w, s)|
    ensures var accepted := AcceptedOf(cfg, digest, epoch, e, w, s);
            var x, y := accepted[i].observation, accepted[j].observation;
            && x.generation <= y.generation
            && (x.generation == y.generation ==> x.epoch <= y.epoch)
            && ((forall k :: i <= k <= j ==> accepted[k].observation.incarnation == x.incarnation) ==> x.sequence < y.sequence)
  {
    hide AcceptedOf, Rising;
    AcceptedTracks(cfg, digest, epoch, e, w, s);
    RisingPairs(AcceptedOf(cfg, digest, epoch, e, w, s), i, j);
  }
}
