/** Runs in which no table bound is reached and nothing is evicted: the bounds make no difference, and
    neither does the order in which sources are heard from (src/observatory.cpp). */
module Capacity {
  import opened Bytes
  import opened Observations
  import opened Observatories
  import opened Interleaving
  import Ordering

  // ---- the same engine with room for everything ----

  /** The configuration with every table bound raised by all that the evidence holds and the arrivals bring. */
  function Spacious(cfg: Config, e: Evidence, w: seq<Arrival>): Config {
    cfg.(maxSources := cfg.maxSources + |e.sources| + |w|,
         maxEvidence := cfg.maxEvidence + |e.records| + |w|,
         maxRejections := cfg.maxRejections + |e.rejected| + |e.fencedClaims| + |w| + ClaimTotal(w),
         maxSubjects := cfg.maxSubjects + |e.revisions| + ClaimTotal(w))
  }

  /** No table bound and no eviction is reached: with room for everything the run ends the same. */
  ghost predicate BoundsIdle(cfg: Config, digest: Observation -> Digest, epoch: u64, e: Evidence, w: seq<Arrival>) {
    Run(cfg, digest, epoch, e, w) == Run(Spacious(cfg, e, w), digest, epoch, e, w)
  }

  ghost predicate StepIdle(cfg: Config, digest: Observation -> Digest, epoch: u64, e: Evidence, a: Arrival) {
    Ingest(cfg, digest, epoch, e, a) == Ingest(Spacious(cfg, e, [a]), digest, epoch, e, a)
  }

  /** big differs from cfg in nothing but larger table bounds. */
  predicate Widens(cfg: Config, big: Config) {
    && big == cfg.(maxSources := big.maxSources, maxEvidence := big.maxEvidence,
                   maxRejections := big.maxRejections, maxSubjects := big.maxSubjects)
    && cfg.maxSources <= big.maxSources && cfg.maxEvidence <= big.maxEvidence
    && cfg.maxRejections <= big.maxRejections && cfg.maxSubjects <= big.maxSubjects
  }

  // ---- when two configurations take the same step ----

  /** A table whose bound was not reached: what it holds with room to spare is within the bound, or nothing
      was added, or it ended below the bound even under it. */
  predicate Snug(bound: nat, before: nat, big: nat, small: nat) { big <= bound || big == before || small < bound }

  ghost predicate SnugTables(cfg: Config, e: Evidence, big: Evidence, small: Evidence) {
    && Snug(cfg.maxSources, |e.sources|, |big.sources|, |small.sources|)
    && (|big.records| <= cfg.maxEvidence || |big.records| == |e.records| || small.evicted == e.evicted)
    && Snug(cfg.maxRejections, |e.rejected|, |big.rejected|, |small.rejected|)
    && Snug(cfg.maxRejections, |e.fencedClaims|, |big.fencedClaims|, |small.fencedClaims|)
    && Snug(cfg.maxSubjects, |e.revisions|, |big.revisions|, |small.revisions|)
  }

  /** What no step takes away, whatever the bounds. */
  ghost predicate NotSmaller(e: Evidence, e1: Evidence) {
    && e.sources.Keys <= e1.sources.Keys && |e.sources| <= |e1.sources|
    && |e.rejected| <= |e1.rejected|
    && |e.fencedClaims| <= |e1.fencedClaims|
    && e.revisions.Keys <= e1.revisions.Keys && |e.revisions| <= |e1.revisions|
    && e.evicted <= e1.evicted
  }

  lemma KeysGrow<K, T>(a: map<K, T>, b: map<K, T>)
    requires a.Keys <= b.Keys
    ensures |a| <= |b|
    ensures |a| == |b| ==> a.Keys == b.Keys
  {
    Ordering.SubsetSize(a.Keys, b.Keys);
    if |a| == |b| && a.Keys != b.Keys {
      var x :| x in b.Keys && x !in a.Keys;
      Ordering.SubsetSize(a.Keys, b.Keys - {x});
    }
  }

  lemma PushIsSame(cfg: Config, big: Config, indexed: bool, rejected: seq<Rejected>, r: Rejected)
    requires Widens(cfg, big) && |rejected| < big.maxRejections
    requires Snug(cfg.maxRejections, |rejected|, |RecordRejection(big, indexed, rejected, r)|, |RecordRejection(cfg, indexed, rejected, r)|)
    ensures RecordRejection(cfg, indexed, rejected, r) == RecordRejection(big, indexed, rejected, r)
  {
    hide AlreadyRejected;
  }

  lemma FenceIsSame(cfg: Config, big: Config, fenced: seq<FencedClaim>, f: FencedClaim)
    requires Widens(cfg, big) && |fenced| < big.maxRejections
    requires Snug(cfg.maxRejections, |fenced|, |RecordFenced(big, fenced, f)|, |RecordFenced(cfg, fenced, f)|)
    ensures RecordFenced(cfg, fenced, f) == RecordFenced(big, fenced, f)
  {
    hide AlreadyFenced;
  }

  lemma NoteIsSame(cfg: Config, big: Config, m: map<RevisionKey, u64>, key: RevisionKey, revision: u64)
    requires Widens(cfg, big) && |m| < big.maxSubjects
    requires Snug(cfg.maxSubjects, |m|, |NoteRevision(big, m, key, revision)|, |NoteRevision(cfg, m, key, revision)|)
    ensures NoteRevision(cfg, m, key, revision) == NoteRevision(big, m, key, revision)
  {
    if key !in m {
      assert m[key := revision].Keys == m.Keys + {key};
      assert |m.Keys + {key}| == |m| + 1;
    }
  }

  lemma NoteKeeps(cfg: Config, m: map<RevisionKey, u64>, key: RevisionKey, revision: u64)
    ensures m.Keys <= NoteRevision(cfg, m, key, revision).Keys && |m| <= |NoteRevision(cfg, m, key, revision)|
  {
    KeysGrow(m, NoteRevision(cfg, m, key, revision));
  }

  lemma CheckIsSame(cfg: Config, big: Config, declared: seq<Text>, m: map<RevisionKey, u64>, key: RevisionKey, c: Claim)
    requires Widens(cfg, big)
    ensures CheckClaim(cfg, declared, m, key, c) == CheckClaim(big, declared, m, key, c)
  {
    hide FindDescriptor;
  }

  ghost predicate FoldNotSmaller(f: ClaimFold, g: ClaimFold) {
    f.revisions.Keys <= g.revisions.Keys && |f.revisions| <= |g.revisions| && |f.fencedClaims| <= |g.fencedClaims|
  }

  ghost predicate SnugFolds(cfg: Config, f: ClaimFold, big: ClaimFold, small: ClaimFold) {
    && Snug(cfg.maxRejections, |f.fencedClaims|, |big.fencedClaims|, |small.fencedClaims|)
    && Snug(cfg.maxSubjects, |f.revisions|, |big.revisions|, |small.revisions|)
  }

  lemma StepKeeps(cfg: Config, digest: Observation -> Digest, declared: seq<Text>, o: Observation, now: i64, f: ClaimFold, c: Claim)
    ensures FoldNotSmaller(f, StepClaim(cfg, digest, declared, o, now, f, c))
  {
    hide CheckClaim, NoteRevision, AlreadyFenced;
    NoteKeeps(cfg, f.revisions, KeyOf(o, c), c.revision);
  }

  lemma {:induction false} FoldKeeps(cfg: Config, digest: Observation -> Digest, declared: seq<Text>, o: Observation, now: i64, f: ClaimFold, cs: seq<Claim>)
    ensures FoldNotSmaller(f, FoldClaims(cfg, digest, declared, o, now, f, cs))
  {
    hide StepClaim;
    if cs != [] {
      FoldKeeps(cfg, digest, declared, o, now, f, cs[..|cs| - 1]);
      StepKeeps(cfg, digest, declared, o, now, FoldClaims(cfg, digest, declared, o, now, f, cs[..|cs| - 1]), cs[|cs| - 1]);
    }
  }

  lemma StepClaimIsSame(cfg: Config, big: Config, digest: Observation -> Digest, declared: seq<Text>, o: Observation, now: i64, f: ClaimFold, c: Claim)
    requires Widens(cfg, big) && |f.fencedClaims| < big.maxRejections && |f.revisions| < big.maxSubjects
    requires SnugFolds(cfg, f, StepClaim(big, digest, declared, o, now, f, c), StepClaim(cfg, digest, declared, o, now, f, c))
    ensures StepClaim(cfg, digest, declared, o, now, f, c) == StepClaim(big, digest, declared, o, now, f, c)
  {
    hide CheckClaim, NoteRevision, RecordFenced, Widens;
    CheckIsSame(cfg, big, declared, f.revisions, KeyOf(o, c), c);
    match CheckClaim(cfg, declared, f.revisions, KeyOf(o, c), c)
    case Refuse(code, reason) => FenceIsSame(cfg, big, f.fencedClaims, MakeFenced(digest, o, now, c, code, reason));
    case _ => NoteIsSame(cfg, big, f.revisions, KeyOf(o, c), c.revision);
  }

  lemma {:induction false} FoldIsSame(cfg: Config, big: Config, digest: Observation -> Digest, declared: seq<Text>, o: Observation, now: i64, f: ClaimFold, cs: seq<Claim>)
    requires Widens(cfg, big) && |f.fencedClaims| + |cs| <= big.maxRejections && |f.revisions| + |cs| <= big.maxSubjects
    requires SnugFolds(cfg, f, FoldClaims(big, digest, declared, o, now, f, cs), FoldClaims(cfg, digest, declared, o, now, f, cs))
    ensures FoldClaims(cfg, digest, declared, o, now, f, cs) == FoldClaims(big, digest, declared, o, now, f, cs)
  {
    hide StepClaim, Widens;
    if cs != [] {
      var front, c := cs[..|cs| - 1], cs[|cs| - 1];
      var b, s := FoldClaims(big, digest, declared, o, now, f, front), FoldClaims(cfg, digest, declared, o, now, f, front);
      FoldKeeps(big, digest, declared, o, now, f, front);
      FoldKeeps(cfg, digest, declared, o, now, f, front);
      StepKeeps(big, digest, declared, o, now, b, c);
      StepKeeps(cfg, digest, declared, o, now, s, c);
      FoldIsSame(cfg, big, digest, declared, o, now, f, front);
      FoldClaimsGrows(big, digest, declared, o, now, f, front);
      StepClaimIsSame(cfg, big, digest, declared, o, now, b, c);
    }
  }

  // ---- one arrival ----

  lemma FinishIsSame(cfg: Config, big: Config, digest: Observation -> Digest, e: Evidence, a: Arrival, code: StatusCode, reason: Reason)
    requires Widens(cfg, big) && |e.rejected| < big.maxRejections
    requires Snug(cfg.maxRejections, |e.rejected|, |Finish(big, digest, e, a, code, reason).0.rejected|,
                  |Finish(cfg, digest, e, a, code, reason).0.rejected|)
    ensures Finish(cfg, digest, e, a, code, reason) == Finish(big, digest, e, a, code, reason)
  {
    hide Indexed, RecordRejection, Widens;
    var r := MakeRejection(digest, a.observation, a.receivedAt, code, reason);
    PushIsSame(cfg, big, Indexed(digest, e.records, r.observationId), e.rejected, r);
  }

  lemma UpdateKeepsSize<T>(m: map<u128, T>, s: u128, x: T)
    requires s in m
    ensures m[s := x].Keys == m.Keys && |m[s := x]| == |m|
  {
    assert m[s := x].Keys == m.Keys;
  }

  lemma ClaimsKeep(cfg: Config, digest: Observation -> Digest, epoch: u64, e: Evidence, a: Arrival)
    requires a.observation.source in e.sources
    ensures NotSmaller(e, IngestClaims(cfg, digest, epoch, e, a).0)
    ensures |IngestClaims(cfg, digest, epoch, e, a).0.sources| == |e.sources|
  {
    hide FoldClaims, Evict, DropCount, PushWindow, AcceptSource, Indexed, AlreadyRejected;
    var o := a.observation;
    FoldKeeps(cfg, digest, e.sources[o.source].descriptor.aspects, o, a.receivedAt, StartFold(e), o.claims);
    UpdateKeepsSize(e.sources, o.source, AcceptSource(e.sources[o.source], a));
    UpdateKeepsSize(e.sources, o.source, e.sources[o.source].(fenced := e.sources[o.source].fenced + 1));
  }

  lemma AcceptIsSame(cfg: Config, big: Config, digest: Observation -> Digest, epoch: u64, e: Evidence, a: Arrival)
    requires Widens(cfg, big) && a.observation.source in e.sources && |e.records| < big.maxEvidence
    requires var b, s := Accept(big, digest, epoch, e, a), Accept(cfg, digest, epoch, e, a);
             |b.records| <= cfg.maxEvidence || |b.records| == |e.records| || s.evicted == e.evicted
    ensures Accept(cfg, digest, epoch, e, a) == Accept(big, digest, epoch, e, a)
  {
    hide PushWindow, AcceptSource, KeepRest, Dropped;
    var appended := e.records + [NewRecord(a, epoch)];
    assert Evict(digest, appended, big.maxEvidence) == appended;
  }

  lemma IngestClaimsIsSame(cfg: Config, big: Config, digest: Observation -> Digest, epoch: u64, e: Evidence, a: Arrival)
    requires Widens(cfg, big) && Room(big, e, a) && a.observation.source in e.sources
    requires SnugTables(cfg, e, IngestClaims(big, digest, epoch, e, a).0, IngestClaims(cfg, digest, epoch, e, a).0)
    ensures IngestClaims(cfg, digest, epoch, e, a) == IngestClaims(big, digest, epoch, e, a)
  {
    hide FoldClaims, Finish, Accept, BumpFenced;
    var o := a.observation;
    var declared := e.sources[o.source].descriptor.aspects;
    var b, s := FoldClaims(big, digest, declared, o, a.receivedAt, StartFold(e), o.claims),
                FoldClaims(cfg, digest, declared, o, a.receivedAt, StartFold(e), o.claims);
    ClaimTables(cfg, digest, epoch, e, a);
    ClaimTables(big, digest, epoch, e, a);
    FoldIsSame(cfg, big, digest, declared, o, a.receivedAt, StartFold(e), o.claims);
    var e1 := e.(revisions := b.revisions, fencedClaims := b.fencedClaims);
    if o.claims != [] && b.accepted == 0 {
      FinishIsSame(cfg, big, digest, e1.(sources := BumpFenced(e1.sources, o.source)), a, b.firstCode, b.firstReason);
    } else {
      AcceptIsSame(cfg, big, digest, epoch, e1, a);
    }
  }

  /** The claim tables after an arrival are those after its claims. */
  lemma ClaimTables(cfg: Config, digest: Observation -> Digest, epoch: u64, e: Evidence, a: Arrival)
    requires a.observation.source in e.sources
    ensures var g := FoldClaims(cfg, digest, e.sources[a.observation.source].descriptor.aspects, a.observation, a.receivedAt,
                                StartFold(e), a.observation.claims);
            var e1 := IngestClaims(cfg, digest, epoch, e, a).0;
            e1.revisions == g.revisions && e1.fencedClaims == g.fencedClaims
  {
    hide FoldClaims, Evict, DropCount, PushWindow, AcceptSource, RecordRejection, Indexed;
  }

  lemma KnownKeeps(cfg: Config, digest: Observation -> Digest, epoch: u64, e: Evidence, a: Arrival)
    requires a.observation.source in e.sources
    ensures NotSmaller(e, IngestKnown(cfg, digest, epoch, e, a).0)
    ensures |IngestKnown(cfg, digest, epoch, e, a).0.sources| == |e.sources|
  {
    hide IngestClaims, CheckLineage, Indexed, HighWater, AlreadyRejected;
    var s := a.observation.source;
    ClaimsKeep(cfg, digest, epoch, e, a);
    UpdateKeepsSize(e.sources, s, e.sources[s].(fenced := e.sources[s].fenced + 1));
    UpdateKeepsSize(e.sources, s, e.sources[s].(duplicates := e.sources[s].duplicates + 1));
  }

  lemma LineageIsSame(cfg: Config, big: Config, src: SourceState, seen: seq<u128>, indexed: bool, high: u64, o: Observation)
    requires Widens(cfg, big)
    ensures CheckLineage(cfg, src, seen, indexed, high, o) == CheckLineage(big, src, seen, indexed, high, o)
  {
  }

  lemma IngestKnownIsSame(cfg: Config, big: Config, digest: Observation -> Digest, epoch: u64, e: Evidence, a: Arrival)
    requires Widens(cfg, big) && Room(big, e, a) && a.observation.source in e.sources
    requires SnugTables(cfg, e, IngestKnown(big, digest, epoch, e, a).0, IngestKnown(cfg, digest, epoch, e, a).0)
    ensures IngestKnown(cfg, digest, epoch, e, a) == IngestKnown(big, digest, epoch, e, a)
  {
    hide IngestClaims, Finish, CheckLineage, Indexed, HighWater, BumpFenced, BumpDuplicates;
    var o := a.observation;
    var high := if cfg.strictGeneration then HighWater(e.records) else 0;
    LineageIsSame(cfg, big, e.sources[o.source], Seen(e.incarnations, o.source), Indexed(digest, e.records, digest(o)), high, o);
    match CheckLineage(cfg, e.sources[o.source], Seen(e.incarnations, o.source), Indexed(digest, e.records, digest(o)), high, o)
    case Replay =>
    case Refuse(code, reason) =>
      FinishIsSame(cfg, big, digest, e.(sources := BumpFenced(e.sources, o.source)), a, code, reason);
    case Pass => IngestClaimsIsSame(cfg, big, digest, epoch, e, a);
  }

  lemma InputIsSame(cfg: Config, big: Config, o: Observation, now: i64)
    requires Widens(cfg, big)
    ensures CheckInput(cfg, o, now) == CheckInput(big, o, now)
  {
    hide Validate;
  }

  lemma AdmitKeeps(cfg: Config, sources: map<u128, SourceState>, o: Observation)
    requires Admit(cfg, sources, o).Ok?
    ensures var m := Admit(cfg, sources, o).value; sources.Keys <= m.Keys && |sources| <= |m|
  {
    hide Ordering.Sort, AdjacentTwins;
    KeysGrow(sources, Admit(cfg, sources, o).value);
  }

  /** With room for another source, only a source that is really added can meet the bound. */
  lemma AdmitIsSame(cfg: Config, big: Config, sources: map<u128, SourceState>, o: Observation)
    requires Widens(cfg, big) && (o.source in sources || |sources| < big.maxSources)
    ensures Admit(cfg, sources, o) == Admit(big, sources, o)
         || (Admit(cfg, sources, o) == Err(ResourceExhausted) && |sources| >= cfg.maxSources
             && Admit(big, sources, o).Ok? && |Admit(big, sources, o).value| == |sources| + 1)
  {
    hide Ordering.Sort, AdjacentTwins, ValidAuthorityName;
    if Admit(big, sources, o).Ok? && o.source !in sources {
      var m := Admit(big, sources, o).value;
      assert m.Keys == sources.Keys + {o.source};
      assert |m| == |m.Keys| && |sources.Keys + {o.source}| == |sources| + 1;
    }
  }

  lemma IngestKeeps(cfg: Config, digest: Observation -> Digest, epoch: u64, e: Evidence, a: Arrival)
    ensures NotSmaller(e, Ingest(cfg, digest, epoch, e, a).0)
  {
    hide IngestKnown, CheckInput, Admit, Indexed, AlreadyRejected;
    if Admit(cfg, e.sources, a.observation).Ok? {
      AdmitKeeps(cfg, e.sources, a.observation);
      KnownKeeps(cfg, digest, epoch, e.(sources := Admit(cfg, e.sources, a.observation).value), a);
    }
  }

  /** Two configurations that differ in bounds which are not reached take the same step. */
  lemma IngestIsSame(cfg: Config, big: Config, digest: Observation -> Digest, epoch: u64, e: Evidence, a: Arrival)
    requires Widens(cfg, big) && Room(big, e, a)
    requires SnugTables(cfg, e, Ingest(big, digest, epoch, e, a).0, Ingest(cfg, digest, epoch, e, a).0)
    ensures Ingest(cfg, digest, epoch, e, a) == Ingest(big, digest, epoch, e, a)
  {
    hide IngestKnown, CheckInput, Admit, Finish, Widens;
    var o := a.observation;
    InputIsSame(cfg, big, o, a.receivedAt);
    match CheckInput(cfg, o, a.receivedAt)
    case Refuse(code, reason) => FinishIsSame(cfg, big, digest, e, a, code, reason);
    case _ =>
      AdmitIsSame(cfg, big, e.sources, o);
      FlagsAgree(cfg, big);
      match Admit(big, e.sources, o)
      case Err(code) =>
        FinishIsSame(cfg, big, digest, e, a, code, if cfg.autoRegister then RegistrationFailed(code) else NotRegistered(o.source));
      case Ok(m) =>
        KnownKeeps(big, digest, epoch, e.(sources := m), a);
        if Admit(cfg, e.sources, o) == Err(ResourceExhausted) {
          NothingElseAdmits(cfg, digest, epoch, e, a);
        }
        IngestKnownIsSame(cfg, big, digest, epoch, e.(sources := m), a);
  }

  lemma FlagsAgree(cfg: Config, big: Config)
    requires Widens(cfg, big)
    ensures cfg.autoRegister == big.autoRegister
  {
  }

  /** Turned away for lack of room, a source is not there afterwards. */
  lemma NothingElseAdmits(cfg: Config, digest: Observation -> Digest, epoch: u64, e: Evidence, a: Arrival)
    requires !CheckInput(cfg, a.observation, a.receivedAt).Refuse? && Admit(cfg, e.sources, a.observation) == Err(ResourceExhausted)
    ensures Ingest(cfg, digest, epoch, e, a).0.sources == e.sources
  {
    hide CheckInput, Admit, Indexed, RecordRejection;
  }

  // ---- what the bounds guarantee ----

  /** No table is longer than it was, or than its bound. */
  ghost predicate Bounded(cfg: Config, e: Evidence, e1: Evidence) {
    && |e1.sources| <= Max(cfg.maxSources, |e.sources|)
    && |e1.records| <= Max(cfg.maxEvidence, |e.records|)
    && |e1.rejected| <= Max(cfg.maxRejections, |e.rejected|)
    && |e1.fencedClaims| <= Max(cfg.maxRejections, |e.fencedClaims|)
    && |e1.revisions| <= Max(cfg.maxSubjects, |e.revisions|)
  }

  lemma NoteBounded(cfg: Config, m: map<RevisionKey, u64>, key: RevisionKey, revision: u64)
    ensures |NoteRevision(cfg, m, key, revision)| <= Max(cfg.maxSubjects, |m|)
  {
    if key in m {
      assert m[key := revision].Keys == m.Keys;
    } else {
      assert m[key := revision].Keys == m.Keys + {key};
    }
  }

  lemma {:induction false} FoldBounded(cfg: Config, digest: Observation -> Digest, declared: seq<Text>, o: Observation, now: i64, f: ClaimFold, cs: seq<Claim>)
    ensures var g := FoldClaims(cfg, digest, declared, o, now, f, cs);
            && |g.fencedClaims| <= Max(cfg.maxRejections, |f.fencedClaims|)
            && |g.revisions| <= Max(cfg.maxSubjects, |f.revisions|)
  {
    hide CheckClaim, AlreadyFenced, NoteRevision;
    if cs != [] {
      var front, c := cs[..|cs| - 1], cs[|cs| - 1];
      FoldBounded(cfg, digest, declared, o, now, f, front);
      NoteBounded(cfg, FoldClaims(cfg, digest, declared, o, now, f, front).revisions, KeyOf(o, c), c.revision);
    }
  }

  lemma ClaimsBounded(cfg: Config, digest: Observation -> Digest, epoch: u64, e: Evidence, a: Arrival)
    requires a.observation.source in e.sources
    ensures Bounded(cfg, e, IngestClaims(cfg, digest, epoch, e, a).0)
  {
    hide FoldClaims, Evict, DropCount, PushWindow, AcceptSource, Indexed, AlreadyRejected;
    var o := a.observation;
    FoldBounded(cfg, digest, e.sources[o.source].descriptor.aspects, o, a.receivedAt, StartFold(e), o.claims);
    UpdateKeepsSize(e.sources, o.source, AcceptSource(e.sources[o.source], a));
    UpdateKeepsSize(e.sources, o.source, e.sources[o.source].(fenced := e.sources[o.source].fenced + 1));
    EvictDropsLeast(digest, e.records + [NewRecord(a, epoch)], cfg.maxEvidence);
  }

  lemma KnownBounded(cfg: Config, digest: Observation -> Digest, epoch: u64, e: Evidence, a: Arrival)
    requires a.observation.source in e.sources
    ensures Bounded(cfg, e, IngestKnown(cfg, digest, epoch, e, a).0)
  {
    hide IngestClaims, CheckLineage, Indexed, HighWater, AlreadyRejected;
    var s := a.observation.source;
    ClaimsBounded(cfg, digest, epoch, e, a);
    UpdateKeepsSize(e.sources, s, e.sources[s].(fenced := e.sources[s].fenced + 1));
    UpdateKeepsSize(e.sources, s, e.sources[s].(duplicates := e.sources[s].duplicates + 1));
  }

  lemma AdmitBounded(cfg: Config, sources: map<u128, SourceState>, o: Observation)
    requires Admit(cfg, sources, o).Ok?
    ensures |Admit(cfg, sources, o).value| <= Max(cfg.maxSources, |sources|)
  {
    hide Ordering.Sort, AdjacentTwins, ValidAuthorityName;
    var m := Admit(cfg, sources, o).value;
    if o.source !in sources {
      assert m.Keys == sources.Keys + {o.source};
      assert |m| == |m.Keys|;
    }
  }

  lemma IngestBounded(cfg: Config, digest: Observation -> Digest, epoch: u64, e: Evidence, a: Arrival)
    ensures Bounded(cfg, e, Ingest(cfg, digest, epoch, e, a).0)
  {
    hide IngestKnown, CheckInput, Admit, Indexed, AlreadyRejected;
    if Admit(cfg, e.sources, a.observation).Ok? {
      AdmitBounded(cfg, e.sources, a.observation);
      KnownBounded(cfg, digest, epoch, e.(sources := Admit(cfg, e.sources, a.observation).value), a);
    }
  }

  lemma {:induction false} RunBounded(cfg: Config, digest: Observation -> Digest, epoch: u64, e: Evidence, w: seq<Arrival>)
    ensures Bounded(cfg, e, Run(cfg, digest, epoch, e, w))
  {
    hide Ingest;
    if w != [] {
      RunBounded(cfg, digest, epoch, e, w[..|w| - 1]);
      IngestBounded(cfg, digest, epoch, Run(cfg, digest, epoch, e, w[..|w| - 1]), w[|w| - 1]);
    }
  }

  lemma {:induction false} RunKeeps(cfg: Config, digest: Observation -> Digest, epoch: u64, e: Evidence, w: seq<Arrival>)
    ensures NotSmaller(e, Run(cfg, digest, epoch, e, w))
  {
    hide Ingest;
    if w != [] {
      RunKeeps(cfg, digest, epoch, e, w[..|w| - 1]);
      IngestKeeps(cfg, digest, epoch, Run(cfg, digest, epoch, e, w[..|w| - 1]), w[|w| - 1]);
    }
  }

  /** With room to spare, records are only added. */
  lemma RoomyRecords(big: Config, digest: Observation -> Digest, epoch: u64, e: Evidence, a: Arrival)
    requires Room(big, e, a)
    ensures var e1 := Ingest(big, digest, epoch, e, a).0;
            e1.evicted == e.evicted && |e.records| <= |e1.records| <= |e.records| + 1 && e.records <= e1.records
  {
    hide CheckInput, Register, CheckLineage, IngestClaims, Indexed, RecordRejection;
    if Admit(big, e.sources, a.observation).Ok? {
      RoomyClaims(big, digest, epoch, e.(sources := Admit(big, e.sources, a.observation).value), a);
    }
  }

  lemma RoomyClaims(big: Config, digest: Observation -> Digest, epoch: u64, e: Evidence, a: Arrival)
    requires |e.records| < big.maxEvidence && a.observation.source in e.sources
    ensures var e1 := IngestClaims(big, digest, epoch, e, a).0;
            e1.evicted == e.evicted && |e.records| <= |e1.records| <= |e.records| + 1 && e.records <= e1.records
  {
    hide FoldClaims, Indexed, RecordRejection, AcceptSource, PushWindow, KeepRest, Dropped;
  }

  // ---- whole runs ----

  lemma SpaciousWidens(cfg: Config, e: Evidence, w: seq<Arrival>)
    ensures Widens(cfg, Spacious(cfg, e, w)) && Fits(Spacious(cfg, e, w), e, w)
  {
    SourceCount(e.sources.Keys, w);
  }

  lemma {:induction false} SourceCount(known: set<u128>, w: seq<Arrival>)
    ensures |known + SourcesOf(w)| <= |known| + |w|
  {
    if w == [] {
      assert known + SourcesOf(w) == known;
    } else {
      var front, a := w[..|w| - 1], w[|w| - 1];
      assert w == front + [a];
      SourceCount(known, front);
      TotalsStep(front, a);
      assert known + SourcesOf(w) == (known + SourcesOf(front)) + {a.observation.source};
    }
  }

  lemma {:induction false} RunSizes(cfg: Config, digest: Observation -> Digest, epoch: u64, e: Evidence, w: seq<Arrival>)
    ensures SizesWithin(e, Run(cfg, digest, epoch, e, w), w)
  {
    hide Ingest, SizesWithin, Grows;
    if w == [] {
      EmptyRun(e);
    } else {
      var front, a := w[..|w| - 1], w[|w| - 1];
      assert w == front + [a];
      var mid := Run(cfg, digest, epoch, e, front);
      RunSizes(cfg, digest, epoch, e, front);
      IngestGrows(cfg, digest, epoch, mid, a);
      StepSizes(cfg, digest, e, mid, Ingest(cfg, digest, epoch, mid, a).0, front, a);
    }
  }

  /** Two configurations that differ in bounds which are not reached take the same run. */
  lemma {:induction false} RunIsSame(cfg: Config, big: Config, digest: Observation -> Digest, epoch: u64, e: Evidence, w: seq<Arrival>)
    requires Widens(cfg, big) && Fits(big, e, w)
    requires SnugTables(cfg, e, Run(big, digest, epoch, e, w), Run(cfg, digest, epoch, e, w))
    ensures Run(cfg, digest, epoch, e, w) == Run(big, digest, epoch, e, w)
    ensures Run(big, digest, epoch, e, w).evicted == e.evicted && |e.records| <= |Run(big, digest, epoch, e, w).records|
  {
    hide Ingest, Widens, Fits, Room, SizesWithin;
    if w != [] {
      var front, a := w[..|w| - 1], w[|w| - 1];
      assert w == front + [a];
      var b, s := Run(big, digest, epoch, e, front), Run(cfg, digest, epoch, e, front);
      RunSizes(big, digest, epoch, e, front);
      RoomForNext(big, e, b, front, a);
      RoomyRecords(big, digest, epoch, b, a);
      IngestKeeps(big, digest, epoch, b, a);
      IngestKeeps(cfg, digest, epoch, s, a);
      RunKeeps(big, digest, epoch, e, front);
      RunKeeps(cfg, digest, epoch, e, front);
      RoomyRun(big, digest, epoch, e, front);
      RunIsSame(cfg, big, digest, epoch, e, front);
      IngestIsSame(cfg, big, digest, epoch, b, a);
    }
  }

  lemma {:induction false} RoomyRun(big: Config, digest: Observation -> Digest, epoch: u64, e: Evidence, w: seq<Arrival>)
    requires Fits(big, e, w)
    ensures Run(big, digest, epoch, e, w).evicted == e.evicted && |e.records| <= |Run(big, digest, epoch, e, w).records|
  {
    hide Ingest, Fits, Room, SizesWithin;
    if w != [] {
      var front, a := w[..|w| - 1], w[|w| - 1];
      assert w == front + [a];
      var b := Run(big, digest, epoch, e, front);
      RunSizes(big, digest, epoch, e, front);
      RoomForNext(big, e, b, front, a);
      RoomyRun(big, digest, epoch, e, front);
      RoomyRecords(big, digest, epoch, b, a);
    }
  }

  /** The tables a run would fill with room to spare are within the bounds, or not filled at all. */
  predicate FitsAfter(cfg: Config, e: Evidence, e1: Evidence) {
    && (|e1.sources| <= cfg.maxSources || |e1.sources| == |e.sources|)
    && (|e1.records| <= cfg.maxEvidence || |e1.records| == |e.records|)
    && (|e1.rejected| <= cfg.maxRejections || |e1.rejected| == |e.rejected|)
    && (|e1.fencedClaims| <= cfg.maxRejections || |e1.fencedClaims| == |e.fencedClaims|)
    && (|e1.revisions| <= cfg.maxSubjects || |e1.revisions| == |e.revisions|)
  }

  /** That the bounds made no difference to how the run ended means exactly that none was ever reached. */
  lemma IdleMeansFits(cfg: Config, digest: Observation -> Digest, epoch: u64, e: Evidence, w: seq<Arrival>)
    ensures BoundsIdle(cfg, digest, epoch, e, w) <==> FitsAfter(cfg, e, Run(Spacious(cfg, e, w), digest, epoch, e, w))
    ensures BoundsIdle(cfg, digest, epoch, e, w) ==> Run(cfg, digest, epoch, e, w).evicted == e.evicted
  {
    hide Run, Spacious;
    var big := Spacious(cfg, e, w);
    SpaciousWidens(cfg, e, w);
    RunBounded(cfg, digest, epoch, e, w);
    RunKeeps(big, digest, epoch, e, w);
    RoomyRun(big, digest, epoch, e, w);
    if FitsAfter(cfg, e, Run(big, digest, epoch, e, w)) {
      RunIsSame(cfg, big, digest, epoch, e, w);
    }
  }

  /** Readable off the tables after the run: below every bound, and nothing evicted. */
  lemma TablesBelowBounds(cfg: Config, digest: Observation -> Digest, epoch: u64, e: Evidence, w: seq<Arrival>)
    requires var e1 := Run(cfg, digest, epoch, e, w);
             && |e1.sources| < cfg.maxSources && |e1.rejected| < cfg.maxRejections && |e1.fencedClaims| < cfg.maxRejections
             && |e1.revisions| < cfg.maxSubjects && e1.evicted == e.evicted
    ensures BoundsIdle(cfg, digest, epoch, e, w)
  {
    hide Run, Spacious;
    SpaciousWidens(cfg, e, w);
    RunIsSame(cfg, Spacious(cfg, e, w), digest, epoch, e, w);
  }

  /** Checkable before the run. */
  lemma FittingRunsAreIdle(cfg: Config, digest: Observation -> Digest, epoch: u64, e: Evidence, w: seq<Arrival>)
    requires Fits(cfg, e, w)
    ensures BoundsIdle(cfg, digest, epoch, e, w)
  {
    hide Run, Spacious;
    var e1 := Run(Spacious(cfg, e, w), digest, epoch, e, w);
    RunSizes(Spacious(cfg, e, w), digest, epoch, e, w);
    Ordering.SubsetSize(e1.sources.Keys, e.sources.Keys + SourcesOf(w));
    assert |e1.sources| == |e1.sources.Keys|;
    IdleMeansFits(cfg, digest, epoch, e, w);
  }

  // ---- one source at a time ----

  lemma RoomInSpacious(cfg: Config, e: Evidence, a: Arrival)
    ensures Widens(cfg, Spacious(cfg, e, [a])) && Room(Spacious(cfg, e, [a]), e, a)
  {
    assert [a][..0] == [];
    assert ClaimTotal([a]) == |a.observation.claims|;
  }

  /** With room to spare, tables only get longer at the end. */
  ghost predicate Extends(e: Evidence, e1: Evidence) {
    && e.records <= e1.records && e.rejected <= e1.rejected && e.fencedClaims <= e1.fencedClaims
    && e.sources.Keys <= e1.sources.Keys && e.revisions.Keys <= e1.revisions.Keys
  }

  lemma {:induction false} FoldExtends(big: Config, digest: Observation -> Digest, declared: seq<Text>, o: Observation, now: i64, f: ClaimFold, cs: seq<Claim>)
    requires |f.fencedClaims| + |cs| <= big.maxRejections
    ensures f.fencedClaims <= FoldClaims(big, digest, declared, o, now, f, cs).fencedClaims
  {
    hide CheckClaim, AlreadyFenced, NoteRevision;
    if cs != [] {
      FoldExtends(big, digest, declared, o, now, f, cs[..|cs| - 1]);
      FoldClaimsGrows(big, digest, declared, o, now, f, cs[..|cs| - 1]);
    }
  }

  lemma IngestExtends(big: Config, digest: Observation -> Digest, epoch: u64, e: Evidence, a: Arrival)
    requires Room(big, e, a)
    ensures Extends(e, Ingest(big, digest, epoch, e, a).0)
  {
    hide CheckInput, Admit, CheckLineage, IngestClaims, Indexed, AlreadyRejected;
    RoomyRecords(big, digest, epoch, e, a);
    IngestKeeps(big, digest, epoch, e, a);
    if Admit(big, e.sources, a.observation).Ok? {
      ClaimsExtend(big, digest, epoch, e.(sources := Admit(big, e.sources, a.observation).value), a);
    }
  }

  lemma ClaimsExtend(big: Config, digest: Observation -> Digest, epoch: u64, e: Evidence, a: Arrival)
    requires Room(big, e, a) && a.observation.source in e.sources
    ensures var e1 := IngestClaims(big, digest, epoch, e, a).0; e.rejected <= e1.rejected && e.fencedClaims <= e1.fencedClaims
  {
    hide FoldClaims, Evict, DropCount, PushWindow, AcceptSource, Indexed, AlreadyRejected;
    FoldExtends(big, digest, e.sources[a.observation.source].descriptor.aspects, a.observation, a.receivedAt, StartFold(e), a.observation.claims);
  }

  lemma FilteredFits<T>(a: seq<T>, b: seq<T>, keep: T -> bool, bound: nat)
    requires a <= b && (|b| <= bound || |b| == |a|)
    ensures |Ordering.Filter(b, keep)| <= bound || |Ordering.Filter(b, keep)| == |Ordering.Filter(a, keep)|
  {
    Ordering.FilterLength(b, keep);
    if |b| == |a| {
      assert a == b;
    }
  }

  lemma OnlyCount<T>(m: map<u128, T>, s: u128)
    ensures |Only(m, s)| <= |m|
    ensures s in m ==> |Only(m, s)| == 1
    ensures s !in m ==> |Only(m, s)| == 0
  {
    KeysGrow(Only(m, s), m);
  }

  /** Restricted to one source, the tables of both states are within the bounds where the full ones are. */
  lemma FitsRestricted(cfg: Config, e: Evidence, e1: Evidence, s: u128)
    requires FitsAfter(cfg, e, e1) && Extends(e, e1)
    ensures FitsAfter(cfg, Restrict(e, s), Restrict(e1, s))
  {
    hide Only, RevisionsOf, RecordOf, RejectedOf, FencedOf, Ordering.Filter;
    OnlyCount(e.sources, s);
    OnlyCount(e1.sources, s);
    KeysGrow(e.sources, e1.sources);
    KeysGrow(e.revisions, e1.revisions);
    RestrictedSize(e1.revisions, s);
    RestrictedKeys(e.revisions, e1.revisions, s);
    FilteredFits(e.records, e1.records, RecordOf(s), cfg.maxEvidence);
    FilteredFits(e.rejected, e1.rejected, RejectedOf(s), cfg.maxRejections);
    FilteredFits(e.fencedClaims, e1.fencedClaims, FencedOf(s), cfg.maxRejections);
  }

  lemma RestrictedKeys(a: map<RevisionKey, u64>, b: map<RevisionKey, u64>, s: u128)
    ensures a.Keys == b.Keys ==> |RevisionsOf(a, s)| == |RevisionsOf(b, s)|
  {
    if a.Keys == b.Keys {
      assert RevisionsOf(a, s).Keys == RevisionsOf(b, s).Keys;
    }
  }

  lemma RoomRestricted(big: Config, e: Evidence, a: Arrival)
    requires Room(big, e, a)
    ensures Room(big, Restrict(e, a.observation.source), a)
  {
    hide Only, RevisionsOf, RecordOf, RejectedOf, FencedOf;
    var s := a.observation.source;
    OnlyCount(e.sources, s);
    OnlyLookup(e.sources, s);
    RestrictedSize(e.revisions, s);
    Ordering.FilterLength(e.records, RecordOf(s));
    Ordering.FilterLength(e.rejected, RejectedOf(s));
    Ordering.FilterLength(e.fencedClaims, FencedOf(s));
  }

  /** One step of the engine commutes with looking at a single source, and is invisible to the others,
      whenever no bound is reached by it. */
  lemma IngestLocal(cfg: Config, digest: Observation -> Digest, epoch: u64, e: Evidence, a: Arrival)
    requires StepIdle(cfg, digest, epoch, e, a) && !cfg.strictGeneration && Separated(digest, e, a.observation)
    ensures var s, (e1, out) := a.observation.source, Ingest(cfg, digest, epoch, e, a);
            && Ingest(cfg, digest, epoch, Restrict(e, s), a) == (Restrict(e1, s), out)
            && Untouched(e, e1, s)
  {
    hide Ingest, Restrict, Spacious, Room, Untouched;
    var s, big := a.observation.source, Spacious(cfg, e, [a]);
    var (e1, out) := Ingest(cfg, digest, epoch, e, a);
    RoomInSpacious(cfg, e, a);
    RoomyStepIsLocal(big, digest, epoch, e, a);
    IngestBounded(cfg, digest, epoch, e, a);
    IngestKeeps(big, digest, epoch, e, a);
    RoomyRecords(big, digest, epoch, e, a);
    IngestExtends(big, digest, epoch, e, a);
    FitsRestricted(cfg, e, e1, s);
    RoomRestricted(big, e, a);
    IngestIsSame(cfg, big, digest, epoch, Restrict(e, s), a);
  }

  // ---- two interleavings ----

  lemma SpaciousAlike(cfg: Config, e: Evidence, w1: seq<Arrival>, w2: seq<Arrival>)
    requires multiset(w1) == multiset(w2)
    ensures Spacious(cfg, e, w1) == Spacious(cfg, e, w2)
  {
    ClaimTotalPermuted(w1, w2);
    assert |multiset(w1)| == |w1| && |multiset(w2)| == |w2|;
  }

  lemma EquivalentSizes(cfg: Config, e: Evidence, e1: Evidence, e2: Evidence)
    requires Equivalent(e1, e2) && FitsAfter(cfg, e, e1)
    ensures FitsAfter(cfg, e, e2)
  {
    assert |multiset(e1.records)| == |e1.records| && |multiset(e2.records)| == |e2.records|;
    assert |multiset(e1.rejected)| == |e1.rejected| && |multiset(e2.rejected)| == |e2.rejected|;
    assert |multiset(e1.fencedClaims)| == |e1.fencedClaims| && |multiset(e2.fencedClaims)| == |e2.fencedClaims|;
  }

  /** The accepted evidence, the refusals and every source's lineage depend only on what each source
      sent, never on the order in which the sources were heard from, unless a bound is reached; and
      whether one is reached does not depend on that order either. */
  lemma InterleavingIndependence(cfg: Config, digest: Observation -> Digest, epoch: u64, e: Evidence, w1: seq<Arrival>, w2: seq<Arrival>, pool: set<Observation>)
    requires SameStreams(w1, w2)
    requires BoundsIdle(cfg, digest, epoch, e, w1) && !cfg.strictGeneration
    requires Drawn(w1, pool) && DigestsSeparate(digest, e, pool)
    ensures BoundsIdle(cfg, digest, epoch, e, w2)
    ensures Equivalent(Run(cfg, digest, epoch, e, w1), Run(cfg, digest, epoch, e, w2))
    ensures forall s :: Restrict(Run(cfg, digest, epoch, e, w1), s) == Restrict(Run(cfg, digest, epoch, e, w2), s)
  {
    hide Run, Restrict, Spacious, DigestsSeparate, Equivalent, FitsAfter, Fits;
    var big := Spacious(cfg, e, w1);
    SameStreamsSameArrivals(w1, w2);
    SpaciousAlike(cfg, e, w1, w2);
    SpaciousWidens(cfg, e, w1);
    RoomyInterleavings(big, digest, epoch, e, w1, w2, pool);
    IdleMeansFits(cfg, digest, epoch, e, w1);
    EquivalentSizes(cfg, e, Run(big, digest, epoch, e, w1), Run(big, digest, epoch, e, w2));
    IdleMeansFits(cfg, digest, epoch, e, w2);
  }
}
