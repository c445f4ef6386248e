/** Composition of the retained evidence into one canonical view (src/snapshot.cpp). */
module Snapshots {
  import opened Bytes
  import opened Observations
  import opened Truth
  import Ids
  import Observatories
  import Ordering
  import Values

  datatype Policy = Policy(
    freshness: FreshnessPolicy,
    truth: TruthPolicy,
    maxSources: nat,
    maxSubjects: nat,
    maxClaimsPerAspect: nat,
    maxRejections: nat,
    autoAuthority: nat)

  datatype SourceSummary = SourceSummary(
    id: u128,
    name: Text,
    authorityName: Text,
    maxAuthority: nat,
    incarnation: u128,
    bootTime: i64,
    bootCounter: nat,
    lastSequence: u64,
    firstReceive: i64,
    lastReceive: i64,
    lastObservation: i64,
    lastGeneration: u64,
    lastEpoch: u64,
    accepted: nat,
    retained: nat,
    freshness: Freshness,
    recovered: bool)

  datatype Request = Request(
    fabric: u128,
    policy: Policy,
    evaluationTime: i64,
    restartEpoch: u64,
    restartCount: u32,
    records: seq<ObservationRecord>,
    rejected: seq<Observatories.Rejected>,
    fencedClaims: seq<Observatories.FencedClaim>,
    sources: seq<SourceSummary>,
    evidenceTruncated: bool)

  datatype AspectState = AspectState(
    aspect: Text,
    truth: TruthState,
    agreed: Option<Values.Value>,
    claims: seq<ClaimRecord>,
    conflicts: seq<ConflictGroup>,
    coverage: CoverageReport,
    claimsTruncated: bool)

  datatype SubjectState = SubjectState(
    identity: Ids.SubjectIdentity,
    parent: Option<u128>,
    topologyTruth: TruthState,
    worst: TruthState,
    aspects: seq<AspectState>)

  datatype Snapshot = Snapshot(
    fabric: u128,
    generation: u64,
    epoch: u64,
    evaluationTime: i64,
    observedHigh: i64,
    receivedHigh: i64,
    receivedLow: i64,
    restartEpoch: u64,
    restartCount: u32,
    subjects: seq<SubjectState>,
    sources: seq<SourceSummary>,
    rejected: seq<Observatories.Rejected>,
    fencedClaims: seq<Observatories.FencedClaim>,
    evidenceRecords: nat,
    evidenceTruncated: bool,
    rejectedTruncated: bool)

  // ---- canonical record order ----

  function RecordLe(digest: Observation -> Digest, a: ObservationRecord, b: ObservationRecord): bool {
    var x, y := a.observation, b.observation;
    if x.source != y.source then x.source < y.source
    else if x.incarnation != y.incarnation then x.incarnation < y.incarnation
    else if x.sequence != y.sequence then x.sequence < y.sequence
    else digest(x) <= digest(y)
  }

  function RecordOrder(digest: Observation -> Digest): (ObservationRecord, ObservationRecord) -> bool {
    (a, b) => RecordLe(digest, a, b)
  }

  /** Ties in every field keep the order they arrived in: the index breaks them, and the sort is stable. */
  function InOrder(digest: Observation -> Digest, records: seq<ObservationRecord>): seq<ObservationRecord> {
    Ordering.Sort(records, RecordOrder(digest))
  }

  // ---- what the whole evidence says about generations, incarnations and times ----

  function EpochWithin(rs: seq<ObservationRecord>, generation: u64): u64 {
    if rs == [] then 0
    else
      var before, o := EpochWithin(rs[..|rs| - 1], generation), rs[|rs| - 1].observation;
      if o.generation == generation && before < o.epoch then o.epoch else before
  }

  datatype Cursor = Cursor(received: i64, id: u128)

  /** The most recently received incarnation of a source is the current one; the identity breaks ties. */
  predicate CursorNewer(candidate: Cursor, current: Option<Cursor>) {
    match current
    case None => true
    case Some(c) => if candidate.received != c.received then c.received < candidate.received else c.id < candidate.id
  }

  function StepCursor(cursors: map<u128, Cursor>, r: ObservationRecord): map<u128, Cursor> {
    var s := r.observation.source;
    var candidate := Cursor(r.receivedAt, r.observation.incarnation);
    if CursorNewer(candidate, if s in cursors then Some(cursors[s]) else None) then cursors[s := candidate] else cursors
  }

  function CursorsOf(rs: seq<ObservationRecord>): map<u128, Cursor> {
    if rs == [] then map[] else StepCursor(CursorsOf(rs[..|rs| - 1]), rs[|rs| - 1])
  }

  datatype Waters = Waters(observedHigh: i64, receivedHigh: i64, receivedLow: i64)

  function StepWaters(w: Waters, first: bool, r: ObservationRecord): Waters {
    Waters(if w.observedHigh < r.observation.observedAt then r.observation.observedAt else w.observedHigh,
           if w.receivedHigh < r.receivedAt then r.receivedAt else w.receivedHigh,
           if first || r.receivedAt < w.receivedLow then r.receivedAt else w.receivedLow)
  }

  function WatersOf(rs: seq<ObservationRecord>): Waters {
    if rs == [] then Waters(0, 0, 0) else StepWaters(WatersOf(rs[..|rs| - 1]), |rs| == 1, rs[|rs| - 1])
  }

  // ---- lookup tables: the first entry of a key wins ----

  datatype FenceKey = FenceKey(id: Digest, subject: u128, aspect: Text)

  function KeyOfFence(f: Observatories.FencedClaim): FenceKey { FenceKey(f.observationId, f.subject.id, f.aspect) }

  function FenceTable(fs: seq<Observatories.FencedClaim>): map<FenceKey, StatusCode> {
    if fs == [] then map[]
    else
      var before, f := FenceTable(fs[..|fs| - 1]), fs[|fs| - 1];
      if KeyOfFence(f) in before then before else before[KeyOfFence(f) := f.fence]
  }

  function AuthorityTable(ss: seq<SourceSummary>): map<u128, nat> {
    if ss == [] then map[]
    else
      var before, s := AuthorityTable(ss[..|ss| - 1]), ss[|ss| - 1];
      if s.id in before then before else before[s.id := s.maxAuthority]
  }

  // ---- claims with their classification ----

  /** Everything the classification of one claim depends on besides its own record. */
  datatype Frame = Frame(
    policy: Policy,
    evaluation: i64,
    generation: u64,
    epoch: u64,
    cursors: map<u128, Cursor>,
    authorities: map<u128, nat>,
    fences: map<FenceKey, StatusCode>)

  function Classify(digest: Observation -> Digest, f: Frame, r: ObservationRecord, c: Claim): ClaimRecord {
    var o := r.observation;
    var key := FenceKey(digest(o), c.subject.id, c.aspect);
    ClaimRecord(
      o.source, o.incarnation,
      if o.source in f.authorities then f.authorities[o.source] else f.policy.autoAuthority,
      o.sequence, c.revision, c.value, c.supported,
      EvaluateFreshness(EvidenceTime(o.observedAt, r.receivedAt), f.evaluation, f.policy.freshness, r.recovered),
      o.observedAt, r.receivedAt, r.recovered, r.recoveryEpoch,
      o.generation < f.generation,
      o.generation == f.generation && o.epoch < f.epoch,
      o.source in f.cursors && f.cursors[o.source].id != o.incarnation,
      false,
      if key in f.fences then Some(f.fences[key]) else None,
      digest(o))
  }

  datatype Placed = Placed(subject: Ids.SubjectIdentity, aspect: Text, claim: ClaimRecord)

  function PlacedClaim(digest: Observation -> Digest, f: Frame, r: ObservationRecord, c: Claim): Placed {
    Placed(c.subject, c.aspect, Classify(digest, f, r, c))
  }

  function RecordClaims(digest: Observation -> Digest, f: Frame, r: ObservationRecord, cs: seq<Claim>): (ps: seq<Placed>)
    ensures |ps| == |cs|
  {
    seq(|cs|, i requires 0 <= i < |cs| => PlacedClaim(digest, f, r, cs[i]))
  }

  function AllClaims(digest: Observation -> Digest, f: Frame, rs: seq<ObservationRecord>): seq<Placed> {
    if rs == [] then []
    else
      AllClaims(digest, f, rs[..|rs| - 1]) + RecordClaims(digest, f, rs[|rs| - 1], rs[|rs| - 1].observation.claims)
  }

  // ---- buckets ----

  datatype Bucket = Bucket(identity: Ids.SubjectIdentity, aspects: map<Text, seq<ClaimRecord>>)

  datatype Buckets = Buckets(table: map<u128, Bucket>, truncated: bool)

  function WorkingSetCap(policy: Policy): nat { policy.maxSources * policy.maxClaimsPerAspect + policy.maxClaimsPerAspect }

  function ClaimsAt(b: Bucket, aspect: Text): seq<ClaimRecord> { if aspect in b.aspects then b.aspects[aspect] else [] }

  function Put(policy: Policy, b: Bucket, p: Placed): Bucket {
    var claims := ClaimsAt(b, p.aspect);
    b.(aspects := b.aspects[p.aspect := if |claims| >= WorkingSetCap(policy) then claims else claims + [p.claim]])
  }

  function Place(policy: Policy, b: Buckets, p: Placed): Buckets {
    var id := p.subject.id;
    if id !in b.table && |b.table| >= policy.maxSubjects then b.(truncated := true)
    else b.(table := b.table[id := Put(policy, if id in b.table then b.table[id] else Bucket(p.subject, map[]), p)])
  }

  function PlaceAll(policy: Policy, ps: seq<Placed>): Buckets {
    if ps == [] then Buckets(map[], false) else Place(policy, PlaceAll(policy, ps[..|ps| - 1]), ps[|ps| - 1])
  }

  // ---- the latest statement of each source incarnation ----

  predicate Later(candidate: ClaimRecord, incumbent: ClaimRecord) {
    || candidate.sequence > incumbent.sequence
    || (candidate.sequence == incumbent.sequence && incumbent.observationId < candidate.observationId)
  }

  datatype Speaker = Speaker(source: u128, incarnation: u128)

  function SpeakerOf(c: ClaimRecord): Speaker { Speaker(c.source, c.incarnation) }

  /** For each speaker, the position of its latest statement; of equally late ones, the first. */
  function LatestOf(cs: seq<ClaimRecord>): (m: map<Speaker, nat>)
    ensures forall k :: k in m ==> m[k] < |cs|
    ensures forall c :: c in cs ==> SpeakerOf(c) in m
  {
    if cs == [] then map[]
    else
      var n, k := |cs| - 1, SpeakerOf(cs[|cs| - 1]);
      var before := LatestOf(cs[..n]);
      if k !in before || Later(cs[n], cs[before[k]]) then before[k := n] else before
  }

  function MarkLatest(cs: seq<ClaimRecord>): (r: seq<ClaimRecord>)
    ensures |r| == |cs|
  {
    var latest := LatestOf(cs);
    seq(|cs|, i requires 0 <= i < |cs| =>
      if latest[SpeakerOf(cs[i])] != i then cs[i].(olderSequence := true) else cs[i])
  }

  // ---- the order of retained claims, and which are kept when there are too many ----

  function Flag(b: bool): int { if b then 1 else 0 }

  function CodeValue(c: StatusCode): int {
    match c
    case StatusOk => 0
    case InvalidArgument => 1
    case OutOfRange => 2
    case Unsupported => 5
    case ResourceExhausted => 7
    case QueueFull => 8
    case TooLarge => 9
    case DepthExceeded => 11
    case MalformedInput => 12
    case VersionMismatch => 14
    case Corrupt => 15
    case FencedSequence => 16
    case FencedIncarnation => 17
    case FencedStaleGeneration => 18
    case FencedStaleEpoch => 19
    case FencedAuthority => 20
    case FencedRevision => 21
    case FencedDuplicateContent => 22
    case ClockInconsistent => 23
    case FabricMismatch => 24
    case SourceUnknown => 25
    case ShuttingDown => 28
  }

  function FreshnessRank(f: Freshness): int {
    match f case Fresh => 0 case Aging => 1 case Stale => 2
  }

  function TruthRank(t: TruthState): int {
    match t
    case Unknown => 0 case Unsupported => 1 case Conflicting => 2 case Stale => 3 case Incomplete => 4 case Known => 5
  }

  /** The fields before the value, in declaration order. */
  function Head(c: ClaimRecord): seq<int> { [c.source, c.incarnation, c.authority, c.sequence, c.revision] }

  function FenceValue(f: Option<StatusCode>): int { match f case None => -1 case Some(c) => CodeValue(c) }

  function Tail(c: ClaimRecord): seq<int> {
    [Flag(c.supported), FreshnessRank(c.freshness), c.observedAt, c.receivedAt, Flag(c.recovered), c.recoveryEpoch,
     Flag(c.olderGeneration), Flag(c.olderEpoch), Flag(c.olderIncarnation), Flag(c.olderSequence), FenceValue(c.fence),
     c.observationId]
  }

  function CompareInts(a: seq<int>, b: seq<int>): int
    decreases |a|
  {
    if a == [] then (if b == [] then 0 else -1)
    else if b == [] then 1
    else if a[0] != b[0] then CompareInt(a[0], b[0])
    else CompareInts(a[1..], b[1..])
  }

  /** The defaulted comparison of claim records: field by field. */
  function ClaimRecordLe(a: ClaimRecord, b: ClaimRecord): bool {
    if Head(a) != Head(b) then CompareInts(Head(a), Head(b)) < 0
    else if a.value != b.value then Values.Compare(a.value, b.value) < 0
    else CompareInts(Tail(a), Tail(b)) <= 0
  }

  /** Current before superseded, fresher before staler, higher sequence first; positions break ties. */
  function RankLe(a: ClaimRecord, b: ClaimRecord): bool {
    if IsCurrent(a) != IsCurrent(b) then IsCurrent(a)
    else if a.freshness != b.freshness then FreshnessRank(a.freshness) < FreshnessRank(b.freshness)
    else b.sequence <= a.sequence
  }

  function Retain(policy: Policy, cs: seq<ClaimRecord>): seq<ClaimRecord> {
    var sorted := Ordering.Sort(cs, ClaimRecordLe);
    if |sorted| > policy.maxClaimsPerAspect then
      Ordering.SortContents(sorted, RankLe);
      Ordering.Sort(Ordering.Sort(sorted, RankLe)[..policy.maxClaimsPerAspect], ClaimRecordLe)
    else sorted
  }

  // ---- aspects and subjects ----

  const PARENT_ASPECT: Text := Ascii("topology.parent")

  function MakeAspect(policy: Policy, aspect: Text, cs: seq<ClaimRecord>): AspectState {
    var claims := Retain(policy, MarkLatest(cs));
    var e := Evaluate(CoverageFor(policy.truth, aspect), claims);
    AspectState(aspect, e.truth, e.agreed, claims, e.conflicts, e.coverage, |cs| > policy.maxClaimsPerAspect)
  }

  lemma TextOrderIsTotal()
    ensures Ordering.TotalOrder(Observatories.TextLe)
  {
    forall a: Text, b: Text ensures Observatories.TextLe(a, b) || Observatories.TextLe(b, a) {
      CompareTextLaws(a, b);
    }
    forall a: Text, b: Text | Observatories.TextLe(a, b) && Observatories.TextLe(b, a) ensures a == b {
      CompareTextLaws(a, b);
    }
    forall a: Text, b: Text, c: Text | Observatories.TextLe(a, b) && Observatories.TextLe(b, c) ensures Observatories.TextLe(a, c) {
      CompareTextTransitive(a, b, c);
    }
  }

  function SortedTexts(s: set<Text>): (r: seq<Text>)
    ensures |r| == |s| && (forall x :: x in r <==> x in s)
    ensures forall i, j :: 0 <= i < j < |r| ==> r[i] != r[j]
  {
    TextOrderIsTotal();
    Ordering.Enumerate(s, Observatories.TextLe)
  }

  function AspectsOf(policy: Policy, b: Bucket): (r: seq<AspectState>)
    ensures |r| == |b.aspects.Keys|
  {
    var names := SortedTexts(b.aspects.Keys);
    seq(|names|, i requires 0 <= i < |names| => MakeAspect(policy, names[i], b.aspects[names[i]]))
  }

  /** What a known parent claim names, when its text is a subject identity. */
  function ParentOf(a: AspectState, derive: Text -> u128): Option<u128> {
    if a.truth == Known && a.agreed.Some? && a.agreed.value.Txt? then
      match Ids.ParseTyped(a.agreed.value.text)
      case Ok(t) => Some(Ids.Identify(t, derive).id)
      case Err(_) => None
    else None
  }

  datatype Topology = Topology(parent: Option<u128>, truth: TruthState, worst: TruthState)

  function StepTopology(t: Topology, a: AspectState, derive: Text -> u128): Topology {
    Topology(
      if a.aspect == PARENT_ASPECT && ParentOf(a, derive).Some? then ParentOf(a, derive) else t.parent,
      if a.aspect == PARENT_ASPECT then a.truth else t.truth,
      if TruthRank(a.truth) < TruthRank(t.worst) then a.truth else t.worst)
  }

  function TopologyOf(aspects: seq<AspectState>, derive: Text -> u128): Topology {
    if aspects == [] then Topology(None, Unknown, Known)
    else StepTopology(TopologyOf(aspects[..|aspects| - 1], derive), aspects[|aspects| - 1], derive)
  }

  function MakeSubject(policy: Policy, derive: Text -> u128, b: Bucket): SubjectState {
    var aspects := AspectsOf(policy, b);
    var t := TopologyOf(aspects, derive);
    SubjectState(b.identity, t.parent, t.truth, if aspects == [] then Unknown else t.worst, aspects)
  }

  function SubjectsOf(policy: Policy, derive: Text -> u128, table: map<u128, Bucket>): (r: seq<SubjectState>)
    ensures |r| == |table.Keys|
  {
    var ids := SortedIds(table.Keys);
    seq(|ids|, i requires 0 <= i < |ids| => MakeSubject(policy, derive, table[ids[i]]))
  }

  function SubjectLe(a: SubjectState, b: SubjectState): bool {
    var x, y := Ids.KindOf(a.identity.typed), Ids.KindOf(b.identity.typed);
    if x != y then x < y else a.identity.id <= b.identity.id
  }

  function SummaryLe(a: SourceSummary, b: SourceSummary): bool { a.id <= b.id }

  /** Refusals are kept once per observation, so the observation decides their order. */
  function RejectedLe(a: Observatories.Rejected, b: Observatories.Rejected): bool { a.observationId <= b.observationId }

  /** Fenced claims are kept once per observation, subject and aspect, so these decide their order. */
  function FencedLe(a: Observatories.FencedClaim, b: Observatories.FencedClaim): bool {
    if a.observationId != b.observationId then a.observationId < b.observationId
    else if a.subject != b.subject then Ids.CompareSubject(a.subject, b.subject) < 0
    else CompareText(a.aspect, b.aspect) <= 0
  }

  function Bounded<T>(s: seq<T>, bound: nat): seq<T> { if |s| > bound then s[..bound] else s }

  // ---- the whole view ----

  function MakeFrame(digest: Observation -> Digest, q: Request, sorted: seq<ObservationRecord>): Frame {
    var generation := Observatories.HighWater(sorted);
    Frame(q.policy, q.evaluationTime, generation, EpochWithin(sorted, generation), CursorsOf(sorted),
          AuthorityTable(q.sources), FenceTable(q.fencedClaims))
  }

  function Assemble(q: Request, f: Frame, w: Waters, b: Buckets, derive: Text -> u128): Snapshot {
    Snapshot(
      q.fabric, f.generation, f.epoch, q.evaluationTime, w.observedHigh, w.receivedHigh, w.receivedLow,
      q.restartEpoch, q.restartCount,
      Ordering.Sort(SubjectsOf(q.policy, derive, b.table), SubjectLe),
      Ordering.Sort(q.sources, SummaryLe),
      Bounded(Ordering.Sort(q.rejected, RejectedLe), q.policy.maxRejections),
      Bounded(Ordering.Sort(q.fencedClaims, FencedLe), q.policy.maxRejections),
      |q.records|, q.evidenceTruncated || b.truncated,
      |q.rejected| > q.policy.maxRejections)
  }

  /** Snapshot::build. */
  function Build(digest: Observation -> Digest, derive: Text -> u128, q: Request): Snapshot {
    var sorted := InOrder(digest, q.records);
    var f := MakeFrame(digest, q, sorted);
    Assemble(q, f, WatersOf(sorted), PlaceAll(q.policy, AllClaims(digest, f, sorted)), derive)
  }

  // ---- the same, as the loops the program runs ----

  method ScanGenerations(rs: seq<ObservationRecord>) returns (generation: u64, epoch: u64)
    ensures generation == Observatories.HighWater(rs) && epoch == EpochWithin(rs, generation)
  {
    generation, epoch := 0, 0;
    for i := 0 to |rs|
      invariant generation == Observatories.HighWater(rs[..i])
    {
      assert rs[..i + 1][..i] == rs[..i];
      if generation < rs[i].observation.generation {
        generation := rs[i].observation.generation;
      }
    }
    for i := 0 to |rs|
      invariant epoch == EpochWithin(rs[..i], generation)
    {
      assert rs[..i + 1][..i] == rs[..i];
      var o := rs[i].observation;
      if o.generation == generation && epoch < o.epoch {
        epoch := o.epoch;
      }
    }
    assert rs[..|rs|] == rs;
  }

  method ScanCursors(rs: seq<ObservationRecord>) returns (cursors: map<u128, Cursor>)
    ensures cursors == CursorsOf(rs)
  {
    cursors := map[];
    for i := 0 to |rs|
      invariant cursors == CursorsOf(rs[..i])
    {
      assert rs[..i + 1][..i] == rs[..i];
      var s := rs[i].observation.source;
      var candidate := Cursor(rs[i].receivedAt, rs[i].observation.incarnation);
      if CursorNewer(candidate, if s in cursors then Some(cursors[s]) else None) {
        cursors := cursors[s := candidate];
      }
    }
    assert rs[..|rs|] == rs;
  }

  method ScanWaters(rs: seq<ObservationRecord>) returns (w: Waters)
    ensures w == WatersOf(rs)
  {
    w := Waters(0, 0, 0);
    var haveReceived := false;
    for i := 0 to |rs|
      invariant w == WatersOf(rs[..i]) && (haveReceived <==> i > 0)
    {
      assert rs[..i + 1][..i] == rs[..i];
      if w.observedHigh < rs[i].observation.observedAt {
        w := w.(observedHigh := rs[i].observation.observedAt);
      }
      if w.receivedHigh < rs[i].receivedAt {
        w := w.(receivedHigh := rs[i].receivedAt);
      }
      if !haveReceived || rs[i].receivedAt < w.receivedLow {
        w := w.(receivedLow := rs[i].receivedAt);
        haveReceived := true;
      }
    }
    assert rs[..|rs|] == rs;
  }

  method IndexAuthorities(ss: seq<SourceSummary>) returns (table: map<u128, nat>)
    ensures table == AuthorityTable(ss)
  {
    table := map[];
    for i := 0 to |ss|
      invariant table == AuthorityTable(ss[..i])
    {
      assert ss[..i + 1][..i] == ss[..i];
      if ss[i].id !in table {
        table := table[ss[i].id := ss[i].maxAuthority];
      }
    }
    assert ss[..|ss|] == ss;
  }

  method IndexFences(fs: seq<Observatories.FencedClaim>) returns (table: map<FenceKey, StatusCode>)
    ensures table == FenceTable(fs)
  {
    table := map[];
    for i := 0 to |fs|
      invariant table == FenceTable(fs[..i])
    {
      assert fs[..i + 1][..i] == fs[..i];
      if KeyOfFence(fs[i]) !in table {
        table := table[KeyOfFence(fs[i]) := fs[i].fence];
      }
    }
    assert fs[..|fs|] == fs;
  }

  lemma AllClaimsStep(digest: Observation -> Digest, f: Frame, rs: seq<ObservationRecord>, i: nat)
    requires i < |rs|
    ensures AllClaims(digest, f, rs[..i + 1]) == AllClaims(digest, f, rs[..i]) + RecordClaims(digest, f, rs[i], rs[i].observation.claims)
  {
    assert rs[..i + 1][..i] == rs[..i];
  }

  lemma PlaceStep(policy: Policy, ps: seq<Placed>, p: Placed)
    ensures PlaceAll(policy, ps + [p]) == Place(policy, PlaceAll(policy, ps), p)
  {
    assert (ps + [p])[..|ps|] == ps;
  }

  lemma RecordClaimsStep(digest: Observation -> Digest, f: Frame, r: ObservationRecord, cs: seq<Claim>, k: nat)
    requires k < |cs|
    ensures RecordClaims(digest, f, r, cs[..k + 1]) == RecordClaims(digest, f, r, cs[..k]) + [PlacedClaim(digest, f, r, cs[k])]
  {
  }

  /** The double loop over records and their claims. */
  method FillBuckets(digest: Observation -> Digest, f: Frame, rs: seq<ObservationRecord>) returns (b: Buckets)
    ensures b == PlaceAll(f.policy, AllClaims(digest, f, rs))
  {
    hide RecordClaims, PlaceAll, PlacedClaim, AllClaims;
    b := Buckets(map[], false);
    NothingPlaced(digest, f);
    for i := 0 to |rs|
      invariant b == PlaceAll(f.policy, AllClaims(digest, f, rs[..i]))
    {
      b := FillRecord(digest, f, rs[i], AllClaims(digest, f, rs[..i]), b);
      AllClaimsStep(digest, f, rs, i);
    }
    assert rs[..|rs|] == rs;
  }

  lemma NothingPlaced(digest: Observation -> Digest, f: Frame)
    ensures PlaceAll(f.policy, AllClaims(digest, f, [])) == Buckets(map[], false)
  {
  }

  /** One claim into its bucket: no new subject past the bound, no claim past the working set cap. */
  method PlaceClaim(policy: Policy, start: Buckets, p: Placed) returns (b: Buckets)
    ensures b == Place(policy, start, p)
  {
    b := start;
    var id := p.subject.id;
    if id !in b.table && |b.table| >= policy.maxSubjects {
      return b.(truncated := true);
    }
    var bucket := if id in b.table then b.table[id] else Bucket(p.subject, map[]);
    var claims := if p.aspect in bucket.aspects then bucket.aspects[p.aspect] else [];
    if |claims| < WorkingSetCap(policy) {
      claims := claims + [p.claim];
    }
    bucket := bucket.(aspects := bucket.aspects[p.aspect := claims]);
    b := b.(table := b.table[id := bucket]);
  }

  method FillRecord(digest: Observation -> Digest, f: Frame, r: ObservationRecord, ghost done: seq<Placed>, start: Buckets)
    returns (b: Buckets)
    requires start == PlaceAll(f.policy, done)
    ensures b == PlaceAll(f.policy, done + RecordClaims(digest, f, r, r.observation.claims))
  {
    hide RecordClaims, PlaceAll, PlacedClaim, Place;
    var cs := r.observation.claims;
    b := start;
    assert done + RecordClaims(digest, f, r, cs[..0]) == done;
    for k := 0 to |cs|
      invariant b == PlaceAll(f.policy, done + RecordClaims(digest, f, r, cs[..k]))
    {
      ghost var before := done + RecordClaims(digest, f, r, cs[..k]);
      RecordClaimsStep(digest, f, r, cs, k);
      PlaceStep(f.policy, before, PlacedClaim(digest, f, r, cs[k]));
      assert before + [PlacedClaim(digest, f, r, cs[k])] == done + RecordClaims(digest, f, r, cs[..k + 1]);
      b := PlaceClaim(f.policy, b, PlacedClaim(digest, f, r, cs[k]));
    }
    assert cs[..|cs|] == cs;
  }

  method FindLatest(cs: seq<ClaimRecord>) returns (latest: map<Speaker, nat>)
    ensures latest == LatestOf(cs)
  {
    latest := map[];
    for i := 0 to |cs|
      invariant latest == LatestOf(cs[..i])
    {
      assert cs[..i + 1][..i] == cs[..i];
      var key := SpeakerOf(cs[i]);
      if key !in latest {
        latest := latest[key := i];
      } else if Later(cs[i], cs[latest[key]]) {
        latest := latest[key := i];
      }
    }
    assert cs[..|cs|] == cs;
  }

  /** Finds the latest statement of each speaker, then flags all the others. */
  method FlagOlder(cs: seq<ClaimRecord>) returns (r: seq<ClaimRecord>)
    ensures r == MarkLatest(cs)
  {
    hide LatestOf;
    var latest := FindLatest(cs);
    r := [];
    for i := 0 to |cs|
      invariant |r| == i
      invariant forall k :: 0 <= k < i ==> r[k] == MarkLatest(cs)[k]
    {
      r := r + [if latest[SpeakerOf(cs[i])] != i then cs[i].(olderSequence := true) else cs[i]];
    }
  }

  method BuildAspect(policy: Policy, aspect: Text, cs: seq<ClaimRecord>) returns (a: AspectState)
    ensures a == MakeAspect(policy, aspect, cs)
  {
    hide Evaluate, MarkLatest, CoverageFor;
    var claims := FlagOlder(cs);
    Ordering.SortContents(claims, ClaimRecordLe);
    claims := Ordering.Sort(claims, ClaimRecordLe);
    var truncated := false;
    if |claims| > policy.maxClaimsPerAspect {
      Ordering.SortContents(claims, RankLe);
      claims := Ordering.Sort(Ordering.Sort(claims, RankLe)[..policy.maxClaimsPerAspect], ClaimRecordLe);
      truncated := true;
    }
    var e := EvaluateTruth(policy.truth, aspect, claims);
    a := AspectState(aspect, e.truth, e.agreed, claims, e.conflicts, e.coverage, truncated);
  }

  lemma AspectAt(policy: Policy, b: Bucket, i: nat)
    requires i < |b.aspects.Keys|
    ensures SortedTexts(b.aspects.Keys)[i] in b.aspects
    ensures AspectsOf(policy, b)[i] == MakeAspect(policy, SortedTexts(b.aspects.Keys)[i], b.aspects[SortedTexts(b.aspects.Keys)[i]])
  {
    assert SortedTexts(b.aspects.Keys)[i] in SortedTexts(b.aspects.Keys);
  }

  lemma NoTopology(derive: Text -> u128)
    ensures TopologyOf([], derive) == Topology(None, Unknown, Known)
  {
  }

  lemma TopologyPush(aspects: seq<AspectState>, a: AspectState, derive: Text -> u128)
    ensures TopologyOf(aspects + [a], derive) == StepTopology(TopologyOf(aspects, derive), a, derive)
  {
    assert (aspects + [a])[..|aspects|] == aspects;
  }

  method BuildSubject(policy: Policy, derive: Text -> u128, b: Bucket) returns (s: SubjectState)
    ensures s == MakeSubject(policy, derive, b)
  {
    hide MakeAspect, AspectsOf, SortedTexts, ParentOf, TopologyOf;
    NoTopology(derive);
    var names := SortedTexts(b.aspects.Keys);
    var aspects: seq<AspectState> := [];
    var topology := Topology(None, Unknown, Known);
    for i := 0 to |names|
      invariant |aspects| == i && aspects == AspectsOf(policy, b)[..i]
      invariant topology == TopologyOf(aspects, derive)
    {
      AspectAt(policy, b, i);
      var a := BuildAspect(policy, names[i], b.aspects[names[i]]);
      TopologyPush(aspects, a, derive);
      if a.aspect == PARENT_ASPECT && ParentOf(a, derive).Some? {
        topology := topology.(parent := ParentOf(a, derive));
      }
      if a.aspect == PARENT_ASPECT {
        topology := topology.(truth := a.truth);
      }
      if TruthRank(a.truth) < TruthRank(topology.worst) {
        topology := topology.(worst := a.truth);
      }
      aspects := aspects + [a];
    }
    assert aspects == AspectsOf(policy, b);
    s := SubjectState(b.identity, topology.parent, topology.truth, if aspects == [] then Unknown else topology.worst, aspects);
  }

  lemma SubjectAt(policy: Policy, derive: Text -> u128, table: map<u128, Bucket>, i: nat)
    requires i < |table.Keys|
    ensures SortedIds(table.Keys)[i] in table
    ensures SubjectsOf(policy, derive, table)[i] == MakeSubject(policy, derive, table[SortedIds(table.Keys)[i]])
  {
    assert SortedIds(table.Keys)[i] in SortedIds(table.Keys);
  }

  method BuildSubjects(policy: Policy, derive: Text -> u128, table: map<u128, Bucket>) returns (subjects: seq<SubjectState>)
    ensures subjects == SubjectsOf(policy, derive, table)
  {
    hide MakeSubject, SortedIds, SubjectsOf;
    var ids := SortedIds(table.Keys);
    subjects := [];
    for i := 0 to |ids|
      invariant |subjects| == i && subjects == SubjectsOf(policy, derive, table)[..i]
    {
      SubjectAt(policy, derive, table, i);
      var s := BuildSubject(policy, derive, table[ids[i]]);
      subjects := subjects + [s];
    }
  }

  method BuildSnapshot(digest: Observation -> Digest, derive: Text -> u128, q: Request) returns (s: Snapshot)
    ensures s == Build(digest, derive, q)
  {
    hide InOrder, SubjectsOf, PlaceAll, AllClaims, CursorsOf, WatersOf, FenceTable, AuthorityTable, EpochWithin;
    var sorted := InOrder(digest, q.records);
    var generation, epoch := ScanGenerations(sorted);
    var cursors := ScanCursors(sorted);
    var waters := ScanWaters(sorted);
    var authorities := IndexAuthorities(q.sources);
    var fences := IndexFences(q.fencedClaims);
    var frame := Frame(q.policy, q.evaluationTime, generation, epoch, cursors, authorities, fences);
    var buckets := FillBuckets(digest, frame, sorted);
    var subjects := BuildSubjects(q.policy, derive, buckets.table);
    var sources := Ordering.Sort(q.sources, SummaryLe);
    var rejected := Ordering.Sort(q.rejected, RejectedLe);
    Ordering.SortContents(q.rejected, RejectedLe);
    var rejectedTruncated := |rejected| > q.policy.maxRejections;
    if rejectedTruncated {
      rejected := rejected[..q.policy.maxRejections];
    }
    var fencedClaims := Ordering.Sort(q.fencedClaims, FencedLe);
    if |fencedClaims| > q.policy.maxRejections {
      fencedClaims := fencedClaims[..q.policy.maxRejections];
    }
    var evidenceTruncated := q.evidenceTruncated;
    if buckets.truncated {
      evidenceTruncated := true;
    }
    s := Snapshot(q.fabric, generation, epoch, q.evaluationTime, waters.observedHigh, waters.receivedHigh, waters.receivedLow,
                  q.restartEpoch, q.restartCount, Ordering.Sort(subjects, SubjectLe), sources, rejected, fencedClaims,
                  |q.records|, evidenceTruncated, rejectedTruncated);
  }
}
