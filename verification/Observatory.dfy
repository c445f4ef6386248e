/** The evidence engine: source lineage fences, claim fences, refusals and eviction
    (src/observatory.cpp). */
module Observatories {
  import opened Bytes
  import opened Observations
  import Ids
  import Ordering
  import Times

  datatype Config = Config(
    fabric: u128,
    schema: Text,
    limits: Limits,
    maxSources: nat,
    maxSubjects: nat,
    maxAspects: nat,
    maxIncarnations: nat,
    maxEvidence: nat,
    maxRejections: nat,
    maxClockSkew: i64,
    autoRegister: bool,
    autoAuthority: nat,
    rejectUnknownAspects: bool,
    retainRejections: bool,
    strictGeneration: bool,
    maxGenerationAdvance: u64)

  datatype Descriptor = Descriptor(
    id: u128,
    name: Text,
    authorityName: Text,
    aspects: seq<Text>,
    maxAuthority: nat,
    schema: Text)

  datatype SourceState = SourceState(
    descriptor: Descriptor,
    incarnation: u128,
    bootTime: i64,
    bootCounter: nat,
    lastSequence: u64,
    firstReceive: i64,
    lastReceive: i64,
    lastObservation: i64,
    lastGeneration: u64,
    lastEpoch: u64,
    accepted: nat,
    fenced: nat,
    duplicates: nat,
    recovered: bool,
    recoveryEpoch: u64)

  /** Why something was refused: the values its explanation text prints. */
  datatype Reason =
    | InvalidContent(code: StatusCode)
    | SchemaNotSupported(schema: Text)
    | WrongFabric(fabric: u128)
    | InTheFuture(skew: i64)
    | NotRegistered(source: u128)
    | RegistrationFailed(code: StatusCode)
    | BootReplayed(incarnation: u128)
    | SequenceBehind(sequence: u64, last: u64)
    | GenerationBehind(generation: u64, last: u64)
    | GenerationJump
    | BelowHighWater(generation: u64, high: u64)
    | EpochBehind(epoch: u64, last: u64)
    | UnknownAspect(aspect: Text)
    | OutOfScope(aspect: Text)
    | RevisionBehind(revision: u64, last: u64)
    | EveryClaimFenced

  datatype Rejected = Rejected(
    observationId: Digest,
    source: u128,
    incarnation: u128,
    sequence: u64,
    generation: u64,
    epoch: u64,
    receivedAt: i64,
    fence: StatusCode,
    reason: Reason)

  datatype FencedClaim = FencedClaim(
    observationId: Digest,
    subject: Ids.SubjectIdentity,
    aspect: Text,
    source: u128,
    incarnation: u128,
    sequence: u64,
    receivedAt: i64,
    fence: StatusCode,
    reason: Reason)

  datatype RevisionKey = RevisionKey(source: u128, subject: u128, aspect: Text)

  /** Everything the published view is computed from. */
  datatype Evidence = Evidence(
    sources: map<u128, SourceState>,
    incarnations: map<u128, seq<u128>>,
    revisions: map<RevisionKey, u64>,
    records: seq<ObservationRecord>,
    rejected: seq<Rejected>,
    fencedClaims: seq<FencedClaim>,
    truncated: bool,
    evicted: nat)

  /** An observation together with the instant its receipt is stamped with. */
  datatype Arrival = Arrival(observation: Observation, receivedAt: i64)

  datatype Disposition = Accepted | Duplicate | Fenced | Refused

  datatype Outcome = Outcome(disposition: Disposition, code: StatusCode, claimsAccepted: nat, claimsFenced: nat)

  // ---- content lookup ----

  /** Whether some accepted record has this content digest. */
  predicate Indexed(digest: Observation -> Digest, records: seq<ObservationRecord>, id: Digest) {
    exists i :: 0 <= i < |records| && digest(records[i].observation) == id
  }

  // ---- registration ----

  predicate AuthorityByte(c: byte) {
    97 <= c <= 122 || 65 <= c <= 90 || 48 <= c <= 57 || c == 46 || c == 95 || c == 45 || c == 64 || c == 58
  }

  predicate ValidAuthorityName(text: Text) {
    text != [] && |text| <= 64 && forall i :: 0 <= i < |text| ==> AuthorityByte(text[i])
  }

  function TextLe(a: Text, b: Text): bool { CompareText(a, b) <= 0 }

  predicate AdjacentTwins(s: seq<Text>) { exists i :: 0 < i < |s| && s[i - 1] == s[i] }

  const FRESH_SOURCE: SourceState :=
    SourceState(Descriptor(0, [], [], [], 0, []), 0, 0, 0, 0, 0, 0, 0, 0, 0, 0, 0, 0, false, 0)

  /** register_source_locked: the declaration is replaced, the lineage is not. */
  function Register(cfg: Config, sources: map<u128, SourceState>, d: Descriptor): (r: Result<map<u128, SourceState>>)
    ensures r.Ok? ==> r.value.Keys == sources.Keys + {d.id}
  {
    if d.id == 0 then Err(InvalidArgument)
    else if |d.name| > 128 then Err(TooLarge)
    else if d.authorityName != [] && !ValidAuthorityName(d.authorityName) then Err(InvalidArgument)
    else if |d.aspects| > cfg.maxAspects then Err(TooLarge)
    else
      var aspects := Ordering.Sort(d.aspects, TextLe);
      if AdjacentTwins(aspects) then Err(InvalidArgument)
      else if d.id in sources then Ok(sources[d.id := sources[d.id].(descriptor := d.(aspects := aspects))])
      else if |sources| >= cfg.maxSources then Err(ResourceExhausted)
      else Ok(sources[d.id := FRESH_SOURCE.(descriptor := d.(aspects := aspects))])
  }

  function AutoDescriptor(cfg: Config, o: Observation): Descriptor {
    Descriptor(o.source, Ids.IdText(Ascii("src"), o.source), [], [], cfg.autoAuthority, o.schema)
  }

  // ---- fences ----

  datatype Verdict = Pass | Replay | Refuse(code: StatusCode, reason: Reason)

  /** The checks that look at nothing but the observation and the clock. */
  function CheckInput(cfg: Config, o: Observation, now: i64): Verdict {
    if Validate(o, cfg.limits).Err? then Refuse(Validate(o, cfg.limits).code, InvalidContent(Validate(o, cfg.limits).code))
    else if o.schema != cfg.schema then Refuse(Unsupported, SchemaNotSupported(o.schema))
    else if o.fabric != cfg.fabric then Refuse(StatusCode.FabricMismatch, WrongFabric(o.fabric))
    else if o.observedAt > now && Times.SaturatingDifference(o.observedAt, now) > cfg.maxClockSkew then
      Refuse(ClockInconsistent, InTheFuture(Times.SaturatingDifference(o.observedAt, now)))
    else Pass
  }

  function HighWater(records: seq<ObservationRecord>): u64 {
    if records == [] then 0
    else
      var high := HighWater(records[..|records| - 1]);
      var g := records[|records| - 1].observation.generation;
      if high < g then g else high
  }

  /** The boot and sequence fence. indexed says whether this exact content is already accepted. */
  function CheckSequence(src: SourceState, seen: seq<u128>, indexed: bool, o: Observation): Verdict {
    if src.incarnation != o.incarnation then
      if o.incarnation in seen then Refuse(FencedIncarnation, BootReplayed(o.incarnation)) else Pass
    else if o.sequence <= src.lastSequence then
      if o.sequence == src.lastSequence && indexed then Replay
      else Refuse(FencedSequence, SequenceBehind(o.sequence, src.lastSequence))
    else Pass
  }

  /** The generation and epoch fences; the advance bound is computed in 64-bit arithmetic. */
  function CheckGeneration(cfg: Config, src: SourceState, high: u64, o: Observation): Verdict {
    if o.generation < src.lastGeneration then
      Refuse(FencedStaleGeneration, GenerationBehind(o.generation, src.lastGeneration))
    else if o.generation > (src.lastGeneration + cfg.maxGenerationAdvance) % U64_MODULUS then
      Refuse(OutOfRange, GenerationJump)
    else if cfg.strictGeneration && o.generation < high then
      Refuse(FencedStaleGeneration, BelowHighWater(o.generation, high))
    else if o.generation == src.lastGeneration && o.epoch < src.lastEpoch then
      Refuse(FencedStaleEpoch, EpochBehind(o.epoch, src.lastEpoch))
    else Pass
  }

  function CheckLineage(cfg: Config, src: SourceState, seen: seq<u128>, indexed: bool, high: u64, o: Observation): Verdict {
    var v := CheckSequence(src, seen, indexed, o);
    if v == Pass then CheckGeneration(cfg, src, high, o) else v
  }

  // ---- refusals ----

  function PushBounded<T>(s: seq<T>, x: T, bound: nat): seq<T> {
    if |s| + 1 > bound then (s + [x])[1..] else s + [x]
  }

  function MakeRejection(digest: Observation -> Digest, o: Observation, now: i64, code: StatusCode, reason: Reason): Rejected {
    Rejected(digest(o), o.source, o.incarnation, o.sequence, o.generation, o.epoch, now, code, reason)
  }

  predicate AlreadyRejected(rejected: seq<Rejected>, id: Digest) {
    exists i :: 0 <= i < |rejected| && rejected[i].observationId == id
  }

  /** record_rejection_locked: only the first refusal of content that was never accepted is kept. */
  function RecordRejection(cfg: Config, indexed: bool, rejected: seq<Rejected>, r: Rejected): seq<Rejected> {
    if !cfg.retainRejections || indexed || AlreadyRejected(rejected, r.observationId) then rejected
    else PushBounded(rejected, r, cfg.maxRejections)
  }

  function MakeFenced(digest: Observation -> Digest, o: Observation, now: i64, c: Claim, code: StatusCode, reason: Reason): FencedClaim {
    FencedClaim(digest(o), c.subject, c.aspect, o.source, o.incarnation, o.sequence, now, code, reason)
  }

  predicate SameFence(a: FencedClaim, b: FencedClaim) {
    a.observationId == b.observationId && a.subject.id == b.subject.id && a.aspect == b.aspect
  }

  predicate AlreadyFenced(fenced: seq<FencedClaim>, f: FencedClaim) {
    exists i :: 0 <= i < |fenced| && SameFence(fenced[i], f)
  }

  function RecordFenced(cfg: Config, fenced: seq<FencedClaim>, f: FencedClaim): seq<FencedClaim> {
    if AlreadyFenced(fenced, f) then fenced else PushBounded(fenced, f, cfg.maxRejections)
  }

  // ---- claim fences ----

  datatype ClaimFold = ClaimFold(
    revisions: map<RevisionKey, u64>,
    fencedClaims: seq<FencedClaim>,
    claimsFenced: nat,
    accepted: nat,
    refused: nat,
    firstCode: StatusCode,
    firstReason: Reason)

  function KeyOf(o: Observation, c: Claim): RevisionKey { RevisionKey(o.source, c.subject.id, c.aspect) }

  /** The fences one claim meets; a revision of zero, on either side, never fences. */
  function CheckClaim(cfg: Config, declared: seq<Text>, revisions: map<RevisionKey, u64>, key: RevisionKey, c: Claim): Verdict {
    if cfg.rejectUnknownAspects && FindDescriptor(WELL_KNOWN_ASPECTS, c.aspect).None? then
      Refuse(Unsupported, UnknownAspect(c.aspect))
    else if declared != [] && c.aspect !in declared then Refuse(FencedAuthority, OutOfScope(c.aspect))
    else if key in revisions && c.revision != 0 && revisions[key] != 0 && c.revision < revisions[key] then
      Refuse(FencedRevision, RevisionBehind(c.revision, revisions[key]))
    else Pass
  }

  /** The revision table after a claim passes: a new key only while the table has room. */
  function NoteRevision(cfg: Config, revisions: map<RevisionKey, u64>, key: RevisionKey, revision: u64): map<RevisionKey, u64> {
    if key in revisions then
      if revision > revisions[key] then revisions[key := revision] else revisions
    else if |revisions| < cfg.maxSubjects then revisions[key := revision]
    else revisions
  }

  function StepClaim(cfg: Config, digest: Observation -> Digest, declared: seq<Text>, o: Observation, now: i64, f: ClaimFold, c: Claim): ClaimFold {
    match CheckClaim(cfg, declared, f.revisions, KeyOf(o, c), c)
    case Refuse(code, reason) =>
      f.(fencedClaims := RecordFenced(cfg, f.fencedClaims, MakeFenced(digest, o, now, c, code, reason)),
         claimsFenced := f.claimsFenced + 1,
         refused := f.refused + 1,
         firstCode := if f.refused == 0 then code else f.firstCode,
         firstReason := if f.refused == 0 then reason else f.firstReason)
    case _ =>
      f.(revisions := NoteRevision(cfg, f.revisions, KeyOf(o, c), c.revision), accepted := f.accepted + 1)
  }

  function FoldClaims(cfg: Config, digest: Observation -> Digest, declared: seq<Text>, o: Observation, now: i64, f: ClaimFold, cs: seq<Claim>): ClaimFold {
    if cs == [] then f
    else StepClaim(cfg, digest, declared, o, now, FoldClaims(cfg, digest, declared, o, now, f, cs[..|cs| - 1]), cs[|cs| - 1])
  }

  lemma FoldClaimsStep(cfg: Config, digest: Observation -> Digest, declared: seq<Text>, o: Observation, now: i64, f: ClaimFold, cs: seq<Claim>, i: nat)
    requires i < |cs|
    ensures FoldClaims(cfg, digest, declared, o, now, f, cs[..i + 1])
         == StepClaim(cfg, digest, declared, o, now, FoldClaims(cfg, digest, declared, o, now, f, cs[..i]), cs[i])
  {
    hide StepClaim;
    assert cs[..i + 1][..i] == cs[..i];
  }

  // ---- eviction ----

  /** Oldest received first; the remaining fields make the choice independent of insertion order. */
  function EvictLe(digest: Observation -> Digest, a: ObservationRecord, b: ObservationRecord): bool {
    if a.receivedAt != b.receivedAt then a.receivedAt < b.receivedAt
    else if a.observation.source != b.observation.source then a.observation.source < b.observation.source
    else if a.observation.sequence != b.observation.sequence then a.observation.sequence < b.observation.sequence
    else digest(a.observation) <= digest(b.observation)
  }

  /** How many records to drop: the overflow, or a sixteenth of the bound when that is more. */
  function DropCount(size: nat, bound: nat): (drop: nat)
    ensures drop <= size
    ensures size - drop <= bound
  {
    if size <= bound then 0
    else
      var overflow := size - bound;
      var batch := bound / 16;
      if overflow < batch && size > overflow then Min(size, batch) else overflow
  }

  /** The index rebuilt from scratch: each digest maps to its first position. */
  function IndexRecords(digest: Observation -> Digest, records: seq<ObservationRecord>): map<Digest, nat> {
    if records == [] then map[]
    else
      var front := IndexRecords(digest, records[..|records| - 1]);
      var id := digest(records[|records| - 1].observation);
      if id in front then front else front[id := |records| - 1]
  }

  datatype Slot = Slot(position: nat, record: ObservationRecord)

  function Slots(records: seq<ObservationRecord>): (r: seq<Slot>)
    ensures |r| == |records|
    ensures forall i :: 0 <= i < |r| ==> r[i] == Slot(i, records[i])
  {
    seq(|records|, i requires 0 <= i < |records| => Slot(i, records[i]))
  }

  /** The records with their positions, in eviction order. */
  function EvictOrder(digest: Observation -> Digest, records: seq<ObservationRecord>): (r: seq<Slot>)
    ensures |r| == |records|
  {
    var le := (a: Slot, b: Slot) => EvictLe(digest, a.record, b.record);
    Ordering.SortContents(Slots(records), le);
    Ordering.Sort(Slots(records), le)
  }

  function PositionsOf(slots: seq<Slot>): set<nat> { set x | x in slots :: x.position }

  /** The records whose position is not dropped, in their old order. */
  function KeepRest(records: seq<ObservationRecord>, dropped: set<nat>): seq<ObservationRecord> {
    if records == [] then []
    else
      var front := KeepRest(records[..|records| - 1], dropped);
      if |records| - 1 in dropped then front else front + [records[|records| - 1]]
  }

  function Evict(digest: Observation -> Digest, records: seq<ObservationRecord>, bound: nat): seq<ObservationRecord> {
    if |records| <= bound then records else KeepRest(records, Dropped(digest, records, bound))
  }

  /** The positions eviction removes: the first DropCount of the eviction order. */
  function Dropped(digest: Observation -> Digest, records: seq<ObservationRecord>, bound: nat): set<nat> {
    PositionsOf(EvictOrder(digest, records)[..DropCount(|records|, bound)])
  }

  // ---- one ingest, as a function of the evidence ----

  function Finish(cfg: Config, digest: Observation -> Digest, e: Evidence, a: Arrival, code: StatusCode, reason: Reason): (Evidence, Outcome) {
    var r := MakeRejection(digest, a.observation, a.receivedAt, code, reason);
    (e.(rejected := RecordRejection(cfg, Indexed(digest, e.records, r.observationId), e.rejected, r)),
     Outcome(Refused, code, 0, 0))
  }

  function Admit(cfg: Config, sources: map<u128, SourceState>, o: Observation): (r: Result<map<u128, SourceState>>)
    ensures r.Ok? ==> o.source in r.value
  {
    if o.source in sources then Ok(sources)
    else if !cfg.autoRegister then Err(SourceUnknown)
    else Register(cfg, sources, AutoDescriptor(cfg, o))
  }

  function Seen(incarnations: map<u128, seq<u128>>, source: u128): seq<u128> {
    if source in incarnations then incarnations[source] else []
  }

  function PushWindow(seen: seq<u128>, x: u128, bound: nat): seq<u128> {
    var s := seen + [x];
    if |s| > bound then s[|s| - bound..] else s
  }

  function AcceptSource(src: SourceState, a: Arrival): SourceState {
    var o := a.observation;
    var booted := if src.incarnation != o.incarnation
                  then src.(incarnation := o.incarnation, bootTime := a.receivedAt, bootCounter := src.bootCounter + 1)
                  else src;
    booted.(lastSequence := o.sequence, lastGeneration := o.generation, lastEpoch := o.epoch, lastReceive := a.receivedAt,
            lastObservation := o.observedAt,
            firstReceive := if src.firstReceive == 0 then a.receivedAt else src.firstReceive,
            accepted := src.accepted + 1)
  }

  function NewRecord(a: Arrival, restartEpoch: u64): ObservationRecord {
    ObservationRecord(a.observation, a.receivedAt, false, restartEpoch)
  }

  function Accept(cfg: Config, digest: Observation -> Digest, epoch: u64, e: Evidence, a: Arrival): Evidence
    requires a.observation.source in e.sources
  {
    var o := a.observation;
    var src := e.sources[o.source];
    var appended := e.records + [NewRecord(a, epoch)];
    var seen := Seen(e.incarnations, o.source);
    e.(records := Evict(digest, appended, cfg.maxEvidence),
       truncated := e.truncated || |appended| > cfg.maxEvidence,
       evicted := e.evicted + DropCount(|appended|, cfg.maxEvidence),
       incarnations := if src.incarnation != o.incarnation
                       then e.incarnations[o.source := PushWindow(seen, o.incarnation, cfg.maxIncarnations)]
                       else e.incarnations,
       sources := e.sources[o.source := AcceptSource(src, a)])
  }

  function BumpFenced(sources: map<u128, SourceState>, s: u128): map<u128, SourceState>
    requires s in sources
  {
    sources[s := sources[s].(fenced := sources[s].fenced + 1)]
  }

  function BumpDuplicates(sources: map<u128, SourceState>, s: u128): map<u128, SourceState>
    requires s in sources
  {
    sources[s := sources[s].(duplicates := sources[s].duplicates + 1)]
  }

  function StartFold(e: Evidence): ClaimFold {
    ClaimFold(e.revisions, e.fencedClaims, 0, 0, 0, FencedAuthority, EveryClaimFenced)
  }

  function IngestClaims(cfg: Config, digest: Observation -> Digest, epoch: u64, e: Evidence, a: Arrival): (Evidence, Outcome)
    requires a.observation.source in e.sources
  {
    var o := a.observation;
    var f := FoldClaims(cfg, digest, e.sources[o.source].descriptor.aspects, o, a.receivedAt, StartFold(e), o.claims);
    var e1 := e.(revisions := f.revisions, fencedClaims := f.fencedClaims);
    if o.claims != [] && f.accepted == 0 then
      var (e2, _) := Finish(cfg, digest, e1.(sources := BumpFenced(e1.sources, o.source)), a, f.firstCode, f.firstReason);
      (e2, Outcome(Fenced, f.firstCode, 0, f.refused))
    else
      (Accept(cfg, digest, epoch, e1, a), Outcome(Accepted, StatusOk, f.accepted, f.refused))
  }

  function IngestKnown(cfg: Config, digest: Observation -> Digest, epoch: u64, e: Evidence, a: Arrival): (Evidence, Outcome)
    requires a.observation.source in e.sources
  {
    var o := a.observation;
    var high := if cfg.strictGeneration then HighWater(e.records) else 0;
    match CheckLineage(cfg, e.sources[o.source], Seen(e.incarnations, o.source), Indexed(digest, e.records, digest(o)), high, o)
    case Replay =>
      (e.(sources := BumpDuplicates(e.sources, o.source)), Outcome(Duplicate, FencedDuplicateContent, 0, 0))
    case Refuse(code, reason) =>
      Finish(cfg, digest, e.(sources := BumpFenced(e.sources, o.source)), a, code, reason)
    case Pass => IngestClaims(cfg, digest, epoch, e, a)
  }

  /** ingest_locked. */
  function Ingest(cfg: Config, digest: Observation -> Digest, epoch: u64, e: Evidence, a: Arrival): (Evidence, Outcome) {
    match CheckInput(cfg, a.observation, a.receivedAt)
    case Refuse(code, reason) => Finish(cfg, digest, e, a, code, reason)
    case _ =>
      match Admit(cfg, e.sources, a.observation)
      case Err(code) =>
        Finish(cfg, digest, e, a, code,
               if cfg.autoRegister then RegistrationFailed(code) else NotRegistered(a.observation.source))
      case Ok(sources) => IngestKnown(cfg, digest, epoch, e.(sources := sources), a)
  }

  // ---- eviction drops the least records and keeps the rest in place ----

  lemma EvictOrderIsTotal(digest: Observation -> Digest)
    ensures Ordering.TotalPreorder((a: Slot, b: Slot) => EvictLe(digest, a.record, b.record))
  {
  }

  lemma EvictOrderMembers(digest: Observation -> Digest, records: seq<ObservationRecord>)
    ensures multiset(EvictOrder(digest, records)) == multiset(Slots(records))
    ensures forall i, j :: 0 <= i < j < |records| ==>
              EvictLe(digest, EvictOrder(digest, records)[i].record, EvictOrder(digest, records)[j].record)
  {
    var le := (a: Slot, b: Slot) => EvictLe(digest, a.record, b.record);
    EvictOrderIsTotal(digest);
    Ordering.SortContents(Slots(records), le);
    Ordering.SortSorted(Slots(records), le);
    var order := EvictOrder(digest, records);
    assert order == Ordering.Sort(Slots(records), le);
    forall i, j | 0 <= i < j < |records| ensures EvictLe(digest, order[i].record, order[j].record) {
      assert le(order[i], order[j]);
    }
  }

  predicate DistinctPositions(slots: seq<Slot>) {
    forall i, j :: 0 <= i < j < |slots| ==> slots[i].position != slots[j].position
  }

  /** Each position appears once in the eviction order, whatever ties there are. */
  lemma EvictOrderPositions(digest: Observation -> Digest, records: seq<ObservationRecord>)
    ensures DistinctPositions(EvictOrder(digest, records))
    ensures forall k :: 0 <= k < |records| ==>
              EvictOrder(digest, records)[k].position < |records|
              && EvictOrder(digest, records)[k].record == records[EvictOrder(digest, records)[k].position]
  {
    var order, slots := EvictOrder(digest, records), Slots(records);
    EvictOrderMembers(digest, records);
    forall k | 0 <= k < |records|
      ensures order[k].position < |records| && order[k].record == records[order[k].position]
    {
      assert order[k] in multiset(order);
      assert order[k] in multiset(slots);
      assert order[k] in slots;
    }
    SlotsDistinct(records);
    forall i, j | 0 <= i < j < |order| ensures order[i].position != order[j].position {
      if order[i].position == order[j].position {
        assert order[i] == order[j];
        Ordering.CountedTwice(order, i, j);
        assert multiset(slots)[order[i]] >= 2;
        Ordering.CountedOnce(slots, order[i]);
        assert false;
      }
    }
  }

  lemma SlotsDistinct(records: seq<ObservationRecord>)
    ensures DistinctPositions(Slots(records))
  {
  }

  function Below(s: set<nat>, n: nat): set<nat> { set i | i in s && i < n }

  lemma {:induction false} KeepRestMembers(records: seq<ObservationRecord>, dropped: set<nat>)
    ensures forall r :: r in KeepRest(records, dropped)
              <==> exists i :: 0 <= i < |records| && i !in dropped && records[i] == r
    ensures |KeepRest(records, dropped)| + |Below(dropped, |records|)| == |records|
  {
    if records == [] {
      assert Below(dropped, 0) == {};
    } else {
      var n := |records| - 1;
      KeepRestMembers(records[..n], dropped);
      assert Below(dropped, n + 1) == if n in dropped then Below(dropped, n) + {n} else Below(dropped, n);
      forall r ensures r in KeepRest(records, dropped)
                  <==> exists i :: 0 <= i < |records| && i !in dropped && records[i] == r
      {
        if i :| 0 <= i < |records| && i !in dropped && records[i] == r {
          if i < n { assert records[..n][i] == r; }
        }
        if r in KeepRest(records[..n], dropped) {
          var i :| 0 <= i < n && i !in dropped && records[..n][i] == r;
          assert records[i] == r;
        }
      }
    }
  }

  lemma {:induction false} PositionCount(slots: seq<Slot>)
    requires DistinctPositions(slots)
    ensures |PositionsOf(slots)| == |slots|
  {
    if slots != [] {
      var front, last := slots[..|slots| - 1], slots[|slots| - 1];
      PositionCount(front);
      assert PositionsOf(slots) == PositionsOf(front) + {last.position};
      assert last.position !in PositionsOf(front);
    } else {
      assert PositionsOf(slots) == {};
    }
  }

  lemma DroppedAreLeast(digest: Observation -> Digest, records: seq<ObservationRecord>, bound: nat)
    ensures var dropped := Dropped(digest, records, bound);
            && |dropped| == DropCount(|records|, bound)
            && (forall i :: i in dropped ==> i < |records|)
            && (forall i, j :: i in dropped && 0 <= j < |records| && j !in dropped ==>
                  EvictLe(digest, records[i], records[j]))
  {
    hide EvictLe, EvictOrder;
    var drop := DropCount(|records|, bound);
    var order := EvictOrder(digest, records);
    var dropped := PositionsOf(order[..drop]);
    EvictOrderMembers(digest, records);
    EvictOrderPositions(digest, records);
    PositionCount(order[..drop]);
    forall i, j | i in dropped && 0 <= j < |records| && j !in dropped
      ensures EvictLe(digest, records[i], records[j])
    {
      var a :| 0 <= a < drop && order[a].position == i;
      var b := PositionInOrder(digest, records, j);
      assert b >= drop by {
        assert forall k :: 0 <= k < drop ==> order[..drop][k].position in dropped;
        assert forall k :: 0 <= k < drop ==> order[k].position in dropped;
      }
      assert EvictLe(digest, order[a].record, order[b].record);
    }
  }

  /** Eviction restores the bound, removes exactly DropCount records, keeps the rest in their old
      order, and drops nothing that is newer in the eviction order than anything it keeps. */
  lemma EvictDropsLeast(digest: Observation -> Digest, records: seq<ObservationRecord>, bound: nat)
    ensures var dropped, kept := Dropped(digest, records, bound), Evict(digest, records, bound);
            && kept == KeepRest(records, dropped)
            && |kept| == |records| - |dropped| <= bound
            && |dropped| == DropCount(|records|, bound)
            && (forall i, j :: i in dropped && 0 <= j < |records| && j !in dropped ==>
                  i < |records| && EvictLe(digest, records[i], records[j]))
  {
    hide EvictLe, Dropped;
    var dropped := Dropped(digest, records, bound);
    DroppedAreLeast(digest, records, bound);
    KeepRestMembers(records, dropped);
    assert Below(dropped, |records|) == dropped;
    if |records| <= bound {
      assert dropped == {};
      KeepAll(records);
    }
  }

  lemma PositionInOrder(digest: Observation -> Digest, records: seq<ObservationRecord>, j: nat) returns (b: nat)
    requires j < |records|
    ensures b < |records| && EvictOrder(digest, records)[b] == Slot(j, records[j])
  {
    var order := EvictOrder(digest, records);
    EvictOrderMembers(digest, records);
    assert Slots(records)[j] == Slot(j, records[j]);
    assert Slot(j, records[j]) in multiset(Slots(records));
    assert Slot(j, records[j]) in order;
    b :| 0 <= b < |order| && order[b] == Slot(j, records[j]);
  }

  lemma {:induction false} KeepAll(records: seq<ObservationRecord>)
    ensures KeepRest(records, {}) == records
  {
    if records != [] {
      KeepAll(records[..|records| - 1]);
    }
  }

  // ---- the runtime object ----

  lemma {:induction false} IndexIsFirst(digest: Observation -> Digest, records: seq<ObservationRecord>)
    ensures var index := IndexRecords(digest, records);
            && (forall id :: id in index ==> index[id] < |records| && digest(records[index[id]].observation) == id)
            && (forall id :: id in index <==> Indexed(digest, records, id))
  {
    if records != [] {
      var front := records[..|records| - 1];
      IndexIsFirst(digest, front);
      forall id ensures id in IndexRecords(digest, records) <==> Indexed(digest, records, id) {
        if Indexed(digest, front, id) {
          var i :| 0 <= i < |front| && digest(front[i].observation) == id;
          assert digest(records[i].observation) == id;
        }
        assert digest(records[|front|].observation) in IndexRecords(digest, records);
      }
    }
  }

  lemma IndexAppend(digest: Observation -> Digest, records: seq<ObservationRecord>, r: ObservationRecord)
    ensures IndexRecords(digest, records + [r])
         == var front := IndexRecords(digest, records);
            if digest(r.observation) in front then front else front[digest(r.observation) := |records|]
  {
    assert (records + [r])[..|records|] == records;
  }

  class Observatory {
    const config: Config
    const digest: Observation -> Digest
    const restartEpoch: u64
    var sources: map<u128, SourceState>
    var incarnations: map<u128, seq<u128>>
    var revisions: map<RevisionKey, u64>
    var records: seq<ObservationRecord>
    var recordIndex: map<Digest, nat>
    var rejected: seq<Rejected>
    var fencedClaims: seq<FencedClaim>
    var journal: seq<ObservationRecord>
    var evidenceTruncated: bool
    var evidenceEvicted: nat
    var observationsAccepted: nat
    var observationsDuplicate: nat
    var observationsFenced: nat
    var observationsRejected: nat
    var claimsFenced: nat

    /** The index is exactly the one a rebuild would give, so every entry points at a record with that digest. */
    ghost predicate Valid()
      reads this
    {
      recordIndex == IndexRecords(digest, records)
    }

    ghost function View(): Evidence
      reads this
    {
      Evidence(sources, incarnations, revisions, records, rejected, fencedClaims, evidenceTruncated, evidenceEvicted)
    }

    constructor (cfg: Config, digestOf: Observation -> Digest, epoch: u64, evidence: Evidence)
      ensures Valid() && View() == evidence && journal == []
      ensures config == cfg && digest == digestOf && restartEpoch == epoch
      ensures observationsAccepted == observationsDuplicate == observationsFenced == observationsRejected == claimsFenced == 0
    {
      config, digest, restartEpoch := cfg, digestOf, epoch;
      sources, incarnations, revisions := evidence.sources, evidence.incarnations, evidence.revisions;
      records, rejected, fencedClaims := evidence.records, evidence.rejected, evidence.fencedClaims;
      evidenceTruncated, evidenceEvicted := evidence.truncated, evidence.evicted;
      recordIndex := IndexRecords(digestOf, evidence.records);
      journal := [];
      observationsAccepted, observationsDuplicate, observationsFenced, observationsRejected := 0, 0, 0, 0;
      claimsFenced := 0;
    }

    method RecordRejection(o: Observation, now: i64, code: StatusCode, reason: Reason)
      requires Valid()
      modifies this`rejected
      ensures Valid()
      ensures (View(), Outcome(Refused, code, 0, 0)) == Finish(config, digest, old(View()), Arrival(o, now), code, reason)
    {
      hide IndexRecords;
      IndexIsFirst(digest, records);
      var rejection := MakeRejection(digest, o, now, code, reason);
      if !config.retainRejections {
        return;
      }
      if rejection.observationId in recordIndex {
        return;
      }
      for i := 0 to |rejected|
        invariant rejected == old(rejected)
        invariant forall k :: 0 <= k < i ==> rejected[k].observationId != rejection.observationId
      {
        if rejected[i].observationId == rejection.observationId {
          return;
        }
      }
      rejected := rejected + [rejection];
      if |rejected| > config.maxRejections {
        rejected := rejected[1..];
      }
    }

    method RecordFencedClaim(o: Observation, now: i64, c: Claim, code: StatusCode, reason: Reason)
      modifies this`fencedClaims, this`claimsFenced
      ensures fencedClaims == RecordFenced(config, old(fencedClaims), MakeFenced(digest, o, now, c, code, reason))
      ensures claimsFenced == old(claimsFenced) + 1
    {
      var fenced := MakeFenced(digest, o, now, c, code, reason);
      claimsFenced := claimsFenced + 1;
      for i := 0 to |fencedClaims|
        invariant fencedClaims == old(fencedClaims)
        invariant forall k :: 0 <= k < i ==> !SameFence(fencedClaims[k], fenced)
      {
        if SameFence(fencedClaims[i], fenced) {
          return;
        }
      }
      fencedClaims := fencedClaims + [fenced];
      if |fencedClaims| > config.maxRejections {
        fencedClaims := fencedClaims[1..];
      }
    }

    method EvictEvidence()
      requires Valid()
      modifies this`records, this`recordIndex, this`evidenceTruncated, this`evidenceEvicted
      ensures Valid()
      ensures records == Evict(digest, old(records), config.maxEvidence)
      ensures evidenceTruncated == (old(evidenceTruncated) || |old(records)| > config.maxEvidence)
      ensures evidenceEvicted == old(evidenceEvicted) + DropCount(|old(records)|, config.maxEvidence)
    {
      var bound := config.maxEvidence;
      if |records| <= bound {
        return;
      }
      hide EvictOrder, KeepRest, IndexRecords, PositionsOf, DropCount, Valid;
      DropCountIs(|records|, bound);
      var order := EvictOrder(digest, records);
      var drop := |records| - bound;
      var batch := bound / 16;
      if drop < batch && |records| > drop {
        drop := Min(|records|, batch);
      }
      var dropped := MarkDropped(order, drop, |records|);
      records := Keep(records, dropped);
      RebuildIndex();
      evidenceEvicted := evidenceEvicted + drop;
      evidenceTruncated := true;
    }

    /** Whole batches of a sixteenth of the bound are dropped at a time. */
    static lemma DropCountIs(size: nat, bound: nat)
      requires size > bound
      ensures var batch := bound / 16;
              DropCount(size, bound) == if size - bound < batch && size > size - bound then Min(size, batch) else size - bound
    {
    }

    method MarkDropped(order: seq<Slot>, drop: nat, size: nat) returns (dropped: set<nat>)
      requires drop <= |order| == size
      ensures dropped == PositionsOf(order[..drop])
    {
      dropped := {};
      for i := 0 to drop
        invariant dropped == PositionsOf(order[..i])
      {
        assert order[..i + 1] == order[..i] + [order[i]];
        dropped := dropped + {order[i].position};
      }
    }

    method Keep(all: seq<ObservationRecord>, dropped: set<nat>) returns (kept: seq<ObservationRecord>)
      ensures kept == KeepRest(all, dropped)
    {
      kept := [];
      for i := 0 to |all|
        invariant kept == KeepRest(all[..i], dropped)
      {
        assert all[..i + 1][..i] == all[..i];
        if i !in dropped {
          kept := kept + [all[i]];
        }
      }
      assert all[..|all|] == all;
    }

    method RebuildIndex()
      modifies this`recordIndex
      ensures Valid()
    {
      recordIndex := map[];
      for i := 0 to |records|
        invariant recordIndex == IndexRecords(digest, records[..i])
      {
        assert records[..i + 1][..i] == records[..i];
        if digest(records[i].observation) !in recordIndex {
          recordIndex := recordIndex[digest(records[i].observation) := i];
        }
      }
      assert records[..|records|] == records;
    }

    method RegisterSource(d: Descriptor) returns (r: Result<()>)
      modifies this`sources
      ensures match Register(config, old(sources), d)
              case Ok(m) => r.Ok? && sources == m
              case Err(c) => r == Err(c) && sources == old(sources)
    {
      if d.id == 0 {
        return Err(InvalidArgument);
      }
      if |d.name| > 128 {
        return Err(TooLarge);
      }
      if d.authorityName != [] && !ValidAuthorityName(d.authorityName) {
        return Err(InvalidArgument);
      }
      if |d.aspects| > config.maxAspects {
        return Err(TooLarge);
      }
      var aspects := Ordering.Sort(d.aspects, TextLe);
      var index := 1;
      while index < |aspects|
        invariant index >= 1
        invariant forall k :: 0 < k < index && k < |aspects| ==> aspects[k - 1] != aspects[k]
      {
        if aspects[index - 1] == aspects[index] {
          return Err(InvalidArgument);
        }
        index := index + 1;
      }
      if d.id !in sources {
        if |sources| >= config.maxSources {
          return Err(ResourceExhausted);
        }
        sources := sources[d.id := FRESH_SOURCE.(descriptor := d.(aspects := aspects))];
        return Ok(());
      }
      sources := sources[d.id := sources[d.id].(descriptor := d.(aspects := aspects))];
      r := Ok(());
    }

    /** The refusal path shared by every fence outside the claim loop. */
    method Refusal(o: Observation, now: i64, code: StatusCode, reason: Reason) returns (outcome: Outcome)
      requires Valid()
      modifies this`rejected, this`observationsRejected
      ensures Valid()
      ensures (View(), outcome) == Finish(config, digest, old(View()), Arrival(o, now), code, reason)
      ensures outcome == Outcome(Refused, code, 0, 0)
      ensures observationsRejected == old(observationsRejected) + 1
    {
      observationsRejected := observationsRejected + 1;
      RecordRejection(o, now, code, reason);
      outcome := Outcome(Refused, code, 0, 0);
    }

    ghost function Fold(f: ClaimFold): ClaimFold
      reads this
    {
      f.(revisions := revisions, fencedClaims := fencedClaims)
    }

    method AdvanceRevision(key: RevisionKey, revision: u64)
      modifies this`revisions
      ensures revisions == NoteRevision(config, old(revisions), key, revision)
    {
      if key !in revisions && |revisions| < config.maxSubjects {
        revisions := revisions[key := 0];
      }
      if key in revisions && revision > revisions[key] {
        revisions := revisions[key := revision];
      }
    }

    /** The claim loop: refused claims are recorded, accepted ones move the revision table. */
    method FenceClaims(o: Observation, now: i64, declared: seq<Text>)
      returns (accepted: nat, refused: nat, firstCode: StatusCode, firstReason: Reason)
      modifies this`revisions, this`fencedClaims, this`claimsFenced
      ensures FoldClaims(config, digest, declared, o, now, StartFold(old(View())), o.claims)
           == ClaimFold(revisions, fencedClaims, refused, accepted, refused, firstCode, firstReason)
      ensures claimsFenced == old(claimsFenced) + refused
    {
      accepted, refused, firstCode, firstReason := 0, 0, FencedAuthority, EveryClaimFenced;
      for i := 0 to |o.claims|
        invariant claimsFenced == old(claimsFenced) + refused
        invariant FoldClaims(config, digest, declared, o, now, StartFold(old(View())), o.claims[..i])
               == ClaimFold(revisions, fencedClaims, refused, accepted, refused, firstCode, firstReason)
      {
        hide RecordFenced, CheckClaim, FoldClaims, NoteRevision, MakeFenced;
        var c := o.claims[i];
        FoldClaimsStep(config, digest, declared, o, now, StartFold(old(View())), o.claims, i);
        match CheckClaim(config, declared, revisions, KeyOf(o, c), c)
        case Refuse(code, reason) =>
          if refused == 0 {
            firstCode, firstReason := code, reason;
          }
          RecordFencedClaim(o, now, c, code, reason);
          refused := refused + 1;
        case _ =>
          AdvanceRevision(KeyOf(o, c), c.revision);
          accepted := accepted + 1;
      }
      assert o.claims[..|o.claims|] == o.claims;
    }

    method AppendRecord(record: ObservationRecord)
      requires Valid()
      modifies this`records, this`recordIndex
      ensures Valid() && records == old(records) + [record]
    {
      IndexAppend(digest, records, record);
      if digest(record.observation) !in recordIndex {
        recordIndex := recordIndex[digest(record.observation) := |records|];
      }
      records := records + [record];
    }

    method PushIncarnation(source: u128, incarnation: u128)
      modifies this`incarnations
      ensures incarnations == old(incarnations)[source :=
                PushWindow(Seen(old(incarnations), source), incarnation, config.maxIncarnations)]
    {
      var all := Seen(incarnations, source) + [incarnation];
      var seen := all;
      while |seen| > config.maxIncarnations
        invariant |seen| <= |all| && seen == all[|all| - |seen|..]
        invariant |seen| >= Min(config.maxIncarnations, |all|)
      {
        seen := seen[1..];
      }
      incarnations := incarnations[source := seen];
    }

    method AcceptObservation(o: Observation, now: i64)
      requires Valid() && o.source in sources
      modifies this`records, this`recordIndex, this`evidenceTruncated, this`evidenceEvicted, this`incarnations, this`sources,
        this`journal, this`observationsAccepted
      ensures Valid()
      ensures View() == Accept(config, digest, restartEpoch, old(View()), Arrival(o, now))
      ensures journal == old(journal) + [NewRecord(Arrival(o, now), restartEpoch)]
      ensures observationsAccepted == old(observationsAccepted) + 1
    {
      hide Evict, DropCount, PushWindow, IndexRecords, AcceptSource, Seen;
      var record := NewRecord(Arrival(o, now), restartEpoch);
      journal := journal + [record];
      AppendRecord(record);
      EvictEvidence();
      if sources[o.source].incarnation != o.incarnation {
        PushIncarnation(o.source, o.incarnation);
      }
      UpdateSource(o, now);
      observationsAccepted := observationsAccepted + 1;
    }

    method UpdateSource(o: Observation, now: i64)
      requires o.source in sources
      modifies this`sources
      ensures sources == old(sources)[o.source := AcceptSource(old(sources)[o.source], Arrival(o, now))]
    {
      var src := sources[o.source];
      if src.incarnation != o.incarnation {
        src := src.(incarnation := o.incarnation, bootTime := now, bootCounter := src.bootCounter + 1);
      }
      src := src.(lastSequence := o.sequence, lastGeneration := o.generation, lastEpoch := o.epoch, lastReceive := now,
                  lastObservation := o.observedAt);
      if src.firstReceive == 0 {
        src := src.(firstReceive := now);
      }
      sources := sources[o.source := src.(accepted := src.accepted + 1)];
    }

    /** What one call adds to the counters and the journal. */
    twostate predicate Tallied(outcome: Outcome, record: ObservationRecord)
      reads this
    {
      && observationsAccepted == old(observationsAccepted) + (if outcome.disposition == Accepted then 1 else 0)
      && observationsDuplicate == old(observationsDuplicate) + (if outcome.disposition == Duplicate then 1 else 0)
      && observationsFenced == old(observationsFenced) + (if outcome.disposition == Fenced then 1 else 0)
      && observationsRejected == old(observationsRejected) + (if outcome.disposition == Refused then 1 else 0)
      && claimsFenced == old(claimsFenced) + outcome.claimsFenced
      && journal == old(journal) + (if outcome.disposition == Accepted then [record] else [])
    }

    method ClaimStage(o: Observation, now: i64) returns (outcome: Outcome)
      requires Valid() && o.source in sources
      modifies this
      ensures Valid()
      ensures (View(), outcome) == IngestClaims(config, digest, restartEpoch, old(View()), Arrival(o, now))
      ensures Tallied(outcome, NewRecord(Arrival(o, now), restartEpoch))
    {
      hide Accept, FoldClaims, Finish, IndexRecords, BumpFenced;
      var accepted, refused, code, reason := FenceClaims(o, now, sources[o.source].descriptor.aspects);
      if o.claims != [] && accepted == 0 {
        sources := BumpFenced(sources, o.source);
        observationsFenced := observationsFenced + 1;
        RecordRejection(o, now, code, reason);
        outcome := Outcome(Fenced, code, 0, refused);
      } else {
        AcceptObservation(o, now);
        outcome := Outcome(Accepted, StatusOk, accepted, refused);
      }
    }

    /** ingest_locked: every branch of the fence machine, on the object's own fields. */
    method IngestLocked(o: Observation, now: i64) returns (outcome: Outcome)
      requires Valid()
      modifies this
      ensures Valid()
      ensures (View(), outcome) == Ingest(config, digest, restartEpoch, old(View()), Arrival(o, now))
      ensures Tallied(outcome, NewRecord(Arrival(o, now), restartEpoch))
    {
      hide Finish, IngestKnown, CheckInput, Register, IndexRecords;
      match CheckInput(config, o, now)
      case Refuse(code, reason) =>
        outcome := Refusal(o, now, code, reason);
      case _ =>
        if o.source !in sources {
          if !config.autoRegister {
            outcome := Refusal(o, now, SourceUnknown, NotRegistered(o.source));
            return;
          }
          var registered := RegisterSource(AutoDescriptor(config, o));
          if registered.Err? {
            outcome := Refusal(o, now, registered.code, RegistrationFailed(registered.code));
            return;
          }
        }
        outcome := LineageStage(o, now);
    }

    method LineageStage(o: Observation, now: i64) returns (outcome: Outcome)
      requires Valid() && o.source in sources
      modifies this
      ensures Valid()
      ensures (View(), outcome) == IngestKnown(config, digest, restartEpoch, old(View()), Arrival(o, now))
      ensures Tallied(outcome, NewRecord(Arrival(o, now), restartEpoch))
    {
      hide Finish, IngestClaims, CheckGeneration, IndexRecords;
      IndexIsFirst(digest, records);
      var src := sources[o.source];
      var verdict: Verdict := Pass;
      if src.incarnation != o.incarnation {
        if o.incarnation in Seen(incarnations, o.source) {
          verdict := Refuse(FencedIncarnation, BootReplayed(o.incarnation));
        }
      } else if o.sequence <= src.lastSequence {
        if o.sequence == src.lastSequence && digest(o) in recordIndex {
          sources := BumpDuplicates(sources, o.source);
          observationsDuplicate := observationsDuplicate + 1;
          return Outcome(Duplicate, FencedDuplicateContent, 0, 0);
        }
        verdict := Refuse(FencedSequence, SequenceBehind(o.sequence, src.lastSequence));
      }
      if verdict == Pass {
        verdict := GenerationStage(o);
      }
      match verdict
      case Refuse(code, reason) =>
        sources := BumpFenced(sources, o.source);
        outcome := Refusal(o, now, code, reason);
      case Pass =>
        outcome := ClaimStage(o, now);
    }

    method GenerationStage(o: Observation) returns (verdict: Verdict)
      requires o.source in sources
      ensures verdict == CheckGeneration(config, sources[o.source], if config.strictGeneration then HighWater(records) else 0, o)
      ensures verdict != Replay
    {
      var src := sources[o.source];
      if o.generation < src.lastGeneration {
        return Refuse(FencedStaleGeneration, GenerationBehind(o.generation, src.lastGeneration));
      }
      if o.generation > (src.lastGeneration + config.maxGenerationAdvance) % U64_MODULUS {
        return Refuse(OutOfRange, GenerationJump);
      }
      if config.strictGeneration {
        var high := HighWaterGeneration();
        if o.generation < high {
          return Refuse(FencedStaleGeneration, BelowHighWater(o.generation, high));
        }
      }
      if o.generation == src.lastGeneration && o.epoch < src.lastEpoch {
        return Refuse(FencedStaleEpoch, EpochBehind(o.epoch, src.lastEpoch));
      }
      verdict := Pass;
    }

    method HighWaterGeneration() returns (high: u64)
      ensures high == HighWater(records)
    {
      high := 0;
      for i := 0 to |records|
        invariant high == HighWater(records[..i])
      {
        assert records[..i + 1][..i] == records[..i];
        if high < records[i].observation.generation {
          high := records[i].observation.generation;
        }
      }
      assert records[..|records|] == records;
    }
  }
}
