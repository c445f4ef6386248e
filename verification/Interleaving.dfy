/** Whole runs of the evidence engine: what it accepts does not depend on how sources interleave
    (README.md, include/fabric_observatory/ingest.hpp). */
module Interleaving {
  import opened Bytes
  import opened Observations
  import opened Observatories
  import Ordering

  /** Ingesting a whole sequence of arrivals, in order. */
  function Run(cfg: Config, digest: Observation -> Digest, epoch: u64, e: Evidence, w: seq<Arrival>): Evidence {
    if w == [] then e
    else Ingest(cfg, digest, epoch, Run(cfg, digest, epoch, e, w[..|w| - 1]), w[|w| - 1]).0
  }

  // ---- the part of the evidence that belongs to one source ----

  function RecordOf(s: u128): ObservationRecord -> bool { (r: ObservationRecord) => r.observation.source == s }

  function RejectedOf(s: u128): Rejected -> bool { (r: Rejected) => r.source == s }

  function FencedOf(s: u128): FencedClaim -> bool { (f: FencedClaim) => f.source == s }

  function ArrivalOf(s: u128): Arrival -> bool { (a: Arrival) => a.observation.source == s }

  function RevisionsOf(m: map<RevisionKey, u64>, s: u128): map<RevisionKey, u64> {
    map k | k in m && k.source == s :: m[k]
  }

  function Only<T>(m: map<u128, T>, s: u128): map<u128, T> { if s in m then map[s := m[s]] else map[] }

  function Restrict(e: Evidence, s: u128): Evidence {
    Evidence(Only(e.sources, s), Only(e.incarnations, s), RevisionsOf(e.revisions, s),
             Ordering.Filter(e.records, RecordOf(s)), Ordering.Filter(e.rejected, RejectedOf(s)),
             Ordering.Filter(e.fencedClaims, FencedOf(s)), e.truncated, e.evicted)
  }

  /** The arrivals of one source, in order. */
  function Stream(w: seq<Arrival>, s: u128): seq<Arrival> { Ordering.Filter(w, ArrivalOf(s)) }

  /** No table bound and no eviction can be reached by ingesting this arrival. */
  predicate Room(cfg: Config, e: Evidence, a: Arrival) {
    && (a.observation.source in e.sources || |e.sources| < cfg.maxSources)
    && |e.records| < cfg.maxEvidence
    && |e.rejected| < cfg.maxRejections
    && |e.fencedClaims| + |a.observation.claims| <= cfg.maxRejections
    && |e.revisions| + |a.observation.claims| <= cfg.maxSubjects
  }

  /** Nothing another source left behind carries the digest of this observation. */
  ghost predicate Separated(digest: Observation -> Digest, e: Evidence, o: Observation) {
    && (forall r :: r in e.records && digest(r.observation) == digest(o) ==> r.observation.source == o.source)
    && (forall r :: r in e.rejected && r.observationId == digest(o) ==> r.source == o.source)
    && FencedSeparated(e.fencedClaims, digest(o), o.source)
  }

  ghost predicate FencedSeparated(fenced: seq<FencedClaim>, id: Digest, s: u128) {
    forall f :: f in fenced && f.observationId == id ==> f.source == s
  }

  // ---- refusals are local ----

  lemma IndexedLocal(digest: Observation -> Digest, records: seq<ObservationRecord>, o: Observation)
    requires forall r :: r in records && digest(r.observation) == digest(o) ==> r.observation.source == o.source
    ensures Indexed(digest, records, digest(o))
       <==> Indexed(digest, Ordering.Filter(records, RecordOf(o.source)), digest(o))
  {
    var kept := Ordering.Filter(records, RecordOf(o.source));
    Ordering.FilterMembers(records, RecordOf(o.source));
    if Indexed(digest, records, digest(o)) {
      var i :| 0 <= i < |records| && digest(records[i].observation) == digest(o);
      assert records[i] in kept;
    }
    if Indexed(digest, kept, digest(o)) {
      var i :| 0 <= i < |kept| && digest(kept[i].observation) == digest(o);
      assert kept[i] in records;
    }
  }

  lemma RejectedLocal(rejected: seq<Rejected>, id: Digest, s: u128)
    requires forall r :: r in rejected && r.observationId == id ==> r.source == s
    ensures AlreadyRejected(rejected, id) <==> AlreadyRejected(Ordering.Filter(rejected, RejectedOf(s)), id)
  {
    var kept := Ordering.Filter(rejected, RejectedOf(s));
    Ordering.FilterMembers(rejected, RejectedOf(s));
    if AlreadyRejected(rejected, id) {
      var i :| 0 <= i < |rejected| && rejected[i].observationId == id;
      assert rejected[i] in kept;
    }
    if AlreadyRejected(kept, id) {
      var i :| 0 <= i < |kept| && kept[i].observationId == id;
      assert kept[i] in rejected;
    }
  }

  lemma FencedLocal(fenced: seq<FencedClaim>, f: FencedClaim)
    requires FencedSeparated(fenced, f.observationId, f.source)
    ensures AlreadyFenced(fenced, f) <==> AlreadyFenced(Ordering.Filter(fenced, FencedOf(f.source)), f)
  {
    var kept := Ordering.Filter(fenced, FencedOf(f.source));
    Ordering.FilterMembers(fenced, FencedOf(f.source));
    if AlreadyFenced(fenced, f) {
      var i :| 0 <= i < |fenced| && SameFence(fenced[i], f);
      assert fenced[i] in kept;
    }
    if AlreadyFenced(kept, f) {
      var i :| 0 <= i < |kept| && SameFence(kept[i], f);
      assert kept[i] in fenced;
    }
  }

  lemma FinishLocal(cfg: Config, digest: Observation -> Digest, e: Evidence, a: Arrival, code: StatusCode, reason: Reason)
    requires |e.rejected| < cfg.maxRejections && Separated(digest, e, a.observation)
    ensures var s := a.observation.source;
            var (e1, out) := Finish(cfg, digest, e, a, code, reason);
            && Finish(cfg, digest, Restrict(e, s), a, code, reason) == (Restrict(e1, s), out)
            && forall t :: t != s ==> Restrict(e1, t) == Restrict(e, t)
  {
    hide Indexed, AlreadyRejected, Only, RevisionsOf;
    var o, s := a.observation, a.observation.source;
    var r := MakeRejection(digest, o, a.receivedAt, code, reason);
    IndexedLocal(digest, e.records, o);
    RejectedLocal(e.rejected, r.observationId, s);
    Ordering.FilterAppend(e.rejected, r, RejectedOf(s));
    Ordering.FilterLength(e.rejected, RejectedOf(s));
    forall t | t != s
      ensures Restrict(Finish(cfg, digest, e, a, code, reason).0, t) == Restrict(e, t)
    {
      Ordering.FilterAppend(e.rejected, r, RejectedOf(t));
    }
  }

  // ---- claim fences are local ----

  function FoldOf(f: ClaimFold, s: u128): ClaimFold {
    f.(revisions := RevisionsOf(f.revisions, s), fencedClaims := Ordering.Filter(f.fencedClaims, FencedOf(s)))
  }

  lemma RecordFencedLocal(cfg: Config, fenced: seq<FencedClaim>, f: FencedClaim)
    requires FencedSeparated(fenced, f.observationId, f.source) && |fenced| < cfg.maxRejections
    ensures var s := f.source;
            && RecordFenced(cfg, Ordering.Filter(fenced, FencedOf(s)), f)
               == Ordering.Filter(RecordFenced(cfg, fenced, f), FencedOf(s))
            && FencedSeparated(RecordFenced(cfg, fenced, f), f.observationId, s)
            && |RecordFenced(cfg, fenced, f)| <= |fenced| + 1
            && forall t :: t != s ==>
                 Ordering.Filter(RecordFenced(cfg, fenced, f), FencedOf(t)) == Ordering.Filter(fenced, FencedOf(t))
  {
    hide AlreadyFenced;
    var s := f.source;
    FencedLocal(fenced, f);
    Ordering.FilterAppend(fenced, f, FencedOf(s));
    Ordering.FilterLength(fenced, FencedOf(s));
    forall t | t != s
      ensures Ordering.Filter(RecordFenced(cfg, fenced, f), FencedOf(t)) == Ordering.Filter(fenced, FencedOf(t))
    {
      Ordering.FilterAppend(fenced, f, FencedOf(t));
    }
  }

  lemma RestrictedSize(m: map<RevisionKey, u64>, s: u128)
    ensures |RevisionsOf(m, s)| <= |m|
  {
    var r := RevisionsOf(m, s);
    assert r.Keys <= m.Keys;
    Ordering.SubsetSize(r.Keys, m.Keys);
  }

  lemma NoteRevisionLocal(cfg: Config, m: map<RevisionKey, u64>, key: RevisionKey, revision: u64)
    requires |m| < cfg.maxSubjects
    ensures RevisionsOf(NoteRevision(cfg, m, key, revision), key.source)
         == NoteRevision(cfg, RevisionsOf(m, key.source), key, revision)
    ensures |NoteRevision(cfg, m, key, revision)| <= |m| + 1
    ensures forall t :: t != key.source ==> RevisionsOf(NoteRevision(cfg, m, key, revision), t) == RevisionsOf(m, t)
  {
    RestrictedSize(m, key.source);
    var n := NoteRevision(cfg, m, key, revision);
    NoteRevisionSize(cfg, m, key, revision);
    assert RevisionsOf(m[key := revision], key.source) == RevisionsOf(m, key.source)[key := revision];
    forall t | t != key.source ensures RevisionsOf(n, t) == RevisionsOf(m, t) {
      assert RevisionsOf(m[key := revision], t) == RevisionsOf(m, t);
    }
  }

  lemma NoteRevisionSize(cfg: Config, m: map<RevisionKey, u64>, key: RevisionKey, revision: u64)
    ensures |NoteRevision(cfg, m, key, revision)| <= |m| + 1
  {
    var n := NoteRevision(cfg, m, key, revision);
    assert n.Keys <= m.Keys + {key};
    Ordering.SubsetSize(n.Keys, m.Keys + {key});
  }

  ghost predicate FoldUntouched(f: ClaimFold, g: ClaimFold, s: u128) {
    && (forall t :: t != s ==> RevisionsOf(g.revisions, t) == RevisionsOf(f.revisions, t))
    && (forall t :: t != s ==>
          Ordering.Filter(g.fencedClaims, FencedOf(t)) == Ordering.Filter(f.fencedClaims, FencedOf(t)))
  }

  lemma StepClaimLocal(cfg: Config, digest: Observation -> Digest, declared: seq<Text>, o: Observation, now: i64, f: ClaimFold, c: Claim)
    requires |f.revisions| < cfg.maxSubjects && |f.fencedClaims| < cfg.maxRejections
    requires FencedSeparated(f.fencedClaims, digest(o), o.source)
    ensures var s, g := o.source, StepClaim(cfg, digest, declared, o, now, f, c);
            && StepClaim(cfg, digest, declared, o, now, FoldOf(f, s), c) == FoldOf(g, s)
            && |g.revisions| <= |f.revisions| + 1 && |g.fencedClaims| <= |f.fencedClaims| + 1
            && FencedSeparated(g.fencedClaims, digest(o), s)
            && FoldUntouched(f, g, s)
  {
    hide RecordFenced, NoteRevision;
    var key := KeyOf(o, c);
    CheckClaimLocal(cfg, declared, f.revisions, key, c);
    match CheckClaim(cfg, declared, f.revisions, key, c)
    case Refuse(code, reason) => RecordFencedLocal(cfg, f.fencedClaims, MakeFenced(digest, o, now, c, code, reason));
    case _ => NoteRevisionLocal(cfg, f.revisions, key, c.revision);
  }

  lemma CheckClaimLocal(cfg: Config, declared: seq<Text>, m: map<RevisionKey, u64>, key: RevisionKey, c: Claim)
    ensures CheckClaim(cfg, declared, RevisionsOf(m, key.source), key, c) == CheckClaim(cfg, declared, m, key, c)
  {
    hide FindDescriptor;
  }

  lemma {:induction false} FoldClaimsLocal(cfg: Config, digest: Observation -> Digest, declared: seq<Text>, o: Observation, now: i64, f: ClaimFold, cs: seq<Claim>)
    requires |f.revisions| + |cs| <= cfg.maxSubjects && |f.fencedClaims| + |cs| <= cfg.maxRejections
    requires FencedSeparated(f.fencedClaims, digest(o), o.source)
    ensures var s, g := o.source, FoldClaims(cfg, digest, declared, o, now, f, cs);
            && FoldClaims(cfg, digest, declared, o, now, FoldOf(f, s), cs) == FoldOf(g, s)
            && |g.revisions| <= |f.revisions| + |cs| && |g.fencedClaims| <= |f.fencedClaims| + |cs|
            && FencedSeparated(g.fencedClaims, digest(o), s)
            && FoldUntouched(f, g, s)
  {
    hide StepClaim, FencedSeparated, FoldOf;
    if cs != [] {
      var front := cs[..|cs| - 1];
      FoldClaimsLocal(cfg, digest, declared, o, now, f, front);
      StepClaimLocal(cfg, digest, declared, o, now, FoldClaims(cfg, digest, declared, o, now, f, front), cs[|cs| - 1]);
    }
  }

  // ---- acceptance and lineage are local ----

  lemma EvictNothing(cfg: Config, digest: Observation -> Digest, records: seq<ObservationRecord>)
    requires |records| <= cfg.maxEvidence
    ensures Evict(digest, records, cfg.maxEvidence) == records && DropCount(|records|, cfg.maxEvidence) == 0
  {
  }

  /** The evidence of every other source is what it was. */
  ghost predicate Untouched(e: Evidence, e1: Evidence, s: u128) {
    forall t :: t != s ==> Restrict(e1, t) == Restrict(e, t)
  }

  lemma AppendLocal(records: seq<ObservationRecord>, r: ObservationRecord)
    ensures var s := r.observation.source;
            && Ordering.Filter(records + [r], RecordOf(s)) == Ordering.Filter(records, RecordOf(s)) + [r]
            && |Ordering.Filter(records, RecordOf(s))| <= |records|
            && forall t :: t != s ==> Ordering.Filter(records + [r], RecordOf(t)) == Ordering.Filter(records, RecordOf(t))
  {
    Ordering.FilterAppend(records, r, RecordOf(r.observation.source));
    Ordering.FilterLength(records, RecordOf(r.observation.source));
    forall t | t != r.observation.source
      ensures Ordering.Filter(records + [r], RecordOf(t)) == Ordering.Filter(records, RecordOf(t))
    {
      Ordering.FilterAppend(records, r, RecordOf(t));
    }
  }

  lemma OnlyUpdate<T>(m: map<u128, T>, s: u128, x: T)
    ensures Only(m[s := x], s) == Only(m, s)[s := x]
    ensures forall t :: t != s ==> Only(m[s := x], t) == Only(m, t)
  {
  }

  lemma AcceptLocal(cfg: Config, digest: Observation -> Digest, epoch: u64, e: Evidence, a: Arrival)
    requires a.observation.source in e.sources && |e.records| < cfg.maxEvidence
    ensures var s, e1 := a.observation.source, Accept(cfg, digest, epoch, e, a);
            && Accept(cfg, digest, epoch, Restrict(e, s), a) == Restrict(e1, s)
            && Untouched(e, e1, s)
  {
    hide AcceptSource, PushWindow, RevisionsOf, Evict, DropCount, Only, RecordOf;
    var s, r := a.observation.source, NewRecord(a, epoch);
    EvictNothing(cfg, digest, e.records + [r]);
    AppendLocal(e.records, r);
    EvictNothing(cfg, digest, Ordering.Filter(e.records, RecordOf(s)) + [r]);
    OnlyUpdate(e.sources, s, AcceptSource(e.sources[s], a));
    OnlyUpdate(e.incarnations, s, PushWindow(Seen(e.incarnations, s), a.observation.incarnation, cfg.maxIncarnations));
    OnlyLookup(e.sources, s);
    SeenLocal(e.incarnations, s);
  }

  lemma OnlyLookup<T>(m: map<u128, T>, s: u128)
    ensures s in Only(m, s) <==> s in m
    ensures s in m ==> Only(m, s)[s] == m[s]
  {
  }

  lemma SeenLocal(m: map<u128, seq<u128>>, s: u128)
    ensures Seen(Only(m, s), s) == Seen(m, s)
  {
  }

  lemma BumpLocal(e: Evidence, s: u128)
    requires s in e.sources
    ensures var e1 := e.(sources := BumpFenced(e.sources, s));
            s in Restrict(e, s).sources
            && Restrict(e1, s) == Restrict(e, s).(sources := BumpFenced(Restrict(e, s).sources, s)) && Untouched(e, e1, s)
    ensures var e2 := e.(sources := BumpDuplicates(e.sources, s));
            Restrict(e2, s) == Restrict(e, s).(sources := BumpDuplicates(Restrict(e, s).sources, s)) && Untouched(e, e2, s)
  {
    hide RevisionsOf, Only, RecordOf;
    OnlyLookup(e.sources, s);
    OnlyUpdate(e.sources, s, e.sources[s].(fenced := e.sources[s].fenced + 1));
    OnlyUpdate(e.sources, s, e.sources[s].(duplicates := e.sources[s].duplicates + 1));
  }

  lemma RefuseLocal(cfg: Config, digest: Observation -> Digest, e: Evidence, a: Arrival, code: StatusCode, reason: Reason)
    requires a.observation.source in e.sources
    requires |e.rejected| < cfg.maxRejections && Separated(digest, e, a.observation)
    ensures var s := a.observation.source;
            var (e1, out) := Finish(cfg, digest, e.(sources := BumpFenced(e.sources, s)), a, code, reason);
            && s in Restrict(e, s).sources
            && Finish(cfg, digest, Restrict(e, s).(sources := BumpFenced(Restrict(e, s).sources, s)), a, code, reason)
               == (Restrict(e1, s), out)
            && Untouched(e, e1, s)
  {
    hide Finish, Restrict, BumpFenced;
    var s := a.observation.source;
    var e0 := e.(sources := BumpFenced(e.sources, s));
    BumpLocal(e, s);
    FinishLocal(cfg, digest, e0, a, code, reason);
  }

  lemma RestrictFields(e: Evidence, s: u128)
    ensures var r := Restrict(e, s);
            && (s in r.sources <==> s in e.sources) && (s in e.sources ==> r.sources[s] == e.sources[s])
            && Seen(r.incarnations, s) == Seen(e.incarnations, s)
            && r.records == Ordering.Filter(e.records, RecordOf(s))
            && r.revisions == RevisionsOf(e.revisions, s)
            && r.fencedClaims == Ordering.Filter(e.fencedClaims, FencedOf(s))
  {
    OnlyLookup(e.sources, s);
    SeenLocal(e.incarnations, s);
  }

  lemma FoldedLocal(e: Evidence, f: ClaimFold, g: ClaimFold, s: u128)
    requires f.revisions == e.revisions && f.fencedClaims == e.fencedClaims && FoldUntouched(f, g, s)
    ensures var e1 := e.(revisions := g.revisions, fencedClaims := g.fencedClaims);
            && Restrict(e1, s) == Restrict(e, s).(revisions := FoldOf(g, s).revisions, fencedClaims := FoldOf(g, s).fencedClaims)
            && Untouched(e, e1, s)
  {
    hide RevisionsOf, Only, RecordOf;
  }

  lemma IngestClaimsLocal(cfg: Config, digest: Observation -> Digest, epoch: u64, e: Evidence, a: Arrival)
    requires a.observation.source in e.sources
    requires |e.records| < cfg.maxEvidence && |e.rejected| < cfg.maxRejections
    requires |e.fencedClaims| + |a.observation.claims| <= cfg.maxRejections
    requires |e.revisions| + |a.observation.claims| <= cfg.maxSubjects
    requires Separated(digest, e, a.observation)
    ensures var s, (e1, out) := a.observation.source, IngestClaims(cfg, digest, epoch, e, a);
            && s in Restrict(e, s).sources
            && IngestClaims(cfg, digest, epoch, Restrict(e, s), a) == (Restrict(e1, s), out)
            && Untouched(e, e1, s)
  {
    hide Finish, Accept, BumpFenced, FoldClaims, Restrict;
    var o, s := a.observation, a.observation.source;
    RestrictFields(e, s);
    var declared := e.sources[s].descriptor.aspects;
    var f := StartFold(e);
    FoldClaimsLocal(cfg, digest, declared, o, a.receivedAt, f, o.claims);
    var g := FoldClaims(cfg, digest, declared, o, a.receivedAt, f, o.claims);
    FoldedLocal(e, f, g, s);
    var e1 := e.(revisions := g.revisions, fencedClaims := g.fencedClaims);
    assert StartFold(Restrict(e, s)) == FoldOf(f, s);
    if o.claims != [] && g.accepted == 0 {
      RefuseLocal(cfg, digest, e1, a, g.firstCode, g.firstReason);
    } else {
      AcceptLocal(cfg, digest, epoch, e1, a);
    }
  }

  lemma IngestKnownLocal(cfg: Config, digest: Observation -> Digest, epoch: u64, e: Evidence, a: Arrival)
    requires a.observation.source in e.sources && Room(cfg, e, a) && !cfg.strictGeneration
    requires Separated(digest, e, a.observation)
    ensures var s, (e1, out) := a.observation.source, IngestKnown(cfg, digest, epoch, e, a);
            && s in Restrict(e, s).sources
            && IngestKnown(cfg, digest, epoch, Restrict(e, s), a) == (Restrict(e1, s), out)
            && Untouched(e, e1, s)
  {
    hide Finish, IngestClaims, BumpFenced, BumpDuplicates, Restrict, CheckLineage, Indexed;
    var o, s := a.observation, a.observation.source;
    RestrictFields(e, s);
    IndexedLocal(digest, e.records, o);
    match CheckLineage(cfg, e.sources[s], Seen(e.incarnations, s), Indexed(digest, e.records, digest(o)), 0, o)
    case Replay => BumpLocal(e, s);
    case Refuse(code, reason) => RefuseLocal(cfg, digest, e, a, code, reason);
    case Pass => IngestClaimsLocal(cfg, digest, epoch, e, a);
  }

  lemma AdmitLocal(cfg: Config, e: Evidence, o: Observation)
    requires o.source in e.sources || |e.sources| < cfg.maxSources
    ensures var s := o.source;
            match Admit(cfg, e.sources, o)
            case Err(c) => Admit(cfg, Only(e.sources, s), o) == Err(c)
            case Ok(m) => Admit(cfg, Only(e.sources, s), o) == Ok(Only(m, s))
                          && forall t :: t != s ==> Only(m, t) == Only(e.sources, t)
  {
    hide Ordering.Sort, AdjacentTwins;
  }

  lemma SourcesLocal(e: Evidence, m: map<u128, SourceState>, s: u128)
    requires forall t :: t != s ==> Only(m, t) == Only(e.sources, t)
    ensures Restrict(e.(sources := m), s) == Restrict(e, s).(sources := Only(m, s))
    ensures Untouched(e, e.(sources := m), s)
  {
    hide Only, RevisionsOf, RecordOf;
  }

  /** With room to spare, one step commutes with looking at a single source, and is invisible to the others. */
  lemma RoomyStepIsLocal(cfg: Config, digest: Observation -> Digest, epoch: u64, e: Evidence, a: Arrival)
    requires Room(cfg, e, a) && !cfg.strictGeneration && Separated(digest, e, a.observation)
    ensures var s, (e1, out) := a.observation.source, Ingest(cfg, digest, epoch, e, a);
            && Ingest(cfg, digest, epoch, Restrict(e, s), a) == (Restrict(e1, s), out)
            && Untouched(e, e1, s)
  {
    hide Finish, IngestKnown, Admit, Restrict, CheckInput, Register, Untouched, Only;
    var o, s := a.observation, a.observation.source;
    assert Restrict(e, s).sources == Only(e.sources, s) by { RestrictedSources(e, s); }
    match CheckInput(cfg, o, a.receivedAt)
    case Refuse(code, reason) => FinishIsLocal(cfg, digest, e, a, code, reason);
    case _ =>
      AdmitLocal(cfg, e, o);
      match Admit(cfg, e.sources, o)
      case Err(code) =>
        FinishIsLocal(cfg, digest, e, a, code, if cfg.autoRegister then RegistrationFailed(code) else NotRegistered(s));
      case Ok(m) =>
        var e0 := e.(sources := m);
        SourcesLocal(e, m, s);
        IngestKnownLocal(cfg, digest, epoch, e0, a);
        UntouchedTwice(e, e0, IngestKnown(cfg, digest, epoch, e0, a).0, s);
  }

  lemma RestrictedSources(e: Evidence, s: u128)
    ensures Restrict(e, s).sources == Only(e.sources, s)
  {
  }

  lemma FinishIsLocal(cfg: Config, digest: Observation -> Digest, e: Evidence, a: Arrival, code: StatusCode, reason: Reason)
    requires |e.rejected| < cfg.maxRejections && Separated(digest, e, a.observation)
    ensures var s := a.observation.source;
            var (e1, out) := Finish(cfg, digest, e, a, code, reason);
            Finish(cfg, digest, Restrict(e, s), a, code, reason) == (Restrict(e1, s), out) && Untouched(e, e1, s)
  {
    hide Finish, Restrict;
    FinishLocal(cfg, digest, e, a, code, reason);
  }

  lemma UntouchedTwice(e: Evidence, e1: Evidence, e2: Evidence, s: u128)
    requires Untouched(e, e1, s) && Untouched(e1, e2, s)
    ensures Untouched(e, e2, s)
  {
    hide Restrict;
  }

  // ---- how much one step can add ----

  ghost predicate NewRejected(digest: Observation -> Digest, old_: seq<Rejected>, new_: seq<Rejected>, o: Observation) {
    forall r :: r in new_ ==> r in old_ || (r.observationId == digest(o) && r.source == o.source)
  }

  ghost predicate NewFenced(digest: Observation -> Digest, old_: seq<FencedClaim>, new_: seq<FencedClaim>, o: Observation) {
    forall f :: f in new_ ==> f in old_ || (f.observationId == digest(o) && f.source == o.source)
  }

  ghost predicate NewRecords(old_: seq<ObservationRecord>, new_: seq<ObservationRecord>, o: Observation) {
    forall r :: r in new_ ==> r in old_ || r.observation == o
  }

  /** Every table grows by at most what this one observation carries, and only with its entries. */
  ghost predicate Grows(digest: Observation -> Digest, e: Evidence, e1: Evidence, o: Observation) {
    && e.sources.Keys <= e1.sources.Keys <= e.sources.Keys + {o.source}
    && |e1.records| <= |e.records| + 1 && NewRecords(e.records, e1.records, o)
    && |e1.rejected| <= |e.rejected| + 1 && NewRejected(digest, e.rejected, e1.rejected, o)
    && |e1.fencedClaims| <= |e.fencedClaims| + |o.claims| && NewFenced(digest, e.fencedClaims, e1.fencedClaims, o)
    && |e1.revisions| <= |e.revisions| + |o.claims|
  }

  lemma FinishGrows(cfg: Config, digest: Observation -> Digest, e: Evidence, a: Arrival, code: StatusCode, reason: Reason)
    ensures var e1 := Finish(cfg, digest, e, a, code, reason).0;
            e1 == e.(rejected := e1.rejected) && |e1.rejected| <= |e.rejected| + 1
            && NewRejected(digest, e.rejected, e1.rejected, a.observation)
  {
    hide Indexed, AlreadyRejected;
  }

  lemma {:induction false} FoldClaimsGrows(cfg: Config, digest: Observation -> Digest, declared: seq<Text>, o: Observation, now: i64, f: ClaimFold, cs: seq<Claim>)
    ensures var g := FoldClaims(cfg, digest, declared, o, now, f, cs);
            && |g.revisions| <= |f.revisions| + |cs|
            && |g.fencedClaims| <= |f.fencedClaims| + |cs| && NewFenced(digest, f.fencedClaims, g.fencedClaims, o)
  {
    hide CheckClaim, AlreadyFenced, NoteRevision;
    if cs != [] {
      var front, c := cs[..|cs| - 1], cs[|cs| - 1];
      FoldClaimsGrows(cfg, digest, declared, o, now, f, front);
      var g := FoldClaims(cfg, digest, declared, o, now, f, front);
      NoteRevisionSize(cfg, g.revisions, KeyOf(o, c), c.revision);
    }
  }

  lemma EvictKeepsSome(digest: Observation -> Digest, records: seq<ObservationRecord>, bound: nat)
    ensures |Evict(digest, records, bound)| <= |records|
    ensures forall r :: r in Evict(digest, records, bound) ==> r in records
  {
    hide Evict, KeepRest, Dropped, DropCount;
    EvictDropsLeast(digest, records, bound);
    KeepRestMembers(records, Dropped(digest, records, bound));
  }

  lemma IngestClaimsGrows(cfg: Config, digest: Observation -> Digest, epoch: u64, e: Evidence, a: Arrival)
    requires a.observation.source in e.sources
    ensures Grows(digest, e, IngestClaims(cfg, digest, epoch, e, a).0, a.observation)
  {
    hide Finish, FoldClaims, Evict, DropCount, AcceptSource, PushWindow;
    var o := a.observation;
    var declared := e.sources[o.source].descriptor.aspects;
    FoldClaimsGrows(cfg, digest, declared, o, a.receivedAt, StartFold(e), o.claims);
    var g := FoldClaims(cfg, digest, declared, o, a.receivedAt, StartFold(e), o.claims);
    var e1 := e.(revisions := g.revisions, fencedClaims := g.fencedClaims);
    FinishGrows(cfg, digest, e1.(sources := BumpFenced(e1.sources, o.source)), a, g.firstCode, g.firstReason);
    EvictKeepsSome(digest, e.records + [NewRecord(a, epoch)], cfg.maxEvidence);
  }

  lemma IngestGrows(cfg: Config, digest: Observation -> Digest, epoch: u64, e: Evidence, a: Arrival)
    ensures Grows(digest, e, Ingest(cfg, digest, epoch, e, a).0, a.observation)
  {
    hide Finish, IngestClaims, CheckInput, CheckLineage, Register, Indexed;
    var o := a.observation;
    match CheckInput(cfg, o, a.receivedAt)
    case Refuse(code, reason) => FinishGrows(cfg, digest, e, a, code, reason);
    case _ =>
      match Admit(cfg, e.sources, o)
      case Err(code) =>
        FinishGrows(cfg, digest, e, a, code, if cfg.autoRegister then RegistrationFailed(code) else NotRegistered(o.source));
      case Ok(m) =>
        IngestKnownGrows(cfg, digest, epoch, e.(sources := m), a);
  }

  lemma IngestKnownGrows(cfg: Config, digest: Observation -> Digest, epoch: u64, e: Evidence, a: Arrival)
    requires a.observation.source in e.sources
    ensures Grows(digest, e, IngestKnown(cfg, digest, epoch, e, a).0, a.observation)
  {
    hide Finish, IngestClaims, CheckLineage, Indexed;
    var o := a.observation;
    var high := if cfg.strictGeneration then HighWater(e.records) else 0;
    match CheckLineage(cfg, e.sources[o.source], Seen(e.incarnations, o.source), Indexed(digest, e.records, digest(o)), high, o)
    case Replay =>
    case Refuse(code, reason) =>
      FinishGrows(cfg, digest, e.(sources := BumpFenced(e.sources, o.source)), a, code, reason);
    case Pass => IngestClaimsGrows(cfg, digest, epoch, e, a);
  }

  // ---- whole runs ----

  function ClaimTotal(w: seq<Arrival>): nat {
    if w == [] then 0 else ClaimTotal(w[..|w| - 1]) + |w[|w| - 1].observation.claims|
  }

  function SourcesOf(w: seq<Arrival>): set<u128> { set a | a in w :: a.observation.source }

  /** The bounds a caller can check before the run: no table can fill up and nothing can be evicted. */
  predicate Fits(cfg: Config, e: Evidence, w: seq<Arrival>) {
    && |e.sources.Keys + SourcesOf(w)| <= cfg.maxSources
    && |e.records| + |w| <= cfg.maxEvidence
    && |e.rejected| + |w| <= cfg.maxRejections
    && |e.fencedClaims| + ClaimTotal(w) <= cfg.maxRejections
    && |e.revisions| + ClaimTotal(w) <= cfg.maxSubjects
  }

  /** Within the observations at hand, a shared digest means a shared source. */
  ghost predicate DigestsSeparate(digest: Observation -> Digest, e: Evidence, pool: set<Observation>) {
    && (forall a, b :: a in pool && b in pool && digest(a) == digest(b) ==> a.source == b.source)
    && (forall o :: o in pool ==> Separated(digest, e, o))
  }

  ghost predicate Drawn(w: seq<Arrival>, pool: set<Observation>) {
    forall a :: a in w ==> a.observation in pool
  }

  ghost predicate SizesWithin(e: Evidence, e1: Evidence, w: seq<Arrival>) {
    && e1.sources.Keys <= e.sources.Keys + SourcesOf(w)
    && |e1.records| <= |e.records| + |w|
    && |e1.rejected| <= |e.rejected| + |w|
    && |e1.fencedClaims| <= |e.fencedClaims| + ClaimTotal(w)
    && |e1.revisions| <= |e.revisions| + ClaimTotal(w)
  }

  lemma StepSeparated(digest: Observation -> Digest, e: Evidence, e1: Evidence, o: Observation, p: Observation)
    requires Grows(digest, e, e1, o) && Separated(digest, e, p)
    requires digest(o) == digest(p) ==> o.source == p.source
    ensures Separated(digest, e1, p)
  {
  }

  lemma StepKeepsSeparation(digest: Observation -> Digest, e: Evidence, e1: Evidence, o: Observation, pool: set<Observation>)
    requires Grows(digest, e, e1, o) && DigestsSeparate(digest, e, pool) && o in pool
    ensures DigestsSeparate(digest, e1, pool)
  {
    hide Grows, Separated;
    forall p | p in pool ensures Separated(digest, e1, p) {
      StepSeparated(digest, e, e1, o, p);
    }
  }

  lemma TotalsStep(w: seq<Arrival>, a: Arrival)
    ensures ClaimTotal(w + [a]) == ClaimTotal(w) + |a.observation.claims|
    ensures SourcesOf(w + [a]) == SourcesOf(w) + {a.observation.source}
  {
    assert (w + [a])[..|w|] == w;
  }

  lemma StepSizes(cfg: Config, digest: Observation -> Digest, e: Evidence, mid: Evidence, e1: Evidence, w: seq<Arrival>, a: Arrival)
    requires SizesWithin(e, mid, w) && Grows(digest, mid, e1, a.observation)
    ensures SizesWithin(e, e1, w + [a])
  {
    hide NewRecords, NewRejected, NewFenced, ClaimTotal, SourcesOf;
    TotalsStep(w, a);
  }

  lemma RoomForSource(known: set<u128>, mid: set<u128>, seen: set<u128>, s: u128, bound: nat)
    requires |known + (seen + {s})| <= bound && mid <= known + seen
    ensures s in mid || |mid| < bound
    ensures |known + seen| <= bound
  {
    var all := known + (seen + {s});
    Ordering.SubsetSize(known + seen, all);
    if s !in mid {
      Ordering.SubsetSize(mid + {s}, all);
    }
  }

  lemma RoomForNext(cfg: Config, e: Evidence, mid: Evidence, w: seq<Arrival>, a: Arrival)
    requires SizesWithin(e, mid, w) && Fits(cfg, e, w + [a])
    ensures Room(cfg, mid, a) && Fits(cfg, e, w)
  {
    hide ClaimTotal, SourcesOf;
    TotalsStep(w, a);
    RoomForSource(e.sources.Keys, mid.sources.Keys, SourcesOf(w), a.observation.source, cfg.maxSources);
    assert |mid.sources.Keys| == |mid.sources|;
  }

  lemma FitsPrefix(cfg: Config, e: Evidence, w: seq<Arrival>, a: Arrival)
    requires Fits(cfg, e, w + [a])
    ensures Fits(cfg, e, w)
  {
    assert (w + [a])[..|w|] == w;
    assert SourcesOf(w + [a]) == SourcesOf(w) + {a.observation.source};
    Ordering.SubsetSize(e.sources.Keys + SourcesOf(w), e.sources.Keys + SourcesOf(w + [a]));
  }

  lemma RunStep(cfg: Config, digest: Observation -> Digest, epoch: u64, e: Evidence, w: seq<Arrival>, a: Arrival)
    ensures Run(cfg, digest, epoch, e, w + [a]) == Ingest(cfg, digest, epoch, Run(cfg, digest, epoch, e, w), a).0
  {
    hide Ingest;
    assert (w + [a])[..|w|] == w;
  }

  /** What a run leaves behind for one source is what that source's own stream would have left alone. */
  lemma {:induction false} RunLocal(cfg: Config, digest: Observation -> Digest, epoch: u64, e: Evidence, w: seq<Arrival>, pool: set<Observation>)
    requires Fits(cfg, e, w) && !cfg.strictGeneration && Drawn(w, pool) && DigestsSeparate(digest, e, pool)
    ensures var e1 := Run(cfg, digest, epoch, e, w);
            && SizesWithin(e, e1, w) && DigestsSeparate(digest, e1, pool)
            && forall s :: Restrict(e1, s) == Run(cfg, digest, epoch, Restrict(e, s), Stream(w, s))
    decreases |w|
  {
    hide Ingest, Restrict, Room, Fits, SizesWithin, DigestsSeparate, Grows, Stream, Drawn;
    if w == [] {
      EmptyRun(e);
    } else {
      var front, a := w[..|w| - 1], w[|w| - 1];
      assert w == front + [a];
      var mid := Run(cfg, digest, epoch, e, front);
      var e1 := Ingest(cfg, digest, epoch, mid, a).0;
      FitsPrefix(cfg, e, front, a);
      DrawnPrefix(front, a, pool);
      RunLocal(cfg, digest, epoch, e, front, pool);
      RoomForNext(cfg, e, mid, front, a);
      IngestGrows(cfg, digest, epoch, mid, a);
      StepKeepsSeparation(digest, mid, e1, a.observation, pool);
      StepSizes(cfg, digest, e, mid, e1, front, a);
      PoolSeparated(digest, mid, pool, a.observation);
      RoomyStepIsLocal(cfg, digest, epoch, mid, a);
      forall s ensures Restrict(e1, s) == Run(cfg, digest, epoch, Restrict(e, s), Stream(w, s)) {
        StreamStep(front, a, s);
        if s == a.observation.source {
          RunStep(cfg, digest, epoch, Restrict(e, s), Stream(front, s), a);
        }
      }
    }
  }

  lemma EmptyRun(e: Evidence)
    ensures SizesWithin(e, e, []) && forall s :: Stream([], s) == []
  {
  }

  lemma DrawnPrefix(w: seq<Arrival>, a: Arrival, pool: set<Observation>)
    requires Drawn(w + [a], pool)
    ensures Drawn(w, pool) && a.observation in pool
  {
    assert a in w + [a];
    assert forall x :: x in w ==> x in w + [a];
  }

  lemma PoolSeparated(digest: Observation -> Digest, e: Evidence, pool: set<Observation>, o: Observation)
    requires DigestsSeparate(digest, e, pool) && o in pool
    ensures Separated(digest, e, o)
  {
  }

  lemma StreamStep(w: seq<Arrival>, a: Arrival, s: u128)
    ensures Stream(w + [a], s) == if a.observation.source == s then Stream(w, s) + [a] else Stream(w, s)
  {
    Ordering.FilterAppend(w, a, ArrivalOf(s));
  }

  // ---- two interleavings of the same streams ----

  ghost predicate SameStreams(w1: seq<Arrival>, w2: seq<Arrival>) { forall s :: Stream(w1, s) == Stream(w2, s) }

  /** Equal up to the order in which sources took turns. */
  ghost predicate Equivalent(e1: Evidence, e2: Evidence) {
    && e1.sources == e2.sources
    && e1.incarnations == e2.incarnations
    && e1.revisions == e2.revisions
    && multiset(e1.records) == multiset(e2.records)
    && multiset(e1.rejected) == multiset(e2.rejected)
    && multiset(e1.fencedClaims) == multiset(e2.fencedClaims)
    && e1.truncated == e2.truncated
    && e1.evicted == e2.evicted
  }

  lemma SameStreamsSameArrivals(w1: seq<Arrival>, w2: seq<Arrival>)
    requires SameStreams(w1, w2)
    ensures multiset(w1) == multiset(w2)
  {
    forall x ensures multiset(w1)[x] == multiset(w2)[x] {
      var s := x.observation.source;
      Ordering.FilterCount(w1, ArrivalOf(s), x);
      Ordering.FilterCount(w2, ArrivalOf(s), x);
      assert Stream(w1, s) == Stream(w2, s);
    }
  }

  lemma SameRestrictionsEquivalent(e1: Evidence, e2: Evidence)
    requires forall s :: Restrict(e1, s) == Restrict(e2, s)
    ensures Equivalent(e1, e2)
  {
    assert e1.truncated == Restrict(e1, 0).truncated == e2.truncated;
    assert e1.evicted == Restrict(e1, 0).evicted == e2.evicted;
    forall s ensures Only(e1.sources, s) == Only(e2.sources, s) && Only(e1.incarnations, s) == Only(e2.incarnations, s) {
      assert Restrict(e1, s) == Restrict(e2, s);
    }
    SameMaps(e1.sources, e2.sources);
    SameMaps(e1.incarnations, e2.incarnations);
    SameRevisions(e1, e2);
    SameSequences(e1, e2);
  }

  lemma SameMaps<T>(a: map<u128, T>, b: map<u128, T>)
    requires forall s :: Only(a, s) == Only(b, s)
    ensures a == b
  {
    forall s ensures (s in a <==> s in b) && (s in a ==> a[s] == b[s]) {
      OnlyLookup(a, s);
      OnlyLookup(b, s);
      assert Only(a, s) == Only(b, s);
    }
  }

  lemma SameRevisions(e1: Evidence, e2: Evidence)
    requires forall s :: Restrict(e1, s) == Restrict(e2, s)
    ensures e1.revisions == e2.revisions
  {
    forall k ensures (k in e1.revisions <==> k in e2.revisions) && (k in e1.revisions ==> e1.revisions[k] == e2.revisions[k]) {
      assert Restrict(e1, k.source) == Restrict(e2, k.source);
      var r1, r2 := RevisionsOf(e1.revisions, k.source), RevisionsOf(e2.revisions, k.source);
      assert r1 == r2;
      assert k in e1.revisions <==> k in r1;
      assert k in e2.revisions <==> k in r2;
    }
  }

  lemma SameSequences(e1: Evidence, e2: Evidence)
    requires forall s :: Restrict(e1, s) == Restrict(e2, s)
    ensures multiset(e1.records) == multiset(e2.records)
    ensures multiset(e1.rejected) == multiset(e2.rejected)
    ensures multiset(e1.fencedClaims) == multiset(e2.fencedClaims)
  {
    forall x: ObservationRecord ensures multiset(e1.records)[x] == multiset(e2.records)[x] {
      var s := x.observation.source;
      assert Restrict(e1, s) == Restrict(e2, s);
      Ordering.FilterCount(e1.records, RecordOf(s), x);
      Ordering.FilterCount(e2.records, RecordOf(s), x);
    }
    forall x: Rejected ensures multiset(e1.rejected)[x] == multiset(e2.rejected)[x] {
      assert Restrict(e1, x.source) == Restrict(e2, x.source);
      Ordering.FilterCount(e1.rejected, RejectedOf(x.source), x);
      Ordering.FilterCount(e2.rejected, RejectedOf(x.source), x);
    }
    forall x: FencedClaim ensures multiset(e1.fencedClaims)[x] == multiset(e2.fencedClaims)[x] {
      assert Restrict(e1, x.source) == Restrict(e2, x.source);
      Ordering.FilterCount(e1.fencedClaims, FencedOf(x.source), x);
      Ordering.FilterCount(e2.fencedClaims, FencedOf(x.source), x);
    }
  }

  lemma {:induction false} ClaimTotalPermuted(a: seq<Arrival>, b: seq<Arrival>)
    requires multiset(a) == multiset(b)
    ensures ClaimTotal(a) == ClaimTotal(b)
    decreases |a|
  {
    if a == [] {
      assert |multiset(b)| == 0;
    } else {
      var front, last := a[..|a| - 1], a[|a| - 1];
      assert a == front + [last];
      assert last in multiset(b);
      var i :| 0 <= i < |b| && b[i] == last;
      var rest := b[..i] + b[i + 1..];
      assert b == b[..i] + [last] + b[i + 1..];
      assert multiset(rest) == multiset(b) - multiset{last};
      ClaimTotalPermuted(front, rest);
      ClaimTotalRemove(b, i);
    }
  }

  lemma {:induction false} ClaimTotalRemove(b: seq<Arrival>, i: nat)
    requires i < |b|
    ensures ClaimTotal(b) == ClaimTotal(b[..i] + b[i + 1..]) + |b[i].observation.claims|
    decreases |b|
  {
    if i == |b| - 1 {
      assert b[..i] + b[i + 1..] == b[..i];
    } else {
      var front := b[..|b| - 1];
      ClaimTotalRemove(front, i);
      var rest := b[..i] + b[i + 1..];
      assert rest[..|rest| - 1] == front[..i] + front[i + 1..];
    }
  }

  lemma FitsPermuted(cfg: Config, e: Evidence, w1: seq<Arrival>, w2: seq<Arrival>)
    requires multiset(w1) == multiset(w2) && Fits(cfg, e, w1)
    ensures Fits(cfg, e, w2)
  {
    ClaimTotalPermuted(w1, w2);
    assert |multiset(w1)| == |w1| && |multiset(w2)| == |w2|;
    forall a ensures a in w1 <==> a in w2 {
      Ordering.InMultiset(a, w1);
      Ordering.InMultiset(a, w2);
    }
    assert SourcesOf(w1) == SourcesOf(w2);
  }

  /** With room to spare in every table, what each source sent decides the outcome; module Capacity carries
      this over to every run in which no bound is reached. */
  lemma RoomyInterleavings(cfg: Config, digest: Observation -> Digest, epoch: u64, e: Evidence, w1: seq<Arrival>, w2: seq<Arrival>, pool: set<Observation>)
    requires SameStreams(w1, w2)
    requires Fits(cfg, e, w1) && !cfg.strictGeneration
    requires Drawn(w1, pool) && DigestsSeparate(digest, e, pool)
    ensures Equivalent(Run(cfg, digest, epoch, e, w1), Run(cfg, digest, epoch, e, w2))
    ensures forall s :: Restrict(Run(cfg, digest, epoch, e, w1), s) == Restrict(Run(cfg, digest, epoch, e, w2), s)
  {
    hide Run, Restrict, Fits, DigestsSeparate, Equivalent, SizesWithin;
    SameStreamsSameArrivals(w1, w2);
    FitsPermuted(cfg, e, w1, w2);
    forall a | a in w2 ensures a.observation in pool {
      Ordering.InMultiset(a, w1);
      Ordering.InMultiset(a, w2);
    }
    RunLocal(cfg, digest, epoch, e, w1, pool);
    RunLocal(cfg, digest, epoch, e, w2, pool);
    forall s ensures Restrict(Run(cfg, digest, epoch, e, w1), s) == Restrict(Run(cfg, digest, epoch, e, w2), s) {
      assert Stream(w1, s) == Stream(w2, s);
    }
    SameRestrictionsEquivalent(Run(cfg, digest, epoch, e, w1), Run(cfg, digest, epoch, e, w2));
  }
}
