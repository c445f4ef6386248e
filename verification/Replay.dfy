/** Sending retained evidence again: a no-op for as long as its incarnation is remembered
    (src/observatory.cpp). */
module Replay {
  import opened Bytes
  import opened Observations
  import opened Observatories
  import opened Interleaving
  import Ordering
  import Runs

  /** The engine still knows the boot this observation came from, and where that boot's sequence stood. */
  predicate Remembered(e: Evidence, o: Observation) {
    && o.source in e.sources
    && if e.sources[o.source].incarnation == o.incarnation then o.sequence <= e.sources[o.source].lastSequence
       else o.incarnation in Seen(e.incarnations, o.source)
  }

  /** Only the counters of transport events may differ. */
  predicate SameButTallies(x: SourceState, y: SourceState) {
    y == x.(fenced := y.fenced, duplicates := y.duplicates)
  }

  ghost predicate SameButTelemetry(e: Evidence, e1: Evidence) {
    && e1 == e.(sources := e1.sources)
    && e1.sources.Keys == e.sources.Keys
    && forall s :: s in e.sources ==> SameButTallies(e.sources[s], e1.sources[s])
  }

  lemma RetainedIsIndexed(digest: Observation -> Digest, e: Evidence, r: ObservationRecord)
    requires r in e.records
    ensures Indexed(digest, e.records, digest(r.observation))
  {
    var i :| 0 <= i < |e.records| && e.records[i] == r;
    assert digest(e.records[i].observation) == digest(r.observation);
  }

  lemma FinishIndexed(cfg: Config, digest: Observation -> Digest, e: Evidence, a: Arrival, code: StatusCode, reason: Reason)
    requires Indexed(digest, e.records, digest(a.observation))
    ensures Finish(cfg, digest, e, a, code, reason) == (e, Outcome(Refused, code, 0, 0))
  {
    hide Indexed, AlreadyRejected;
  }

  /** Whichever fence refuses it, sending a retained observation again leaves the evidence, the refusals,
      the fences, the revisions and every lineage as they were. */
  lemma ReplayIsNoop(cfg: Config, digest: Observation -> Digest, epoch: u64, e: Evidence, r: ObservationRecord, now: i64)
    requires r in e.records && Remembered(e, r.observation)
    ensures var (e1, out) := Ingest(cfg, digest, epoch, e, Arrival(r.observation, now));
            SameButTelemetry(e, e1) && (out.disposition == Duplicate || out.disposition == Refused)
  {
    hide Indexed, Finish, CheckInput, CheckGeneration, HighWater, Register, IngestClaims;
    var o, a := r.observation, Arrival(r.observation, now);
    RetainedIsIndexed(digest, e, r);
    match CheckInput(cfg, o, now)
    case Refuse(code, reason) => FinishIndexed(cfg, digest, e, a, code, reason);
    case _ =>
      var high := if cfg.strictGeneration then HighWater(e.records) else 0;
      match CheckSequence(e.sources[o.source], Seen(e.incarnations, o.source), Indexed(digest, e.records, digest(o)), o)
      case Refuse(code, reason) =>
        FinishIndexed(cfg, digest, e.(sources := BumpFenced(e.sources, o.source)), a, code, reason);
      case _ =>
  }

  /** And that is exactly when it is refused: content that passes every other fence is accepted a second
      time if and only if its boot is neither the current one nor still in the window. */
  lemma ForgottenIsAcceptedAgain(cfg: Config, digest: Observation -> Digest, epoch: u64, e: Evidence, r: ObservationRecord, now: i64)
    requires r in e.records && r.observation.source in e.sources
    requires var src := e.sources[r.observation.source];
             src.incarnation == r.observation.incarnation ==> r.observation.sequence <= src.lastSequence
    requires CheckInput(cfg, r.observation, now) == Pass
    requires CheckGeneration(cfg, e.sources[r.observation.source], if cfg.strictGeneration then HighWater(e.records) else 0, r.observation) == Pass
    requires r.observation.claims != [] ==>
               FoldClaims(cfg, digest, e.sources[r.observation.source].descriptor.aspects, r.observation, now, StartFold(e), r.observation.claims).accepted > 0
    ensures var o, (e1, out) := r.observation, Ingest(cfg, digest, epoch, e, Arrival(r.observation, now));
            && (out.disposition == Accepted
                <==> e.sources[o.source].incarnation != o.incarnation && o.incarnation !in Seen(e.incarnations, o.source))
            && (out.disposition == Accepted <==> !Remembered(e, o))
  {
    hide Indexed, RecordRejection, CheckInput, CheckGeneration, HighWater, Register, FoldClaims, Accept;
    RetainedIsIndexed(digest, e, r);
    assert e.(sources := e.sources) == e;
    assert Admit(cfg, e.sources, r.observation) == Ok(e.sources);
  }

  // ---- while the window has room, every retained observation stays remembered ----

  ghost predicate RecordHeld(e: Evidence, r: ObservationRecord) {
    var o := r.observation;
    && o.source in e.sources
    && o.incarnation in Seen(e.incarnations, o.source)
    && (e.sources[o.source].incarnation == o.incarnation ==> o.sequence <= e.sources[o.source].lastSequence)
  }

  ghost predicate SourceHeld(e: Evidence, s: u128) {
    && Ordering.NoRepeats(Seen(e.incarnations, s))
    && (s in e.sources && e.sources[s].incarnation != 0 ==> e.sources[s].incarnation in Seen(e.incarnations, s))
  }

  /** The invariant: windows hold every boot that retained evidence came from. */
  ghost predicate Held(e: Evidence) {
    && (forall r :: r in e.records ==> RecordHeld(e, r))
    && (forall s :: SourceHeld(e, s))
  }

  function Boots(w: seq<Arrival>, s: u128): set<u128> { set a | a in w && a.observation.source == s :: a.observation.incarnation }

  function Window(e: Evidence, s: u128): set<u128> { Ordering.Elements(Seen(e.incarnations, s)) }

  /** The boots of s that the run admits, besides those its window starts with. */
  function Admitted(cfg: Config, digest: Observation -> Digest, epoch: u64, e: Evidence, w: seq<Arrival>, s: u128): set<u128> {
    Window(e, s) + Boots(Runs.AcceptedOf(cfg, digest, epoch, e, w, s), s)
  }

  /** No source has more boots admitted than its window can remember; what was refused does not matter. */
  ghost predicate WindowRoom(cfg: Config, digest: Observation -> Digest, epoch: u64, e: Evidence, w: seq<Arrival>) {
    forall s :: |Admitted(cfg, digest, epoch, e, w, s)| <= cfg.maxIncarnations
  }

  /** The window of the arriving source has a place for its boot. */
  ghost predicate RoomFor(cfg: Config, e: Evidence, a: Arrival, all: set<u128>) {
    && a.observation.incarnation in all && |all| <= cfg.maxIncarnations
    && forall y :: y in Seen(e.incarnations, a.observation.source) ==> y in all
  }

  lemma {:induction false} NoRepeatsCount(s: seq<u128>)
    requires Ordering.NoRepeats(s)
    ensures |Ordering.Elements(s)| == |s|
  {
    if s == [] {
      assert Ordering.Elements(s) == {};
    } else {
      var front, last := s[..|s| - 1], s[|s| - 1];
      NoRepeatsCount(front);
      assert Ordering.Elements(s) == Ordering.Elements(front) + {last};
      assert last !in front;
    }
  }

  lemma PushFits(cfg: Config, seen: seq<u128>, x: u128, all: set<u128>)
    requires Ordering.NoRepeats(seen) && x !in seen && x in all && (forall y :: y in seen ==> y in all) && |all| <= cfg.maxIncarnations
    ensures PushWindow(seen, x, cfg.maxIncarnations) == seen + [x] && Ordering.NoRepeats(seen + [x])
  {
    NoRepeatsCount(seen + [x]);
    Ordering.SubsetSize(Ordering.Elements(seen + [x]), all);
  }

  /** How one step may change windows and lineages, when the window of the arriving source has room. */
  ghost predicate HoldsOn(e: Evidence, e1: Evidence, a: Arrival, accepted: bool) {
    var o := a.observation;
    && (forall s :: s in e.sources ==> s in e1.sources)
    && (forall s :: s in e1.sources && s !in e.sources && !(accepted && s == o.source) ==> e1.sources[s].incarnation == 0)
    && (forall s :: s in e.sources && !(accepted && s == o.source) ==> Runs.SameLineage(e.sources[s], e1.sources[s]))
    && (forall s :: s != o.source ==> Seen(e1.incarnations, s) == Seen(e.incarnations, s))
    && (!accepted ==> e1.incarnations == e.incarnations)
    && (accepted ==>
          && o.incarnation != 0 && o.source in e1.sources && Runs.Lineage(e1.sources[o.source], o)
          && (o.source in e.sources && e.sources[o.source].incarnation == o.incarnation ==>
                e.sources[o.source].lastSequence < o.sequence && e1.incarnations == e.incarnations)
          && (!(o.source in e.sources && e.sources[o.source].incarnation == o.incarnation) ==>
                o.incarnation !in Seen(e.incarnations, o.source)
                && Seen(e1.incarnations, o.source) == Seen(e.incarnations, o.source) + [o.incarnation]))
  }

  lemma ClaimsHoldOn(cfg: Config, digest: Observation -> Digest, epoch: u64, e: Evidence, a: Arrival, all: set<u128>)
    requires a.observation.source in e.sources && a.observation.incarnation != 0
    requires CheckSequence(e.sources[a.observation.source], Seen(e.incarnations, a.observation.source),
                           Indexed(digest, e.records, digest(a.observation)), a.observation) == Pass
    requires Ordering.NoRepeats(Seen(e.incarnations, a.observation.source))
    requires IngestClaims(cfg, digest, epoch, e, a).1.disposition == Accepted ==> RoomFor(cfg, e, a, all)
    ensures var (e1, out) := IngestClaims(cfg, digest, epoch, e, a); HoldsOn(e, e1, a, out.disposition == Accepted)
  {
    hide FoldClaims, Evict, DropCount, Indexed, RecordRejection, PushWindow, Ordering.NoRepeats;
    var o := a.observation;
    if e.sources[o.source].incarnation != o.incarnation && IngestClaims(cfg, digest, epoch, e, a).1.disposition == Accepted {
      PushFits(cfg, Seen(e.incarnations, o.source), o.incarnation, all);
    }
  }

  lemma KnownHoldsOn(cfg: Config, digest: Observation -> Digest, epoch: u64, e: Evidence, a: Arrival, all: set<u128>)
    requires a.observation.source in e.sources && a.observation.incarnation != 0
    requires Ordering.NoRepeats(Seen(e.incarnations, a.observation.source))
    requires IngestKnown(cfg, digest, epoch, e, a).1.disposition == Accepted ==> RoomFor(cfg, e, a, all)
    ensures var (e1, out) := IngestKnown(cfg, digest, epoch, e, a); HoldsOn(e, e1, a, out.disposition == Accepted)
  {
    hide Indexed, RecordRejection, CheckSequence, CheckGeneration, HighWater, IngestClaims, Ordering.NoRepeats, RoomFor;
    var o := a.observation;
    var high := if cfg.strictGeneration then HighWater(e.records) else 0;
    if CheckLineage(cfg, e.sources[o.source], Seen(e.incarnations, o.source), Indexed(digest, e.records, digest(o)), high, o) == Pass {
      ClaimsHoldOn(cfg, digest, epoch, e, a, all);
    }
  }

  lemma AdmitFresh(cfg: Config, sources: map<u128, SourceState>, o: Observation)
    requires Admit(cfg, sources, o).Ok?
    ensures var m := Admit(cfg, sources, o).value;
            && (forall s :: s in sources ==> s in m && m[s] == sources[s])
            && (forall s :: s in m && s !in sources ==> s == o.source && m[s].incarnation == 0)
  {
    hide Ordering.Sort, AdjacentTwins;
  }

  lemma InputHasBoot(cfg: Config, o: Observation, now: i64)
    ensures !CheckInput(cfg, o, now).Refuse? ==> o.incarnation != 0
  {
    hide CheckMetaSizes, CheckClaims, AdjacentClaims, ZeroDigest;
  }

  lemma StepHoldsOn(cfg: Config, digest: Observation -> Digest, epoch: u64, e: Evidence, a: Arrival, all: set<u128>)
    requires Ordering.NoRepeats(Seen(e.incarnations, a.observation.source))
    requires Ingest(cfg, digest, epoch, e, a).1.disposition == Accepted ==> RoomFor(cfg, e, a, all)
    ensures var (e1, out) := Ingest(cfg, digest, epoch, e, a); HoldsOn(e, e1, a, out.disposition == Accepted)
  {
    hide CheckInput, Admit, IngestKnown, RecordRejection, Ordering.NoRepeats;
    var o := a.observation;
    InputHasBoot(cfg, o, a.receivedAt);
    if CheckInput(cfg, o, a.receivedAt).Refuse? {
    } else if Admit(cfg, e.sources, o).Ok? {
      var e0 := e.(sources := Admit(cfg, e.sources, o).value);
      AdmitFresh(cfg, e.sources, o);
      KnownHoldsOn(cfg, digest, epoch, e0, a, all);
      HoldsOnAdmitted(e, e0, IngestKnown(cfg, digest, epoch, e0, a).0, a, IngestKnown(cfg, digest, epoch, e0, a).1.disposition == Accepted);
    }
  }

  lemma HoldsOnAdmitted(e: Evidence, e0: Evidence, e1: Evidence, a: Arrival, accepted: bool)
    requires e0 == e.(sources := e0.sources) && HoldsOn(e0, e1, a, accepted)
    requires forall s :: s in e.sources ==> s in e0.sources && e0.sources[s] == e.sources[s]
    requires forall s :: s in e0.sources && s !in e.sources ==> s == a.observation.source && e0.sources[s].incarnation == 0
    ensures HoldsOn(e, e1, a, accepted)
  {
  }

  lemma HeldStep(cfg: Config, digest: Observation -> Digest, epoch: u64, e: Evidence, a: Arrival, all: set<u128>)
    requires Held(e)
    requires Ingest(cfg, digest, epoch, e, a).1.disposition == Accepted ==>
               a.observation.incarnation in all && Window(e, a.observation.source) <= all && |all| <= cfg.maxIncarnations
    ensures var (e1, out) := Ingest(cfg, digest, epoch, e, a);
            Held(e1) && forall s :: Window(e1, s) <= Window(e, s) + Boots(if out.disposition == Accepted then [a] else [], s)
  {
    hide Ingest, HoldsOn, Evict, DropCount;
    var o := a.observation;
    var (e1, out) := Ingest(cfg, digest, epoch, e, a);
    assert SourceHeld(e, o.source);
    assert forall y :: y in Seen(e.incarnations, o.source) ==> y in Window(e, o.source);
    StepHoldsOn(cfg, digest, epoch, e, a, all);
    Runs.IngestRecords(cfg, digest, epoch, e, a);
    EvictKeepsSome(digest, e.records + [NewRecord(a, epoch)], cfg.maxEvidence);
    var accepted := out.disposition == Accepted;
    forall r | r in e1.records ensures RecordHeld(e1, r) {
      if r in e.records {
        OldRecordHeld(e, e1, a, accepted, r);
      } else {
        assert accepted && r == NewRecord(a, epoch);
        NewRecordHeld(e, e1, a, r);
      }
    }
    forall s ensures SourceHeld(e1, s) && Window(e1, s) <= Window(e, s) + Boots(if accepted then [a] else [], s) {
      SourceStaysHeld(e, e1, a, accepted, s);
    }
  }

  lemma OldRecordHeld(e: Evidence, e1: Evidence, a: Arrival, accepted: bool, r: ObservationRecord)
    requires HoldsOn(e, e1, a, accepted) && RecordHeld(e, r)
    ensures RecordHeld(e1, r)
  {
  }

  lemma NewRecordHeld(e: Evidence, e1: Evidence, a: Arrival, r: ObservationRecord)
    requires HoldsOn(e, e1, a, true) && r.observation == a.observation && SourceHeld(e, a.observation.source)
    ensures RecordHeld(e1, r)
  {
  }

  lemma SourceStaysHeld(e: Evidence, e1: Evidence, a: Arrival, accepted: bool, s: u128)
    requires HoldsOn(e, e1, a, accepted) && SourceHeld(e, s)
    ensures SourceHeld(e1, s) && Window(e1, s) <= Window(e, s) + Boots(if accepted then [a] else [], s)
  {
    assert a in [a];
  }

  lemma {:induction false} RunHeld(cfg: Config, digest: Observation -> Digest, epoch: u64, e: Evidence, w: seq<Arrival>)
    requires Held(e) && WindowRoom(cfg, digest, epoch, e, w)
    ensures var e1 := Run(cfg, digest, epoch, e, w);
            Held(e1) && forall s :: Window(e1, s) <= Admitted(cfg, digest, epoch, e, w, s)
  {
    hide Ingest, Held, Window, Boots;
    if w != [] {
      var front, a := w[..|w| - 1], w[|w| - 1];
      var mid := Run(cfg, digest, epoch, e, front);
      var accepted := Ingest(cfg, digest, epoch, mid, a).1.disposition == Accepted;
      forall t ensures Admitted(cfg, digest, epoch, e, w, t)
                    == Admitted(cfg, digest, epoch, e, front, t) + Boots(if accepted then [a] else [], t)
      {
        AdmittedPush(cfg, digest, epoch, e, front, a, t);
        assert w == front + [a];
      }
      forall t ensures |Admitted(cfg, digest, epoch, e, front, t)| <= cfg.maxIncarnations {
        Ordering.SubsetSize(Admitted(cfg, digest, epoch, e, front, t), Admitted(cfg, digest, epoch, e, w, t));
      }
      RunHeld(cfg, digest, epoch, e, front);
      BootOf(a);
      HeldStep(cfg, digest, epoch, mid, a, Admitted(cfg, digest, epoch, e, w, a.observation.source));
    } else {
      forall s ensures Window(e, s) <= Admitted(cfg, digest, epoch, e, w, s) {
      }
    }
  }

  lemma BootOf(a: Arrival)
    ensures a.observation.incarnation in Boots([a], a.observation.source)
  {
    assert a in [a];
  }

  lemma AdmittedPush(cfg: Config, digest: Observation -> Digest, epoch: u64, e: Evidence, w: seq<Arrival>, a: Arrival, s: u128)
    ensures var accepted := Ingest(cfg, digest, epoch, Run(cfg, digest, epoch, e, w), a).1.disposition == Accepted;
            Admitted(cfg, digest, epoch, e, w + [a], s) == Admitted(cfg, digest, epoch, e, w, s) + Boots(if accepted then [a] else [], s)
  {
    hide Ingest, Window;
    assert (w + [a])[..|w|] == w;
    BootsPush(Runs.AcceptedOf(cfg, digest, epoch, e, w, s), a, s);
  }

  lemma BootsPush(w: seq<Arrival>, a: Arrival, s: u128)
    ensures Boots(w + [a], s) == Boots(w, s) + Boots([a], s)
  {
    assert a in [a];
  }

  // ---- where the invariant starts ----

  /** It holds before anything was heard, and registering a source keeps it. */
  lemma NothingIsHeld(e: Evidence)
    requires e.sources == map[] && e.incarnations == map[] && e.records == []
    ensures Held(e)
  {
  }

  lemma RegisterLineage(cfg: Config, sources: map<u128, SourceState>, d: Descriptor)
    requires Register(cfg, sources, d).Ok?
    ensures var m := Register(cfg, sources, d).value;
            && (forall s :: s in sources ==> s in m && Runs.SameLineage(sources[s], m[s]))
            && (forall s :: s in m && s !in sources ==> m[s].incarnation == 0)
  {
    hide Ordering.Sort, AdjacentTwins;
  }

  lemma RegisterHolds(cfg: Config, e: Evidence, d: Descriptor)
    requires Held(e) && Register(cfg, e.sources, d).Ok?
    ensures Held(e.(sources := Register(cfg, e.sources, d).value))
  {
    hide Register, Ordering.NoRepeats;
    var e1 := e.(sources := Register(cfg, e.sources, d).value);
    RegisterLineage(cfg, e.sources, d);
    forall r | r in e1.records ensures RecordHeld(e1, r) {
      assert RecordHeld(e, r);
    }
    forall s ensures SourceHeld(e1, s) {
      assert SourceHeld(e, s);
    }
  }

  /** In every reachable state in which no boot has left its window, replaying any retained observation,
      at any time, is a no-op. The invariant holds on nothing at all, where it starts. */
  lemma ReplayAfterAnyRun(cfg: Config, digest: Observation -> Digest, epoch: u64, e: Evidence, w: seq<Arrival>, r: ObservationRecord, now: i64)
    requires Held(e) && WindowRoom(cfg, digest, epoch, e, w) && r in Run(cfg, digest, epoch, e, w).records
    ensures var e1 := Run(cfg, digest, epoch, e, w);
            var (e2, out) := Ingest(cfg, digest, epoch, e1, Arrival(r.observation, now));
            SameButTelemetry(e1, e2) && (out.disposition == Duplicate || out.disposition == Refused)
  {
    hide Ingest, WindowRoom, SameButTelemetry;
    RunHeld(cfg, digest, epoch, e, w);
    var e1 := Run(cfg, digest, epoch, e, w);
    assert RecordHeld(e1, r);
    ReplayIsNoop(cfg, digest, epoch, e1, r, now);
  }
}
