/** Opening an observatory on recovered evidence, and how much of each lineage survives the restart
    (src/observatory.cpp). */
module Restart {
  import opened Bytes
  import opened Observations
  import opened Observatories
  import opened Interleaving
  import Ids
  import Ordering
  import Replay
  import Runs
  import Views
  import ViewStability

  // ---- the rebuilt lineage ----

  function RecoverLe(a: ObservationRecord, b: ObservationRecord): bool {
    var x, y := a.observation, b.observation;
    if x.source != y.source then x.source < y.source
    else if x.incarnation != y.incarnation then x.incarnation < y.incarnation
    else x.sequence <= y.sequence
  }

  datatype Lineages = Lineages(sources: map<u128, SourceState>, incarnations: map<u128, seq<u128>>)

  /** What one recovered record does to its source's bookkeeping. */
  function RecoverSource(cfg: Config, epoch: u64, src: SourceState, r: ObservationRecord): SourceState {
    var o := r.observation;
    var named := if src.descriptor.id != 0 then src
                 else src.(descriptor := src.descriptor.(id := o.source, name := Ids.IdText(Ascii("src"), o.source),
                                                         schema := o.schema, maxAuthority := cfg.autoAuthority));
    var booted := if named.incarnation == o.incarnation then named
                  else named.(incarnation := o.incarnation, bootTime := r.receivedAt, bootCounter := 0);
    var generation := if o.generation > booted.lastGeneration then o.generation else booted.lastGeneration;
    booted.(
      lastSequence := if o.sequence > booted.lastSequence then o.sequence else booted.lastSequence,
      lastGeneration := generation,
      lastEpoch := if o.generation == generation && o.epoch > booted.lastEpoch then o.epoch else booted.lastEpoch,
      firstReceive := if booted.firstReceive == 0 || r.receivedAt < booted.firstReceive then r.receivedAt else booted.firstReceive,
      lastReceive := if r.receivedAt > booted.lastReceive then r.receivedAt else booted.lastReceive,
      lastObservation := if o.observedAt > booted.lastObservation then o.observedAt else booted.lastObservation,
      accepted := booted.accepted + 1,
      recovered := true,
      recoveryEpoch := epoch)
  }

  function SourceAt(sources: map<u128, SourceState>, s: u128): SourceState { if s in sources then sources[s] else FRESH_SOURCE }

  function RecoverStep(cfg: Config, epoch: u64, t: Lineages, r: ObservationRecord): Lineages {
    var o := r.observation;
    var src, seen := SourceAt(t.sources, o.source), Seen(t.incarnations, o.source);
    Lineages(
      t.sources[o.source := RecoverSource(cfg, epoch, src, r)],
      if src.incarnation == o.incarnation then t.incarnations
      else t.incarnations[o.source := if o.incarnation in seen then seen else PushWindow(seen, o.incarnation, cfg.maxIncarnations)])
  }

  function RecoverAll(cfg: Config, epoch: u64, rs: seq<ObservationRecord>): Lineages {
    if rs == [] then Lineages(map[], map[])
    else RecoverStep(cfg, epoch, RecoverAll(cfg, epoch, rs[..|rs| - 1]), rs[|rs| - 1])
  }

  function Reborn(r: ObservationRecord, epoch: u64): ObservationRecord { r.(recovered := true, recoveryEpoch := epoch) }

  function RebornAll(rs: seq<ObservationRecord>, epoch: u64): (r: seq<ObservationRecord>)
    ensures |r| == |rs|
  {
    seq(|rs|, i requires 0 <= i < |rs| => Reborn(rs[i], epoch))
  }

  /** The evidence an observatory starts from: the records as they were journalled, marked as recovered,
      with lineages rebuilt; revisions, refusals and fences are not rebuilt, and nothing is evicted. */
  function Recovered(cfg: Config, epoch: u64, journalled: seq<ObservationRecord>): Evidence {
    var t := RecoverAll(cfg, epoch, Ordering.Sort(RebornAll(journalled, epoch), RecoverLe));
    Evidence(t.sources, t.incarnations, map[], RebornAll(journalled, epoch), [], [], false, 0)
  }

  // ---- the same, as the loops the program runs ----

  method RebuildLineages(cfg: Config, epoch: u64, ordered: seq<ObservationRecord>) returns (t: Lineages)
    ensures t == RecoverAll(cfg, epoch, ordered)
  {
    t := Lineages(map[], map[]);
    for i := 0 to |ordered|
      invariant t == RecoverAll(cfg, epoch, ordered[..i])
    {
      hide RecoverSource, PushWindow;
      assert ordered[..i + 1][..i] == ordered[..i];
      var o := ordered[i].observation;
      var src := SourceAt(t.sources, o.source);
      if src.incarnation != o.incarnation {
        var seen := Seen(t.incarnations, o.source);
        if o.incarnation !in seen {
          seen := PushWindow(seen, o.incarnation, cfg.maxIncarnations);
        }
        t := t.(incarnations := t.incarnations[o.source := seen]);
      }
      t := t.(sources := t.sources[o.source := RecoverSource(cfg, epoch, src, ordered[i])]);
    }
    assert ordered[..|ordered|] == ordered;
  }

  method MarkRecovered(journalled: seq<ObservationRecord>, epoch: u64) returns (rs: seq<ObservationRecord>)
    ensures rs == RebornAll(journalled, epoch)
  {
    rs := [];
    for i := 0 to |journalled|
      invariant |rs| == i && rs == RebornAll(journalled, epoch)[..i]
    {
      rs := rs + [journalled[i].(recovered := true, recoveryEpoch := epoch)];
    }
  }

  /** open: with recovered records a new restart epoch begins on them; without any, only the epoch moves. */
  method Open(cfg: Config, digestOf: Observation -> Digest, journalled: seq<ObservationRecord>, journalEpoch: u64)
    returns (o: Observatory)
    ensures o.Valid() && fresh(o) && o.config == cfg && o.digest == digestOf
    ensures o.restartEpoch == (journalEpoch + 1) % U64_MODULUS
    ensures o.View() == Recovered(cfg, o.restartEpoch, journalled)
  {
    var epoch := (journalEpoch + 1) % U64_MODULUS;
    var rs := MarkRecovered(journalled, epoch);
    var t := RebuildLineages(cfg, epoch, Ordering.Sort(rs, RecoverLe));
    o := new Observatory(cfg, digestOf, epoch, Evidence(t.sources, t.incarnations, map[], rs, [], [], false, 0));
  }

  // ---- a rebuilt lineage is the fold of its own source's records ----

  function FoldSource(cfg: Config, epoch: u64, rs: seq<ObservationRecord>): SourceState {
    if rs == [] then FRESH_SOURCE
    else RecoverSource(cfg, epoch, FoldSource(cfg, epoch, rs[..|rs| - 1]), rs[|rs| - 1])
  }

  function FoldSeen(cfg: Config, epoch: u64, rs: seq<ObservationRecord>): seq<u128> {
    if rs == [] then []
    else
      var front, last := rs[..|rs| - 1], rs[|rs| - 1];
      var seen, x := FoldSeen(cfg, epoch, front), last.observation.incarnation;
      if FoldSource(cfg, epoch, front).incarnation == x || x in seen then seen
      else PushWindow(seen, x, cfg.maxIncarnations)
  }

  lemma {:induction false} RecoverLocal(cfg: Config, epoch: u64, rs: seq<ObservationRecord>, s: u128)
    ensures var t, mine := RecoverAll(cfg, epoch, rs), Ordering.Filter(rs, RecordOf(s));
            && (s in t.sources <==> mine != [])
            && SourceAt(t.sources, s) == FoldSource(cfg, epoch, mine)
            && Seen(t.incarnations, s) == FoldSeen(cfg, epoch, mine)
  {
    hide RecoverSource, PushWindow;
    if rs != [] {
      var front, last := rs[..|rs| - 1], rs[|rs| - 1];
      RecoverLocal(cfg, epoch, front, s);
      var mine := Ordering.Filter(front, RecordOf(s));
      assert (mine + [last])[..|mine|] == mine;
    }
  }

  // ---- and each field of it is a maximum ----

  function Peak(rs: seq<ObservationRecord>, f: Observation -> nat): nat {
    if rs == [] then 0 else Max(Peak(rs[..|rs| - 1], f), f(rs[|rs| - 1].observation))
  }

  lemma {:induction false} PeakBounds(rs: seq<ObservationRecord>, f: Observation -> nat)
    ensures forall r :: r in rs ==> f(r.observation) <= Peak(rs, f)
    ensures Peak(rs, f) == 0 || exists r :: r in rs && f(r.observation) == Peak(rs, f)
  {
    if rs != [] {
      var front, last := rs[..|rs| - 1], rs[|rs| - 1];
      PeakBounds(front, f);
      assert rs == front + [last];
      if Peak(rs, f) != f(last.observation) {
        assert Peak(front, f) == 0 || exists r :: r in front && f(r.observation) == Peak(front, f);
      }
    }
  }

  lemma PeakOf(rs: seq<ObservationRecord>, f: Observation -> nat, n: nat)
    requires exists r :: r in rs && f(r.observation) == n
    ensures Peak(rs, f) == n <==> forall r :: r in rs ==> f(r.observation) <= n
  {
    PeakBounds(rs, f);
  }

  function SequenceOf(o: Observation): nat { o.sequence }

  function GenerationOf(o: Observation): nat { o.generation }

  lemma {:induction false} FoldedMaxima(cfg: Config, epoch: u64, rs: seq<ObservationRecord>)
    ensures var src := FoldSource(cfg, epoch, rs);
            && src.lastSequence == Peak(rs, SequenceOf)
            && src.lastGeneration == Peak(rs, GenerationOf)
            && (rs != [] ==> src.incarnation == rs[|rs| - 1].observation.incarnation)
  {
    if rs != [] {
      FoldedMaxima(cfg, epoch, rs[..|rs| - 1]);
    }
  }

  // ---- the journal of a run ----

  /** The records a run appended to the journal, in order. */
  function JournalOf(cfg: Config, digest: Observation -> Digest, epoch: u64, e: Evidence, w: seq<Arrival>): seq<ObservationRecord> {
    if w == [] then []
    else
      var before, a := JournalOf(cfg, digest, epoch, e, w[..|w| - 1]), w[|w| - 1];
      var out := Ingest(cfg, digest, epoch, Run(cfg, digest, epoch, e, w[..|w| - 1]), a).1;
      if out.disposition == Accepted then before + [NewRecord(a, epoch)] else before
  }

  function Stamp(accepted: seq<Arrival>, epoch: u64): (r: seq<ObservationRecord>)
    ensures |r| == |accepted|
  {
    seq(|accepted|, i requires 0 <= i < |accepted| => NewRecord(accepted[i], epoch))
  }

  lemma {:induction false} JournalPerSource(cfg: Config, digest: Observation -> Digest, epoch: u64, e: Evidence, w: seq<Arrival>, s: u128)
    ensures Ordering.Filter(JournalOf(cfg, digest, epoch, e, w), RecordOf(s)) == Stamp(Runs.AcceptedOf(cfg, digest, epoch, e, w, s), epoch)
  {
    hide Ingest;
    if w != [] {
      var front, a := w[..|w| - 1], w[|w| - 1];
      JournalPerSource(cfg, digest, epoch, e, front, s);
      Ordering.FilterAppend(JournalOf(cfg, digest, epoch, e, front), NewRecord(a, epoch), RecordOf(s));
    }
  }

  lemma {:induction false} RebornFilter(rs: seq<ObservationRecord>, epoch: u64, s: u128)
    ensures Ordering.Filter(RebornAll(rs, epoch), RecordOf(s)) == RebornAll(Ordering.Filter(rs, RecordOf(s)), epoch)
  {
    if rs != [] {
      var front, last := rs[..|rs| - 1], rs[|rs| - 1];
      RebornFilter(front, epoch, s);
      assert RebornAll(rs, epoch)[..|rs| - 1] == RebornAll(front, epoch);
    }
  }

  lemma FilterMember<T>(s: seq<T>, keep: T -> bool, x: T)
    requires x in Ordering.Filter(s, keep)
    ensures x in s
  {
    hide Ordering.Filter;
    Ordering.FilterMembers(s, keep);
  }

  lemma {:induction false} FilterSorted<T>(s: seq<T>, le: (T, T) -> bool, keep: T -> bool)
    requires Ordering.Sorted(s, le)
    ensures Ordering.Sorted(Ordering.Filter(s, keep), le)
  {
    if s != [] {
      var front, last := s[..|s| - 1], s[|s| - 1];
      FilterSorted(front, le, keep);
      var kept := Ordering.Filter(front, keep);
      forall i | 0 <= i < |kept| ensures le(kept[i], last) {
        FilterMember(front, keep, kept[i]);
        var k :| 0 <= k < |front| && front[k] == kept[i];
        assert le(s[k], s[|s| - 1]);
      }
    }
  }

  lemma RecoverOrderIsTotal()
    ensures Ordering.TotalPreorder(RecoverLe)
  {
  }

  /** The part of the sorted journal that belongs to s: sorted, and the same records. */
  function SortedMine(cfg: Config, epoch: u64, journalled: seq<ObservationRecord>, s: u128): seq<ObservationRecord> {
    Ordering.Filter(Ordering.Sort(RebornAll(journalled, epoch), RecoverLe), RecordOf(s))
  }

  lemma SortedMineFacts(cfg: Config, epoch: u64, journalled: seq<ObservationRecord>, s: u128)
    ensures var mine := SortedMine(cfg, epoch, journalled, s);
            && Ordering.Sorted(mine, RecoverLe)
            && multiset(mine) == multiset(RebornAll(Ordering.Filter(journalled, RecordOf(s)), epoch))
            && |mine| == |Ordering.Filter(journalled, RecordOf(s))|
  {
    hide RecoverLe, RecordOf;
    var all := RebornAll(journalled, epoch);
    RecoverOrderIsTotal();
    Ordering.SortSorted(all, RecoverLe);
    Ordering.SortContents(all, RecoverLe);
    FilterSorted(Ordering.Sort(all, RecoverLe), RecoverLe, RecordOf(s));
    Views.FilterPermuted(Ordering.Sort(all, RecoverLe), all, RecordOf(s));
    RebornFilter(journalled, epoch, s);
  }

  // ---- recovered evidence is where the invariants of runs start again ----

  function BootsIn(rs: seq<ObservationRecord>): set<u128> { set r | r in rs :: r.observation.incarnation }

  function BootsOf(rs: seq<ObservationRecord>, s: u128): set<u128> { BootsIn(Ordering.Filter(rs, RecordOf(s))) }

  /** What is journalled was accepted once: it names a boot; and each source's boots fit its window. */
  ghost predicate Windowed(cfg: Config, journalled: seq<ObservationRecord>) {
    && (forall r :: r in journalled ==> r.observation.incarnation != 0)
    && (forall s :: |BootsOf(journalled, s)| <= cfg.maxIncarnations)
  }

  lemma BootsPush(front: seq<ObservationRecord>, last: ObservationRecord)
    ensures BootsIn(front + [last]) == BootsIn(front) + {last.observation.incarnation}
  {
    assert last in front + [last];
  }

  lemma FoldSeenStep(cfg: Config, epoch: u64, front: seq<ObservationRecord>, last: ObservationRecord)
    requires var seen := FoldSeen(cfg, epoch, front); Ordering.NoRepeats(seen) && forall x :: x in seen <==> x in BootsIn(front)
    requires last.observation.incarnation != 0 && |BootsIn(front + [last])| <= cfg.maxIncarnations
    ensures var seen := FoldSeen(cfg, epoch, front + [last]);
            Ordering.NoRepeats(seen) && forall x :: x in seen <==> x in BootsIn(front + [last])
  {
    hide FoldSource, PushWindow, Ordering.NoRepeats, BootsIn;
    var rs, x := front + [last], last.observation.incarnation;
    assert rs[..|rs| - 1] == front && rs[|rs| - 1] == last;
    BootsPush(front, last);
    FoldedMaxima(cfg, epoch, front);
    if front == [] {
      NothingFolded(cfg, epoch);
    } else {
      BootsPush(front[..|front| - 1], front[|front| - 1]);
      assert front == front[..|front| - 1] + [front[|front| - 1]];
    }
    if FoldSource(cfg, epoch, front).incarnation != x && x !in FoldSeen(cfg, epoch, front) {
      Replay.PushFits(cfg, FoldSeen(cfg, epoch, front), x, BootsIn(rs));
    }
  }

  lemma NothingFolded(cfg: Config, epoch: u64)
    ensures FoldSource(cfg, epoch, []).incarnation == 0
  {
  }

  lemma {:induction false} FoldSeenHolds(cfg: Config, epoch: u64, rs: seq<ObservationRecord>)
    requires forall r :: r in rs ==> r.observation.incarnation != 0
    requires |BootsIn(rs)| <= cfg.maxIncarnations
    ensures var seen := FoldSeen(cfg, epoch, rs); Ordering.NoRepeats(seen) && forall x :: x in seen <==> x in BootsIn(rs)
  {
    hide FoldSource, PushWindow, Ordering.NoRepeats;
    if rs == [] {
      NothingRepeats();
    } else {
      hide FoldSeen, BootsIn;
      var front, last := rs[..|rs| - 1], rs[|rs| - 1];
      assert rs == front + [last];
      BootsPush(front, last);
      Ordering.SubsetSize(BootsIn(front), BootsIn(rs));
      assert last in rs && forall r :: r in front ==> r in rs;
      FoldSeenHolds(cfg, epoch, front);
      FoldSeenStep(cfg, epoch, front, last);
    }
  }

  lemma NothingRepeats()
    ensures Ordering.NoRepeats<u128>([])
  {
  }

  lemma SortedMineBoots(cfg: Config, epoch: u64, journalled: seq<ObservationRecord>, s: u128)
    ensures var mine := SortedMine(cfg, epoch, journalled, s);
            && BootsIn(mine) == BootsOf(journalled, s)
            && (forall r :: r in RebornAll(journalled, epoch) && r.observation.source == s ==> r in mine)
            && (forall r :: r in mine ==> r in RebornAll(journalled, epoch) && r.observation.source == s)
  {
    hide RecoverLe, RebornAll, Ordering.Sort, Ordering.Filter, RecordOf;
    var all := RebornAll(journalled, epoch);
    var filtered := Ordering.Filter(journalled, RecordOf(s));
    SortedMineFacts(cfg, epoch, journalled, s);
    ViewStability.SameMembers(SortedMine(cfg, epoch, journalled, s), RebornAll(filtered, epoch));
    RebornBoots(filtered, epoch);
    Ordering.SortMembers(all, RecoverLe);
    Ordering.FilterMembers(Ordering.Sort(all, RecoverLe), RecordOf(s));
    OfSource(s);
  }

  lemma OfSource(s: u128)
    ensures forall r: ObservationRecord :: RecordOf(s)(r) <==> r.observation.source == s
  {
  }

  lemma RebornBoots(rs: seq<ObservationRecord>, epoch: u64)
    ensures BootsIn(RebornAll(rs, epoch)) == BootsIn(rs)
  {
    var all := RebornAll(rs, epoch);
    forall i | 0 <= i < |rs| ensures rs[i].observation.incarnation in BootsIn(all) && all[i].observation.incarnation in BootsIn(rs) {
      assert rs[i] in rs && all[i] in all;
    }
  }

  lemma RebornNonNil(rs: seq<ObservationRecord>, epoch: u64)
    requires forall r :: r in rs ==> r.observation.incarnation != 0
    ensures forall r :: r in RebornAll(rs, epoch) ==> r.observation.incarnation != 0
  {
    var all := RebornAll(rs, epoch);
    forall r | r in all ensures r.observation.incarnation != 0 {
      var i :| 0 <= i < |all| && all[i] == r;
      assert rs[i] in rs;
    }
  }

  /** The engine reopened on journalled evidence remembers every boot of it, so replaying is a no-op from
      there on as well. */
  lemma RecoveredIsHeld(cfg: Config, epoch: u64, journalled: seq<ObservationRecord>)
    requires Windowed(cfg, journalled)
    ensures Replay.Held(Recovered(cfg, epoch, journalled))
  {
    hide RebornAll, RecoverAll, SortedMine, FoldSource, FoldSeen, BootsIn, BootsOf, Replay.RecordHeld, Replay.SourceHeld;
    var e := Recovered(cfg, epoch, journalled);
    forall s ensures Replay.SourceHeld(e, s) {
      RecoveredSourceHeld(cfg, epoch, journalled, s);
    }
    forall r | r in e.records ensures Replay.RecordHeld(e, r) {
      RecoveredSourceHeld(cfg, epoch, journalled, r.observation.source);
    }
  }

  lemma RecoveredSourceHeld(cfg: Config, epoch: u64, journalled: seq<ObservationRecord>, s: u128)
    requires Windowed(cfg, journalled)
    ensures var e := Recovered(cfg, epoch, journalled);
            && Replay.SourceHeld(e, s)
            && forall r :: r in e.records && r.observation.source == s ==> Replay.RecordHeld(e, r)
  {
    hide RebornAll, RecoverAll, SortedMine, FoldSource, FoldSeen, Peak, Ordering.NoRepeats, RecoverLe, BootsOf;
    var e, mine := Recovered(cfg, epoch, journalled), SortedMine(cfg, epoch, journalled, s);
    SortedMineBoots(cfg, epoch, journalled, s);
    RebornNonNil(journalled, epoch);
    SortedMineIs(cfg, epoch, journalled, s);
    RecoverLocal(cfg, epoch, Ordering.Sort(RebornAll(journalled, epoch), RecoverLe), s);
    FoldSeenHolds(cfg, epoch, mine);
    FoldedMaxima(cfg, epoch, mine);
    PeakBounds(mine, SequenceOf);
    if mine != [] {
      assert mine[|mine| - 1] in mine;
    }
  }

  lemma SortedMineIs(cfg: Config, epoch: u64, journalled: seq<ObservationRecord>, s: u128)
    ensures SortedMine(cfg, epoch, journalled, s)
         == Ordering.Filter(Ordering.Sort(RebornAll(journalled, epoch), RecoverLe), RecordOf(s))
  {
  }

  lemma {:induction false} FoldedName(cfg: Config, epoch: u64, rs: seq<ObservationRecord>, s: u128)
    requires rs != [] && forall r :: r in rs ==> r.observation.source == s
    ensures FoldSource(cfg, epoch, rs).descriptor.id == s
  {
    hide RecoverSource;
    var front, last := rs[..|rs| - 1], rs[|rs| - 1];
    assert last in rs && forall r :: r in front ==> r in rs;
    if front != [] {
      FoldedName(cfg, epoch, front, s);
    }
    RecoveredName(cfg, epoch, FoldSource(cfg, epoch, front), last, s);
  }

  lemma RecoveredName(cfg: Config, epoch: u64, src: SourceState, r: ObservationRecord, s: u128)
    requires r.observation.source == s && (src.descriptor.id == s || src.descriptor.id == 0)
    ensures RecoverSource(cfg, epoch, src, r).descriptor.id == s
  {
  }

  /** And each source is listed under its own identity, with no refusal and no fence yet. */
  lemma RecoveredIsKeyed(cfg: Config, epoch: u64, journalled: seq<ObservationRecord>)
    ensures Runs.Keyed(Recovered(cfg, epoch, journalled))
  {
    hide RebornAll, RecoverAll, FoldSource, FoldSeen, SortedMine;
    var e := Recovered(cfg, epoch, journalled);
    forall s | s in e.sources ensures e.sources[s].descriptor.id == s {
      SortedMineBoots(cfg, epoch, journalled, s);
      SortedMineIs(cfg, epoch, journalled, s);
      RecoverLocal(cfg, epoch, Ordering.Sort(RebornAll(journalled, epoch), RecoverLe), s);
      FoldedName(cfg, epoch, SortedMine(cfg, epoch, journalled, s), s);
    }
  }

  /** Over a restart and any run after it: as long as the boots journalled and admitted fit the windows,
      sending a retained observation again changes nothing. */
  lemma ReplayAfterRestart(cfg: Config, digest: Observation -> Digest, epoch: u64, journalled: seq<ObservationRecord>, w: seq<Arrival>,
                           r: ObservationRecord, now: i64)
    requires Windowed(cfg, journalled)
    requires Replay.WindowRoom(cfg, digest, epoch, Recovered(cfg, epoch, journalled), w)
    requires r in Run(cfg, digest, epoch, Recovered(cfg, epoch, journalled), w).records
    ensures var e1 := Run(cfg, digest, epoch, Recovered(cfg, epoch, journalled), w);
            var (e2, out) := Ingest(cfg, digest, epoch, e1, Arrival(r.observation, now));
            Replay.SameButTelemetry(e1, e2) && (out.disposition == Duplicate || out.disposition == Refused)
  {
    hide Run, Ingest, Recovered, Windowed, Replay.WindowRoom, Replay.Held, Replay.SameButTelemetry;
    RecoveredIsHeld(cfg, epoch, journalled);
    Replay.ReplayAfterAnyRun(cfg, digest, epoch, Recovered(cfg, epoch, journalled), w, r, now);
  }

  // ---- live and rebuilt lineages ----

  const EMPTY: Evidence := Evidence(map[], map[], map[], [], [], [], false, 0)

  /** Sources may be registered, but none has been heard. */
  ghost predicate Unheard(e: Evidence) {
    && e.records == [] && e.incarnations == map[]
    && forall s :: s in e.sources ==> e.sources[s].incarnation == 0
  }

  lemma LastBootIsLargest(mine: seq<ObservationRecord>, s: u128)
    requires mine != [] && Ordering.Sorted(mine, RecoverLe)
    requires forall r :: r in mine ==> r.observation.source == s
    ensures forall r :: r in mine ==> r.observation.incarnation <= mine[|mine| - 1].observation.incarnation
  {
    var top := mine[|mine| - 1];
    assert top in mine;
    forall r | r in mine ensures r.observation.incarnation <= top.observation.incarnation {
      var i :| 0 <= i < |mine| && mine[i] == r;
      if i < |mine| - 1 {
        assert RecoverLe(mine[i], mine[|mine| - 1]);
      }
    }
  }

  // ---- what one step does to the windows ----

  /** How one step changes the windows of remembered boots. */
  ghost predicate SeenMoves(cfg: Config, e: Evidence, e1: Evidence, o: Observation, accepted: bool) {
    && (forall s :: s != o.source || !accepted ==> Seen(e1.incarnations, s) == Seen(e.incarnations, s))
    && (forall s :: s in e1.sources && s !in e.sources && !(accepted && s == o.source) ==> e1.sources[s].incarnation == 0)
    && (accepted ==>
          && o.incarnation != 0
          && Seen(e1.incarnations, o.source)
             == if o.source in e.sources && e.sources[o.source].incarnation == o.incarnation then Seen(e.incarnations, o.source)
                else PushWindow(Seen(e.incarnations, o.source), o.incarnation, cfg.maxIncarnations))
  }

  lemma ClaimsSeen(cfg: Config, digest: Observation -> Digest, epoch: u64, e: Evidence, a: Arrival)
    requires a.observation.source in e.sources && a.observation.incarnation != 0
    ensures var (e1, out) := IngestClaims(cfg, digest, epoch, e, a);
            SeenMoves(cfg, e, e1, a.observation, out.disposition == Accepted)
  {
    hide FoldClaims, Evict, DropCount, Indexed, RecordRejection, PushWindow;
  }

  lemma KnownSeen(cfg: Config, digest: Observation -> Digest, epoch: u64, e: Evidence, a: Arrival)
    requires a.observation.source in e.sources && a.observation.incarnation != 0
    ensures var (e1, out) := IngestKnown(cfg, digest, epoch, e, a);
            SeenMoves(cfg, e, e1, a.observation, out.disposition == Accepted)
  {
    hide CheckLineage, Indexed, HighWater, IngestClaims, RecordRejection, PushWindow;
    ClaimsSeen(cfg, digest, epoch, e, a);
  }

  lemma SeenAdmitted(cfg: Config, e: Evidence, e0: Evidence, e1: Evidence, o: Observation, accepted: bool)
    requires e0 == e.(sources := e0.sources) && SeenMoves(cfg, e0, e1, o, accepted)
    requires forall s :: s in e.sources ==> s in e0.sources && e0.sources[s] == e.sources[s]
    requires forall s :: s in e0.sources && s !in e.sources ==> s == o.source && e0.sources[s].incarnation == 0
    requires forall s :: s in e0.sources && (s != o.source || !accepted) ==> s in e1.sources && Runs.SameLineage(e0.sources[s], e1.sources[s])
    ensures SeenMoves(cfg, e, e1, o, accepted)
  {
    hide PushWindow;
  }

  lemma StepSeen(cfg: Config, digest: Observation -> Digest, epoch: u64, e: Evidence, a: Arrival)
    ensures var (e1, out) := Ingest(cfg, digest, epoch, e, a);
            SeenMoves(cfg, e, e1, a.observation, out.disposition == Accepted)
  {
    hide CheckInput, IngestKnown, Admit, RecordRejection, PushWindow;
    var o := a.observation;
    Replay.InputHasBoot(cfg, o, a.receivedAt);
    if CheckInput(cfg, o, a.receivedAt).Refuse? {
    } else if Admit(cfg, e.sources, o).Ok? {
      var e0 := e.(sources := Admit(cfg, e.sources, o).value);
      Replay.AdmitFresh(cfg, e.sources, o);
      KnownSeen(cfg, digest, epoch, e0, a);
      Runs.KnownMoves(cfg, digest, epoch, e0, a);
      var (e1, out) := IngestKnown(cfg, digest, epoch, e0, a);
      SeenAdmitted(cfg, e, e0, e1, o, out.disposition == Accepted);
    }
  }

  lemma {:induction false} EvictedGrows(cfg: Config, digest: Observation -> Digest, epoch: u64, e: Evidence, w: seq<Arrival>)
    ensures e.evicted <= Run(cfg, digest, epoch, e, w).evicted
  {
    hide Ingest, DropCount, Evict;
    if w != [] {
      var front := w[..|w| - 1];
      EvictedGrows(cfg, digest, epoch, e, front);
      Runs.IngestRecords(cfg, digest, epoch, Run(cfg, digest, epoch, e, front), w[|w| - 1]);
    }
  }

  lemma {:induction false} NothingEvicted(cfg: Config, digest: Observation -> Digest, epoch: u64, e: Evidence, w: seq<Arrival>)
    requires Run(cfg, digest, epoch, e, w).evicted == e.evicted
    ensures Run(cfg, digest, epoch, e, w).records == e.records + JournalOf(cfg, digest, epoch, e, w)
  {
    hide Ingest, Evict, DropCount;
    if w != [] {
      var front, a := w[..|w| - 1], w[|w| - 1];
      var mid := Run(cfg, digest, epoch, e, front);
      Runs.IngestRecords(cfg, digest, epoch, mid, a);
      EvictedGrows(cfg, digest, epoch, e, front);
      NothingEvicted(cfg, digest, epoch, e, front);
      OverflowDrops(|mid.records| + 1, cfg.maxEvidence);
      if Ingest(cfg, digest, epoch, mid, a).1.disposition == Accepted {
        EvictNothing(cfg, digest, mid.records + [NewRecord(a, epoch)]);
      }
    }
  }

  lemma OverflowDrops(size: nat, bound: nat)
    ensures DropCount(size, bound) == 0 <==> size <= bound
  {
  }

  lemma RebornIndexed(digest: Observation -> Digest, rs: seq<ObservationRecord>, epoch: u64, id: Digest)
    ensures Indexed(digest, RebornAll(rs, epoch), id) <==> Indexed(digest, rs, id)
  {
    if Indexed(digest, rs, id) {
      var i :| 0 <= i < |rs| && digest(rs[i].observation) == id;
      assert digest(RebornAll(rs, epoch)[i].observation) == id;
    }
    if Indexed(digest, RebornAll(rs, epoch), id) {
      var i :| 0 <= i < |rs| && digest(RebornAll(rs, epoch)[i].observation) == id;
      assert digest(rs[i].observation) == id;
    }
  }

  lemma {:induction false} AcceptedBoots(cfg: Config, digest: Observation -> Digest, epoch: u64, e: Evidence, w: seq<Arrival>, s: u128)
    ensures forall a :: a in Runs.AcceptedOf(cfg, digest, epoch, e, w, s) ==> a.observation.incarnation != 0 && a.observation.source == s
  {
    hide Ingest, PushWindow;
    if w != [] {
      var front, a := w[..|w| - 1], w[|w| - 1];
      AcceptedBoots(cfg, digest, epoch, e, front, s);
      StepSeen(cfg, digest, epoch, Run(cfg, digest, epoch, e, front), a);
    }
  }
}
