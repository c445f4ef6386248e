/** How much of each lineage a restart rebuilds, for any sources, any number of boots and any number of
    restarts before it (src/observatory.cpp). */
module Rebuilt {
  import opened Bytes
  import opened Observations
  import opened Observatories
  import opened Interleaving
  import opened Restart
  import opened Verdicts
  import Assertions
  import Ordering
  import Replay
  import Runs

  // ---- the records of one source in the order recovery replays them ----

  function InRecovery(journal: seq<ObservationRecord>, s: u128): seq<ObservationRecord> {
    Ordering.Filter(Ordering.Sort(journal, RecoverLe), RecordOf(s))
  }

  lemma InRecoveryFacts(journal: seq<ObservationRecord>, s: u128)
    ensures var rs := InRecovery(journal, s);
            && Ordering.Sorted(rs, RecoverLe)
            && (forall r :: r in rs <==> r in journal && r.observation.source == s)
  {
    hide RecoverLe;
    RecoverOrderIsTotal();
    Ordering.SortSorted(journal, RecoverLe);
    Ordering.SortMembers(journal, RecoverLe);
    FilterSorted(Ordering.Sort(journal, RecoverLe), RecoverLe, RecordOf(s));
    Ordering.FilterMembers(Ordering.Sort(journal, RecoverLe), RecordOf(s));
  }

  lemma {:induction false} InsertReborn(x: ObservationRecord, rs: seq<ObservationRecord>, epoch: u64)
    ensures Ordering.Insert(Reborn(x, epoch), RebornAll(rs, epoch), RecoverLe) == RebornAll(Ordering.Insert(x, rs, RecoverLe), epoch)
  {
    if rs != [] {
      InsertReborn(x, rs[1..], epoch);
      assert RebornAll(rs, epoch)[1..] == RebornAll(rs[1..], epoch);
    }
  }

  lemma {:induction false} SortReborn(rs: seq<ObservationRecord>, epoch: u64)
    ensures Ordering.Sort(RebornAll(rs, epoch), RecoverLe) == RebornAll(Ordering.Sort(rs, RecoverLe), epoch)
  {
    hide RecoverLe;
    if rs != [] {
      SortReborn(rs[1..], epoch);
      assert RebornAll(rs, epoch)[1..] == RebornAll(rs[1..], epoch);
      InsertReborn(rs[0], Ordering.Sort(rs[1..], RecoverLe), epoch);
    }
  }

  /** Nothing rebuilt depends on the marks recovery puts on a record. */
  lemma {:induction false} FoldReborn(cfg: Config, epoch: u64, rs: seq<ObservationRecord>, mark: u64)
    ensures FoldSource(cfg, epoch, RebornAll(rs, mark)) == FoldSource(cfg, epoch, rs)
    ensures FoldSeen(cfg, epoch, RebornAll(rs, mark)) == FoldSeen(cfg, epoch, rs)
  {
    hide PushWindow;
    if rs != [] {
      var front := rs[..|rs| - 1];
      FoldReborn(cfg, epoch, front, mark);
      assert RebornAll(rs, mark)[..|rs| - 1] == RebornAll(front, mark);
    }
  }

  lemma RecoveredSource(cfg: Config, restart: u64, journal: seq<ObservationRecord>, s: u128)
    ensures var back, rs := Recovered(cfg, restart, journal), InRecovery(journal, s);
            && (s in back.sources <==> rs != [])
            && (s in back.sources ==> back.sources[s] == FoldSource(cfg, restart, rs))
            && Seen(back.incarnations, s) == FoldSeen(cfg, restart, rs)
  {
    hide RecoverLe, RecoverAll, FoldSource, FoldSeen, Ordering.Sort;
    SortReborn(journal, restart);
    RecoverLocal(cfg, restart, Ordering.Sort(RebornAll(journal, restart), RecoverLe), s);
    RebornFilter(Ordering.Sort(journal, RecoverLe), restart, s);
    FoldReborn(cfg, restart, InRecovery(journal, s), restart);
  }

  // ---- the rebuilt epoch ----

  /** No record before it has a larger generation. */
  predicate Leads(rs: seq<ObservationRecord>, i: nat)
    requires i < |rs|
  {
    forall k :: 0 <= k < i ==> rs[k].observation.generation <= rs[i].observation.generation
  }

  /** The largest epoch of a leading record. */
  function LeadingEpoch(rs: seq<ObservationRecord>): u64 {
    if rs == [] then 0
    else
      var before := LeadingEpoch(rs[..|rs| - 1]);
      if Leads(rs, |rs| - 1) then Max(before, rs[|rs| - 1].observation.epoch) else before
  }

  lemma {:induction false} FoldedLeading(cfg: Config, epoch: u64, rs: seq<ObservationRecord>)
    ensures FoldSource(cfg, epoch, rs).lastEpoch == LeadingEpoch(rs)
  {
    if rs != [] {
      var front, last := rs[..|rs| - 1], rs[|rs| - 1];
      FoldedLeading(cfg, epoch, front);
      FoldedMaxima(cfg, epoch, front);
      LeadsMeaning(rs);
      hide Leads, Peak, LeadingEpoch;
      FoldedEpochStep(cfg, epoch, FoldSource(cfg, epoch, front), last);
      LeadingStep(rs);
    }
  }

  lemma LeadsMeaning(rs: seq<ObservationRecord>)
    requires rs != []
    ensures Leads(rs, |rs| - 1) <==> Peak(rs[..|rs| - 1], GenerationOf) <= rs[|rs| - 1].observation.generation
  {
    var front := rs[..|rs| - 1];
    PeakBounds(front, GenerationOf);
    hide Peak;
    forall k | 0 <= k < |front| ensures rs[k] in front {
      assert front[k] == rs[k];
    }
    if Leads(rs, |rs| - 1) && Peak(front, GenerationOf) != 0 {
      var r :| r in front && GenerationOf(r.observation) == Peak(front, GenerationOf);
      var k :| 0 <= k < |front| && front[k] == r;
      assert rs[k].observation.generation <= rs[|rs| - 1].observation.generation;
    }
  }

  lemma FoldedEpochStep(cfg: Config, epoch: u64, src: SourceState, r: ObservationRecord)
    ensures RecoverSource(cfg, epoch, src, r).lastEpoch
         == if src.lastGeneration <= r.observation.generation then Max(src.lastEpoch, r.observation.epoch) else src.lastEpoch
  {
  }

  lemma LeadingStep(rs: seq<ObservationRecord>)
    requires rs != []
    ensures LeadingEpoch(rs)
         == if Leads(rs, |rs| - 1) then Max(LeadingEpoch(rs[..|rs| - 1]), rs[|rs| - 1].observation.epoch) else LeadingEpoch(rs[..|rs| - 1])
  {
  }

  /** Every record that leads has an epoch of at most n. */
  ghost predicate LeadersWithin(rs: seq<ObservationRecord>, n: nat) {
    forall i :: 0 <= i < |rs| && Leads(rs, i) ==> rs[i].observation.epoch <= n
  }

  lemma LeadsPrefix(rs: seq<ObservationRecord>, i: nat)
    requires i < |rs| - 1
    ensures Leads(rs[..|rs| - 1], i) == Leads(rs, i)
  {
  }

  lemma LeadersPush(rs: seq<ObservationRecord>, n: nat)
    requires rs != []
    ensures LeadersWithin(rs, n)
       <==> LeadersWithin(rs[..|rs| - 1], n) && (Leads(rs, |rs| - 1) ==> rs[|rs| - 1].observation.epoch <= n)
  {
    hide Leads;
    var front := rs[..|rs| - 1];
    forall i | 0 <= i < |front| ensures Leads(rs, i) == Leads(front, i) {
      LeadsPrefix(rs, i);
    }
    assert forall i :: 0 <= i < |front| ==> front[i] == rs[i];
    if LeadersWithin(rs, n) {
      forall i | 0 <= i < |front| && Leads(front, i) ensures front[i].observation.epoch <= n {
        assert Leads(rs, i);
      }
    }
  }

  lemma {:induction false} LeadingEpochBounds(rs: seq<ObservationRecord>, n: nat)
    ensures LeadingEpoch(rs) <= n <==> LeadersWithin(rs, n)
  {
    if rs != [] {
      LeadingEpochBounds(rs[..|rs| - 1], n);
      LeadingStep(rs);
      LeadersPush(rs, n);
      hide Leads, LeadingEpoch, LeadersWithin;
    }
  }

  // ---- the windows ----

  function BootsOfRecords(rs: seq<ObservationRecord>): (r: seq<u128>)
    ensures |r| == |rs|
  {
    seq(|rs|, i requires 0 <= i < |rs| => rs[i].observation.incarnation)
  }

  function BootsOfArrivals(w: seq<Arrival>): (r: seq<u128>)
    ensures |r| == |w|
  {
    seq(|w|, i requires 0 <= i < |w| => w[i].observation.incarnation)
  }

  /** The boots in the order they started: repetitions in a row are one boot. */
  function Starts(bs: seq<u128>): seq<u128> {
    if bs == [] then []
    else
      var n := |bs| - 1;
      var before := Starts(bs[..n]);
      if n > 0 && bs[n - 1] == bs[n] then before else before + [bs[n]]
  }

  lemma StartsPush(bs: seq<u128>, x: u128)
    ensures Starts(bs + [x]) == if bs != [] && bs[|bs| - 1] == x then Starts(bs) else Starts(bs) + [x]
  {
    assert (bs + [x])[..|bs|] == bs;
  }

  lemma {:induction false} StartsMembers(bs: seq<u128>)
    ensures forall x :: x in Starts(bs) <==> x in bs
    ensures bs != [] ==> Starts(bs) != [] && Starts(bs)[|Starts(bs)| - 1] == bs[|bs| - 1]
  {
    if bs != [] {
      var n := |bs| - 1;
      StartsMembers(bs[..n]);
      assert bs == bs[..n] + [bs[n]];
      if n > 0 {
        assert bs[..n][n - 1] == bs[n - 1];
      }
    }
  }

  lemma PushRecent(s: seq<u128>, x: u128, n: nat)
    ensures PushWindow(Suffix(s, n), x, n) == Suffix(s + [x], n)
  {
  }

  /** The rebuilt window holds the last boots in the order of their identities. */
  lemma {:induction false} FoldedWindow(cfg: Config, epoch: u64, rs: seq<ObservationRecord>, s: u128)
    requires Ordering.Sorted(rs, RecoverLe) && forall r :: r in rs ==> r.observation.source == s && r.observation.incarnation != 0
    ensures FoldSeen(cfg, epoch, rs) == Suffix(Starts(BootsOfRecords(rs)), cfg.maxIncarnations)
  {
    hide FoldSource, PushWindow, Suffix, RecoverLe, Starts;
    if rs == [] {
      NoStarts(cfg.maxIncarnations);
      assert BootsOfRecords(rs) == [];
    } else {
      var front, last := rs[..|rs| - 1], rs[|rs| - 1];
      assert last in rs && forall r :: r in front ==> r in rs;
      FoldedWindow(cfg, epoch, front, s);
      var bs, x := BootsOfRecords(front), last.observation.incarnation;
      assert BootsOfRecords(rs) == bs + [x];
      FoldedMaxima(cfg, epoch, front);
      StartsPush(bs, x);
      PushRecent(Starts(bs), x, cfg.maxIncarnations);
      if front == [] {
        NothingFolded(cfg, epoch);
        NoStarts(cfg.maxIncarnations);
        assert bs == [];
      } else if bs[|bs| - 1] != x {
        LargerIsNew(rs, s);
        StartsMembers(bs);
        SuffixIn(Starts(bs), cfg.maxIncarnations);
      }
    }
  }

  lemma NoStarts(n: nat)
    ensures Starts([]) == [] && Suffix<u128>([], n) == []
  {
  }

  lemma SuffixIn<T>(s: seq<T>, n: nat)
    ensures forall x :: x in Suffix(s, n) ==> x in s
  {
  }

  lemma LargerIsNew(rs: seq<ObservationRecord>, s: u128)
    requires |rs| >= 2 && Ordering.Sorted(rs, RecoverLe) && forall r :: r in rs ==> r.observation.source == s
    requires rs[|rs| - 2].observation.incarnation != rs[|rs| - 1].observation.incarnation
    ensures rs[|rs| - 1].observation.incarnation !in BootsOfRecords(rs[..|rs| - 1])
  {
    var n := |rs| - 1;
    forall i | 0 <= i < n ensures rs[i].observation.incarnation < rs[n].observation.incarnation {
      assert rs[i] in rs && rs[n] in rs && rs[n - 1] in rs;
      assert RecoverLe(rs[n - 1], rs[n]);
      assert i < n - 1 ==> RecoverLe(rs[i], rs[n - 1]);
    }
  }

  // ---- where a run starts ----

  ghost predicate SourceFrom(cfg: Config, e: Evidence, s: u128, rs: seq<ObservationRecord>) {
    && Seen(e.incarnations, s) == FoldSeen(cfg, 0, rs)
    && (rs != [] ==> s in e.sources && Runs.SameLineage(e.sources[s], FoldSource(cfg, 0, rs)))
    && (rs == [] && s in e.sources ==> e.sources[s].incarnation == 0)
  }

  /** e is what opening on this journal leaves, or what it leaves and some registrations; an empty journal
      stands for no journal. */
  ghost predicate StartsFrom(cfg: Config, e: Evidence, journal: seq<ObservationRecord>) {
    && |e.records| == |journal| && (forall i :: 0 <= i < |journal| ==> e.records[i].observation == journal[i].observation)
    && (forall r :: r in journal ==> r.observation.incarnation != 0)
    && (forall s :: SourceFrom(cfg, e, s, InRecovery(journal, s)))
  }

  lemma UnheardStarts(cfg: Config, e: Evidence)
    requires Unheard(e)
    ensures StartsFrom(cfg, e, [])
  {
    forall s ensures SourceFrom(cfg, e, s, InRecovery([], s)) {
      assert InRecovery([], s) == [];
    }
  }

  lemma SameFold(cfg: Config, a: u64, b: u64, rs: seq<ObservationRecord>)
    ensures Runs.SameLineage(FoldSource(cfg, a, rs), FoldSource(cfg, b, rs))
    ensures FoldSeen(cfg, a, rs) == FoldSeen(cfg, b, rs)
  {
    FoldedMaxima(cfg, a, rs);
    FoldedMaxima(cfg, b, rs);
    FoldedLeading(cfg, a, rs);
    FoldedLeading(cfg, b, rs);
    SameFoldSeen(cfg, a, b, rs);
    hide FoldSeen, Peak, LeadingEpoch;
    if rs == [] {
    } else {
      hide FoldSource;
    }
  }

  lemma {:induction false} SameFoldSeen(cfg: Config, a: u64, b: u64, rs: seq<ObservationRecord>)
    ensures FoldSeen(cfg, a, rs) == FoldSeen(cfg, b, rs)
  {
    hide RecoverSource, PushWindow;
    if rs != [] {
      var front := rs[..|rs| - 1];
      SameFoldSeen(cfg, a, b, front);
      FoldedMaxima(cfg, a, front);
      FoldedMaxima(cfg, b, front);
    }
  }

  lemma RecoveredStarts(cfg: Config, restart: u64, journal: seq<ObservationRecord>)
    requires forall r :: r in journal ==> r.observation.incarnation != 0
    ensures StartsFrom(cfg, Recovered(cfg, restart, journal), journal)
  {
    hide RecoverAll, FoldSource, FoldSeen, InRecovery, SourceFrom;
    var e := Recovered(cfg, restart, journal);
    forall s ensures SourceFrom(cfg, e, s, InRecovery(journal, s)) {
      RecoveredSourceFrom(cfg, restart, journal, s);
    }
  }

  lemma RecoveredSourceFrom(cfg: Config, restart: u64, journal: seq<ObservationRecord>, s: u128)
    ensures SourceFrom(cfg, Recovered(cfg, restart, journal), s, InRecovery(journal, s))
  {
    hide Recovered, FoldSource, FoldSeen, InRecovery;
    RecoveredSource(cfg, restart, journal, s);
    SameFold(cfg, restart, 0, InRecovery(journal, s));
  }

  lemma RegisterStarts(cfg: Config, e: Evidence, journal: seq<ObservationRecord>, d: Descriptor)
    requires StartsFrom(cfg, e, journal) && Register(cfg, e.sources, d).Ok?
    ensures StartsFrom(cfg, e.(sources := Register(cfg, e.sources, d).value), journal)
  {
    hide Register, FoldSource, FoldSeen, InRecovery;
    var e1 := e.(sources := Register(cfg, e.sources, d).value);
    Replay.RegisterLineage(cfg, e.sources, d);
    forall s ensures SourceFrom(cfg, e1, s, InRecovery(journal, s)) {
      assert SourceFrom(cfg, e, s, InRecovery(journal, s));
    }
  }

  // ---- what a run adds ----

  /** Everything heard of s: what was recovered of it, as it was replayed, and what was accepted since. */
  function HeardBoots(prior: seq<ObservationRecord>, accepted: seq<Arrival>): seq<u128> {
    BootsOfRecords(prior) + BootsOfArrivals(accepted)
  }

  ghost predicate LiveIs(cfg: Config, e: Evidence, s: u128, prior: seq<ObservationRecord>, accepted: seq<Arrival>) {
    var heard := HeardBoots(prior, accepted);
    && Seen(e.incarnations, s) == Suffix(Starts(heard), cfg.maxIncarnations)
    && (heard == [] && s in e.sources ==> e.sources[s].incarnation == 0)
    && (heard != [] ==> s in e.sources && e.sources[s].incarnation == heard[|heard| - 1])
    && (forall r :: r in prior ==> r.observation.generation <= e.sources[s].lastGeneration)
    && (forall a :: a in accepted ==> a.observation.generation <= e.sources[s].lastGeneration)
  }

  lemma StartIsLive(cfg: Config, e: Evidence, journal: seq<ObservationRecord>, s: u128)
    requires StartsFrom(cfg, e, journal)
    ensures LiveIs(cfg, e, s, InRecovery(journal, s), [])
  {
    hide FoldSource, FoldSeen, InRecovery, Starts, Suffix, RecoverLe, Peak;
    var rs := InRecovery(journal, s);
    InRecoveryFacts(journal, s);
    assert SourceFrom(cfg, e, s, rs);
    FoldedWindow(cfg, 0, rs, s);
    FoldedMaxima(cfg, 0, rs);
    PeakBounds(rs, GenerationOf);
    assert HeardBoots(rs, []) == BootsOfRecords(rs);
  }

  lemma HeardPush(prior: seq<ObservationRecord>, accepted: seq<Arrival>, a: Arrival)
    ensures HeardBoots(prior, accepted + [a]) == HeardBoots(prior, accepted) + [a.observation.incarnation]
  {
  }

  lemma HeardNothing(prior: seq<ObservationRecord>, accepted: seq<Arrival>)
    ensures HeardBoots(prior, accepted) == [] <==> prior == [] && accepted == []
  {
  }

  lemma LiveStep(cfg: Config, digest: Observation -> Digest, epoch: u64, e: Evidence, a: Arrival, s: u128, prior: seq<ObservationRecord>, accepted: seq<Arrival>)
    requires LiveIs(cfg, e, s, prior, accepted)
    requires forall x :: x in HeardBoots(prior, accepted) ==> x != 0
    ensures var (e1, out) := Ingest(cfg, digest, epoch, e, a);
            LiveIs(cfg, e1, s, prior, if a.observation.source == s && out.disposition == Accepted then accepted + [a] else accepted)
  {
    hide Ingest, PushWindow, Suffix, Starts, HeardBoots;
    StepSeen(cfg, digest, epoch, e, a);
    Runs.AcceptedMoves(cfg, digest, epoch, e, a);
    var heard, x := HeardBoots(prior, accepted), a.observation.incarnation;
    if a.observation.source == s && Ingest(cfg, digest, epoch, e, a).1.disposition == Accepted {
      HeardPush(prior, accepted, a);
      StartsPush(heard, x);
      PushRecent(Starts(heard), x, cfg.maxIncarnations);
      assert heard != [] ==> heard[|heard| - 1] in heard;
      NoStarts(cfg.maxIncarnations);
    }
    HeardNothing(prior, accepted);
  }

  lemma {:induction false} RunIsLive(cfg: Config, digest: Observation -> Digest, epoch: u64, e: Evidence, journal: seq<ObservationRecord>, w: seq<Arrival>, s: u128)
    requires StartsFrom(cfg, e, journal)
    ensures LiveIs(cfg, Run(cfg, digest, epoch, e, w), s, InRecovery(journal, s), Runs.AcceptedOf(cfg, digest, epoch, e, w, s))
  {
    hide Ingest, LiveIs, InRecovery, StartsFrom;
    if w == [] {
      StartIsLive(cfg, e, journal, s);
    } else {
      var front, a := w[..|w| - 1], w[|w| - 1];
      RunIsLive(cfg, digest, epoch, e, journal, front, s);
      HeardNonNil(cfg, digest, epoch, e, journal, front, s);
      LiveStep(cfg, digest, epoch, Run(cfg, digest, epoch, e, front), a, s, InRecovery(journal, s),
               Runs.AcceptedOf(cfg, digest, epoch, e, front, s));
    }
  }

  lemma HeardNonNil(cfg: Config, digest: Observation -> Digest, epoch: u64, e: Evidence, journal: seq<ObservationRecord>, w: seq<Arrival>, s: u128)
    requires StartsFrom(cfg, e, journal)
    ensures forall x :: x in HeardBoots(InRecovery(journal, s), Runs.AcceptedOf(cfg, digest, epoch, e, w, s)) ==> x != 0
  {
    hide Ingest, InRecovery, Runs.AcceptedOf, SourceFrom;
    InRecoveryFacts(journal, s);
    AcceptedBoots(cfg, digest, epoch, e, w, s);
    var prior, accepted := InRecovery(journal, s), Runs.AcceptedOf(cfg, digest, epoch, e, w, s);
    forall x | x in HeardBoots(prior, accepted) ensures x != 0 {
      var i :| 0 <= i < |HeardBoots(prior, accepted)| && HeardBoots(prior, accepted)[i] == x;
      if i < |prior| {
        assert prior[i] in prior;
      } else {
        assert accepted[i - |prior|] in accepted;
      }
    }
  }

  // ---- what is rebuilt ----

  predicate AllNonNil(journal: seq<ObservationRecord>) { forall r :: r in journal ==> r.observation.incarnation != 0 }

  /** The lineage of s after opening on any journal: the largest boot, sequence and generation journalled, the
      largest epoch among the records that no record of a larger generation precedes in recovery order, and
      a window of the last boots in the order of their identities. */
  lemma RebuiltLineage(cfg: Config, restart: u64, journal: seq<ObservationRecord>, s: u128)
    requires AllNonNil(journal)
    ensures var back, rs := Recovered(cfg, restart, journal), InRecovery(journal, s);
            && (forall r :: r in rs <==> r in journal && r.observation.source == s)
            && (s in back.sources <==> rs != [])
            && Seen(back.incarnations, s) == Suffix(Starts(BootsOfRecords(rs)), cfg.maxIncarnations)
            && (s in back.sources ==>
                  var y := back.sources[s];
                  && (forall r :: r in rs ==> r.observation.incarnation <= y.incarnation)
                  && (exists r :: r in rs && r.observation.incarnation == y.incarnation)
                  && y.lastSequence == Peak(rs, SequenceOf) && y.lastGeneration == Peak(rs, GenerationOf)
                  && y.lastEpoch == LeadingEpoch(rs))
  {
    hide Recovered, FoldSource, FoldSeen, InRecovery, Starts, Suffix, RecoverLe, Peak, LeadingEpoch;
    var rs := InRecovery(journal, s);
    InRecoveryFacts(journal, s);
    RecoveredSource(cfg, restart, journal, s);
    FoldedWindow(cfg, restart, rs, s);
    FoldedMaxima(cfg, restart, rs);
    FoldedLeading(cfg, restart, rs);
    if rs != [] {
      LastBootIsLargest(rs, s);
      assert rs[|rs| - 1] in rs;
    }
  }

  lemma {:induction false} HighReborn(rs: seq<ObservationRecord>, mark: u64)
    ensures HighWater(RebornAll(rs, mark)) == HighWater(rs)
  {
    if rs != [] {
      HighReborn(rs[..|rs| - 1], mark);
      assert RebornAll(rs, mark)[..|rs| - 1] == RebornAll(rs[..|rs| - 1], mark);
    }
  }

  lemma SuffixSize<T>(s: seq<T>, n: nat)
    ensures |Suffix(s, n)| <= n
  {
  }

  /** The running engine's boot, sequence and generation are the largest journalled; its epoch is the largest of
      the leading ones as far as any observation gets there; the boots it remembers are the last by identity;
      and what it calls a duplicate of the last turn is journalled. */
  ghost predicate Rebuildable(cfg: Config, digest: Observation -> Digest, live: Evidence, kept: seq<ObservationRecord>, s: u128)
    requires s in live.sources
  {
    var x, rs := live.sources[s], InRecovery(kept, s);
    && (forall r :: r in rs ==> r.observation.incarnation <= x.incarnation)
    && (exists r :: r in rs && r.observation.incarnation == x.incarnation)
    && x.lastSequence == Peak(rs, SequenceOf) && x.lastGeneration == Peak(rs, GenerationOf)
    && SameGate(cfg, x.lastGeneration, x.lastEpoch, LeadingEpoch(rs), HighOf(cfg, live), if cfg.strictGeneration then HighWater(kept) else 0)
    && SameBoots(Seen(live.incarnations, s), Suffix(Starts(BootsOfRecords(rs)), cfg.maxIncarnations), x.incarnation)
    && SameDuplicates(digest, live.records, kept, s, x.incarnation, x.lastSequence)
  }

  /** Whatever the running engine is, and whatever a journal has kept of it: the engine opened on that journal
      decides alike on everything s may send next if and only if the lineage can be rebuilt from it. */
  lemma AnyJournalDecides(cfg: Config, digest: Observation -> Digest, live: Evidence, kept: seq<ObservationRecord>, s: u128, restart: u64)
    requires s in live.sources && AllNonNil(kept) && InRecovery(kept, s) != []
    requires |Seen(live.incarnations, s)| + cfg.maxIncarnations + 2 < U64_MODULUS
    ensures var back := Recovered(cfg, restart, kept);
            s in back.sources && (DecideAlike(cfg, digest, live, back, s) <==> Rebuildable(cfg, digest, live, kept, s))
  {
    hide Recovered, InRecovery, Starts, Suffix, Peak, LeadingEpoch, SameGate, SameBoots, DecideAlike, Indexed, HighWater;
    var back, rs := Recovered(cfg, restart, kept), InRecovery(kept, s);
    RebuiltLineage(cfg, restart, kept, s);
    SuffixSize(Starts(BootsOfRecords(rs)), cfg.maxIncarnations);
    RecoveredRecords(cfg, restart, kept);
    HighReborn(kept, restart);
    forall id: Digest ensures Indexed(digest, back.records, id) <==> Indexed(digest, kept, id) {
      RebornIndexed(digest, kept, restart, id);
    }
    SameDuplicatesOf(digest, live.records, back.records, kept, s, live.sources[s].incarnation, live.sources[s].lastSequence);
    DecideAlikeMeaning(cfg, digest, live, back, s);
    hide SameDuplicates;
    SameLargest(rs, live.sources[s].incarnation, back.sources[s].incarnation);
  }

  lemma RecoveredRecords(cfg: Config, restart: u64, kept: seq<ObservationRecord>)
    ensures Recovered(cfg, restart, kept).records == RebornAll(kept, restart)
  {
  }

  lemma SameDuplicatesOf(digest: Observation -> Digest, rs: seq<ObservationRecord>, a: seq<ObservationRecord>, b: seq<ObservationRecord>, s: u128, incarnation: u128, sequence: u64)
    requires forall id: Digest :: Indexed(digest, a, id) <==> Indexed(digest, b, id)
    ensures SameDuplicates(digest, rs, a, s, incarnation, sequence) <==> SameDuplicates(digest, rs, b, s, incarnation, sequence)
  {
    hide Indexed;
  }

  lemma SameLargest(rs: seq<ObservationRecord>, x: u128, y: u128)
    requires forall r :: r in rs ==> r.observation.incarnation <= y
    requires exists r :: r in rs && r.observation.incarnation == y
    ensures x == y <==> (forall r :: r in rs ==> r.observation.incarnation <= x) && exists r :: r in rs && r.observation.incarnation == x
  {
  }

  // ---- and after a run, with everything journalled ----

  /** Both windows hold the same boots: the last to have started, and the last by identity. */
  ghost predicate SameRecent(n: nat, heard: seq<u128>, byIdentity: seq<u128>) {
    forall x :: x in Suffix(Starts(heard), n) <==> x in Suffix(Starts(byIdentity), n)
  }

  /** No observation of generation g gets as far as the epoch fence. */
  predicate Unreached(cfg: Config, e: Evidence, g: u64) { Exhausted(cfg, g) || g < HighOf(cfg, e) }

  ghost predicate LastLeads(rs: seq<ObservationRecord>, last: Observation) {
    forall r :: r in rs ==> r.observation.incarnation <= last.incarnation && r.observation.sequence <= last.sequence
  }

  lemma JournalIsNonNil(cfg: Config, digest: Observation -> Digest, epoch: u64, e: Evidence, w: seq<Arrival>, r: ObservationRecord)
    requires r in JournalOf(cfg, digest, epoch, e, w)
    ensures r.observation.incarnation != 0
    ensures exists a :: a in Runs.AcceptedOf(cfg, digest, epoch, e, w, r.observation.source) && r == NewRecord(a, epoch)
  {
    hide JournalOf, Runs.AcceptedOf, Ingest, RecordOf;
    var s := r.observation.source;
    JournalPerSource(cfg, digest, epoch, e, w, s);
    Ordering.FilterMembers(JournalOf(cfg, digest, epoch, e, w), RecordOf(s));
    OfSource(s);
    AcceptedBoots(cfg, digest, epoch, e, w, s);
    var stamped := Stamp(Runs.AcceptedOf(cfg, digest, epoch, e, w, s), epoch);
    assert r in stamped;
    var i :| 0 <= i < |stamped| && stamped[i] == r;
    assert Runs.AcceptedOf(cfg, digest, epoch, e, w, s)[i] in Runs.AcceptedOf(cfg, digest, epoch, e, w, s);
  }

  lemma AcceptedIsJournalled(cfg: Config, digest: Observation -> Digest, epoch: u64, e: Evidence, w: seq<Arrival>, s: u128, i: nat)
    requires i < |Runs.AcceptedOf(cfg, digest, epoch, e, w, s)|
    ensures NewRecord(Runs.AcceptedOf(cfg, digest, epoch, e, w, s)[i], epoch) in JournalOf(cfg, digest, epoch, e, w)
    ensures Runs.AcceptedOf(cfg, digest, epoch, e, w, s)[i].observation.source == s
  {
    hide JournalOf, Runs.AcceptedOf, Ingest, RecordOf;
    JournalPerSource(cfg, digest, epoch, e, w, s);
    Ordering.FilterMembers(JournalOf(cfg, digest, epoch, e, w), RecordOf(s));
    AcceptedBoots(cfg, digest, epoch, e, w, s);
    var accepted := Runs.AcceptedOf(cfg, digest, epoch, e, w, s);
    assert accepted[i] in accepted;
    assert Stamp(accepted, epoch)[i] in Stamp(accepted, epoch);
  }

  lemma WholeJournal(cfg: Config, digest: Observation -> Digest, epoch: u64, e: Evidence, journal: seq<ObservationRecord>, w: seq<Arrival>)
    requires StartsFrom(cfg, e, journal) && Run(cfg, digest, epoch, e, w).evicted == e.evicted
    ensures var all, live := journal + JournalOf(cfg, digest, epoch, e, w), Run(cfg, digest, epoch, e, w).records;
            AllNonNil(all) && |live| == |all| && forall i :: 0 <= i < |all| ==> live[i].observation == all[i].observation
  {
    hide JournalOf, Run, SourceFrom, InRecovery;
    NothingEvicted(cfg, digest, epoch, e, w);
    var new_ := JournalOf(cfg, digest, epoch, e, w);
    forall r | r in journal + new_ ensures r.observation.incarnation != 0 {
      if r in new_ {
        JournalIsNonNil(cfg, digest, epoch, e, w, r);
      }
    }
  }

  lemma {:induction false} SameHigh(a: seq<ObservationRecord>, b: seq<ObservationRecord>)
    requires |a| == |b| && forall i :: 0 <= i < |a| ==> a[i].observation == b[i].observation
    ensures HighWater(a) == HighWater(b)
  {
    if a != [] {
      SameHigh(a[..|a| - 1], b[..|b| - 1]);
    }
  }

  lemma SameIndex(digest: Observation -> Digest, a: seq<ObservationRecord>, b: seq<ObservationRecord>, s: u128, incarnation: u128, sequence: u64)
    requires |a| == |b| && forall i :: 0 <= i < |a| ==> a[i].observation == b[i].observation
    ensures SameDuplicates(digest, a, b, s, incarnation, sequence)
  {
  }

  /** How the live lineage relates to the journal of everything. */
  ghost predicate LiveEnd(cfg: Config, live: Evidence, s: u128, rs: seq<ObservationRecord>, last: Observation) {
    && s in live.sources && Runs.Lineage(live.sources[s], last)
    && (exists r :: r in rs && r.observation == last)
    && (forall r :: r in rs ==> r.observation.generation <= last.generation)
  }

  lemma RunEnds(cfg: Config, digest: Observation -> Digest, epoch: u64, e: Evidence, journal: seq<ObservationRecord>, w: seq<Arrival>, s: u128)
    requires StartsFrom(cfg, e, journal) && Runs.AcceptedOf(cfg, digest, epoch, e, w, s) != []
    ensures var accepted := Runs.AcceptedOf(cfg, digest, epoch, e, w, s);
            LiveEnd(cfg, Run(cfg, digest, epoch, e, w), s, InRecovery(journal + JournalOf(cfg, digest, epoch, e, w), s),
                    accepted[|accepted| - 1].observation)
  {
    hide JournalOf, Run, InRecovery, StartsFrom, Runs.AcceptedOf, Suffix, Starts;
    var accepted, live := Runs.AcceptedOf(cfg, digest, epoch, e, w, s), Run(cfg, digest, epoch, e, w);
    var all := journal + JournalOf(cfg, digest, epoch, e, w);
    var rs, last := InRecovery(all, s), accepted[|accepted| - 1].observation;
    Runs.AcceptedTracks(cfg, digest, epoch, e, w, s);
    RunIsLive(cfg, digest, epoch, e, journal, w, s);
    InRecoveryFacts(journal, s);
    InRecoveryFacts(all, s);
    AcceptedIsJournalled(cfg, digest, epoch, e, w, s, |accepted| - 1);
    assert NewRecord(accepted[|accepted| - 1], epoch) in rs;
    forall r | r in rs ensures r.observation.generation <= last.generation {
      if r in journal {
        assert r in InRecovery(journal, s);
      } else {
        JournalIsNonNil(cfg, digest, epoch, e, w, r);
      }
    }
  }

  /** A record of the largest generation leads, so the rebuilt epoch is never below its epoch. */
  lemma EndLeads(rs: seq<ObservationRecord>, last: Observation)
    requires exists r :: r in rs && r.observation == last
    requires forall r :: r in rs ==> r.observation.generation <= last.generation
    ensures LeadingEpoch(rs) == last.epoch <==> LeadersWithin(rs, last.epoch)
    ensures Peak(rs, GenerationOf) == last.generation
    ensures Peak(rs, SequenceOf) == last.sequence <==> forall r :: r in rs ==> r.observation.sequence <= last.sequence
  {
    hide Peak, LeadingEpoch;
    var r :| r in rs && r.observation == last;
    PeakOf(rs, GenerationOf, last.generation);
    PeakOf(rs, SequenceOf, last.sequence);
    LeadingEpochBounds(rs, last.epoch);
    if LeadingEpoch(rs) < last.epoch {
      LeadingEpochBounds(rs, LeadingEpoch(rs));
      var i :| 0 <= i < |rs| && rs[i] == r;
      assert Leads(rs, i) by {
        forall k | 0 <= k < i ensures rs[k].observation.generation <= rs[i].observation.generation {
          assert rs[k] in rs;
        }
      }
    }
  }

  lemma CurrentIsRecent(heard: seq<u128>, byIdentity: seq<u128>, n: nat, current: u128)
    requires heard != [] && byIdentity != [] && heard[|heard| - 1] == byIdentity[|byIdentity| - 1] == current
    ensures current in Suffix(Starts(heard), n) <==> current in Suffix(Starts(byIdentity), n)
  {
    hide Starts;
    StartsMembers(heard);
    StartsMembers(byIdentity);
    LastInSuffix(Starts(heard), n);
    LastInSuffix(Starts(byIdentity), n);
  }

  lemma LastInSuffix(s: seq<u128>, n: nat)
    requires s != []
    ensures s[|s| - 1] in Suffix(s, n) <==> n > 0
  {
    if n > 0 {
      assert Suffix(s, n)[|Suffix(s, n)| - 1] == s[|s| - 1];
    }
  }

  /** The restart theorem. Let a run start from nothing or from any earlier restart, evict nothing, and have
      accepted something from s, last of all the observation last. The engine opened on the journal of it all
      decides alike on everything s may send next if and only if no boot and no sequence of s ever
      journalled exceeds that of last; no record that leads in recovery order has a larger epoch, unless no
      observation gets as far as the epoch fence; and the last boots to start are the last by identity. */
  lemma RestartDecides(cfg: Config, digest: Observation -> Digest, epoch: u64, e: Evidence, journal: seq<ObservationRecord>, w: seq<Arrival>,
                       s: u128, restart: u64)
    requires StartsFrom(cfg, e, journal) && Run(cfg, digest, epoch, e, w).evicted == e.evicted
    requires Runs.AcceptedOf(cfg, digest, epoch, e, w, s) != [] && cfg.maxIncarnations < 0x1_0000_0000
    ensures var accepted, all := Runs.AcceptedOf(cfg, digest, epoch, e, w, s), journal + JournalOf(cfg, digest, epoch, e, w);
            var live, back := Run(cfg, digest, epoch, e, w), Recovered(cfg, restart, all);
            var rs, last := InRecovery(all, s), accepted[|accepted| - 1].observation;
            && s in live.sources && s in back.sources
            && (DecideAlike(cfg, digest, live, back, s)
                <==> && LastLeads(rs, last)
                     && (LeadersWithin(rs, last.epoch) || Unreached(cfg, live, last.generation))
                     && SameRecent(cfg.maxIncarnations, HeardBoots(InRecovery(journal, s), accepted), BootsOfRecords(rs)))
  {
    hide JournalOf, Run, Recovered, InRecovery, StartsFrom, Runs.AcceptedOf, Suffix, Starts, Peak, LeadingEpoch, DecideAlike, HighWater,
      HeardBoots, LeadersWithin, SameDuplicates;
    var accepted, all := Runs.AcceptedOf(cfg, digest, epoch, e, w, s), journal + JournalOf(cfg, digest, epoch, e, w);
    var live := Run(cfg, digest, epoch, e, w);
    var rs, last := InRecovery(all, s), accepted[|accepted| - 1].observation;
    RunEnds(cfg, digest, epoch, e, journal, w, s);
    RunIsLive(cfg, digest, epoch, e, journal, w, s);
    WholeJournal(cfg, digest, epoch, e, journal, w);
    SameHigh(live.records, all);
    SameIndex(digest, live.records, all, s, last.incarnation, last.sequence);
    SuffixSize(Starts(HeardBoots(InRecovery(journal, s), accepted)), cfg.maxIncarnations);
    EndLeads(rs, last);
    AnyJournalDecides(cfg, digest, live, all, s, restart);
    if LastLeads(rs, last) {
      HeardEnds(InRecovery(journal, s), accepted);
      LargestEnds(all, s, last);
      CurrentIsRecent(HeardBoots(InRecovery(journal, s), accepted), BootsOfRecords(rs), cfg.maxIncarnations, last.incarnation);
    }
  }

  lemma HeardEnds(prior: seq<ObservationRecord>, accepted: seq<Arrival>)
    requires accepted != []
    ensures var heard := HeardBoots(prior, accepted);
            heard != [] && heard[|heard| - 1] == accepted[|accepted| - 1].observation.incarnation
  {
  }

  lemma LargestEnds(all: seq<ObservationRecord>, s: u128, last: Observation)
    requires exists r :: r in InRecovery(all, s) && r.observation == last
    requires LastLeads(InRecovery(all, s), last)
    ensures var bs := BootsOfRecords(InRecovery(all, s)); bs != [] && bs[|bs| - 1] == last.incarnation
  {
    hide InRecovery, RecoverLe;
    var rs := InRecovery(all, s);
    InRecoveryFacts(all, s);
    LastBootIsLargest(rs, s);
    assert rs[|rs| - 1] in rs;
  }

  /** Everything a fence looks at in a source survives if and only if the last observation leads in each. */
  lemma LineageSurvives(cfg: Config, digest: Observation -> Digest, epoch: u64, e: Evidence, journal: seq<ObservationRecord>, w: seq<Arrival>,
                        s: u128, restart: u64)
    requires StartsFrom(cfg, e, journal) && Runs.AcceptedOf(cfg, digest, epoch, e, w, s) != []
    ensures var accepted, all := Runs.AcceptedOf(cfg, digest, epoch, e, w, s), journal + JournalOf(cfg, digest, epoch, e, w);
            var live, back := Run(cfg, digest, epoch, e, w), Recovered(cfg, restart, all);
            var rs, last := InRecovery(all, s), accepted[|accepted| - 1].observation;
            && s in live.sources && s in back.sources
            && (Runs.SameLineage(live.sources[s], back.sources[s]) <==> LastLeads(rs, last) && LeadersWithin(rs, last.epoch))
  {
    hide JournalOf, Run, Recovered, InRecovery, SourceFrom, Runs.AcceptedOf, Suffix, Starts, Peak, LeadingEpoch, LeadersWithin;
    var all := journal + JournalOf(cfg, digest, epoch, e, w);
    RunEnds(cfg, digest, epoch, e, journal, w, s);
    forall r | r in all ensures r.observation.incarnation != 0 {
      if r in JournalOf(cfg, digest, epoch, e, w) {
        JournalIsNonNil(cfg, digest, epoch, e, w, r);
      }
    }
    RebuiltLineage(cfg, restart, all, s);
    var accepted := Runs.AcceptedOf(cfg, digest, epoch, e, w, s);
    EndLeads(InRecovery(all, s), accepted[|accepted| - 1].observation);
  }

  // ---- a source of which nothing was accepted since the last restart ----

  /** Restarting again changes no verdict on a source that has not been heard in between. */
  lemma NothingNewDecides(cfg: Config, digest: Observation -> Digest, epoch: u64, e: Evidence, journal: seq<ObservationRecord>, w: seq<Arrival>,
                          s: u128, restart: u64)
    requires StartsFrom(cfg, e, journal) && Run(cfg, digest, epoch, e, w).evicted == e.evicted
    requires Runs.AcceptedOf(cfg, digest, epoch, e, w, s) == [] && InRecovery(journal, s) != [] && cfg.maxIncarnations < 0x1_0000_0000
    ensures var all := journal + JournalOf(cfg, digest, epoch, e, w);
            var live, back := Run(cfg, digest, epoch, e, w), Recovered(cfg, restart, all);
            s in live.sources && s in back.sources && DecideAlike(cfg, digest, live, back, s)
  {
    hide JournalOf, Run, Recovered, InRecovery, Runs.AcceptedOf, Suffix, Starts, Peak, LeadingEpoch, DecideAlike, HighWater, FoldSource, FoldSeen;
    var all, live := journal + JournalOf(cfg, digest, epoch, e, w), Run(cfg, digest, epoch, e, w);
    var rs := InRecovery(journal, s);
    SameSource(cfg, digest, epoch, e, journal, w, s);
    assert SourceFrom(cfg, e, s, rs);
    QuietSource(cfg, digest, epoch, e, w, s);
    RunIsLive(cfg, digest, epoch, e, journal, w, s);
    WholeJournal(cfg, digest, epoch, e, journal, w);
    SameHigh(live.records, all);
    SameIndex(digest, live.records, all, s, live.sources[s].incarnation, live.sources[s].lastSequence);
    InRecoveryFacts(journal, s);
    FoldedMaxima(cfg, 0, rs);
    FoldedLeading(cfg, 0, rs);
    LastBootIsLargest(rs, s);
    assert rs[|rs| - 1] in rs;
    assert HeardBoots(rs, []) == BootsOfRecords(rs);
    SuffixSize(Starts(BootsOfRecords(rs)), cfg.maxIncarnations);
    AnyJournalDecides(cfg, digest, live, all, s, restart);
  }

  lemma {:induction false} QuietSource(cfg: Config, digest: Observation -> Digest, epoch: u64, e: Evidence, w: seq<Arrival>, s: u128)
    requires s in e.sources && Runs.AcceptedOf(cfg, digest, epoch, e, w, s) == []
    ensures var live := Run(cfg, digest, epoch, e, w); s in live.sources && Runs.SameLineage(e.sources[s], live.sources[s])
  {
    hide Ingest;
    if w != [] {
      QuietSource(cfg, digest, epoch, e, w[..|w| - 1], s);
      Runs.AcceptedMoves(cfg, digest, epoch, Run(cfg, digest, epoch, e, w[..|w| - 1]), w[|w| - 1]);
    }
  }

  /** Records of other sources do not touch the order of its own. */
  lemma SameSource(cfg: Config, digest: Observation -> Digest, epoch: u64, e: Evidence, journal: seq<ObservationRecord>, w: seq<Arrival>, s: u128)
    requires Runs.AcceptedOf(cfg, digest, epoch, e, w, s) == []
    ensures InRecovery(journal + JournalOf(cfg, digest, epoch, e, w), s) == InRecovery(journal, s)
  {
    hide JournalOf, Runs.AcceptedOf, RecoverLe, RecordOf, Ordering.Filter;
    var new_ := JournalOf(cfg, digest, epoch, e, w);
    JournalPerSource(cfg, digest, epoch, e, w, s);
    assert Stamp([], epoch) == [];
    FilteredSort(journal + new_, s);
    FilteredSort(journal, s);
    FilterConcat(journal, new_, RecordOf(s));
    assert Ordering.Filter(journal, RecordOf(s)) + [] == Ordering.Filter(journal, RecordOf(s));
  }

  lemma {:induction false} FilterConcat<T>(a: seq<T>, b: seq<T>, keep: T -> bool)
    ensures Ordering.Filter(a + b, keep) == Ordering.Filter(a, keep) + Ordering.Filter(b, keep)
  {
    if b == [] {
      assert a + b == a;
    } else {
      FilterConcat(a, b[..|b| - 1], keep);
      assert (a + b)[..|a + b| - 1] == a + b[..|b| - 1];
    }
  }

  lemma {:induction false} InsertFiltered(x: ObservationRecord, rs: seq<ObservationRecord>, s: u128)
    requires Ordering.Sorted(rs, RecoverLe)
    ensures Ordering.Filter(Ordering.Insert(x, rs, RecoverLe), RecordOf(s))
         == if x.observation.source == s then Ordering.Insert(x, Ordering.Filter(rs, RecordOf(s)), RecoverLe)
            else Ordering.Filter(rs, RecordOf(s))
  {
    hide Ordering.Filter;
    if rs == [] {
      Ordering.FilterFront(x, [], RecordOf(s));
      NothingFiltered(s);
      assert [x] + [] == [x];
    } else if RecoverLe(x, rs[0]) {
      Ordering.FilterFront(x, rs, RecordOf(s));
      Ordering.FilterMembers(rs, RecordOf(s));
      InsertFirst(x, rs, s);
    } else {
      InsertFiltered(x, rs[1..], s);
      Ordering.FilterFront(rs[0], Ordering.Insert(x, rs[1..], RecoverLe), RecordOf(s));
      Ordering.FilterFront(rs[0], rs[1..], RecordOf(s));
      assert rs == [rs[0]] + rs[1..];
      if x.observation.source == s && rs[0].observation.source == s {
        var rest := Ordering.Filter(rs[1..], RecordOf(s));
        assert ([rs[0]] + rest)[1..] == rest;
      } else if x.observation.source == s {
        assert [] + Ordering.Filter(rs[1..], RecordOf(s)) == Ordering.Filter(rs[1..], RecordOf(s));
      }
    }
  }

  lemma NothingFiltered(s: u128)
    ensures Ordering.Filter<ObservationRecord>([], RecordOf(s)) == []
  {
  }

  lemma InsertFirst(x: ObservationRecord, rs: seq<ObservationRecord>, s: u128)
    requires rs != [] && Ordering.Sorted(rs, RecoverLe) && RecoverLe(x, rs[0])
    ensures var mine := Ordering.Filter(rs, RecordOf(s)); Ordering.Insert(x, mine, RecoverLe) == [x] + mine
  {
    var mine := Ordering.Filter(rs, RecordOf(s));
    Ordering.FilterMembers(rs, RecordOf(s));
    if mine != [] {
      assert mine[0] in mine;
      var i :| 0 <= i < |rs| && rs[i] == mine[0];
      assert i > 0 ==> RecoverLe(rs[0], rs[i]);
    }
  }

  /** Filtering by source and sorting commute. */
  lemma {:induction false} FilteredSort(rs: seq<ObservationRecord>, s: u128)
    ensures InRecovery(rs, s) == Ordering.Sort(Ordering.Filter(rs, RecordOf(s)), RecoverLe)
  {
    hide RecoverLe, Ordering.Filter;
    if rs == [] {
      NothingFiltered(s);
    } else {
      FilteredSort(rs[1..], s);
      RecoverOrderIsTotal();
      Ordering.SortSorted(rs[1..], RecoverLe);
      InsertFiltered(rs[0], Ordering.Sort(rs[1..], RecoverLe), s);
      Ordering.FilterFront(rs[0], rs[1..], RecordOf(s));
      assert rs == [rs[0]] + rs[1..];
      var mine := Ordering.Filter(rs[1..], RecordOf(s));
      assert ([rs[0]] + mine)[1..] == mine && [] + mine == mine;
    }
  }

  // ---- windows that have room for every boot ----

  lemma NoRepeatsPush(s: seq<u128>, x: u128)
    requires Ordering.NoRepeats(s) && x !in s
    ensures Ordering.NoRepeats(s + [x])
  {
  }

  lemma AllRecent(heard: seq<u128>, n: nat)
    requires Ordering.NoRepeats(Starts(heard)) && |Ordering.Elements(heard)| <= n
    ensures Suffix(Starts(heard), n) == Starts(heard)
    ensures forall x :: x in Suffix(Starts(heard), n) <==> x in heard
  {
    hide Starts;
    StartsMembers(heard);
    Replay.NoRepeatsCount(Starts(heard));
    assert Ordering.Elements(Starts(heard)) == Ordering.Elements(heard);
  }

  lemma {:induction false} SortedStarts(rs: seq<ObservationRecord>, s: u128)
    requires Ordering.Sorted(rs, RecoverLe) && forall r :: r in rs ==> r.observation.source == s
    ensures Ordering.NoRepeats(Starts(BootsOfRecords(rs)))
  {
    hide Starts, Ordering.NoRepeats, RecoverLe;
    if rs == [] {
      assert BootsOfRecords(rs) == [];
      NoStarts(0);
      NothingRepeats();
    } else {
      var front, x := rs[..|rs| - 1], rs[|rs| - 1].observation.incarnation;
      assert forall r :: r in front ==> r in rs;
      SortedStarts(front, s);
      var bs := BootsOfRecords(front);
      assert BootsOfRecords(rs) == bs + [x];
      StartsPush(bs, x);
      StartsMembers(bs);
      if bs == [] {
        NoRepeatsPush(Starts(bs), x);
      } else if bs[|bs| - 1] != x {
        LargerIsNew(rs, s);
        NoRepeatsPush(Starts(bs), x);
      }
    }
  }

  lemma LiveStartsStep(cfg: Config, digest: Observation -> Digest, epoch: u64, e: Evidence, a: Arrival, s: u128, prior: seq<ObservationRecord>, accepted: seq<Arrival>)
    requires LiveIs(cfg, e, s, prior, accepted) && Ordering.NoRepeats(Starts(HeardBoots(prior, accepted)))
    requires |Ordering.Elements(HeardBoots(prior, accepted))| <= cfg.maxIncarnations
    requires a.observation.source == s && Ingest(cfg, digest, epoch, e, a).1.disposition == Accepted
    ensures Ordering.NoRepeats(Starts(HeardBoots(prior, accepted + [a])))
  {
    hide Ingest, Starts, Suffix, HeardBoots, Ordering.NoRepeats;
    var heard, x := HeardBoots(prior, accepted), a.observation.incarnation;
    HeardPush(prior, accepted, a);
    StartsPush(heard, x);
    StartsMembers(heard);
    AllRecent(heard, cfg.maxIncarnations);
    Runs.AcceptedMoves(cfg, digest, epoch, e, a);
    if heard == [] || heard[|heard| - 1] != x {
      NoRepeatsPush(Starts(heard), x);
    }
  }

  lemma HeardGrows(prior: seq<ObservationRecord>, front: seq<Arrival>, accepted: seq<Arrival>)
    requires front <= accepted
    ensures |Ordering.Elements(HeardBoots(prior, front))| <= |Ordering.Elements(HeardBoots(prior, accepted))|
  {
    var a, b := HeardBoots(prior, front), HeardBoots(prior, accepted);
    forall i | 0 <= i < |a| ensures a[i] == b[i] {
    }
    Ordering.SubsetSize(Ordering.Elements(a), Ordering.Elements(b));
  }

  lemma {:induction false} LiveStarts(cfg: Config, digest: Observation -> Digest, epoch: u64, e: Evidence, journal: seq<ObservationRecord>, w: seq<Arrival>, s: u128)
    requires StartsFrom(cfg, e, journal)
    requires |Ordering.Elements(HeardBoots(InRecovery(journal, s), Runs.AcceptedOf(cfg, digest, epoch, e, w, s)))| <= cfg.maxIncarnations
    ensures Ordering.NoRepeats(Starts(HeardBoots(InRecovery(journal, s), Runs.AcceptedOf(cfg, digest, epoch, e, w, s))))
  {
    hide Ingest, InRecovery, StartsFrom, Starts, HeardBoots, Ordering.NoRepeats;
    var prior := InRecovery(journal, s);
    if w == [] {
      InRecoveryFacts(journal, s);
      SortedStarts(prior, s);
      HeardPrior(prior);
    } else {
      var front, a := w[..|w| - 1], w[|w| - 1];
      var before := Runs.AcceptedOf(cfg, digest, epoch, e, front, s);
      HeardGrows(prior, before, Runs.AcceptedOf(cfg, digest, epoch, e, w, s));
      LiveStarts(cfg, digest, epoch, e, journal, front, s);
      RunIsLive(cfg, digest, epoch, e, journal, front, s);
      if a.observation.source == s && Ingest(cfg, digest, epoch, Run(cfg, digest, epoch, e, front), a).1.disposition == Accepted {
        LiveStartsStep(cfg, digest, epoch, Run(cfg, digest, epoch, e, front), a, s, prior, before);
      }
    }
  }

  lemma HeardPrior(prior: seq<ObservationRecord>)
    ensures HeardBoots(prior, []) == BootsOfRecords(prior)
  {
  }

  lemma HeardMembers(prior: seq<ObservationRecord>, accepted: seq<Arrival>, rs: seq<ObservationRecord>)
    requires forall r :: r in prior ==> r in rs
    requires forall a :: a in accepted ==> exists r :: r in rs && r.observation == a.observation
    requires forall r :: r in rs ==> r in prior || exists a :: a in accepted && r.observation == a.observation
    ensures Ordering.Elements(HeardBoots(prior, accepted)) == Ordering.Elements(BootsOfRecords(rs))
  {
    var heard, bs := HeardBoots(prior, accepted), BootsOfRecords(rs);
    forall x | x in heard ensures x in bs {
      var i :| 0 <= i < |heard| && heard[i] == x;
      if i < |prior| {
        assert prior[i] in rs;
        var k :| 0 <= k < |rs| && rs[k] == prior[i];
        assert bs[k] == x;
      } else {
        assert accepted[i - |prior|] in accepted;
        var r :| r in rs && r.observation == accepted[i - |prior|].observation;
        var k :| 0 <= k < |rs| && rs[k] == r;
        assert bs[k] == x;
      }
    }
    forall x | x in bs ensures x in heard {
      var k :| 0 <= k < |rs| && rs[k].observation.incarnation == x;
      assert rs[k] in rs;
      if rs[k] in prior {
        var i :| 0 <= i < |prior| && prior[i] == rs[k];
        assert heard[i] == x;
      } else {
        var a :| a in accepted && rs[k].observation == a.observation;
        var i :| 0 <= i < |accepted| && accepted[i] == a;
        assert heard[|prior| + i] == x;
      }
    }
  }

  lemma SameHeard(cfg: Config, digest: Observation -> Digest, epoch: u64, e: Evidence, journal: seq<ObservationRecord>, w: seq<Arrival>, s: u128)
    ensures var accepted, all := Runs.AcceptedOf(cfg, digest, epoch, e, w, s), journal + JournalOf(cfg, digest, epoch, e, w);
            Ordering.Elements(HeardBoots(InRecovery(journal, s), accepted)) == Ordering.Elements(BootsOfRecords(InRecovery(all, s)))
  {
    hide JournalOf, Runs.AcceptedOf, InRecovery, HeardBoots, BootsOfRecords;
    var accepted, new_ := Runs.AcceptedOf(cfg, digest, epoch, e, w, s), JournalOf(cfg, digest, epoch, e, w);
    var prior, rs := InRecovery(journal, s), InRecovery(journal + new_, s);
    InRecoveryFacts(journal, s);
    InRecoveryFacts(journal + new_, s);
    forall a | a in accepted ensures exists r :: r in rs && r.observation == a.observation {
      var i :| 0 <= i < |accepted| && accepted[i] == a;
      AcceptedIsJournalled(cfg, digest, epoch, e, w, s, i);
      assert NewRecord(a, epoch) in rs;
    }
    forall r | r in rs && r !in prior ensures exists a :: a in accepted && r.observation == a.observation {
      assert r in new_;
      JournalIsNonNil(cfg, digest, epoch, e, w, r);
    }
    HeardMembers(prior, accepted, rs);
  }

  /** While the window has room for every boot of s ever journalled, it does not enter into it. */
  lemma RestartDecidesInRoom(cfg: Config, digest: Observation -> Digest, epoch: u64, e: Evidence, journal: seq<ObservationRecord>, w: seq<Arrival>,
                             s: u128, restart: u64)
    requires StartsFrom(cfg, e, journal) && Run(cfg, digest, epoch, e, w).evicted == e.evicted
    requires Runs.AcceptedOf(cfg, digest, epoch, e, w, s) != [] && cfg.maxIncarnations < 0x1_0000_0000
    requires |Ordering.Elements(BootsOfRecords(InRecovery(journal + JournalOf(cfg, digest, epoch, e, w), s)))| <= cfg.maxIncarnations
    ensures var accepted, all := Runs.AcceptedOf(cfg, digest, epoch, e, w, s), journal + JournalOf(cfg, digest, epoch, e, w);
            var live, back := Run(cfg, digest, epoch, e, w), Recovered(cfg, restart, all);
            var rs, last := InRecovery(all, s), accepted[|accepted| - 1].observation;
            && s in live.sources && s in back.sources
            && (DecideAlike(cfg, digest, live, back, s)
                <==> LastLeads(rs, last) && (LeadersWithin(rs, last.epoch) || Unreached(cfg, live, last.generation)))
  {
    hide JournalOf, Run, Recovered, InRecovery, StartsFrom, Runs.AcceptedOf, Suffix, Starts, DecideAlike, HighWater, HeardBoots, LeadersWithin,
      Unreached, LastLeads, BootsOfRecords;
    var accepted, all := Runs.AcceptedOf(cfg, digest, epoch, e, w, s), journal + JournalOf(cfg, digest, epoch, e, w);
    var rs, heard := InRecovery(all, s), HeardBoots(InRecovery(journal, s), accepted);
    RestartDecides(cfg, digest, epoch, e, journal, w, s, restart);
    SameHeard(cfg, digest, epoch, e, journal, w, s);
    LiveStarts(cfg, digest, epoch, e, journal, w, s);
    InRecoveryFacts(all, s);
    SortedStarts(rs, s);
    AllRecent(heard, cfg.maxIncarnations);
    AllRecent(BootsOfRecords(rs), cfg.maxIncarnations);
    SameElements(heard, BootsOfRecords(rs));
  }

  lemma SameElements(a: seq<u128>, b: seq<u128>)
    requires Ordering.Elements(a) == Ordering.Elements(b)
    ensures forall x :: x in a <==> x in b
  {
    forall x ensures x in a <==> x in b {
      assert x in Ordering.Elements(a) <==> x in Ordering.Elements(b);
    }
  }

  // ---- a source that booted once ----

  ghost predicate OneBoot(accepted: seq<Arrival>) {
    forall a, b :: a in accepted && b in accepted ==> a.observation.incarnation == b.observation.incarnation
  }

  lemma OneBootRises(accepted: seq<Arrival>, i: nat, j: nat)
    requires Runs.Rising(accepted) && OneBoot(accepted) && i < j < |accepted|
    ensures accepted[i].observation.sequence < accepted[j].observation.sequence
    ensures accepted[i].observation.generation <= accepted[j].observation.generation
  {
    forall k | i <= k <= j ensures accepted[k].observation.incarnation == accepted[i].observation.incarnation {
      assert accepted[k] in accepted && accepted[i] in accepted;
    }
    Runs.RisingPairs(accepted, i, j);
  }

  function ObservationsOf(accepted: seq<Arrival>): set<Observation> { set a | a in accepted :: a.observation }

  function ObservationsIn(rs: seq<ObservationRecord>): set<Observation> { set r | r in rs :: r.observation }

  /** The records and the arrivals hold the same observations. */
  ghost predicate Mirrors(rs: seq<ObservationRecord>, accepted: seq<Arrival>) { ObservationsIn(rs) == ObservationsOf(accepted) }

  lemma ArrivalFor(rs: seq<ObservationRecord>, accepted: seq<Arrival>, i: nat) returns (p: nat)
    requires Mirrors(rs, accepted) && i < |rs|
    ensures p < |accepted| && accepted[p].observation == rs[i].observation
  {
    assert rs[i] in rs;
    assert rs[i].observation in ObservationsOf(accepted);
    var a :| a in accepted && a.observation == rs[i].observation;
    p :| 0 <= p < |accepted| && accepted[p] == a;
  }

  lemma RecordFor(rs: seq<ObservationRecord>, accepted: seq<Arrival>, p: nat) returns (i: nat)
    requires Mirrors(rs, accepted) && p < |accepted|
    ensures i < |rs| && accepted[p].observation == rs[i].observation
  {
    assert accepted[p] in accepted;
    assert accepted[p].observation in ObservationsIn(rs);
    var r :| r in rs && r.observation == accepted[p].observation;
    i :| 0 <= i < |rs| && rs[i] == r;
  }

  lemma OneBootAllLead(rs: seq<ObservationRecord>, accepted: seq<Arrival>, s: u128, i: nat)
    requires Runs.Rising(accepted) && OneBoot(accepted) && Mirrors(rs, accepted) && i < |rs|
    requires Ordering.Sorted(rs, RecoverLe) && forall r :: r in rs ==> r.observation.source == s
    ensures Leads(rs, i)
  {
    hide Runs.Rising, OneBoot, Mirrors;
    forall k | 0 <= k < i ensures rs[k].observation.generation <= rs[i].observation.generation {
      var p := ArrivalFor(rs, accepted, k);
      var q := ArrivalFor(rs, accepted, i);
      SameBoot(accepted, p, q);
      assert rs[k] in rs && rs[i] in rs && RecoverLe(rs[k], rs[i]);
      if p < q {
        OneBootRises(accepted, p, q);
      } else if q < p {
        OneBootRises(accepted, q, p);
      }
    }
  }

  lemma SameBoot(accepted: seq<Arrival>, p: nat, q: nat)
    requires OneBoot(accepted) && p < |accepted| && q < |accepted|
    ensures accepted[p].observation.incarnation == accepted[q].observation.incarnation
  {
    assert accepted[p] in accepted && accepted[q] in accepted;
  }

  lemma OneBootLastLeads(rs: seq<ObservationRecord>, accepted: seq<Arrival>)
    requires Runs.Rising(accepted) && OneBoot(accepted) && Mirrors(rs, accepted) && accepted != []
    ensures LastLeads(rs, accepted[|accepted| - 1].observation)
  {
    hide Runs.Rising, OneBoot, Mirrors;
    var last := accepted[|accepted| - 1].observation;
    forall r | r in rs ensures r.observation.incarnation <= last.incarnation && r.observation.sequence <= last.sequence {
      var i :| 0 <= i < |rs| && rs[i] == r;
      var p := ArrivalFor(rs, accepted, i);
      SameBoot(accepted, p, |accepted| - 1);
      if p < |accepted| - 1 {
        OneBootRises(accepted, p, |accepted| - 1);
      }
    }
  }

  lemma OneBootEpochs(rs: seq<ObservationRecord>, accepted: seq<Arrival>, s: u128, n: nat)
    requires Runs.Rising(accepted) && OneBoot(accepted) && Mirrors(rs, accepted)
    requires Ordering.Sorted(rs, RecoverLe) && forall r :: r in rs ==> r.observation.source == s
    ensures LeadersWithin(rs, n) <==> forall a :: a in accepted ==> a.observation.epoch <= n
  {
    hide Leads, RecoverLe, Runs.Rising, OneBoot, Mirrors;
    forall i | 0 <= i < |rs| ensures Leads(rs, i) {
      OneBootAllLead(rs, accepted, s, i);
    }
    if LeadersWithin(rs, n) {
      forall a | a in accepted ensures a.observation.epoch <= n {
        var p :| 0 <= p < |accepted| && accepted[p] == a;
        var i := RecordFor(rs, accepted, p);
      }
    }
    if forall a :: a in accepted ==> a.observation.epoch <= n {
      forall i | 0 <= i < |rs| && Leads(rs, i) ensures rs[i].observation.epoch <= n {
        var p := ArrivalFor(rs, accepted, i);
        assert accepted[p] in accepted;
      }
    }
  }

  lemma {:induction false} OneStart(bs: seq<u128>, x: u128)
    requires bs != [] && forall y :: y in bs ==> y == x
    ensures Starts(bs) == [x]
  {
    var n := |bs| - 1;
    assert bs[n] in bs;
    if n > 0 {
      assert bs[n - 1] in bs && forall y :: y in bs[..n] ==> y in bs;
      OneStart(bs[..n], x);
    }
  }

  lemma JournalMirrors(cfg: Config, digest: Observation -> Digest, epoch: u64, e: Evidence, w: seq<Arrival>, s: u128)
    ensures Mirrors(InRecovery([] + JournalOf(cfg, digest, epoch, e, w), s), Runs.AcceptedOf(cfg, digest, epoch, e, w, s))
  {
    hide JournalOf, Runs.AcceptedOf, InRecovery;
    var accepted, all := Runs.AcceptedOf(cfg, digest, epoch, e, w, s), [] + JournalOf(cfg, digest, epoch, e, w);
    var rs := InRecovery(all, s);
    InRecoveryFacts(all, s);
    forall o | o in ObservationsOf(accepted) ensures o in ObservationsIn(rs) {
      var a :| a in accepted && a.observation == o;
      var i :| 0 <= i < |accepted| && accepted[i] == a;
      AcceptedIsJournalled(cfg, digest, epoch, e, w, s, i);
      assert NewRecord(a, epoch) in rs;
    }
    forall o | o in ObservationsIn(rs) ensures o in ObservationsOf(accepted) {
      var r :| r in rs && r.observation == o;
      JournalIsNonNil(cfg, digest, epoch, e, w, r);
      var a :| a in accepted && r == NewRecord(a, epoch);
    }
  }

  lemma OneBootFacts(cfg: Config, digest: Observation -> Digest, epoch: u64, e: Evidence, w: seq<Arrival>, s: u128)
    requires Runs.AcceptedOf(cfg, digest, epoch, e, w, s) != [] && OneBoot(Runs.AcceptedOf(cfg, digest, epoch, e, w, s))
    ensures var accepted, rs := Runs.AcceptedOf(cfg, digest, epoch, e, w, s), InRecovery([] + JournalOf(cfg, digest, epoch, e, w), s);
            && InRecovery([], s) == []
            && LastLeads(rs, accepted[|accepted| - 1].observation)
            && SameRecent(cfg.maxIncarnations, HeardBoots([], accepted), BootsOfRecords(rs))
            && forall n: nat :: LeadersWithin(rs, n) <==> forall a :: a in accepted ==> a.observation.epoch <= n
  {
    hide JournalOf, Runs.AcceptedOf, InRecovery, Starts, Suffix, LeadersWithin, LastLeads, RecoverLe, HeardBoots, BootsOfRecords, Mirrors, OneBoot, Runs.Rising;
    var accepted, all := Runs.AcceptedOf(cfg, digest, epoch, e, w, s), [] + JournalOf(cfg, digest, epoch, e, w);
    var rs := InRecovery(all, s);
    InRecoveryFacts(all, s);
    NothingInRecovery(s);
    Runs.AcceptedTracks(cfg, digest, epoch, e, w, s);
    JournalMirrors(cfg, digest, epoch, e, w, s);
    OneBootLastLeads(rs, accepted);
    forall n: nat ensures LeadersWithin(rs, n) <==> forall a :: a in accepted ==> a.observation.epoch <= n {
      OneBootEpochs(rs, accepted, s, n);
    }
    OneBootRecent(rs, accepted);
  }

  lemma NothingInRecovery(s: u128)
    ensures InRecovery([], s) == []
  {
  }

  lemma OneBootRecent(rs: seq<ObservationRecord>, accepted: seq<Arrival>)
    requires OneBoot(accepted) && Mirrors(rs, accepted) && accepted != []
    ensures Starts(HeardBoots([], accepted)) == Starts(BootsOfRecords(rs))
  {
    hide Starts, OneBoot, Mirrors;
    var x := accepted[0].observation.incarnation;
    var k := RecordFor(rs, accepted, 0);
    forall y | y in HeardBoots([], accepted) ensures y == x {
      var i :| 0 <= i < |accepted| && accepted[i].observation.incarnation == y;
      SameBoot(accepted, 0, i);
    }
    forall y | y in BootsOfRecords(rs) ensures y == x {
      var i :| 0 <= i < |rs| && rs[i].observation.incarnation == y;
      var p := ArrivalFor(rs, accepted, i);
      SameBoot(accepted, 0, p);
    }
    OneStart(HeardBoots([], accepted), x);
    OneStart(BootsOfRecords(rs), x);
  }

  /** For a source that booted once, everything a fence looks at survives the restart, if and only if no
      accepted epoch was higher than the last one. */
  lemma OneBootLineageSurvives(cfg: Config, digest: Observation -> Digest, epoch: u64, e: Evidence, w: seq<Arrival>, s: u128, restart: u64)
    requires Runs.AcceptedOf(cfg, digest, epoch, e, w, s) != [] && OneBoot(Runs.AcceptedOf(cfg, digest, epoch, e, w, s))
    ensures var accepted := Runs.AcceptedOf(cfg, digest, epoch, e, w, s);
            var live, back := Run(cfg, digest, epoch, e, w), Recovered(cfg, restart, JournalOf(cfg, digest, epoch, e, w));
            && s in live.sources && s in back.sources
            && (Runs.SameLineage(live.sources[s], back.sources[s])
                <==> forall a :: a in accepted ==> a.observation.epoch <= accepted[|accepted| - 1].observation.epoch)
            && (forall a :: a in accepted ==> a.observation.epoch <= back.sources[s].lastEpoch)
  {
    hide JournalOf, Run, Recovered, InRecovery, Runs.AcceptedOf, LeadersWithin, Runs.Rising, OneBoot, Peak, LeadingEpoch, Starts, Suffix,
      BootsOfRecords, RecoverLe;
    var accepted, journal := Runs.AcceptedOf(cfg, digest, epoch, e, w, s), JournalOf(cfg, digest, epoch, e, w);
    var rs, last := InRecovery(journal, s), accepted[|accepted| - 1].observation;
    assert [] + journal == journal;
    OneBootFacts(cfg, digest, epoch, e, w, s);
    Runs.AcceptedTracks(cfg, digest, epoch, e, w, s);
    forall r | r in journal ensures r.observation.incarnation != 0 {
      JournalIsNonNil(cfg, digest, epoch, e, w, r);
    }
    RebuiltLineage(cfg, restart, journal, s);
    OneBootEnd(cfg, digest, epoch, e, w, s);
    EndLeads(rs, last);
    LeadingEpochBounds(rs, LeadingEpoch(rs));
  }

  lemma OneBootEnd(cfg: Config, digest: Observation -> Digest, epoch: u64, e: Evidence, w: seq<Arrival>, s: u128)
    requires Runs.AcceptedOf(cfg, digest, epoch, e, w, s) != [] && OneBoot(Runs.AcceptedOf(cfg, digest, epoch, e, w, s))
    ensures var accepted, rs := Runs.AcceptedOf(cfg, digest, epoch, e, w, s), InRecovery([] + JournalOf(cfg, digest, epoch, e, w), s);
            var last := accepted[|accepted| - 1].observation;
            && (exists r :: r in rs && r.observation == last)
            && (forall r :: r in rs ==> r.observation.generation <= last.generation)
  {
    hide JournalOf, InRecovery, Runs.AcceptedOf, OneBoot, Mirrors, Runs.Rising;
    var accepted, rs := Runs.AcceptedOf(cfg, digest, epoch, e, w, s), InRecovery([] + JournalOf(cfg, digest, epoch, e, w), s);
    JournalMirrors(cfg, digest, epoch, e, w, s);
    Runs.AcceptedTracks(cfg, digest, epoch, e, w, s);
    var k := RecordFor(rs, accepted, |accepted| - 1);
    assert rs[k] in rs;
    forall r | r in rs ensures r.observation.generation <= accepted[|accepted| - 1].observation.generation {
      var i :| 0 <= i < |rs| && rs[i] == r;
      var p := ArrivalFor(rs, accepted, i);
      if p < |accepted| - 1 {
        OneBootRises(accepted, p, |accepted| - 1);
      }
    }
  }

  /** And every next observation of it meets the same verdict if and only if, besides, some observation would
      get as far as the epoch fence. */
  lemma RestartDecidesAlike(cfg: Config, digest: Observation -> Digest, epoch: u64, e: Evidence, w: seq<Arrival>, s: u128, restart: u64)
    requires Unheard(e) && Run(cfg, digest, epoch, e, w).evicted == e.evicted && cfg.maxIncarnations < 0x1_0000_0000
    requires Runs.AcceptedOf(cfg, digest, epoch, e, w, s) != [] && OneBoot(Runs.AcceptedOf(cfg, digest, epoch, e, w, s))
    ensures var accepted := Runs.AcceptedOf(cfg, digest, epoch, e, w, s);
            var live, back := Run(cfg, digest, epoch, e, w), Recovered(cfg, restart, JournalOf(cfg, digest, epoch, e, w));
            var last := accepted[|accepted| - 1].observation;
            && s in live.sources && s in back.sources
            && (DecideAlike(cfg, digest, live, back, s)
                <==> (forall a :: a in accepted ==> a.observation.epoch <= last.epoch) || Unreached(cfg, live, last.generation))
  {
    hide JournalOf, Run, Recovered, InRecovery, Runs.AcceptedOf, LeadersWithin, LastLeads, StartsFrom, OneBoot, SameRecent, Unheard,
      DecideAlike, Unreached;
    UnheardStarts(cfg, e);
    OneBootFacts(cfg, digest, epoch, e, w, s);
    RestartDecides(cfg, digest, epoch, e, [], w, s, restart);
    assert [] + JournalOf(cfg, digest, epoch, e, w) == JournalOf(cfg, digest, epoch, e, w);
  }

  // ---- claims ----

  lemma {:induction false} FoldedScope(cfg: Config, epoch: u64, rs: seq<ObservationRecord>)
    ensures FoldSource(cfg, epoch, rs).descriptor.aspects == []
  {
    if rs != [] {
      FoldedScope(cfg, epoch, rs[..|rs| - 1]);
    }
  }

  /** The fences a claim of s meets on its own in a given state. */
  function JudgeClaim(cfg: Config, e: Evidence, s: u128, c: Claim): Verdict {
    CheckClaim(cfg, Assertions.Declared(e, s), e.revisions, RevisionKey(s, c.subject.id, c.aspect), c)
  }

  /** Neither declared scopes nor revisions are rebuilt: right after a restart a claim meets another verdict exactly
      when the running engine would have refused it as out of scope or as an older revision, and then it
      passes. */
  lemma ClaimsAfterRestart(cfg: Config, live: Evidence, journal: seq<ObservationRecord>, s: u128, restart: u64, c: Claim)
    ensures var before, after := JudgeClaim(cfg, live, s, c), JudgeClaim(cfg, Recovered(cfg, restart, journal), s, c);
            && (before != after <==> before.Refuse? && (before.code == FencedAuthority || before.code == FencedRevision))
            && (before != after ==> after == Pass)
  {
    hide RecoverAll, FoldSource, FindDescriptor, InRecovery, FoldSeen;
    RecoveredSource(cfg, restart, journal, s);
    FoldedScope(cfg, restart, InRecovery(journal, s));
  }
}
