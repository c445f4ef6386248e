/** When two states of the engine decide alike on everything a source may send next: the fences of
    src/observatory.cpp as observers of a lineage. */
module Verdicts {
  import opened Bytes
  import opened Observations
  import opened Observatories
  import Ordering
  import Runs

  function HighOf(cfg: Config, e: Evidence): u64 { if cfg.strictGeneration then HighWater(e.records) else 0 }

  /** The verdict of the observation-level fences on o in a given state. */
  function Judge(cfg: Config, digest: Observation -> Digest, e: Evidence, o: Observation): Verdict
    requires o.source in e.sources
  {
    CheckLineage(cfg, e.sources[o.source], Seen(e.incarnations, o.source), Indexed(digest, e.records, digest(o)), HighOf(cfg, e), o)
  }

  ghost predicate DecideAlike(cfg: Config, digest: Observation -> Digest, a: Evidence, b: Evidence, s: u128)
    requires s in a.sources && s in b.sources
  {
    forall o: Observation :: o.source == s ==> Judge(cfg, digest, a, o) == Judge(cfg, digest, b, o)
  }

  // ---- what can be told apart ----

  predicate SameTurn(x: SourceState, y: SourceState) {
    x.incarnation == y.incarnation && x.lastSequence == y.lastSequence && x.lastGeneration == y.lastGeneration
  }

  /** The largest admissible generation wraps below g: then no generation is admitted any more. */
  predicate Exhausted(cfg: Config, g: u64) { g + cfg.maxGenerationAdvance >= U64_MODULUS }

  /** The last epochs agree, unless no observation of the last generation g gets as far as the epoch fence; and
      so do the high waters, unless both are behind the source already. */
  predicate SameGate(cfg: Config, g: u64, x: u64, y: u64, high: u64, other: u64) {
    Exhausted(cfg, g) || ((high == other || (high <= g && other <= g)) && (x == y || g < high))
  }

  /** The windows hold the same boots besides the current one. */
  ghost predicate SameBoots(seen: seq<u128>, other: seq<u128>, current: u128) {
    forall x :: x != current ==> (x in seen <==> x in other)
  }

  /** The retransmission of the last turn is a duplicate in both or in neither. */
  ghost predicate SameDuplicates(digest: Observation -> Digest, rs: seq<ObservationRecord>, other: seq<ObservationRecord>, s: u128, incarnation: u128, sequence: u64) {
    forall o: Observation :: o.source == s && o.incarnation == incarnation && o.sequence == sequence ==>
      (Indexed(digest, rs, digest(o)) <==> Indexed(digest, other, digest(o)))
  }

  ghost predicate Indistinguishable(cfg: Config, digest: Observation -> Digest, a: Evidence, b: Evidence, s: u128)
    requires s in a.sources && s in b.sources
  {
    var x, y := a.sources[s], b.sources[s];
    && SameTurn(x, y)
    && SameGate(cfg, x.lastGeneration, x.lastEpoch, y.lastEpoch, HighOf(cfg, a), HighOf(cfg, b))
    && SameBoots(Seen(a.incarnations, s), Seen(b.incarnations, s), x.incarnation)
    && SameDuplicates(digest, a.records, b.records, s, x.incarnation, x.lastSequence)
  }

  // ---- nothing else can ----

  lemma SameGeneration(cfg: Config, x: SourceState, y: SourceState, high: u64, other: u64, o: Observation)
    requires x.lastGeneration == y.lastGeneration
    requires SameGate(cfg, x.lastGeneration, x.lastEpoch, y.lastEpoch, high, other)
    requires !cfg.strictGeneration ==> high == other == 0
    ensures CheckGeneration(cfg, x, high, o) == CheckGeneration(cfg, y, other, o)
  {
  }

  lemma AlikeIfIndistinguishable(cfg: Config, digest: Observation -> Digest, a: Evidence, b: Evidence, o: Observation)
    requires o.source in a.sources && o.source in b.sources && Indistinguishable(cfg, digest, a, b, o.source)
    ensures Judge(cfg, digest, a, o) == Judge(cfg, digest, b, o)
  {
    hide CheckGeneration, HighWater, Indexed, SameGate;
    SameGeneration(cfg, a.sources[o.source], b.sources[o.source], HighOf(cfg, a), HighOf(cfg, b), o);
  }

  // ---- and each of these can: an observation that tells ----

  function Probe(s: u128, incarnation: u128, sequence: u64, generation: u64, epoch: u64): Observation {
    Observation([], 0, s, incarnation, sequence, generation, epoch, 0, [], [], [])
  }

  /** The last turn again: a duplicate or behind where it was the last, and never so where the boot is not
      current. */
  lemma TurnTells(cfg: Config, digest: Observation -> Digest, a: Evidence, b: Evidence, s: u128)
    requires s in a.sources && s in b.sources
    requires var x, y := a.sources[s], b.sources[s]; x.incarnation != y.incarnation || x.lastSequence != y.lastSequence
    ensures var x := a.sources[s];
            var o := Probe(s, x.incarnation, x.lastSequence, x.lastGeneration, x.lastEpoch);
            Judge(cfg, digest, a, o) != Judge(cfg, digest, b, o)
  {
    hide Indexed, HighWater;
  }

  lemma DuplicateTells(cfg: Config, digest: Observation -> Digest, a: Evidence, b: Evidence, o: Observation)
    requires o.source in a.sources && o.source in b.sources
    requires var x, y := a.sources[o.source], b.sources[o.source];
             SameTurn(x, y) && o.incarnation == x.incarnation && o.sequence == x.lastSequence
    requires Indexed(digest, a.records, digest(o)) != Indexed(digest, b.records, digest(o))
    ensures Judge(cfg, digest, a, o) != Judge(cfg, digest, b, o)
  {
    hide Indexed, HighWater, CheckGeneration;
  }

  lemma BootTells(cfg: Config, digest: Observation -> Digest, a: Evidence, b: Evidence, s: u128, boot: u128)
    requires s in a.sources && s in b.sources && SameTurn(a.sources[s], b.sources[s]) && boot != a.sources[s].incarnation
    requires (boot in Seen(a.incarnations, s)) != (boot in Seen(b.incarnations, s))
    ensures var o := Probe(s, boot, 1, 0, 0); Judge(cfg, digest, a, o) != Judge(cfg, digest, b, o)
  {
    hide Indexed, HighWater;
  }

  /** A boot neither state has heard of. */
  predicate NewBoot(a: Evidence, b: Evidence, s: u128, boot: u128)
    requires s in a.sources && s in b.sources
  {
    && boot !in Seen(a.incarnations, s) && boot != a.sources[s].incarnation
    && boot !in Seen(b.incarnations, s) && boot != b.sources[s].incarnation
  }

  lemma NewBootVerdict(cfg: Config, digest: Observation -> Digest, e: Evidence, s: u128, boot: u128, generation: u64, epoch: u64)
    requires s in e.sources && boot !in Seen(e.incarnations, s) && boot != e.sources[s].incarnation
    ensures Judge(cfg, digest, e, Probe(s, boot, 1, generation, epoch))
         == CheckGeneration(cfg, e.sources[s], HighOf(cfg, e), Probe(s, boot, 1, generation, epoch))
  {
    hide Indexed, HighWater, CheckGeneration;
  }

  lemma GenerationTells(cfg: Config, digest: Observation -> Digest, a: Evidence, b: Evidence, s: u128, boot: u128)
    requires s in a.sources && s in b.sources && NewBoot(a, b, s, boot)
    requires a.sources[s].lastGeneration < b.sources[s].lastGeneration
    ensures var o := Probe(s, boot, 1, a.sources[s].lastGeneration, a.sources[s].lastEpoch);
            Judge(cfg, digest, a, o) != Judge(cfg, digest, b, o)
  {
    hide HighWater, Judge;
    var x := a.sources[s];
    NewBootVerdict(cfg, digest, a, s, boot, x.lastGeneration, x.lastEpoch);
    NewBootVerdict(cfg, digest, b, s, boot, x.lastGeneration, x.lastEpoch);
  }

  lemma GateTells(cfg: Config, digest: Observation -> Digest, a: Evidence, b: Evidence, s: u128, boot: u128)
    requires s in a.sources && s in b.sources && NewBoot(a, b, s, boot)
    requires var x, y := a.sources[s], b.sources[s];
             && x.lastGeneration == y.lastGeneration
             && !SameGate(cfg, x.lastGeneration, x.lastEpoch, y.lastEpoch, HighOf(cfg, a), HighOf(cfg, b))
    ensures var x, y := a.sources[s], b.sources[s];
            var o := Probe(s, boot, 1, x.lastGeneration, Min(x.lastEpoch, y.lastEpoch));
            Judge(cfg, digest, a, o) != Judge(cfg, digest, b, o)
  {
    hide HighWater, Judge;
    var x, y := a.sources[s], b.sources[s];
    NewBootVerdict(cfg, digest, a, s, boot, x.lastGeneration, Min(x.lastEpoch, y.lastEpoch));
    NewBootVerdict(cfg, digest, b, s, boot, x.lastGeneration, Min(x.lastEpoch, y.lastEpoch));
  }

  // ---- there is always a boot that is new ----

  function Below(n: nat): set<u128>
    requires n <= U64_MODULUS
  {
    if n == 0 then {} else Below(n - 1) + {n - 1}
  }

  lemma {:induction false} BelowSize(n: nat)
    requires n <= U64_MODULUS
    ensures |Below(n)| == n && forall x :: x in Below(n) ==> x < n
  {
    if n > 0 {
      BelowSize(n - 1);
    }
  }

  lemma FreshNumber(taken: set<u128>) returns (x: u128)
    requires |taken| < U64_MODULUS
    ensures x !in taken
  {
    BelowSize(|taken| + 1);
    if Below(|taken| + 1) <= taken {
      Ordering.SubsetSize(Below(|taken| + 1), taken);
    }
    x :| x in Below(|taken| + 1) && x !in taken;
  }

  lemma FindNewBoot(a: Evidence, b: Evidence, s: u128) returns (boot: u128)
    requires s in a.sources && s in b.sources
    requires |Seen(a.incarnations, s)| + |Seen(b.incarnations, s)| + 2 < U64_MODULUS
    ensures NewBoot(a, b, s, boot)
  {
    var p, q := Ordering.Elements(Seen(a.incarnations, s)), Ordering.Elements(Seen(b.incarnations, s));
    Ordering.ElementCount(Seen(a.incarnations, s));
    Ordering.ElementCount(Seen(b.incarnations, s));
    boot := FreshNumber(p + q + {a.sources[s].incarnation} + {b.sources[s].incarnation});
  }

  /** Two states decide alike on everything a source may send next if and only if they agree on its boot, its
      sequence and its generation, on its epoch as far as any observation gets to the epoch fence, on the
      boots it had before, and on whether the last turn sent again is a duplicate. */
  lemma DecideAlikeMeaning(cfg: Config, digest: Observation -> Digest, a: Evidence, b: Evidence, s: u128)
    requires s in a.sources && s in b.sources
    requires |Seen(a.incarnations, s)| + |Seen(b.incarnations, s)| + 2 < U64_MODULUS
    ensures DecideAlike(cfg, digest, a, b, s) <==> Indistinguishable(cfg, digest, a, b, s)
  {
    hide Judge, SameGate, SameBoots, SameDuplicates;
    if Indistinguishable(cfg, digest, a, b, s) {
      forall o: Observation | o.source == s ensures Judge(cfg, digest, a, o) == Judge(cfg, digest, b, o) {
        AlikeIfIndistinguishable(cfg, digest, a, b, o);
      }
    } else {
      var o := SomethingTells(cfg, digest, a, b, s);
    }
  }

  lemma SomethingTells(cfg: Config, digest: Observation -> Digest, a: Evidence, b: Evidence, s: u128) returns (o: Observation)
    requires s in a.sources && s in b.sources
    requires |Seen(a.incarnations, s)| + |Seen(b.incarnations, s)| + 2 < U64_MODULUS
    requires !Indistinguishable(cfg, digest, a, b, s)
    ensures o.source == s && Judge(cfg, digest, a, o) != Judge(cfg, digest, b, o)
  {
    hide Judge, SameGate, NewBoot;
    var x, y := a.sources[s], b.sources[s];
    var boot := FindNewBoot(a, b, s);
    if x.incarnation != y.incarnation || x.lastSequence != y.lastSequence {
      TurnTells(cfg, digest, a, b, s);
      o := Probe(s, x.incarnation, x.lastSequence, x.lastGeneration, x.lastEpoch);
    } else if x.lastGeneration < y.lastGeneration {
      GenerationTells(cfg, digest, a, b, s, boot);
      o := Probe(s, boot, 1, x.lastGeneration, x.lastEpoch);
    } else if y.lastGeneration < x.lastGeneration {
      NewBootBack(a, b, s, boot);
      GenerationTells(cfg, digest, b, a, s, boot);
      o := Probe(s, boot, 1, y.lastGeneration, y.lastEpoch);
    } else if !SameGate(cfg, x.lastGeneration, x.lastEpoch, y.lastEpoch, HighOf(cfg, a), HighOf(cfg, b)) {
      GateTells(cfg, digest, a, b, s, boot);
      o := Probe(s, boot, 1, x.lastGeneration, Min(x.lastEpoch, y.lastEpoch));
    } else if !SameBoots(Seen(a.incarnations, s), Seen(b.incarnations, s), x.incarnation) {
      var z :| z != x.incarnation && (z in Seen(a.incarnations, s)) != (z in Seen(b.incarnations, s));
      BootTells(cfg, digest, a, b, s, z);
      o := Probe(s, z, 1, 0, 0);
    } else {
      o :| o.source == s && o.incarnation == x.incarnation && o.sequence == x.lastSequence
           && Indexed(digest, a.records, digest(o)) != Indexed(digest, b.records, digest(o));
      DuplicateTells(cfg, digest, a, b, o);
    }
  }

  lemma NewBootBack(a: Evidence, b: Evidence, s: u128, boot: u128)
    requires s in a.sources && s in b.sources && NewBoot(a, b, s, boot)
    ensures NewBoot(b, a, s, boot)
  {
  }
}
