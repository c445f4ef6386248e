/** What a full fence table lets through: a run whose published view asserts a claim that was refused
    (src/observatory.cpp, src/snapshot.cpp). */
module Forgetting {
  import opened Bytes
  import opened Observations
  import opened Observatories
  import opened Interleaving
  import Assertions
  import Ids
  import Ordering
  import Restart
  import Runs
  import Snapshots
  import Truth
  import Values
  import Views

  const SCOPE: Text := Ascii("link.state")
  const OUTSIDE: Text := Ascii("device.model")
  const SPEAKER: u128 := 1

  const DECLARATION: Descriptor := Descriptor(SPEAKER, [], [], [SCOPE], 0, [])

  /** The source declares one aspect, says something about it, and then about another aspect of n others. */
  function ClaimAt(subjects: seq<Ids.SubjectIdentity>, k: nat): Claim
    requires k < |subjects|
  {
    Claim(subjects[k], if k == 0 then SCOPE else OUTSIDE, Values.Bool(true), true, 0)
  }

  function Overreach(cfg: Config, subjects: seq<Ids.SubjectIdentity>, now: i64): (o: Observation)
    ensures |o.claims| == |subjects| && forall k :: 0 <= k < |subjects| ==> o.claims[k] == ClaimAt(subjects, k)
  {
    Observation(cfg.schema, cfg.fabric, SPEAKER, 1, 1, 0, 0, now,
                seq(|subjects|, k requires 0 <= k < |subjects| => ClaimAt(subjects, k)), [], [])
  }

  predicate Distinct(subjects: seq<Ids.SubjectIdentity>) {
    && (forall k :: 0 <= k < |subjects| ==> subjects[k].id != 0)
    && forall j, k :: 0 <= j < k < |subjects| ==> subjects[j].id != subjects[k].id
  }

  /** A configuration that admits the source and the observation, whatever its fence bound. */
  predicate Admits(cfg: Config, subjects: seq<Ids.SubjectIdentity>) {
    && cfg.fabric != 0 && cfg.schema != [] && cfg.maxSources >= 1 && cfg.maxAspects >= 1
    && cfg.maxEvidence >= 1 && !cfg.rejectUnknownAspects
    && |subjects| <= cfg.limits.maxClaims && cfg.limits.values.maxDepth >= 1 && cfg.limits.values.maxTotalNodes >= 1
  }

  /** The engine after the source was registered and nothing else happened. */
  function Registered(cfg: Config): (e: Evidence)
    requires cfg.maxSources >= 1 && cfg.maxAspects >= 1
    ensures SPEAKER in e.sources && e.sources[SPEAKER].descriptor.aspects == [SCOPE]
    ensures Register(cfg, map[], DECLARATION).Ok? && e == Restart.EMPTY.(sources := Register(cfg, map[], DECLARATION).value)
  {
    assert Ordering.Sort([SCOPE], TextLe) == [SCOPE] by {
      assert [SCOPE][1..] == [];
    }
    Restart.EMPTY.(sources := Register(cfg, map[], DECLARATION).value)
  }

  // ---- the observation is accepted ----

  lemma {:induction false} ClaimsAreValid(cfg: Config, cs: seq<Claim>)
    requires cfg.limits.values.maxDepth >= 1 && cfg.limits.values.maxTotalNodes >= 1
    requires forall k :: 0 <= k < |cs| ==> cs[k].subject.id != 0 && cs[k].aspect != [] && cs[k].value == Values.Bool(true)
    ensures CheckClaims(cs, cfg.limits).Ok?
  {
    if cs != [] {
      ClaimsAreValid(cfg, cs[1..]);
    }
  }

  lemma OverreachIsValid(cfg: Config, subjects: seq<Ids.SubjectIdentity>, now: i64)
    requires Admits(cfg, subjects) && Distinct(subjects)
    ensures CheckInput(cfg, Overreach(cfg, subjects, now), now) == Pass
  {
    var o := Overreach(cfg, subjects, now);
    assert |SCOPE| == 10 && |OUTSIDE| == 12;
    ClaimsAreValid(cfg, o.claims);
    assert !AdjacentClaims(o.claims) by {
      forall i | 0 < i < |o.claims| ensures o.claims[i - 1].subject != o.claims[i].subject {
        assert o.claims[i] == ClaimAt(subjects, i) && o.claims[i - 1] == ClaimAt(subjects, i - 1);
      }
    }
    assert CheckMetaSizes(o.metadata, cfg.limits).Ok?;
  }

  /** The fence of each claim outside the scope, in the order of the claims. */
  function FenceAt(cfg: Config, digest: Observation -> Digest, subjects: seq<Ids.SubjectIdentity>, now: i64, k: nat): FencedClaim
    requires k < |subjects|
  {
    MakeFenced(digest, Overreach(cfg, subjects, now), now, ClaimAt(subjects, k), FencedAuthority, OutOfScope(OUTSIDE))
  }

  function FencesTo(cfg: Config, digest: Observation -> Digest, subjects: seq<Ids.SubjectIdentity>, now: i64, n: nat): (r: seq<FencedClaim>)
    requires n <= |subjects|
    ensures |r| == if n == 0 then 0 else n - 1
    ensures forall i :: 0 <= i < |r| ==> r[i] == FenceAt(cfg, digest, subjects, now, i + 1)
  {
    if n == 0 then [] else seq(n - 1, i requires 0 <= i < n - 1 => FenceAt(cfg, digest, subjects, now, i + 1))
  }

  lemma {:induction false} FoldOverreach(cfg: Config, digest: Observation -> Digest, subjects: seq<Ids.SubjectIdentity>, now: i64, n: nat)
    requires Admits(cfg, subjects) && Distinct(subjects) && n <= |subjects|
    ensures var o := Overreach(cfg, subjects, now);
            var f := FoldClaims(cfg, digest, [SCOPE], o, now, StartFold(Registered(cfg)), o.claims[..n]);
            && f.fencedClaims == Suffix(FencesTo(cfg, digest, subjects, now, n), cfg.maxRejections)
            && (n > 0 ==> f.accepted > 0) && (n == 0 ==> f.revisions == map[])
  {
    hide Suffix, MakeFenced, NoteRevision, FindDescriptor, StepClaim, FencesTo, AlreadyFenced, PushBounded;
    var o, f0 := Overreach(cfg, subjects, now), StartFold(Registered(cfg));
    if n == 0 {
      assert o.claims[..0] == [];
      NothingLeft<FencedClaim>(cfg.maxRejections);
    } else {
      FoldOverreach(cfg, digest, subjects, now, n - 1);
      FoldClaimsStep(cfg, digest, [SCOPE], o, now, f0, o.claims, n - 1);
      var f, c := FoldClaims(cfg, digest, [SCOPE], o, now, f0, o.claims[..n - 1]), o.claims[n - 1];
      if n == 1 {
        assert FencesTo(cfg, digest, subjects, now, 1) == FencesTo(cfg, digest, subjects, now, 0) == [];
        InScope(cfg, digest, o, now, f, c);
      } else {
        FencesPush(cfg, digest, subjects, now, n - 1);
        NotYetFenced(cfg, digest, subjects, now, n - 1);
        OutsideScope(cfg, digest, o, now, f, c);
        Assertions.PushSuffix(FencesTo(cfg, digest, subjects, now, n - 1), FenceAt(cfg, digest, subjects, now, n - 1), cfg.maxRejections);
      }
    }
  }

  lemma FencesPush(cfg: Config, digest: Observation -> Digest, subjects: seq<Ids.SubjectIdentity>, now: i64, n: nat)
    requires 0 < n < |subjects|
    ensures FencesTo(cfg, digest, subjects, now, n + 1) == FencesTo(cfg, digest, subjects, now, n) + [FenceAt(cfg, digest, subjects, now, n)]
  {
    hide FenceAt;
  }

  lemma NothingLeft<T>(n: nat)
    ensures Suffix<T>([], n) == []
  {
  }

  lemma InScope(cfg: Config, digest: Observation -> Digest, o: Observation, now: i64, f: ClaimFold, c: Claim)
    requires !cfg.rejectUnknownAspects && c.aspect == SCOPE && c.revision == 0
    ensures var g := StepClaim(cfg, digest, [SCOPE], o, now, f, c); g.accepted == f.accepted + 1 && g.fencedClaims == f.fencedClaims
  {
    hide FindDescriptor;
  }

  lemma OutsideScope(cfg: Config, digest: Observation -> Digest, o: Observation, now: i64, f: ClaimFold, c: Claim)
    requires !cfg.rejectUnknownAspects && c.aspect == OUTSIDE
    requires !AlreadyFenced(f.fencedClaims, MakeFenced(digest, o, now, c, FencedAuthority, OutOfScope(OUTSIDE)))
    ensures var g := StepClaim(cfg, digest, [SCOPE], o, now, f, c);
            && g.accepted == f.accepted
            && g.fencedClaims == PushBounded(f.fencedClaims, MakeFenced(digest, o, now, c, FencedAuthority, OutOfScope(OUTSIDE)), cfg.maxRejections)
  {
    hide FindDescriptor;
    assert |SCOPE| == 10 && |OUTSIDE| == 12;
  }

  lemma NotYetFenced(cfg: Config, digest: Observation -> Digest, subjects: seq<Ids.SubjectIdentity>, now: i64, n: nat)
    requires Distinct(subjects) && 0 < n < |subjects|
    ensures !AlreadyFenced(Suffix(FencesTo(cfg, digest, subjects, now, n), cfg.maxRejections),
                           FenceAt(cfg, digest, subjects, now, n))
  {
    var s := FencesTo(cfg, digest, subjects, now, n);
    forall x | x in s ensures !SameFence(x, FenceAt(cfg, digest, subjects, now, n)) {
      var i :| 0 <= i < |s| && s[i] == x;
      assert x.subject.id == subjects[i + 1].id;
    }
    Assertions.SuffixMembers(s, cfg.maxRejections);
  }

  /** After the run the record is retained, the claim behind the first fence has none left, and nothing else
      was recorded. */
  lemma OverreachIsAccepted(cfg: Config, digest: Observation -> Digest, epoch: u64, subjects: seq<Ids.SubjectIdentity>, now: i64)
    requires Admits(cfg, subjects) && Distinct(subjects) && |subjects| == cfg.maxRejections + 2
    ensures var a := Arrival(Overreach(cfg, subjects, now), now);
            var (e1, out) := Ingest(cfg, digest, epoch, Registered(cfg), a);
            && out.disposition == Accepted && e1.records == [NewRecord(a, epoch)]
            && !Assertions.HasFence(e1.fencedClaims, digest(a.observation), a.observation.claims[1])
  {
    hide CheckInput, FoldClaims, Evict, RecordRejection, Assertions.HasFence;
    var e, o := Registered(cfg), Overreach(cfg, subjects, now);
    var a := Arrival(o, now);
    OverreachIsValid(cfg, subjects, now);
    FoldOverreach(cfg, digest, subjects, now, |subjects|);
    assert o.claims[..|subjects|] == o.claims;
    FirstIsForgotten(cfg, digest, subjects, now);
    OneIsKept(digest, NewRecord(a, epoch), cfg.maxEvidence);
    LineagePasses(cfg, digest, o);
  }

  lemma LineagePasses(cfg: Config, digest: Observation -> Digest, o: Observation)
    requires cfg.maxSources >= 1 && cfg.maxAspects >= 1 && o.incarnation != 0 && o.generation == 0 && o.epoch == 0
    ensures CheckLineage(cfg, Registered(cfg).sources[SPEAKER], [], false, HighWater([]), o) == Pass
    ensures CheckLineage(cfg, Registered(cfg).sources[SPEAKER], [], false, 0, o) == Pass
  {
  }

  lemma OneIsKept(digest: Observation -> Digest, r: ObservationRecord, bound: nat)
    requires bound >= 1
    ensures Evict(digest, [] + [r], bound) == [r]
  {
  }

  lemma FirstIsForgotten(cfg: Config, digest: Observation -> Digest, subjects: seq<Ids.SubjectIdentity>, now: i64)
    requires Distinct(subjects) && |subjects| == cfg.maxRejections + 2
    ensures var o := Overreach(cfg, subjects, now);
            !Assertions.HasFence(Suffix(FencesTo(cfg, digest, subjects, now, |subjects|), cfg.maxRejections), digest(o), o.claims[1])
  {
    hide FenceAt, ClaimAt;
    var s := FencesTo(cfg, digest, subjects, now, |subjects|);
    var left, o := Suffix(s, cfg.maxRejections), Overreach(cfg, subjects, now);
    forall x | x in left ensures x.subject.id != subjects[1].id {
      var i :| 0 <= i < |left| && left[i] == x;
      assert x == s[i + 1];
      FenceSubject(cfg, digest, subjects, now, i + 2);
    }
    ClaimSubject(subjects, 1);
    OtherSubjects(left, digest(o), o.claims[1]);
  }

  lemma FenceSubject(cfg: Config, digest: Observation -> Digest, subjects: seq<Ids.SubjectIdentity>, now: i64, k: nat)
    requires k < |subjects|
    ensures FenceAt(cfg, digest, subjects, now, k).subject == subjects[k]
  {
  }

  lemma ClaimSubject(subjects: seq<Ids.SubjectIdentity>, k: nat)
    requires k < |subjects|
    ensures ClaimAt(subjects, k).subject == subjects[k]
  {
  }

  lemma OtherSubjects(fs: seq<FencedClaim>, id: Digest, c: Claim)
    requires forall x :: x in fs ==> x.subject.id != c.subject.id
    ensures !Assertions.HasFence(fs, id, c)
  {
  }

  // ---- and the view asserts the claim that was refused ----

  lemma {:induction false} OverreachSaid(digest: Observation -> Digest, f: Snapshots.Frame, r: ObservationRecord, subjects: seq<Ids.SubjectIdentity>, n: nat)
    requires Distinct(subjects) && n <= |subjects| && |r.observation.claims| == |subjects| >= 2
    requires forall k :: 0 <= k < |subjects| ==> r.observation.claims[k] == ClaimAt(subjects, k)
    ensures Views.SaidAbout(Snapshots.RecordClaims(digest, f, r, r.observation.claims)[..n], subjects[1].id, OUTSIDE)
         == if n >= 2 then [Snapshots.Classify(digest, f, r, r.observation.claims[1])] else []
  {
    hide Snapshots.Classify;
    var ps := Snapshots.RecordClaims(digest, f, r, r.observation.claims);
    if n > 0 {
      OverreachSaid(digest, f, r, subjects, n - 1);
      assert ps[..n][..n - 1] == ps[..n - 1];
      assert ps[n - 1] == Snapshots.PlacedClaim(digest, f, r, ClaimAt(subjects, n - 1));
    }
  }

  lemma SingleRecord(digest: Observation -> Digest, f: Snapshots.Frame, r: ObservationRecord)
    ensures Snapshots.InOrder(digest, [r]) == [r]
    ensures Snapshots.AllClaims(digest, f, [r]) == Snapshots.RecordClaims(digest, f, r, r.observation.claims)
  {
    hide Snapshots.Classify;
    Ordering.SortOfSorted([r], Snapshots.RecordOrder(digest));
    assert [r][..0] == [];
  }

  /** The view over one retained record that makes these claims. */
  lemma OverreachJudged(digest: Observation -> Digest, q: Snapshots.Request, r: ObservationRecord, subjects: seq<Ids.SubjectIdentity>)
    requires q.records == [r]
    requires Distinct(subjects) && |r.observation.claims| == |subjects| >= 2
    requires forall k :: 0 <= k < |subjects| ==> r.observation.claims[k] == ClaimAt(subjects, k)
    ensures Views.Judged(digest, q, subjects[1].id, OUTSIDE)
         == [Snapshots.Classify(digest, Views.FrameOf(digest, q), r, r.observation.claims[1])]
  {
    hide Snapshots.Classify, Views.FrameOf, Snapshots.MarkLatest, Views.SaidAbout, Snapshots.InOrder, Snapshots.AllClaims;
    var f := Views.FrameOf(digest, q);
    SingleRecord(digest, f, r);
    var ps := Snapshots.RecordClaims(digest, f, r, r.observation.claims);
    OverreachSaid(digest, f, r, subjects, |subjects|);
    assert ps[..|subjects|] == ps;
    var cs := [Snapshots.Classify(digest, f, r, r.observation.claims[1])];
    var latest := Views.OneLatestPerSpeaker(cs, 0);
  }

  function IdsOf(subjects: seq<Ids.SubjectIdentity>): set<u128> { set s | s in subjects :: s.id }

  lemma {:induction false} IdCount(subjects: seq<Ids.SubjectIdentity>)
    ensures |IdsOf(subjects)| <= |subjects|
  {
    if subjects != [] {
      var front, last := subjects[..|subjects| - 1], subjects[|subjects| - 1];
      IdCount(front);
      assert subjects == front + [last];
      assert IdsOf(subjects) == IdsOf(front) + {last.id};
    }
  }

  lemma OverreachHasPlace(digest: Observation -> Digest, q: Snapshots.Request, r: ObservationRecord, subjects: seq<Ids.SubjectIdentity>)
    requires q.records == [r] && |subjects| <= q.policy.maxSubjects
    requires |r.observation.claims| == |subjects| >= 2
    requires forall k :: 0 <= k < |subjects| ==> r.observation.claims[k] == ClaimAt(subjects, k)
    ensures subjects[1].id in Views.Filled(digest, q).table
  {
    hide Views.FrameOf, Snapshots.InOrder, Snapshots.PlaceAll, Snapshots.AllClaims, Snapshots.Classify;
    var f := Views.FrameOf(digest, q);
    SingleRecord(digest, f, r);
    var ps := Snapshots.AllClaims(digest, f, [r]);
    Views.PlacedBucketsHold(q.policy, ps);
    var table := Views.Filled(digest, q).table;
    assert ps[1].subject.id == subjects[1].id;
    assert Views.Mentions(ps, subjects[1].id);
    forall id | id in table ensures id in IdsOf(subjects) {
      assert Views.BucketHolds(q.policy, ps, id, table[id]);
    }
    IdCount(subjects);
    if subjects[1].id !in table {
      Ordering.SubsetSize(table.Keys + {subjects[1].id}, IdsOf(subjects));
    }
  }

  /** The record stands: it is the newest of everything and of its source, fresh, and the claim unfenced. */
  lemma OverreachSupports(digest: Observation -> Digest, q: Snapshots.Request, r: ObservationRecord, c: Claim)
    requires q.records == [r] && !r.recovered && r.observation.observedAt == r.receivedAt == q.evaluationTime
    requires q.policy.freshness.freshWindow >= 0 && c.supported
    requires !Assertions.HasFence(q.fencedClaims, digest(r.observation), c)
    ensures Views.Supports(digest, q, r, c)
  {
    assert Views.OutlastedBy(q.records, r.observation, r, r);
  }

  lemma NeverPassed(cfg: Config, digest: Observation -> Digest, epoch: u64, subjects: seq<Ids.SubjectIdentity>, now: i64, r: ObservationRecord)
    requires Admits(cfg, subjects) && |subjects| >= 2
    ensures !Assertions.PassedFences(cfg, digest, epoch, Registered(cfg), [Arrival(Overreach(cfg, subjects, now), now)], r, 1)
  {
    hide Ingest, FoldClaims, FindDescriptor;
    var w := [Arrival(Overreach(cfg, subjects, now), now)];
    assert w[..0] == [];
    assert |SCOPE| == 10 && |OUTSIDE| == 12;
    assert Overreach(cfg, subjects, now).claims[1] == ClaimAt(subjects, 1);
  }

  lemma OverreachShape(subjects: seq<Ids.SubjectIdentity>)
    requires |subjects| >= 2
    ensures var c := ClaimAt(subjects, 1); c.supported && c.subject == subjects[1] && c.aspect == OUTSIDE
  {
  }

  lemma OnlyBacking(digest: Observation -> Digest, q: Snapshots.Request, r: ObservationRecord, subjects: seq<Ids.SubjectIdentity>, c: Truth.ClaimRecord, x: ObservationRecord, k: nat)
    requires q.records == [r] && Distinct(subjects) && |r.observation.claims| == |subjects| >= 2
    requires forall k :: 0 <= k < |subjects| ==> r.observation.claims[k] == ClaimAt(subjects, k)
    requires Views.Backs(digest, q, subjects[1].id, OUTSIDE, c, x, k)
    ensures x == r && k == 1
  {
    hide Views.Supports;
    assert r.observation.claims[k] == ClaimAt(subjects, k);
  }

  /** So the bound of the safety result is needed, whatever it is: one observation whose refused claims are one
      more than the table has room for is accepted, and the view it leads to asserts the first of them, though
      no claim behind it ever passed the fences. */
  lemma ForgottenFenceAsserts(cfg: Config, policy: Snapshots.Policy, digest: Observation -> Digest, derive: Text -> u128, epoch: u64,
                              count: u32, now: i64, subjects: seq<Ids.SubjectIdentity>)
    returns (s: Snapshots.SubjectState, a: Snapshots.AspectState, c: Truth.ClaimRecord)
    requires Admits(cfg, subjects) && Distinct(subjects) && |subjects| == cfg.maxRejections + 2
    requires policy.freshness.freshWindow >= 0 && policy.maxClaimsPerAspect >= 1 && |subjects| <= policy.maxSubjects
    ensures var e, w := Registered(cfg), [Arrival(Overreach(cfg, subjects, now), now)];
            var q := Runs.RequestOf(cfg.fabric, policy, Run(cfg, digest, epoch, e, w), now, epoch, count);
            && s in Snapshots.Build(digest, derive, q).subjects && a in s.aspects && c in a.claims && Truth.IsAssertive(c)
            && s.identity.id == subjects[1].id && a.aspect == OUTSIDE
            && forall r, k :: Views.Backs(digest, q, s.identity.id, a.aspect, c, r, k)
                              ==> !Assertions.PassedFences(cfg, digest, epoch, e, w, r, k)
  {
    hide Snapshots.Build, Views.Filled, Views.FrameOf, Truth.IsAssertive, Snapshots.Classify, Runs.Summaries, Ingest, Views.Judged,
      Views.Backs, Views.Supports, Assertions.PassedFences, Assertions.HasFence, Snapshots.Retain, Truth.Evaluate, ClaimAt, Distinct;
    var e, x := Registered(cfg), Arrival(Overreach(cfg, subjects, now), now);
    var w := [x];
    OverreachIsAccepted(cfg, digest, epoch, subjects, now);
    assert w[..0] == [];
    assert Run(cfg, digest, epoch, e, w) == Ingest(cfg, digest, epoch, e, x).0;
    var q := Runs.RequestOf(cfg.fabric, policy, Run(cfg, digest, epoch, e, w), now, epoch, count);
    var r := NewRecord(x, epoch);
    OverreachJudged(digest, q, r, subjects);
    OverreachHasPlace(digest, q, r, subjects);
    OverreachShape(subjects);
    OverreachSupports(digest, q, r, x.observation.claims[1]);
    Views.AssertiveMeaning(digest, q, r, x.observation.claims[1]);
    Views.CapIsRoomy(policy);
    s, a := Views.AspectIsShown(digest, derive, q, r, 1);
    c := Snapshots.Classify(digest, Views.FrameOf(digest, q), r, x.observation.claims[1]);
    Views.RetainedAll(policy, [c], c);
    forall x, k | Views.Backs(digest, q, s.identity.id, a.aspect, c, x, k)
      ensures !Assertions.PassedFences(cfg, digest, epoch, e, w, x, k)
    {
      OnlyBacking(digest, q, r, subjects, c, x, k);
      NeverPassed(cfg, digest, epoch, subjects, now, r);
    }
  }
}
