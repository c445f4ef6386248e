/** What a snapshot does not depend on: the arrangement of its inputs, and how a verdict may change as
    the same evidence ages (src/snapshot.cpp, README.md). */
module ViewStability {
  import opened Bytes
  import opened Observations
  import opened Truth
  import opened Snapshots
  import opened Views
  import Ids
  import Observatories
  import Ordering
  import Times
  import Values

  // ---- arrangement ----

  /** No two retained records share a content digest, unless they are one and the same record. */
  ghost predicate OneRecordPerDigest(digest: Observation -> Digest, rs: seq<ObservationRecord>) {
    forall x, y :: x in rs && y in rs && digest(x.observation) == digest(y.observation) ==> x == y
  }

  ghost predicate OneSummaryPerSource(ss: seq<SourceSummary>) {
    forall x, y :: x in ss && y in ss && x.id == y.id ==> x == y
  }

  ghost predicate OneRefusalPerDigest(rs: seq<Observatories.Rejected>) {
    forall x, y :: x in rs && y in rs && x.observationId == y.observationId ==> x == y
  }

  ghost predicate OneFencePerKey(fs: seq<Observatories.FencedClaim>) {
    forall x, y :: x in fs && y in fs && KeyOfFence(x) == KeyOfFence(y) ==> x == y
  }

  /** The same evidence in another arrangement. */
  ghost predicate Rearranged(p: Request, q: Request) {
    && p.fabric == q.fabric && p.policy == q.policy && p.evaluationTime == q.evaluationTime
    && p.restartEpoch == q.restartEpoch && p.restartCount == q.restartCount && p.evidenceTruncated == q.evidenceTruncated
    && multiset(p.records) == multiset(q.records)
    && multiset(p.rejected) == multiset(q.rejected)
    && multiset(p.fencedClaims) == multiset(q.fencedClaims)
    && multiset(p.sources) == multiset(q.sources)
  }

  ghost predicate Unambiguous(digest: Observation -> Digest, q: Request) {
    && OneRecordPerDigest(digest, q.records) && OneSummaryPerSource(q.sources)
    && OneRefusalPerDigest(q.rejected) && OneFencePerKey(q.fencedClaims)
  }

  lemma SameMembers<T>(a: seq<T>, b: seq<T>)
    requires multiset(a) == multiset(b)
    ensures |a| == |b|
    ensures forall x :: x in a <==> x in b
  {
    assert |multiset(a)| == |a| && |multiset(b)| == |b|;
    forall x ensures x in a <==> x in b {
      Ordering.InMultiset(x, a);
      Ordering.InMultiset(x, b);
    }
  }

  lemma RecordsSortAlike(digest: Observation -> Digest, a: seq<ObservationRecord>, b: seq<ObservationRecord>)
    requires multiset(a) == multiset(b) && OneRecordPerDigest(digest, a)
    ensures InOrder(digest, a) == InOrder(digest, b)
  {
    Ordering.SortForgetsOrder(a, b, RecordOrder(digest));
  }

  lemma SummariesSortAlike(a: seq<SourceSummary>, b: seq<SourceSummary>)
    requires multiset(a) == multiset(b) && OneSummaryPerSource(a)
    ensures Ordering.Sort(a, SummaryLe) == Ordering.Sort(b, SummaryLe)
  {
    Ordering.SortForgetsOrder(a, b, SummaryLe);
  }

  lemma RefusalsSortAlike(a: seq<Observatories.Rejected>, b: seq<Observatories.Rejected>)
    requires multiset(a) == multiset(b) && OneRefusalPerDigest(a)
    ensures Ordering.Sort(a, RejectedLe) == Ordering.Sort(b, RejectedLe)
  {
    Ordering.SortForgetsOrder(a, b, RejectedLe);
  }

  lemma FencedLeOne(a: Observatories.FencedClaim, b: Observatories.FencedClaim, c: Observatories.FencedClaim)
    ensures FencedLe(a, b) || FencedLe(b, a)
    ensures FencedLe(a, b) && FencedLe(b, c) ==> FencedLe(a, c)
    ensures FencedLe(a, b) && FencedLe(b, a) ==> KeyOfFence(a) == KeyOfFence(b)
  {
    hide Ids.CompareSubject, CompareText;
    Ids.CompareSubjectLaws(a.subject, b.subject);
    Ids.CompareSubjectLaws(b.subject, c.subject);
    Ids.CompareSubjectLaws(a.subject, c.subject);
    CompareTextLaws(a.aspect, b.aspect);
    if Ids.CompareSubject(a.subject, b.subject) <= 0 && Ids.CompareSubject(b.subject, c.subject) <= 0 {
      Ids.CompareSubjectTransitive(a.subject, b.subject, c.subject);
    }
    if CompareText(a.aspect, b.aspect) <= 0 && CompareText(b.aspect, c.aspect) <= 0 {
      CompareTextTransitive(a.aspect, b.aspect, c.aspect);
    }
  }

  lemma FencesSortAlike(a: seq<Observatories.FencedClaim>, b: seq<Observatories.FencedClaim>)
    requires multiset(a) == multiset(b) && OneFencePerKey(a)
    ensures Ordering.Sort(a, FencedLe) == Ordering.Sort(b, FencedLe)
  {
    hide FencedLe;
    forall x, y ensures FencedLe(x, y) || FencedLe(y, x) {
      FencedLeOne(x, y, y);
    }
    forall x, y, z | FencedLe(x, y) && FencedLe(y, z) ensures FencedLe(x, z) {
      FencedLeOne(x, y, z);
    }
    forall x, y | x in a && y in a && FencedLe(x, y) && FencedLe(y, x) ensures x == y {
      FencedLeOne(x, y, y);
    }
    Ordering.SortForgetsOrder(a, b, FencedLe);
  }

  lemma FenceTablesAlike(a: seq<Observatories.FencedClaim>, b: seq<Observatories.FencedClaim>)
    requires multiset(a) == multiset(b) && OneFencePerKey(a)
    ensures FenceTable(a) == FenceTable(b)
  {
    hide FenceTable;
    SameMembers(a, b);
    FenceTableKeys(a);
    FenceTableKeys(b);
  }

  lemma {:induction false} AuthorityTableKeys(ss: seq<SourceSummary>)
    ensures forall s :: s in ss ==> s.id in AuthorityTable(ss)
    ensures forall k :: k in AuthorityTable(ss) ==> exists s :: s in ss && s.id == k && AuthorityTable(ss)[k] == s.maxAuthority
  {
    if ss != [] {
      var front, last := ss[..|ss| - 1], ss[|ss| - 1];
      AuthorityTableKeys(front);
      assert ss == front + [last];
      assert last in ss && forall s :: s in front ==> s in ss;
    }
  }

  lemma AuthorityTablesAlike(a: seq<SourceSummary>, b: seq<SourceSummary>)
    requires multiset(a) == multiset(b) && OneSummaryPerSource(a)
    ensures AuthorityTable(a) == AuthorityTable(b)
  {
    hide AuthorityTable;
    SameMembers(a, b);
    AuthorityTableKeys(a);
    AuthorityTableKeys(b);
  }

  /** The view is a function of the evidence, not of the order in which any of it arrived, including
      which subjects and claims the bounds leave out. */
  lemma ViewIgnoresArrangement(digest: Observation -> Digest, derive: Text -> u128, p: Request, q: Request)
    requires Rearranged(p, q) && Unambiguous(digest, p)
    ensures Build(digest, derive, p) == Build(digest, derive, q)
  {
    hide InOrder, SubjectsOf, PlaceAll, AllClaims, CursorsOf, WatersOf, FenceTable, AuthorityTable, EpochWithin,
      SummaryLe, RejectedLe, FencedLe, Ordering.Sort;
    RecordsSortAlike(digest, p.records, q.records);
    SummariesSortAlike(p.sources, q.sources);
    RefusalsSortAlike(p.rejected, q.rejected);
    FencesSortAlike(p.fencedClaims, q.fencedClaims);
    FenceTablesAlike(p.fencedClaims, q.fencedClaims);
    AuthorityTablesAlike(p.sources, q.sources);
    SameMembers(p.records, q.records);
    SameMembers(p.rejected, q.rejected);
  }

  lemma {:induction false} CompareIntsLaws(a: seq<int>, b: seq<int>)
    ensures CompareInts(a, b) == 0 <==> a == b
    ensures CompareInts(a, b) == -CompareInts(b, a)
    decreases |a|
  {
    if a != [] && b != [] {
      CompareIntsLaws(a[1..], b[1..]);
      if a[0] == b[0] && a[1..] == b[1..] {
        assert a == [a[0]] + a[1..] == b;
      }
    }
  }

  lemma {:induction false} CompareIntsTransitive(a: seq<int>, b: seq<int>, c: seq<int>)
    requires CompareInts(a, b) <= 0 && CompareInts(b, c) <= 0
    ensures CompareInts(a, c) <= 0
    decreases |a|
  {
    if a != [] && b != [] && c != [] && a[0] == b[0] == c[0] {
      CompareIntsTransitive(a[1..], b[1..], c[1..]);
    }
  }

  lemma HeadAndTail(a: ClaimRecord, b: ClaimRecord)
    requires Head(a) == Head(b) && a.value == b.value && Tail(a) == Tail(b)
    ensures a == b
  {
    assert Head(a)[0] == Head(b)[0] && Head(a)[1] == Head(b)[1] && Head(a)[2] == Head(b)[2] && Head(a)[3] == Head(b)[3]
        && Head(a)[4] == Head(b)[4];
    forall i | 0 <= i < 12 ensures Tail(a)[i] == Tail(b)[i] {
    }
    assert Tail(a)[0] == Tail(b)[0] && Tail(a)[1] == Tail(b)[1] && Tail(a)[2] == Tail(b)[2] && Tail(a)[3] == Tail(b)[3]
        && Tail(a)[4] == Tail(b)[4] && Tail(a)[5] == Tail(b)[5] && Tail(a)[6] == Tail(b)[6] && Tail(a)[7] == Tail(b)[7]
        && Tail(a)[8] == Tail(b)[8] && Tail(a)[9] == Tail(b)[9] && Tail(a)[10] == Tail(b)[10] && Tail(a)[11] == Tail(b)[11];
  }

  /** The sorts have one possible outcome: the defaulted order of claim records ties only equal ones. */
  lemma ClaimRecordOrderIsTotal()
    ensures Ordering.TotalOrder(ClaimRecordLe)
  {
    hide Head, Tail, CompareInts;
    forall a: ClaimRecord, b: ClaimRecord
      ensures ClaimRecordLe(a, b) || ClaimRecordLe(b, a)
      ensures ClaimRecordLe(a, b) && ClaimRecordLe(b, a) ==> a == b
    {
      CompareIntsLaws(Head(a), Head(b));
      CompareIntsLaws(Tail(a), Tail(b));
      Values.CompareLaws(a.value, b.value);
      if Head(a) == Head(b) && a.value == b.value && Tail(a) == Tail(b) {
        HeadAndTail(a, b);
      }
    }
    forall a: ClaimRecord, b: ClaimRecord, c: ClaimRecord | ClaimRecordLe(a, b) && ClaimRecordLe(b, c)
      ensures ClaimRecordLe(a, c)
    {
      ClaimRecordLeTransitive(a, b, c);
    }
  }

  lemma ClaimRecordLeTransitive(a: ClaimRecord, b: ClaimRecord, c: ClaimRecord)
    requires ClaimRecordLe(a, b) && ClaimRecordLe(b, c)
    ensures ClaimRecordLe(a, c)
  {
    hide Head, Tail, CompareInts;
    CompareIntsLaws(Head(a), Head(b));
    CompareIntsLaws(Head(b), Head(c));
    CompareIntsLaws(Head(a), Head(c));
    Values.CompareLaws(a.value, b.value);
    Values.CompareLaws(b.value, c.value);
    Values.CompareLaws(a.value, c.value);
    if CompareInts(Head(a), Head(b)) <= 0 && CompareInts(Head(b), Head(c)) <= 0 {
      CompareIntsTransitive(Head(a), Head(b), Head(c));
    }
    if Values.Compare(a.value, b.value) <= 0 && Values.Compare(b.value, c.value) <= 0 {
      Values.CompareTransitive(a.value, b.value, c.value);
    }
    if CompareInts(Tail(a), Tail(b)) <= 0 && CompareInts(Tail(b), Tail(c)) <= 0 {
      CompareIntsTransitive(Tail(a), Tail(b), Tail(c));
    }
  }

  // ---- twins ----

  function Carries(o: Observation): ObservationRecord -> bool { (r: ObservationRecord) => r.observation == o }

  /** When records do share their content, the canonical order leaves them as they arrived: of all that say the
      same, the one that was ingested first comes first. */
  lemma TwinsAreOrderedByArrival(digest: Observation -> Digest, rs: seq<ObservationRecord>, o: Observation)
    ensures Ordering.Filter(InOrder(digest, rs), Carries(o)) == Ordering.Filter(rs, Carries(o))
  {
    Ordering.SortStable(rs, RecordOrder(digest), Carries(o));
  }

  lemma TwoTwins(digest: Observation -> Digest, x: ObservationRecord, y: ObservationRecord)
    requires x.observation == y.observation
    ensures InOrder(digest, [x, y]) == [x, y] && InOrder(digest, [y, x]) == [y, x]
  {
    Ordering.SortOfSorted([x, y], RecordOrder(digest));
    Ordering.SortOfSorted([y, x], RecordOrder(digest));
  }

  lemma TwinSpeaks(c: ClaimRecord, d: ClaimRecord)
    requires SpeakerOf(c) == SpeakerOf(d) && c.sequence == d.sequence && c.observationId == d.observationId
    ensures MarkLatest([c, d]) == [c, d.(olderSequence := true)]
  {
    assert [c, d][..1] == [c];
    assert LatestOf([c]) == map[SpeakerOf(c) := 0];
  }

  lemma TwinClaims(digest: Observation -> Digest, f: Frame, x: ObservationRecord, y: ObservationRecord)
    requires x.observation == y.observation && |x.observation.claims| == 1
    ensures AllClaims(digest, f, [x, y])
         == [PlacedClaim(digest, f, x, x.observation.claims[0]), PlacedClaim(digest, f, y, x.observation.claims[0])]
  {
    hide PlacedClaim;
    assert [x, y][..1] == [x] && [x][..0] == [];
    assert AllClaims(digest, f, [x]) == [] + RecordClaims(digest, f, x, x.observation.claims);
  }

  lemma TwinBucket(policy: Policy, p: Placed, q: Placed)
    requires p.subject == q.subject && p.aspect == q.aspect && policy.maxSubjects >= 1 && WorkingSetCap(policy) >= 2
    ensures var table := PlaceAll(policy, [p, q]).table;
            p.subject.id in table && p.aspect in table[p.subject.id].aspects
            && table[p.subject.id].aspects[p.aspect] == [p.claim, q.claim]
  {
    assert [p, q][..1] == [p] && [p][..0] == [];
    assert PlaceAll(policy, [p]) == Place(policy, Buckets(map[], false), p);
  }

  lemma TwinList(digest: Observation -> Digest, q: Request, x: ObservationRecord, y: ObservationRecord)
    requires q.records == [x, y] && x.observation == y.observation && |x.observation.claims| == 1
    requires q.policy.maxSubjects >= 1 && q.policy.maxClaimsPerAspect >= 2
    ensures var f, c, table := FrameOf(digest, q), x.observation.claims[0], Filled(digest, q).table;
            && c.subject.id in table && c.aspect in table[c.subject.id].aspects
            && table[c.subject.id].aspects[c.aspect] == [Classify(digest, f, x, c), Classify(digest, f, y, c)]
  {
    hide Classify, InOrder, MakeFrame, AllClaims, PlaceAll, WorkingSetCap;
    TwoTwins(digest, x, y);
    var f, c := FrameOf(digest, q), x.observation.claims[0];
    TwinClaims(digest, f, x, y);
    CapIsRoomy(q.policy);
    TwinBucket(q.policy, PlacedClaim(digest, f, x, c), PlacedClaim(digest, f, y, c));
  }

  lemma ClassifyFields(digest: Observation -> Digest, f: Frame, r: ObservationRecord, c: Claim)
    ensures var k := Classify(digest, f, r, c);
            && SpeakerOf(k) == Speaker(r.observation.source, r.observation.incarnation)
            && k.sequence == r.observation.sequence && k.observationId == digest(r.observation)
            && k.receivedAt == r.receivedAt && !k.olderSequence
  {
  }

  /** So for a request of two records with the same one-claim content, received at different instants, swapping
      their arrival changes the view: the digest condition above cannot be dropped. */
  lemma TwinsMakeArrangementMatter(digest: Observation -> Digest, derive: Text -> u128, p: Request, q: Request, x: ObservationRecord, y: ObservationRecord)
    requires p.records == [x, y] && q == p.(records := [y, x])
    requires x.observation == y.observation && |x.observation.claims| == 1 && x.receivedAt != y.receivedAt
    requires p.policy.maxSubjects >= 1 && p.policy.maxClaimsPerAspect >= 2
    ensures Rearranged(p, q) && Build(digest, derive, p) != Build(digest, derive, q)
  {
    hide Classify, Build, FrameOf, Filled, Retain, MarkLatest, Evaluate, CoverageFor, MakeAspect;
    assert [x, y] == [x] + [y] && [y, x] == [y] + [x];
    var c := x.observation.claims[0];
    var cx, cy := Classify(digest, FrameOf(digest, p), x, c), Classify(digest, FrameOf(digest, p), y, c);
    var dx, dy := Classify(digest, FrameOf(digest, q), x, c), Classify(digest, FrameOf(digest, q), y, c);
    TwinList(digest, p, x, y);
    TwinList(digest, q, y, x);
    ClassifyFields(digest, FrameOf(digest, p), x, c);
    ClassifyFields(digest, FrameOf(digest, p), y, c);
    ClassifyFields(digest, FrameOf(digest, q), x, c);
    ClassifyFields(digest, FrameOf(digest, q), y, c);
    TwinSpeaks(cx, cy);
    TwinSpeaks(dy, dx);
    var s, a := ShownAt(digest, derive, p, c.subject.id, c.aspect);
    MadeAspectClaims(p.policy, c.aspect, [cx, cy]);
    MadeAspectClaims(q.policy, c.aspect, [dy, dx]);
    RetainedAll(p.policy, [cx, cy.(olderSequence := true)], cx);
    RetainedCount(q.policy, [dy, dx.(olderSequence := true)], IsAssertive);
    assert cx in a.claims;
    if Build(digest, derive, p) == Build(digest, derive, q) {
      AspectShape(digest, derive, q, s, a);
    }
  }

  // ---- ageing ----

  /** The same statement, judged later: nothing but its freshness may differ, and it did not get fresher. */
  predicate AgedInto(c: ClaimRecord, d: ClaimRecord) {
    d == c.(freshness := d.freshness) && (d.freshness == Fresh ==> c.freshness == Fresh)
  }

  ghost predicate AllAged(cs: seq<ClaimRecord>, ds: seq<ClaimRecord>) {
    |cs| == |ds| && forall i :: 0 <= i < |cs| ==> AgedInto(cs[i], ds[i])
  }

  ghost predicate PlacedAged(ps: seq<Placed>, qs: seq<Placed>) {
    && |ps| == |qs|
    && forall i :: 0 <= i < |ps| ==>
         ps[i].subject == qs[i].subject && ps[i].aspect == qs[i].aspect && AgedInto(ps[i].claim, qs[i].claim)
  }

  /** The same evidence and declarations, evaluated at a later instant. */
  ghost predicate EvaluatedLater(p: Request, q: Request) {
    && q == p.(evaluationTime := q.evaluationTime, sources := q.sources)
    && p.evaluationTime <= q.evaluationTime
    && |p.sources| == |q.sources|
    && forall i :: 0 <= i < |p.sources| ==>
         p.sources[i].id == q.sources[i].id && p.sources[i].maxAuthority == q.sources[i].maxAuthority
  }

  lemma {:induction false} SameAuthorities(a: seq<SourceSummary>, b: seq<SourceSummary>)
    requires |a| == |b|
    requires forall i :: 0 <= i < |a| ==> a[i].id == b[i].id && a[i].maxAuthority == b[i].maxAuthority
    ensures AuthorityTable(a) == AuthorityTable(b)
  {
    if a != [] {
      SameAuthorities(a[..|a| - 1], b[..|b| - 1]);
    }
  }

  lemma LaterFrame(digest: Observation -> Digest, p: Request, q: Request)
    requires EvaluatedLater(p, q)
    ensures FrameOf(digest, q) == FrameOf(digest, p).(evaluation := q.evaluationTime)
  {
    hide AuthorityTable, FenceTable, CursorsOf, EpochWithin, InOrder, Observatories.HighWater;
    SameAuthorities(p.sources, q.sources);
  }

  lemma ClassifiedLater(digest: Observation -> Digest, f: Frame, later: i64, r: ObservationRecord, c: Claim)
    requires f.evaluation <= later
    ensures AgedInto(Classify(digest, f, r, c), Classify(digest, f.(evaluation := later), r, c))
  {
    hide EvaluateFreshness;
    var o := r.observation;
    FreshnessMeaning(EvidenceTime(o.observedAt, r.receivedAt), f.evaluation, later, f.policy.freshness, r.recovered);
  }

  lemma {:induction false} PlacedLater(digest: Observation -> Digest, f: Frame, later: i64, rs: seq<ObservationRecord>)
    requires f.evaluation <= later
    ensures PlacedAged(AllClaims(digest, f, rs), AllClaims(digest, f.(evaluation := later), rs))
  {
    hide Classify, AgedInto;
    if rs != [] {
      var r := rs[|rs| - 1];
      PlacedLater(digest, f, later, rs[..|rs| - 1]);
      forall k | 0 <= k < |r.observation.claims|
        ensures AgedInto(Classify(digest, f, r, r.observation.claims[k]),
                         Classify(digest, f.(evaluation := later), r, r.observation.claims[k]))
      {
        ClassifiedLater(digest, f, later, r, r.observation.claims[k]);
      }
    }
  }

  lemma {:induction false} SaidLater(ps: seq<Placed>, qs: seq<Placed>, id: u128, aspect: Text)
    requires PlacedAged(ps, qs)
    ensures AllAged(SaidAbout(ps, id, aspect), SaidAbout(qs, id, aspect))
  {
    hide AgedInto;
    if ps != [] {
      SaidLater(ps[..|ps| - 1], qs[..|qs| - 1], id, aspect);
    }
  }

  lemma {:induction false} LatestLater(cs: seq<ClaimRecord>, ds: seq<ClaimRecord>)
    requires AllAged(cs, ds)
    ensures LatestOf(cs) == LatestOf(ds)
  {
    if cs != [] {
      LatestLater(cs[..|cs| - 1], ds[..|ds| - 1]);
    }
  }

  lemma MarkedLater(cs: seq<ClaimRecord>, ds: seq<ClaimRecord>)
    requires AllAged(cs, ds)
    ensures AllAged(MarkLatest(cs), MarkLatest(ds))
  {
    hide LatestOf;
    LatestLater(cs, ds);
  }

  /** The heart of it: every later assertion was already being made, with the same value. */
  lemma LaterAssertion(policy: Policy, cs: seq<ClaimRecord>, ds: seq<ClaimRecord>, d: ClaimRecord)
    requires AllAged(cs, ds) && |cs| <= policy.maxClaimsPerAspect
    requires d in Retain(policy, MarkLatest(ds)) && IsAssertive(d)
    ensures exists c :: c in Retain(policy, MarkLatest(cs)) && IsAssertive(c) && c.value == d.value
  {
    hide Retain, MarkLatest;
    MarkedLater(cs, ds);
    RetainedCount(policy, MarkLatest(ds), IsAssertive);
    var i :| 0 <= i < |ds| && MarkLatest(ds)[i] == d;
    var c := MarkLatest(cs)[i];
    RetainedAll(policy, MarkLatest(cs), c);
  }

  lemma AspectLater(policy: Policy, aspect: Text, cs: seq<ClaimRecord>, ds: seq<ClaimRecord>)
    requires AllAged(cs, ds) && |cs| <= policy.maxClaimsPerAspect
    ensures var a, b := MakeAspect(policy, aspect, cs), MakeAspect(policy, aspect, ds);
            a.truth == Known ==> b.truth != Conflicting && (b.truth == Known ==> b.agreed == a.agreed)
  {
    hide Retain, MarkLatest, Evaluate, CoverageFor;
    var coverage := CoverageFor(policy.truth, aspect);
    var before, after := Retain(policy, MarkLatest(cs)), Retain(policy, MarkLatest(ds));
    ConflictingMeaning(coverage, after);
    if Evaluate(coverage, before).truth == Known {
      KnownMeaning(coverage, before, Values.Null);
      var v := Evaluate(coverage, before).agreed.value;
      KnownMeaning(coverage, before, v);
      forall d | d in after && IsAssertive(d) ensures d.value == v {
        LaterAssertion(policy, cs, ds, d);
      }
      if Evaluate(coverage, after).truth == Known {
        KnownMeaning(coverage, after, Values.Null);
        var w := Evaluate(coverage, after).agreed.value;
        KnownMeaning(coverage, after, w);
        SomeAssertive(after);
      }
    }
  }

  lemma SomeAssertive(cs: seq<ClaimRecord>)
    requires Assertive(cs) != []
    ensures exists c :: c in cs && IsAssertive(c)
  {
    Ordering.FilterMembers(cs, IsAssertive);
    assert Assertive(cs)[0] in Assertive(cs);
  }

  lemma BucketContents(digest: Observation -> Digest, q: Request, id: u128, aspect: Text)
    requires id in Filled(digest, q).table
    ensures ClaimsAt(Filled(digest, q).table[id], aspect)
         == Upto(SaidAbout(AllClaims(digest, FrameOf(digest, q), InOrder(digest, q.records)), id, aspect), WorkingSetCap(q.policy))
  {
    hide InOrder, MakeFrame, AllClaims, PlaceAll, SaidAbout, ClaimsAt, Upto, WorkingSetCap;
    var ps := AllClaims(digest, FrameOf(digest, q), InOrder(digest, q.records));
    PlacedBucketsHold(q.policy, ps);
    assert BucketHolds(q.policy, ps, id, Filled(digest, q).table[id]);
  }

  lemma UptoLater(cs: seq<ClaimRecord>, ds: seq<ClaimRecord>, n: nat)
    requires AllAged(cs, ds)
    ensures AllAged(Upto(cs, n), Upto(ds, n))
  {
    hide AgedInto;
  }

  lemma BucketsLater(digest: Observation -> Digest, p: Request, q: Request, id: u128, aspect: Text)
    requires EvaluatedLater(p, q)
    requires id in Filled(digest, p).table && id in Filled(digest, q).table
    ensures AllAged(ClaimsAt(Filled(digest, p).table[id], aspect), ClaimsAt(Filled(digest, q).table[id], aspect))
  {
    hide InOrder, FrameOf, AllClaims, Filled, SaidAbout, AllAged, PlacedAged, Upto, ClaimsAt, WorkingSetCap;
    var sorted, f, g := InOrder(digest, p.records), FrameOf(digest, p), FrameOf(digest, q);
    LaterFrame(digest, p, q);
    FrameEvaluation(digest, p);
    PlacedLater(digest, f, q.evaluationTime, sorted);
    SaidLater(AllClaims(digest, f, sorted), AllClaims(digest, g, sorted), id, aspect);
    BucketContents(digest, p, id, aspect);
    BucketContents(digest, q, id, aspect);
    UptoLater(SaidAbout(AllClaims(digest, f, sorted), id, aspect), SaidAbout(AllClaims(digest, g, sorted), id, aspect),
              WorkingSetCap(p.policy));
  }

  lemma FrameEvaluation(digest: Observation -> Digest, p: Request)
    ensures FrameOf(digest, p).evaluation == p.evaluationTime
  {
  }

  /** With the same evidence and no claim truncation, a later evaluation never turns a known value into
      another known value, nor into a conflict. */
  lemma KnownOnlyFades(digest: Observation -> Digest, derive: Text -> u128, p: Request, q: Request, s: SubjectState, a: AspectState, t: SubjectState, b: AspectState)
    requires EvaluatedLater(p, q)
    requires s in Build(digest, derive, p).subjects && a in s.aspects && !a.claimsTruncated
    requires t in Build(digest, derive, q).subjects && b in t.aspects
    requires s.identity.id == t.identity.id && a.aspect == b.aspect
    ensures a.truth == Known ==> b.truth == TruthState.Stale || b.truth == Incomplete || (b.truth == Known && b.agreed == a.agreed)
  {
    hide Build, Filled, Retain, MarkLatest, CoverageFor, AllAged;
    AspectShape(digest, derive, p, s, a);
    AspectShape(digest, derive, q, t, b);
    var id := s.identity.id;
    var cs, ds := ClaimsAt(Filled(digest, p).table[id], a.aspect), ClaimsAt(Filled(digest, q).table[id], a.aspect);
    BucketsLater(digest, p, q, id, a.aspect);
    AspectLater(p.policy, a.aspect, cs, ds);
    if a.truth == Known {
      KnownStaysSupported(p.policy, a.aspect, cs, ds);
    }
  }

  /** What was known keeps having evidence, and keeps being interpretable. */
  lemma KnownStaysSupported(policy: Policy, aspect: Text, cs: seq<ClaimRecord>, ds: seq<ClaimRecord>)
    requires AllAged(cs, ds) && |cs| <= policy.maxClaimsPerAspect
    requires MakeAspect(policy, aspect, cs).truth == Known
    ensures MakeAspect(policy, aspect, ds).truth != Unknown && MakeAspect(policy, aspect, ds).truth != TruthState.Unsupported
  {
    hide Retain, MarkLatest, CoverageFor, Evaluate, AgedInto;
    var before, after := Retain(policy, MarkLatest(cs)), Retain(policy, MarkLatest(ds));
    EvaluatedKnown(CoverageFor(policy.truth, aspect), before);
    SomeAssertive(before);
    var c :| c in before && IsAssertive(c);
    MarkedLater(cs, ds);
    RetainedCount(policy, MarkLatest(cs), IsAssertive);
    var i :| 0 <= i < |cs| && MarkLatest(cs)[i] == c;
    RetainedAll(policy, MarkLatest(ds), MarkLatest(ds)[i]);
    StaysSupported(MarkLatest(cs), MarkLatest(ds), i);
    EvaluatedSupported(CoverageFor(policy.truth, aspect), after, MarkLatest(ds)[i]);
  }

  lemma StaysSupported(cs: seq<ClaimRecord>, ds: seq<ClaimRecord>, i: nat)
    requires AllAged(cs, ds) && i < |cs| && cs[i].supported
    ensures ds[i].supported
  {
  }

  lemma EvaluatedKnown(coverage: Coverage, cs: seq<ClaimRecord>)
    requires Evaluate(coverage, cs).truth == Known
    ensures Assertive(cs) != []
  {
    hide Report, ConflictGroups, SortedValues;
  }

  lemma EvaluatedSupported(coverage: Coverage, cs: seq<ClaimRecord>, c: ClaimRecord)
    requires c in cs && c.supported
    ensures Evaluate(coverage, cs).truth != Unknown && Evaluate(coverage, cs).truth != TruthState.Unsupported
  {
    hide Report, ConflictGroups, SortedValues;
    var j :| 0 <= j < |cs| && cs[j] == c;
    assert cs[j].supported;
  }
}
