/** Which claims an aspect keeps when it has more than its bound, and what dropping the others does to
    the verdict (src/snapshot.cpp). */
module Retention {
  import opened Bytes
  import opened Observations
  import opened Truth
  import opened Snapshots
  import opened Views
  import Ids
  import Ordering
  import Values
  import ViewStability

  // ---- the members of a sorted prefix ----

  /** x comes strictly before c. */
  function Below<T(==)>(le: (T, T) -> bool, c: T): T -> bool { x => x != c && le(x, c) }

  /** The elements strictly before c are a prefix of the sorted sequence. */
  lemma {:induction false} BelowIsPrefix<T(!new)>(s: seq<T>, le: (T, T) -> bool, c: T)
    requires Ordering.TotalOrder(le) && Ordering.Sorted(s, le)
    ensures forall i :: 0 <= i < |s| ==> (Below(le, c)(s[i]) <==> i < |Ordering.Filter(s, Below(le, c))|)
  {
    if s != [] {
      var n := |s| - 1;
      var front := s[..n];
      BelowIsPrefix(front, le, c);
      Ordering.FilterLength(front, Below(le, c));
      assert forall i :: 0 <= i < n ==> front[i] == s[i];
      if Below(le, c)(s[n]) {
        forall i | 0 <= i < n ensures Below(le, c)(s[i]) {
          assert le(s[i], s[n]);
        }
        if |Ordering.Filter(front, Below(le, c))| < n {
          assert !Below(le, c)(front[|Ordering.Filter(front, Below(le, c))|]);
        }
      }
    }
  }

  /** The first n elements of a sorted sequence are those with fewer than n elements before them. */
  lemma SortedPrefixMembers<T(!new)>(s: seq<T>, le: (T, T) -> bool, n: nat, c: T)
    requires Ordering.TotalOrder(le) && Ordering.Sorted(s, le)
    ensures c in Upto(s, n) <==> c in s && |Ordering.Filter(s, Below(le, c))| < n
  {
    var k := |Ordering.Filter(s, Below(le, c))|;
    BelowIsPrefix(s, le, c);
    if c in s {
      var j :| 0 <= j < |s| && s[j] == c;
      assert k <= j;
      if k < j {
        assert le(s[k], s[j]);
      }
      assert s[k] == c;
      if k < n {
        assert Upto(s, n)[k] == c;
      }
      if c in Upto(s, n) {
        var i :| 0 <= i < |Upto(s, n)| && Upto(s, n)[i] == c;
        assert s[i] == c;
      }
    }
  }

  // ---- the order in which claims are kept ----

  /** Rank first; claims of one rank go by their fields. */
  function KeepLe(a: ClaimRecord, b: ClaimRecord): bool { RankLe(a, b) && (!RankLe(b, a) || ClaimRecordLe(a, b)) }

  lemma RankOrderIsTotal()
    ensures Ordering.TotalPreorder(RankLe)
  {
  }

  lemma KeepOrderIsTotal()
    ensures Ordering.TotalOrder(KeepLe)
  {
    hide RankLe, ClaimRecordLe;
    RankOrderIsTotal();
    ViewStability.ClaimRecordOrderIsTotal();
  }

  lemma {:induction false} InsertKeeps(x: ClaimRecord, s: seq<ClaimRecord>)
    requires forall y :: y in s ==> ClaimRecordLe(x, y)
    ensures Ordering.Insert(x, s, RankLe) == Ordering.Insert(x, s, KeepLe)
  {
    hide RankLe, ClaimRecordLe;
    RankOrderIsTotal();
    if s != [] {
      assert s[0] in s;
      InsertKeeps(x, s[1..]);
    }
  }

  /** The sort is stable, so ranking claims that are in field order sorts by rank and then by fields. */
  lemma {:induction false} RankingKeeps(s: seq<ClaimRecord>)
    requires Ordering.Sorted(s, ClaimRecordLe)
    ensures Ordering.Sort(s, RankLe) == Ordering.Sort(s, KeepLe)
  {
    hide RankLe, ClaimRecordLe;
    if s != [] {
      RankingKeeps(s[1..]);
      Ordering.SortMembers(s[1..], KeepLe);
      forall y | y in Ordering.Sort(s[1..], KeepLe) ensures ClaimRecordLe(s[0], y) {
        var i :| 0 <= i < |s[1..]| && s[1..][i] == y;
        assert s[i + 1] == y;
      }
      InsertKeeps(s[0], Ordering.Sort(s[1..], KeepLe));
    }
  }

  /** Fewer than the bound are kept before it. */
  predicate Kept(policy: Policy, cs: seq<ClaimRecord>, c: ClaimRecord) {
    |Ordering.Filter(cs, Below(KeepLe, c))| < policy.maxClaimsPerAspect
  }

  lemma {:induction false} NotAllPass<T>(s: seq<T>, keep: T -> bool, c: T)
    requires c in s && !keep(c)
    ensures |Ordering.Filter(s, keep)| < |s|
  {
    var front := s[..|s| - 1];
    Ordering.FilterLength(front, keep);
    if s[|s| - 1] != c {
      assert s == front + [s[|s| - 1]];
      NotAllPass(front, keep, c);
    }
  }

  /** The claims an aspect retains are exactly those with fewer than the bound ranked before them. */
  lemma RetainMeaning(policy: Policy, cs: seq<ClaimRecord>, c: ClaimRecord)
    ensures c in Retain(policy, cs) <==> c in cs && Kept(policy, cs, c)
  {
    hide RankLe, ClaimRecordLe, KeepLe, Below;
    var sorted := Ordering.Sort(cs, ClaimRecordLe);
    var ranked := Ordering.Sort(sorted, RankLe);
    ViewStability.ClaimRecordOrderIsTotal();
    KeepOrderIsTotal();
    Ordering.SortSorted(cs, ClaimRecordLe);
    Ordering.SortContents(cs, ClaimRecordLe);
    Ordering.SortMembers(cs, ClaimRecordLe);
    RankingKeeps(sorted);
    Ordering.SortSorted(sorted, KeepLe);
    Ordering.SortContents(sorted, RankLe);
    Ordering.SortMembers(sorted, RankLe);
    SortedPrefixMembers(ranked, KeepLe, policy.maxClaimsPerAspect, c);
    FilterPermuted(cs, ranked, Below(KeepLe, c));
    Ordering.SortMembers(ranked[..Min(|ranked|, policy.maxClaimsPerAspect)], ClaimRecordLe);
  }

  // ---- what the verdict of a truncated list depends on ----

  function KeptOnly(policy: Policy, cs: seq<ClaimRecord>): seq<ClaimRecord> {
    Ordering.Filter(cs, (c: ClaimRecord) => Kept(policy, cs, c))
  }

  lemma KeptOnlyMembers(policy: Policy, cs: seq<ClaimRecord>)
    ensures forall c :: c in Retain(policy, cs) <==> c in KeptOnly(policy, cs)
    ensures forall c :: c in Retain(policy, cs) <==> c in cs && Kept(policy, cs, c)
  {
    hide Retain, Kept;
    Ordering.FilterMembers(cs, (c: ClaimRecord) => Kept(policy, cs, c));
    forall c ensures c in Retain(policy, cs) <==> c in cs && Kept(policy, cs, c) {
      RetainMeaning(policy, cs, c);
    }
  }

  /** What remains of a verdict when an aspect has more claims than it keeps: each truth state in terms of
      the claims that have fewer than the bound before them. */
  lemma TruncatedVerdict(policy: Policy, coverage: Coverage, cs: seq<ClaimRecord>)
    ensures var e := Evaluate(coverage, Retain(policy, cs));
            && e == Evaluate(coverage, KeptOnly(policy, cs))
            && (e.truth == Unknown <==> cs == [] || policy.maxClaimsPerAspect == 0)
            && (e.truth == TruthState.Unsupported
                <==> cs != [] && policy.maxClaimsPerAspect > 0
                     && forall c :: c in cs && c.supported ==> !Kept(policy, cs, c))
            && (e.truth == TruthState.Stale
                <==> && (exists c :: c in cs && c.supported && Kept(policy, cs, c))
                     && forall c :: c in cs && IsAssertive(c) ==> !Kept(policy, cs, c))
            && (e.truth == Conflicting
                <==> exists c, d :: && c in cs && d in cs && Kept(policy, cs, c) && Kept(policy, cs, d)
                                    && IsAssertive(c) && IsAssertive(d) && c.value != d.value)
  {
    hide Retain, Kept, KeptOnly, Report, ConflictGroups, SortedValues;
    var kept := Retain(policy, cs);
    KeptOnlyMembers(policy, cs);
    EvaluateMembers(coverage, kept, KeptOnly(policy, cs));
    RetainedCount(policy, cs, IsAssertive);
    ConflictingMeaning(coverage, kept);
    SomeSupported(kept);
    NoneAssertive(kept);
  }

  lemma SomeSupported(cs: seq<ClaimRecord>)
    ensures (forall i :: 0 <= i < |cs| ==> !cs[i].supported) <==> (forall c :: c in cs ==> !c.supported)
  {
  }

  lemma NoneAssertive(cs: seq<ClaimRecord>)
    ensures Assertive(cs) == [] <==> forall c :: c in cs ==> !IsAssertive(c)
  {
    Ordering.FilterMembers(cs, IsAssertive);
    if Assertive(cs) != [] {
      assert Assertive(cs)[0] in Assertive(cs);
    }
  }

  /** The same on a snapshot: an aspect reads as conflicting exactly when two claims that disagree both
      assert and both have fewer than the bound ranked before them. */
  lemma ConflictIsShown(digest: Observation -> Digest, derive: Text -> u128, q: Request, s: SubjectState, a: AspectState)
    requires s in Build(digest, derive, q).subjects && a in s.aspects
    ensures s.identity.id in Filled(digest, q).table
    ensures var cs := MarkLatest(ClaimsAt(Filled(digest, q).table[s.identity.id], a.aspect));
            a.truth == Conflicting
            <==> exists c, d :: && c in cs && d in cs && Kept(q.policy, cs, c) && Kept(q.policy, cs, d)
                                && IsAssertive(c) && IsAssertive(d) && c.value != d.value
  {
    hide Build, Filled, Retain, Kept, MarkLatest, Evaluate, CoverageFor, IsAssertive;
    AspectShape(digest, derive, q, s, a);
    var cs := ClaimsAt(Filled(digest, q).table[s.identity.id], a.aspect);
    MadeAspectClaims(q.policy, a.aspect, cs);
    TruncatedVerdict(q.policy, CoverageFor(q.policy.truth, a.aspect), MarkLatest(cs));
  }

  // ---- when truncation changes nothing ----

  predicate CurrentAndFresh(c: ClaimRecord) { IsCurrent(c) && c.freshness == Fresh }

  lemma {:induction false} FilterWithin<T>(s: seq<T>, p: T -> bool, q: T -> bool, c: T)
    requires forall x :: x in s && p(x) ==> q(x)
    requires c in s && q(c) && !p(c)
    ensures |Ordering.Filter(s, p)| < |Ordering.Filter(s, q)|
  {
    var front, last := s[..|s| - 1], s[|s| - 1];
    assert s == front + [last];
    if c in front {
      FilterWithin(front, p, q, c);
    } else {
      FilterNoMore(front, p, q);
    }
  }

  lemma {:induction false} FilterNoMore<T>(s: seq<T>, p: T -> bool, q: T -> bool)
    requires forall x :: x in s && p(x) ==> q(x)
    ensures |Ordering.Filter(s, p)| <= |Ordering.Filter(s, q)|
  {
    if s != [] {
      assert s == s[..|s| - 1] + [s[|s| - 1]];
      FilterNoMore(s[..|s| - 1], p, q);
    }
  }

  lemma AssertiveIsKept(policy: Policy, cs: seq<ClaimRecord>, c: ClaimRecord)
    requires |Ordering.Filter(cs, CurrentAndFresh)| <= policy.maxClaimsPerAspect
    requires c in cs && CurrentAndFresh(c)
    ensures Kept(policy, cs, c)
  {
    hide ClaimRecordLe;
    forall x | x in cs && Below(KeepLe, c)(x) ensures CurrentAndFresh(x) {
      assert KeepLe(x, c);
    }
    FilterWithin(cs, Below(KeepLe, c), CurrentAndFresh, c);
  }

  /** While the bound has room for every claim that is current and fresh, cutting the list short leaves the
      whole evaluation as it was exactly when something is kept at all and, if any supported claim was
      there, one of them is kept; one claim that asserts settles both. */
  lemma TruncationKeepsTruth(policy: Policy, coverage: Coverage, cs: seq<ClaimRecord>)
    requires |Ordering.Filter(cs, CurrentAndFresh)| <= policy.maxClaimsPerAspect
    ensures Evaluate(coverage, Retain(policy, cs)) == Evaluate(coverage, cs)
       <==> && (cs == [] || policy.maxClaimsPerAspect > 0)
            && ((exists c :: c in cs && c.supported) ==> exists c :: c in cs && c.supported && Kept(policy, cs, c))
    ensures (exists c :: c in cs && IsAssertive(c)) ==> Evaluate(coverage, Retain(policy, cs)) == Evaluate(coverage, cs)
  {
    hide Retain, Kept, KeptOnly, Report, ConflictGroups, SortedValues;
    var kept := Retain(policy, cs);
    RetainedCount(policy, cs, IsAssertive);
    KeptOnlyMembers(policy, cs);
    forall c | c in cs && IsAssertive(c) ensures c in kept {
      AssertiveIsKept(policy, cs, c);
    }
    SomeSupported(kept);
    SomeSupported(cs);
    NoneAssertive(kept);
    NoneAssertive(cs);
    Ordering.FilterMembers(cs, IsAssertive);
    Ordering.FilterMembers(kept, IsAssertive);
    SameReports(coverage, Assertive(kept), Assertive(cs));
  }

  // ---- a conflict that the bound hides ----

  /** The i-th of b + 1 sources says true twice over, all but the last, who says false once. */
  function WitnessRecord(t: i64, subject: Ids.SubjectIdentity, aspect: Text, b: u32, i: nat): ObservationRecord
    requires i <= b
  {
    var claim := Claim(subject, aspect, Values.Bool(i < b), true, 1);
    var o := Observation(Ascii("witness"), 1, i + 1, 1, if i < b then 2 else 1, 1, 1, t, [claim], [], []);
    ObservationRecord(o, t, false, 0)
  }

  function WitnessRecords(t: i64, subject: Ids.SubjectIdentity, aspect: Text, b: u32): (rs: seq<ObservationRecord>)
    ensures |rs| == b + 1 && forall i :: 0 <= i <= b ==> rs[i] == WitnessRecord(t, subject, aspect, b, i)
  {
    seq(b + 1, i requires 0 <= i < b + 1 => WitnessRecord(t, subject, aspect, b, i))
  }

  /** A request over these records in which nothing stands against any of them. */
  ghost predicate HearsWitnesses(q: Request, t: i64, subject: Ids.SubjectIdentity, aspect: Text, b: u32) {
    && q.records == WitnessRecords(t, subject, aspect, b) && q.evaluationTime == t && q.fencedClaims == []
    && q.policy.freshness.freshWindow >= 0 && q.policy.maxSources >= 1 && q.policy.maxSubjects >= 1
  }

  /** Each of them is an observation that validation lets through. */
  lemma WitnessIsValid(limits: Limits, t: i64, subject: Ids.SubjectIdentity, aspect: Text, b: u32, i: nat)
    requires i <= b && subject.id != 0 && aspect != [] && limits.maxClaims >= 1
    requires limits.values.maxDepth >= 1 && limits.values.maxTotalNodes >= 1
    ensures Validate(WitnessRecord(t, subject, aspect, b, i).observation, limits).Ok?
  {
    var o := WitnessRecord(t, subject, aspect, b, i).observation;
    assert o.claims[1..] == [];
    assert |Ascii("witness")| == 7;
    assert Values.Validate(o.claims[0].value, limits.values).Ok?;
    assert CheckClaims(o.claims[1..], limits).Ok?;
    assert CheckClaims(o.claims, limits).Ok?;
    assert CheckMetaSizes(o.metadata, limits).Ok?;
  }

  /** What the view holds of the i-th witness. */
  function WitnessClaim(digest: Observation -> Digest, q: Request, t: i64, subject: Ids.SubjectIdentity, aspect: Text, b: u32, i: nat): ClaimRecord
    requires i <= b
  {
    var r := WitnessRecord(t, subject, aspect, b, i);
    Classify(digest, FrameOf(digest, q), r, r.observation.claims[0])
  }

  function WitnessClaims(digest: Observation -> Digest, q: Request, t: i64, subject: Ids.SubjectIdentity, aspect: Text, b: u32): (cs: seq<ClaimRecord>)
    ensures |cs| == b + 1 && forall i :: 0 <= i <= b ==> cs[i] == WitnessClaim(digest, q, t, subject, aspect, b, i)
  {
    seq(b + 1, i requires 0 <= i < b + 1 => WitnessClaim(digest, q, t, subject, aspect, b, i))
  }

  lemma WitnessesInOrder(digest: Observation -> Digest, t: i64, subject: Ids.SubjectIdentity, aspect: Text, b: u32)
    ensures var rs := WitnessRecords(t, subject, aspect, b); InOrder(digest, rs) == rs
  {
    var rs := WitnessRecords(t, subject, aspect, b);
    Ordering.SortOfSorted(rs, RecordOrder(digest));
  }

  lemma WitnessPlaced(digest: Observation -> Digest, q: Request, t: i64, subject: Ids.SubjectIdentity, aspect: Text, b: u32, n: nat)
    requires n <= b
    ensures var f, rs := FrameOf(digest, q), WitnessRecords(t, subject, aspect, b);
            var p := Placed(subject, aspect, WitnessClaim(digest, q, t, subject, aspect, b, n));
            AllClaims(digest, f, rs[..n + 1]) == AllClaims(digest, f, rs[..n]) + [p]
  {
    hide FrameOf, Classify;
    var f, rs := FrameOf(digest, q), WitnessRecords(t, subject, aspect, b);
    assert rs[..n + 1][..n] == rs[..n];
    assert RecordClaims(digest, f, rs[n], rs[n].observation.claims)
        == [Placed(subject, aspect, WitnessClaim(digest, q, t, subject, aspect, b, n))];
  }

  lemma {:induction false} WitnessesSaid(digest: Observation -> Digest, q: Request, t: i64, subject: Ids.SubjectIdentity, aspect: Text, b: u32, n: nat)
    requires n <= b + 1
    ensures var ps := AllClaims(digest, FrameOf(digest, q), WitnessRecords(t, subject, aspect, b)[..n]);
            && SaidAbout(ps, subject.id, aspect) == WitnessClaims(digest, q, t, subject, aspect, b)[..n]
            && |ps| == n && OnlyAbout(ps, subject)
  {
    hide FrameOf, WitnessClaim, WitnessRecord, OnlyAbout, SaidAbout;
    if n == 0 {
      NothingAbout(subject, aspect);
    } else {
      hide AllClaims;
      WitnessesSaid(digest, q, t, subject, aspect, b, n - 1);
      WitnessPlaced(digest, q, t, subject, aspect, b, n - 1);
      var front := AllClaims(digest, FrameOf(digest, q), WitnessRecords(t, subject, aspect, b)[..n - 1]);
      var cs := WitnessClaims(digest, q, t, subject, aspect, b);
      SaidPush(front, Placed(subject, aspect, cs[n - 1]), subject.id, aspect);
      assert cs[..n] == cs[..n - 1] + [cs[n - 1]];
      AboutPush(front, Placed(subject, aspect, cs[n - 1]), subject);
    }
  }

  predicate OnlyAbout(ps: seq<Placed>, subject: Ids.SubjectIdentity) { forall i :: 0 <= i < |ps| ==> ps[i].subject == subject }

  lemma NothingAbout(subject: Ids.SubjectIdentity, aspect: Text)
    ensures OnlyAbout([], subject) && SaidAbout([], subject.id, aspect) == []
  {
  }

  lemma AboutPush(ps: seq<Placed>, p: Placed, subject: Ids.SubjectIdentity)
    requires OnlyAbout(ps, subject) && p.subject == subject
    ensures OnlyAbout(ps + [p], subject)
  {
  }

  /** Each witness is current, fresh and heard: it asserts what it said. */
  lemma WitnessAsserts(digest: Observation -> Digest, q: Request, t: i64, subject: Ids.SubjectIdentity, aspect: Text, b: u32, i: nat)
    requires HearsWitnesses(q, t, subject, aspect, b) && i <= b
    ensures IsAssertive(WitnessClaim(digest, q, t, subject, aspect, b, i))
  {
    hide IsAssertive, Classify, FrameOf;
    var r := WitnessRecord(t, subject, aspect, b, i);
    assert q.records[i] == r;
    forall x | x in q.records && x.observation.source == r.observation.source ensures Outlasted(q.records, r.observation, x) {
      assert OutlastedBy(q.records, r.observation, x, r);
    }
    AssertiveMeaning(digest, q, r, r.observation.claims[0]);
  }

  lemma WitnessFields(digest: Observation -> Digest, q: Request, t: i64, subject: Ids.SubjectIdentity, aspect: Text, b: u32, i: nat)
    requires i <= b
    ensures var c := WitnessClaim(digest, q, t, subject, aspect, b, i);
            && c.source == i + 1 && c.value == Values.Bool(i < b) && c.sequence == if i < b then 2 else 1
  {
  }

  /** Nobody speaks twice, so nothing is superseded. */
  lemma WitnessesStand(digest: Observation -> Digest, q: Request, t: i64, subject: Ids.SubjectIdentity, aspect: Text, b: u32)
    ensures var cs := WitnessClaims(digest, q, t, subject, aspect, b); MarkLatest(cs) == cs
  {
    hide MarkLatest, WitnessClaim, Later;
    var cs := WitnessClaims(digest, q, t, subject, aspect, b);
    forall i | 0 <= i < |cs| ensures MarkLatest(cs)[i] == cs[i] {
      var latest := OneLatestPerSpeaker(cs, i);
      WitnessFields(digest, q, t, subject, aspect, b, i);
      WitnessFields(digest, q, t, subject, aspect, b, latest);
    }
  }

  lemma WitnessesJudged(digest: Observation -> Digest, q: Request, t: i64, subject: Ids.SubjectIdentity, aspect: Text, b: u32)
    requires HearsWitnesses(q, t, subject, aspect, b)
    ensures Judged(digest, q, subject.id, aspect) == WitnessClaims(digest, q, t, subject, aspect, b)
  {
    hide FrameOf, InOrder, AllClaims, SaidAbout, MarkLatest, WitnessRecord;
    var rs, cs := WitnessRecords(t, subject, aspect, b), WitnessClaims(digest, q, t, subject, aspect, b);
    WitnessesInOrder(digest, t, subject, aspect, b);
    WitnessesSaid(digest, q, t, subject, aspect, b, b + 1);
    assert rs[..b + 1] == rs && cs[..b + 1] == cs;
    WitnessesStand(digest, q, t, subject, aspect, b);
  }

  lemma WitnessesHavePlace(digest: Observation -> Digest, q: Request, t: i64, subject: Ids.SubjectIdentity, aspect: Text, b: u32)
    requires HearsWitnesses(q, t, subject, aspect, b)
    ensures subject.id in Filled(digest, q).table
  {
    hide FrameOf, InOrder, AllClaims, PlaceAll, WitnessRecord;
    var rs := WitnessRecords(t, subject, aspect, b);
    WitnessesInOrder(digest, t, subject, aspect, b);
    WitnessesSaid(digest, q, t, subject, aspect, b, b + 1);
    assert rs[..b + 1] == rs;
    var ps := AllClaims(digest, FrameOf(digest, q), rs);
    PlacedBucketsHold(q.policy, ps);
    var table := Filled(digest, q).table;
    assert Mentions(ps, subject.id) by {
      assert ps[0].subject.id == subject.id;
    }
    assert forall id :: id in table ==> BucketHolds(q.policy, ps, id, table[id]);
  }

  /** With room for all but one the dissenter goes, as the claim of the lowest sequence. */
  lemma DissenterGoes(digest: Observation -> Digest, q: Request, t: i64, subject: Ids.SubjectIdentity, aspect: Text, b: u32, i: nat)
    requires HearsWitnesses(q, t, subject, aspect, b) && i <= b && q.policy.maxClaimsPerAspect == b
    ensures var cs := WitnessClaims(digest, q, t, subject, aspect, b); Kept(q.policy, cs, cs[i]) <==> i < b
  {
    hide IsAssertive, WitnessClaim, ClaimRecordLe;
    var cs := WitnessClaims(digest, q, t, subject, aspect, b);
    forall j | 0 <= j <= b ensures IsAssertive(cs[j]) && cs[j].source == j + 1 && cs[j].sequence == if j < b then 2 else 1 {
      WitnessAsserts(digest, q, t, subject, aspect, b, j);
      WitnessFields(digest, q, t, subject, aspect, b, j);
    }
    var others := x => x != cs[b];
    if i == b {
      forall x | x in cs && others(x) ensures Below(KeepLe, cs[b])(x) {
        var j :| 0 <= j < |cs| && cs[j] == x;
        SequenceRanks(cs[j], cs[b]);
      }
      OthersCount(cs, cs[b]);
      FilterNoMore(cs, others, Below(KeepLe, cs[b]));
    } else {
      forall x | x in cs && Below(KeepLe, cs[i])(x) ensures others(x) {
        SequenceRanks(cs[i], cs[b]);
      }
      FilterWithin(cs, Below(KeepLe, cs[i]), others, cs[i]);
      OthersCount(cs, cs[b]);
    }
  }

  lemma SequenceRanks(c: ClaimRecord, d: ClaimRecord)
    requires IsAssertive(c) && IsAssertive(d) && d.sequence < c.sequence
    ensures KeepLe(c, d) && !KeepLe(d, c)
  {
  }

  lemma {:induction false} FilterAll<T>(s: seq<T>, keep: T -> bool)
    requires forall x :: x in s ==> keep(x)
    ensures Ordering.Filter(s, keep) == s
  {
    if s != [] {
      FilterAll(s[..|s| - 1], keep);
    }
  }

  lemma OthersCount(cs: seq<ClaimRecord>, c: ClaimRecord)
    requires cs != [] && cs[|cs| - 1] == c && c !in cs[..|cs| - 1]
    ensures |Ordering.Filter(cs, (x: ClaimRecord) => x != c)| == |cs| - 1
  {
    FilterAll(cs[..|cs| - 1], (x: ClaimRecord) => x != c);
  }

  /** What the supporters alone amount to: as many sources, one value. */
  lemma SupportersAgree(digest: Observation -> Digest, q: Request, t: i64, subject: Ids.SubjectIdentity, aspect: Text, b: u32, coverage: Coverage)
    requires HearsWitnesses(q, t, subject, aspect, b) && 1 <= b && coverage.minSources <= b
    requires coverage.authority <= q.policy.autoAuthority && forall s :: s in q.sources ==> coverage.authority <= s.maxAuthority
    ensures var e := Evaluate(coverage, WitnessClaims(digest, q, t, subject, aspect, b)[..b]);
            e.truth == Known && e.agreed == Some(Values.Bool(true))
  {
    hide IsAssertive, WitnessClaim, Evaluate, BestAuthority;
    var cs := WitnessClaims(digest, q, t, subject, aspect, b)[..b];
    forall i | 0 <= i < b
      ensures IsAssertive(cs[i]) && cs[i].source == i + 1 && cs[i].value == Values.Bool(true) && coverage.authority <= cs[i].authority
    {
      WitnessAsserts(digest, q, t, subject, aspect, b, i);
      WitnessFields(digest, q, t, subject, aspect, b, i);
      WitnessAuthority(digest, q, t, subject, aspect, b, i, coverage.authority);
    }
    FilterAll(cs, IsAssertive);
    BestAuthorityIsMax(cs);
    assert cs[0] in cs;
    CountSources(cs, b);
    KnownMeaning(coverage, cs, Values.Bool(true));
  }

  lemma WitnessAuthority(digest: Observation -> Digest, q: Request, t: i64, subject: Ids.SubjectIdentity, aspect: Text, b: u32, i: nat, level: nat)
    requires i <= b && level <= q.policy.autoAuthority && forall s :: s in q.sources ==> level <= s.maxAuthority
    ensures level <= WitnessClaim(digest, q, t, subject, aspect, b, i).authority
  {
    hide AuthorityTable, CursorsOf, InOrder, FenceTable, EpochWithin;
    ViewStability.AuthorityTableKeys(q.sources);
  }

  lemma {:induction false} CountSources(cs: seq<ClaimRecord>, n: nat)
    requires |cs| == n && forall i :: 0 <= i < n ==> cs[i].source == i + 1
    ensures |SourcesIn(cs)| == n
  {
    if n > 0 {
      CountSources(cs[..n - 1], n - 1);
      assert SourcesIn(cs) == SourcesIn(cs[..n - 1]) + {cs[n - 1].source};
    }
  }

  /** So the room is needed, whatever the bound: b sources say true, one more says false, and every claim is
      current, fresh and heard. Keeping b claims the snapshot calls the aspect known, keeping one more it
      calls it conflicting. */
  lemma TruncationCanHideConflict(digest: Observation -> Digest, derive: Text -> u128, q: Request, t: i64, subject: Ids.SubjectIdentity, aspect: Text, b: u32)
    returns (s: SubjectState, a: AspectState)
    requires HearsWitnesses(q, t, subject, aspect, b) && 1 <= b
    requires b <= q.policy.maxClaimsPerAspect <= b + 1
    requires var coverage := CoverageFor(q.policy.truth, aspect);
             && coverage.minSources <= b && coverage.authority <= q.policy.autoAuthority
             && forall s :: s in q.sources ==> coverage.authority <= s.maxAuthority
    ensures s in Build(digest, derive, q).subjects && a in s.aspects && s.identity.id == subject.id && a.aspect == aspect
    ensures q.policy.maxClaimsPerAspect == b ==> a.truth == Known && a.agreed == Some(Values.Bool(true))
    ensures q.policy.maxClaimsPerAspect == b + 1 ==> a.truth == Conflicting
  {
    hide Filled, Judged, Retain, Evaluate, CoverageFor, IsAssertive, WitnessClaim, Kept, Build;
    var r, cs := WitnessRecord(t, subject, aspect, b, 0), WitnessClaims(digest, q, t, subject, aspect, b);
    var coverage := CoverageFor(q.policy.truth, aspect);
    assert q.records[0] == r;
    WitnessesJudged(digest, q, t, subject, aspect, b);
    WitnessesHavePlace(digest, q, t, subject, aspect, b);
    CapHasOneMore(q.policy);
    s, a := AspectIsShown(digest, derive, q, r, 0);
    if q.policy.maxClaimsPerAspect == b {
      WitnessesKept(digest, q, t, subject, aspect, b);
      EvaluateMembers(coverage, Retain(q.policy, cs), cs[..b]);
      SupportersAgree(digest, q, t, subject, aspect, b, coverage);
    } else {
      WitnessesDisagree(digest, q, t, subject, aspect, b);
      RetainedAll(q.policy, cs, cs[0]);
      RetainedAll(q.policy, cs, cs[b]);
      ConflictingMeaning(coverage, Retain(q.policy, cs));
    }
  }

  lemma CapHasOneMore(policy: Policy)
    requires policy.maxSources >= 1
    ensures WorkingSetCap(policy) >= 2 * policy.maxClaimsPerAspect
  {
  }

  lemma WitnessesKept(digest: Observation -> Digest, q: Request, t: i64, subject: Ids.SubjectIdentity, aspect: Text, b: u32)
    requires HearsWitnesses(q, t, subject, aspect, b) && q.policy.maxClaimsPerAspect == b
    ensures var cs := WitnessClaims(digest, q, t, subject, aspect, b); forall c :: c in Retain(q.policy, cs) <==> c in cs[..b]
  {
    hide Retain, Kept, HearsWitnesses, WitnessClaim;
    var cs := WitnessClaims(digest, q, t, subject, aspect, b);
    KeptOnlyMembers(q.policy, cs);
    forall i | 0 <= i <= b ensures Kept(q.policy, cs, cs[i]) <==> i < b {
      DissenterGoes(digest, q, t, subject, aspect, b, i);
    }
  }

  lemma WitnessesDisagree(digest: Observation -> Digest, q: Request, t: i64, subject: Ids.SubjectIdentity, aspect: Text, b: u32)
    requires HearsWitnesses(q, t, subject, aspect, b) && 1 <= b
    ensures var cs := WitnessClaims(digest, q, t, subject, aspect, b);
            IsAssertive(cs[0]) && IsAssertive(cs[b]) && cs[0].value != cs[b].value
  {
    hide IsAssertive, WitnessClaim;
    WitnessAsserts(digest, q, t, subject, aspect, b, 0);
    WitnessAsserts(digest, q, t, subject, aspect, b, b);
    WitnessFields(digest, q, t, subject, aspect, b, 0);
    WitnessFields(digest, q, t, subject, aspect, b, b);
  }
}
