/** Freshness, and the truth state of an aspect given its retained claims (src/snapshot.cpp,
    include/fabric_observatory/snapshot.hpp, src/policy.cpp). */
module Truth {
  import opened Bytes
  import opened Observations
  import Ordering
  import Times
  import Values

  datatype Freshness = Fresh | Aging | Stale

  /** Ordered from least to most informative. */
  datatype TruthState = Unknown | Unsupported | Conflicting | Stale | Incomplete | Known

  datatype Coverage = Coverage(minSources: u32, authority: nat)

  datatype FreshnessPolicy = FreshnessPolicy(freshWindow: i64, agingWindow: i64, allowRecovered: bool)

  datatype TruthPolicy = TruthPolicy(overrides: seq<(Text, Coverage)>, defaultCoverage: Coverage)

  /** One retained statement about a subject and aspect, with its provenance and classification. */
  datatype ClaimRecord = ClaimRecord(
    source: u128,
    incarnation: u128,
    authority: nat,
    sequence: u64,
    revision: u64,
    value: Values.Value,
    supported: bool,
    freshness: Freshness,
    observedAt: i64,
    receivedAt: i64,
    recovered: bool,
    recoveryEpoch: u64,
    olderGeneration: bool,
    olderEpoch: bool,
    olderIncarnation: bool,
    olderSequence: bool,
    fence: Option<StatusCode>,
    observationId: Digest)

  predicate IsCurrent(c: ClaimRecord) {
    !c.olderGeneration && !c.olderEpoch && !c.olderIncarnation && !c.olderSequence && c.fence.None?
  }

  /** Evidence that may support a positive statement. */
  predicate IsAssertive(c: ClaimRecord) { c.supported && IsCurrent(c) && c.freshness == Fresh }

  // ---- freshness ----

  /** The earlier of when it was observed and when it was received. */
  function EvidenceTime(observedAt: i64, receivedAt: i64): i64 {
    if observedAt < receivedAt then observedAt else receivedAt
  }

  function EvaluateFreshness(evidence: i64, evaluation: i64, policy: FreshnessPolicy, recovered: bool): Freshness {
    var age := Times.SaturatingDifference(evaluation, evidence);
    var verdict := if age <= policy.freshWindow then Fresh else if age <= policy.agingWindow then Aging else Freshness.Stale;
    if recovered && !policy.allowRecovered && verdict == Fresh then Aging else verdict
  }

  /** Evidence is fresh exactly when its exact age is within the window and, unless the policy says
      otherwise, it did not come back from persistence; and it never becomes fresh again later. */
  lemma FreshnessMeaning(evidence: i64, early: i64, late: i64, policy: FreshnessPolicy, recovered: bool)
    requires early <= late
    ensures EvaluateFreshness(evidence, early, policy, recovered) == Fresh
       <==> Max(0, Min(early - evidence, I64_MAX)) <= policy.freshWindow && (recovered ==> policy.allowRecovered)
    ensures EvaluateFreshness(evidence, late, policy, recovered) == Fresh
        ==> EvaluateFreshness(evidence, early, policy, recovered) == Fresh
  {
    Times.SaturatingDifferenceIsClamp(early, evidence);
    Times.SaturatingDifferenceMonotone(early, late, evidence);
  }

  // ---- coverage ----

  function FindOverride(overrides: seq<(Text, Coverage)>, aspect: Text): Option<Coverage> {
    if overrides == [] then None
    else if overrides[0].0 == aspect then Some(overrides[0].1)
    else FindOverride(overrides[1..], aspect)
  }

  /** An explicit override, then the well-known aspect, then the default. */
  function CoverageFor(policy: TruthPolicy, aspect: Text): Coverage {
    match FindOverride(policy.overrides, aspect)
    case Some(c) => c
    case None =>
      match FindDescriptor(WELL_KNOWN_ASPECTS, aspect)
      case Some(d) => Coverage(d.requiredSources % 0x1_0000_0000, d.requiredAuthority)
      case None => policy.defaultCoverage
  }

  // ---- evaluation ----

  datatype ConflictGroup = ConflictGroup(value: Values.Value, sources: seq<u128>, freshSources: u32)

  datatype CoverageReport = CoverageReport(freshSources: u32, required: u32, best: nat, requiredAuthority: nat, satisfied: bool)

  datatype Evaluation = Evaluation(
    truth: TruthState,
    agreed: Option<Values.Value>,
    conflicts: seq<ConflictGroup>,
    coverage: CoverageReport)

  function SourcesIn(cs: seq<ClaimRecord>): set<u128> { set c | c in cs :: c.source }

  function ValuesIn(cs: seq<ClaimRecord>): set<Values.Value> { set c | c in cs :: c.value }

  function SourcesSaying(cs: seq<ClaimRecord>, v: Values.Value): set<u128> { set c | c in cs && c.value == v :: c.source }

  function BestAuthority(cs: seq<ClaimRecord>): nat {
    if cs == [] then 0 else Max(BestAuthority(cs[..|cs| - 1]), cs[|cs| - 1].authority)
  }

  lemma IdOrderIsTotal()
    ensures Ordering.TotalOrder((a: u128, b: u128) => a <= b)
  {
  }

  function SortedIds(s: set<u128>): (r: seq<u128>)
    ensures |r| == |s| && (forall x :: x in r <==> x in s) && (forall i, j :: 0 <= i < j < |r| ==> r[i] < r[j])
  {
    IdOrderIsTotal();
    Ordering.Enumerate(s, (a: u128, b: u128) => a <= b)
  }

  function SortedValues(s: set<Values.Value>): (r: seq<Values.Value>)
    ensures |r| == |s| && (forall x :: x in r <==> x in s)
    ensures forall i, j :: 0 <= i < j < |r| ==> Values.Compare(r[i], r[j]) < 0
  {
    Values.ValueOrderIsTotal();
    var r := Ordering.Enumerate(s, Values.ValueLe);
    assert forall i, j :: 0 <= i < j < |r| ==> Values.Compare(r[i], r[j]) < 0 by {
      forall i, j | 0 <= i < j < |r| ensures Values.Compare(r[i], r[j]) < 0 {
        assert Values.ValueLe(r[i], r[j]) && r[i] != r[j];
        Values.CompareLaws(r[i], r[j]);
      }
    }
    r
  }

  function GroupOf(assertive: seq<ClaimRecord>, v: Values.Value): ConflictGroup {
    var sources := SourcesSaying(assertive, v);
    ConflictGroup(v, SortedIds(sources), |sources| % 0x1_0000_0000)
  }

  function ConflictGroups(assertive: seq<ClaimRecord>): (r: seq<ConflictGroup>)
    ensures |r| == |ValuesIn(assertive)|
  {
    var values := SortedValues(ValuesIn(assertive));
    seq(|values|, i requires 0 <= i < |values| => GroupOf(assertive, values[i]))
  }

  function Report(coverage: Coverage, assertive: seq<ClaimRecord>): CoverageReport {
    CoverageReport(|SourcesIn(assertive)| % 0x1_0000_0000, coverage.minSources, BestAuthority(assertive), coverage.authority,
                   |SourcesIn(assertive)| >= coverage.minSources && BestAuthority(assertive) >= coverage.authority)
  }

  function NoReport(coverage: Coverage): CoverageReport { CoverageReport(0, coverage.minSources, 0, coverage.authority, false) }

  function Assertive(claims: seq<ClaimRecord>): seq<ClaimRecord> { Ordering.Filter(claims, IsAssertive) }

  /** evaluate_truth. */
  function Evaluate(coverage: Coverage, claims: seq<ClaimRecord>): Evaluation {
    if claims == [] then Evaluation(Unknown, None, [], NoReport(coverage))
    else if forall i :: 0 <= i < |claims| ==> !claims[i].supported then Evaluation(TruthState.Unsupported, None, [], NoReport(coverage))
    else
      var assertive := Assertive(claims);
      if assertive == [] then Evaluation(TruthState.Stale, None, [], NoReport(coverage))
      else
        var report := Report(coverage, assertive);
        if |ValuesIn(assertive)| > 1 then Evaluation(Conflicting, None, ConflictGroups(assertive), report)
        else if !report.satisfied then Evaluation(Incomplete, None, [], report)
        else
          assert assertive[0].value in ValuesIn(assertive);
          Evaluation(Known, Some(SortedValues(ValuesIn(assertive))[0]), [], report)
  }

  lemma {:induction false} BestAuthorityIsMax(cs: seq<ClaimRecord>)
    ensures forall c :: c in cs ==> c.authority <= BestAuthority(cs)
    ensures BestAuthority(cs) == 0 || exists c :: c in cs && c.authority == BestAuthority(cs)
  {
    if cs != [] {
      var front, last := cs[..|cs| - 1], cs[|cs| - 1];
      BestAuthorityIsMax(front);
      assert cs == front + [last];
      if BestAuthority(cs) != last.authority {
        assert BestAuthority(front) == 0 || exists c :: c in front && c.authority == BestAuthority(front);
      }
    }
  }

  lemma OneValue(s: set<Values.Value>, v: Values.Value, w: Values.Value)
    requires |s| <= 1 && v in s && w in s
    ensures v == w
  {
    if v != w {
      assert {v, w} <= s;
      Ordering.SubsetSize({v, w}, s);
    }
  }

  /** Known(v) means: some claim asserts, all asserting claims say v, and they cover the aspect. */
  lemma KnownMeaning(coverage: Coverage, claims: seq<ClaimRecord>, v: Values.Value)
    ensures var e, a := Evaluate(coverage, claims), Assertive(claims);
            (e.truth == Known && e.agreed == Some(v))
            <==> (&& a != []
                  && (forall c :: c in claims && IsAssertive(c) ==> c.value == v)
                  && |SourcesIn(a)| >= coverage.minSources
                  && BestAuthority(a) >= coverage.authority)
    ensures Evaluate(coverage, claims).agreed.Some? <==> Evaluate(coverage, claims).truth == Known
  {
    hide BestAuthority, SortedIds, ConflictGroups;
    var a := Assertive(claims);
    Ordering.FilterMembers(claims, IsAssertive);
    if a != [] {
      assert a[0] in a && a[0] in claims && a[0].value in ValuesIn(a);
      var i :| 0 <= i < |claims| && claims[i] == a[0];
      assert claims[i].supported;
      if |ValuesIn(a)| <= 1 {
        var w := SortedValues(ValuesIn(a))[0];
        forall c | c in claims && IsAssertive(c) ensures c.value == w {
          assert c in a;
          OneValue(ValuesIn(a), c.value, w);
        }
        assert a[0].value == w;
      } else if forall c :: c in claims && IsAssertive(c) ==> c.value == v {
        assert ValuesIn(a) <= {v};
        Ordering.SubsetSize(ValuesIn(a), {v});
        assert false;
      }
    }
  }

  /** Conflicting means exactly that two asserting claims differ in value. */
  lemma ConflictingMeaning(coverage: Coverage, claims: seq<ClaimRecord>)
    ensures Evaluate(coverage, claims).truth == Conflicting
       <==> exists c, d :: c in claims && d in claims && IsAssertive(c) && IsAssertive(d) && c.value != d.value
  {
    hide BestAuthority, SortedIds, SortedValues, ConflictGroups;
    var a := Assertive(claims);
    Ordering.FilterMembers(claims, IsAssertive);
    if c, d :| c in claims && d in claims && IsAssertive(c) && IsAssertive(d) && c.value != d.value {
      assert c in a && d in a;
      assert c.value in ValuesIn(a) && d.value in ValuesIn(a);
      if |ValuesIn(a)| <= 1 {
        OneValue(ValuesIn(a), c.value, d.value);
      }
      var i :| 0 <= i < |claims| && claims[i] == c;
      assert claims[i].supported;
    }
    if Evaluate(coverage, claims).truth == Conflicting {
      var v := a[0].value;
      assert a[0] in a;
      if forall c :: c in a ==> c.value == v {
        assert ValuesIn(a) <= {v};
        Ordering.SubsetSize(ValuesIn(a), {v});
      }
      var c :| c in a && c.value != v;
      assert a[0] in claims && c in claims;
    }
  }

  lemma {:induction false} BestOfSubset(a: seq<ClaimRecord>, b: seq<ClaimRecord>)
    requires forall c :: c in a ==> c in b
    ensures BestAuthority(a) <= BestAuthority(b)
  {
    BestAuthorityIsMax(a);
    BestAuthorityIsMax(b);
  }

  /** Evaluation looks at which claims there are, never at their order or multiplicity. */
  lemma EvaluateMembers(coverage: Coverage, a: seq<ClaimRecord>, b: seq<ClaimRecord>)
    requires forall c :: c in a <==> c in b
    ensures Evaluate(coverage, a) == Evaluate(coverage, b)
  {
    hide BestAuthority, SortedIds, SortedValues;
    if a == [] {
      if b != [] { assert b[0] in b; }
    } else {
      assert a[0] in a;
    }
    SupportedMembers(a, b);
    Ordering.FilterMembers(a, IsAssertive);
    Ordering.FilterMembers(b, IsAssertive);
    SameReports(coverage, Assertive(a), Assertive(b));
  }

  lemma SupportedMembers(a: seq<ClaimRecord>, b: seq<ClaimRecord>)
    requires forall c :: c in a <==> c in b
    ensures (forall i :: 0 <= i < |a| ==> !a[i].supported) <==> (forall i :: 0 <= i < |b| ==> !b[i].supported)
  {
    assert (forall i :: 0 <= i < |a| ==> !a[i].supported) <==> (forall c :: c in a ==> !c.supported);
    assert (forall i :: 0 <= i < |b| ==> !b[i].supported) <==> (forall c :: c in b ==> !c.supported);
  }

  lemma SameReports(coverage: Coverage, a: seq<ClaimRecord>, b: seq<ClaimRecord>)
    requires forall c :: c in a <==> c in b
    ensures a == [] <==> b == []
    ensures Report(coverage, a) == Report(coverage, b) && ConflictGroups(a) == ConflictGroups(b)
    ensures ValuesIn(a) == ValuesIn(b)
  {
    hide SortedIds, SortedValues, BestAuthority;
    if a != [] { assert a[0] in a; }
    if b != [] { assert b[0] in b; }
    BestOfSubset(a, b);
    BestOfSubset(b, a);
    assert SourcesIn(a) == SourcesIn(b);
    assert ValuesIn(a) == ValuesIn(b);
    forall v ensures SourcesSaying(a, v) == SourcesSaying(b, v) {
    }
  }

  // ---- the same, as the loops the program runs ----

  lemma AssertiveStep(claims: seq<ClaimRecord>, i: nat)
    requires i < |claims|
    ensures Assertive(claims[..i + 1]) == if IsAssertive(claims[i]) then Assertive(claims[..i]) + [claims[i]] else Assertive(claims[..i])
  {
    assert claims[..i + 1] == claims[..i] + [claims[i]];
    Ordering.FilterAppend(claims[..i], claims[i], IsAssertive);
  }

  /** groups: every value said so far, with the claims that said it. */
  ghost predicate Grouped(groups: map<Values.Value, seq<ClaimRecord>>, cs: seq<ClaimRecord>) {
    groups.Keys == ValuesIn(cs) && forall v :: v in groups ==> SourcesIn(groups[v]) == SourcesSaying(cs, v)
  }

  lemma GroupStep(groups: map<Values.Value, seq<ClaimRecord>>, cs: seq<ClaimRecord>, c: ClaimRecord)
    requires Grouped(groups, cs)
    ensures Grouped(groups[c.value := (if c.value in groups then groups[c.value] else []) + [c]], cs + [c])
  {
    var before := if c.value in groups then groups[c.value] else [];
    var after := groups[c.value := before + [c]];
    assert ValuesIn(cs + [c]) == ValuesIn(cs) + {c.value};
    forall v | v in after ensures SourcesIn(after[v]) == SourcesSaying(cs + [c], v) {
      assert SourcesIn(before + [c]) == SourcesIn(before) + {c.source};
      assert SourcesSaying(cs + [c], v) == if v == c.value then SourcesSaying(cs, v) + {c.source} else SourcesSaying(cs, v);
      if c.value !in groups {
        assert SourcesSaying(cs, c.value) == {};
      }
    }
  }

  method CollectGroups(assertive: seq<ClaimRecord>)
    returns (distinct: set<u128>, best: nat, groups: map<Values.Value, seq<ClaimRecord>>)
    ensures distinct == SourcesIn(assertive) && best == BestAuthority(assertive) && Grouped(groups, assertive)
  {
    distinct, best, groups := {}, 0, map[];
    for i := 0 to |assertive|
      invariant distinct == SourcesIn(assertive[..i])
      invariant best == BestAuthority(assertive[..i])
      invariant Grouped(groups, assertive[..i])
    {
      hide Grouped;
      var c := assertive[i];
      assert assertive[..i + 1] == assertive[..i] + [c];
      assert assertive[..i + 1][..i] == assertive[..i];
      GroupStep(groups, assertive[..i], c);
      distinct := distinct + {c.source};
      if c.authority > best {
        best := c.authority;
      }
      groups := groups[c.value := (if c.value in groups then groups[c.value] else []) + [c]];
    }
    assert assertive[..|assertive|] == assertive;
  }

  method CollectSources(members: seq<ClaimRecord>) returns (sources: set<u128>)
    ensures sources == SourcesIn(members)
  {
    sources := {};
    for k := 0 to |members|
      invariant sources == SourcesIn(members[..k])
    {
      assert members[..k + 1] == members[..k] + [members[k]];
      sources := sources + {members[k].source};
    }
    assert members[..|members|] == members;
  }

  lemma ConflictAt(assertive: seq<ClaimRecord>, i: nat)
    requires i < |ValuesIn(assertive)|
    ensures ConflictGroups(assertive)[i] == GroupOf(assertive, SortedValues(ValuesIn(assertive))[i])
  {
  }

  method MakeGroup(groups: map<Values.Value, seq<ClaimRecord>>, v: Values.Value, ghost assertive: seq<ClaimRecord>)
    returns (group: ConflictGroup)
    requires Grouped(groups, assertive) && v in groups
    ensures group == GroupOf(assertive, v)
  {
    hide SortedIds, SortedValues, SourcesSaying, SourcesIn, ValuesIn;
    var sources := CollectSources(groups[v]);
    group := ConflictGroup(v, SortedIds(sources), |sources| % 0x1_0000_0000);
  }

  /** The groups of the given values, in their order. */
  method ListGroups(groups: map<Values.Value, seq<ClaimRecord>>, values: seq<Values.Value>, ghost assertive: seq<ClaimRecord>)
    returns (conflicts: seq<ConflictGroup>)
    requires Grouped(groups, assertive) && forall v :: v in values ==> v in groups
    ensures |conflicts| == |values| && forall k :: 0 <= k < |values| ==> conflicts[k] == GroupOf(assertive, values[k])
  {
    hide GroupOf, Grouped;
    conflicts := [];
    for i := 0 to |values|
      invariant |conflicts| == i
      invariant forall k :: 0 <= k < i ==> conflicts[k] == GroupOf(assertive, values[k])
    {
      assert values[i] in values;
      var group := MakeGroup(groups, values[i], assertive);
      conflicts := conflicts + [group];
    }
  }

  method ListConflicts(groups: map<Values.Value, seq<ClaimRecord>>, ghost assertive: seq<ClaimRecord>)
    returns (conflicts: seq<ConflictGroup>)
    requires Grouped(groups, assertive)
    ensures conflicts == ConflictGroups(assertive)
  {
    hide GroupOf, ValuesIn, SortedValues;
    conflicts := ListGroups(groups, SortedValues(groups.Keys), assertive);
  }

  method EvaluateTruth(policy: TruthPolicy, aspect: Text, claims: seq<ClaimRecord>) returns (evaluation: Evaluation)
    ensures evaluation == Evaluate(CoverageFor(policy, aspect), claims)
  {
    hide BestAuthority, SortedIds, ConflictGroups;
    var coverage := CoverageFor(policy, aspect);
    if claims == [] {
      return Evaluation(Unknown, None, [], NoReport(coverage));
    }
    var anySupported := false;
    for i := 0 to |claims|
      invariant !anySupported && forall k :: 0 <= k < i ==> !claims[k].supported
    {
      if claims[i].supported {
        anySupported := true;
        break;
      }
    }
    if !anySupported {
      return Evaluation(TruthState.Unsupported, None, [], NoReport(coverage));
    }
    var assertive := [];
    for i := 0 to |claims|
      invariant assertive == Assertive(claims[..i])
    {
      AssertiveStep(claims, i);
      if IsAssertive(claims[i]) {
        assertive := assertive + [claims[i]];
      }
    }
    assert claims[..|claims|] == claims;
    if assertive == [] {
      return Evaluation(TruthState.Stale, None, [], NoReport(coverage));
    }
    var distinct, best, groups := CollectGroups(assertive);
    assert |groups| == |groups.Keys|;
    var satisfied := |distinct| >= coverage.minSources && best >= coverage.authority;
    var report := CoverageReport(|distinct| % 0x1_0000_0000, coverage.minSources, best, coverage.authority, satisfied);
    if |groups| > 1 {
      var conflicts := ListConflicts(groups, assertive);
      return Evaluation(Conflicting, None, conflicts, report);
    }
    if !satisfied {
      return Evaluation(Incomplete, None, [], report);
    }
    assert assertive[0].value in groups.Keys;
    evaluation := Evaluation(Known, Some(SortedValues(groups.Keys)[0]), [], report);
  }
}
