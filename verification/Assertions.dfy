/** What an assertion in a published view proves about the run behind it (src/observatory.cpp,
    src/snapshot.cpp). */
module Assertions {
  import opened Bytes
  import opened Observations
  import opened Observatories
  import opened Interleaving
  import Ordering
  import Runs
  import Snapshots
  import Truth
  import Views
  import ViewStability

  /** The aspects a source has declared; one that is registered on first contact has declared none. */
  function Declared(e: Evidence, s: u128): seq<Text> { if s in e.sources then e.sources[s].descriptor.aspects else [] }

  /** The fold of the claims before position k of an arrival that meets the evidence e. */
  function FoldTo(cfg: Config, digest: Observation -> Digest, e: Evidence, a: Arrival, k: nat): ClaimFold
    requires k <= |a.observation.claims|
  {
    var o := a.observation;
    FoldClaims(cfg, digest, Declared(e, o.source), o, a.receivedAt, StartFold(e), o.claims[..k])
  }

  /** Claim k of the arrival passes every claim fence when it is looked at. */
  predicate ClaimPasses(cfg: Config, digest: Observation -> Digest, e: Evidence, a: Arrival, k: nat)
    requires k < |a.observation.claims|
  {
    var o := a.observation;
    CheckClaim(cfg, Declared(e, o.source), FoldTo(cfg, digest, e, a, k).revisions, KeyOf(o, o.claims[k]), o.claims[k]) == Pass
  }

  /** Arrival i of the run was accepted as the record r, and claim k of it passed the fences. */
  ghost predicate PassedAt(cfg: Config, digest: Observation -> Digest, epoch: u64, e: Evidence, w: seq<Arrival>, r: ObservationRecord, k: nat, i: nat) {
    && i < |w| && k < |w[i].observation.claims|
    && r == NewRecord(w[i], epoch)
    && Ingest(cfg, digest, epoch, Run(cfg, digest, epoch, e, w[..i]), w[i]).1.disposition == Accepted
    && ClaimPasses(cfg, digest, Run(cfg, digest, epoch, e, w[..i]), w[i], k)
  }

  ghost predicate PassedFences(cfg: Config, digest: Observation -> Digest, epoch: u64, e: Evidence, w: seq<Arrival>, r: ObservationRecord, k: nat) {
    exists i: nat :: PassedAt(cfg, digest, epoch, e, w, r, k, i)
  }

  ghost predicate HasFence(fenced: seq<FencedClaim>, id: Digest, c: Claim) {
    exists f :: f in fenced && Snapshots.KeyOfFence(f) == Snapshots.FenceKey(id, c.subject.id, c.aspect)
  }

  // ---- every fence a run records ----

  lemma PushSuffix<T>(s: seq<T>, x: T, n: nat)
    ensures PushBounded(Suffix(s, n), x, n) == Suffix(s + [x], n)
  {
  }

  /** The fence one claim leaves: none if it passes or its fence is in the table already. */
  function ClaimFence(cfg: Config, digest: Observation -> Digest, declared: seq<Text>, o: Observation, now: i64, f: ClaimFold, c: Claim): seq<FencedClaim> {
    match CheckClaim(cfg, declared, f.revisions, KeyOf(o, c), c)
    case Refuse(code, reason) =>
      var x := MakeFenced(digest, o, now, c, code, reason);
      if AlreadyFenced(f.fencedClaims, x) then [] else [x]
    case _ => []
  }

  function FoldFences(cfg: Config, digest: Observation -> Digest, declared: seq<Text>, o: Observation, now: i64, f: ClaimFold, cs: seq<Claim>): seq<FencedClaim> {
    if cs == [] then []
    else
      var front := cs[..|cs| - 1];
      FoldFences(cfg, digest, declared, o, now, f, front)
      + ClaimFence(cfg, digest, declared, o, now, FoldClaims(cfg, digest, declared, o, now, f, front), cs[|cs| - 1])
  }

  /** The fences one arrival records: its claims are looked at when everything before them passed. */
  function StepFences(cfg: Config, digest: Observation -> Digest, e: Evidence, a: Arrival): seq<FencedClaim> {
    var o := a.observation;
    if CheckInput(cfg, o, a.receivedAt).Refuse? then []
    else match Admit(cfg, e.sources, o)
      case Err(_) => []
      case Ok(sources) =>
        var high := if cfg.strictGeneration then HighWater(e.records) else 0;
        if CheckLineage(cfg, sources[o.source], Seen(e.incarnations, o.source), Indexed(digest, e.records, digest(o)), high, o) == Pass
        then FoldFences(cfg, digest, sources[o.source].descriptor.aspects, o, a.receivedAt, StartFold(e), o.claims)
        else []
  }

  /** All the fences a run records, whether or not the table still holds them. */
  function RunFences(cfg: Config, digest: Observation -> Digest, epoch: u64, e: Evidence, w: seq<Arrival>): seq<FencedClaim> {
    if w == [] then []
    else
      var front := w[..|w| - 1];
      RunFences(cfg, digest, epoch, e, front) + StepFences(cfg, digest, Run(cfg, digest, epoch, e, front), w[|w| - 1])
  }

  lemma {:induction false} FoldFenceTable(cfg: Config, digest: Observation -> Digest, declared: seq<Text>, o: Observation, now: i64, f: ClaimFold, cs: seq<Claim>, s: seq<FencedClaim>)
    requires f.fencedClaims == Suffix(s, cfg.maxRejections)
    ensures FoldClaims(cfg, digest, declared, o, now, f, cs).fencedClaims
         == Suffix(s + FoldFences(cfg, digest, declared, o, now, f, cs), cfg.maxRejections)
  {
    hide CheckClaim, NoteRevision, KeyOf, AlreadyFenced, Suffix, PushBounded, MakeFenced;
    if cs == [] {
      assert s + [] == s;
    } else {
      var front, c := cs[..|cs| - 1], cs[|cs| - 1];
      FoldFenceTable(cfg, digest, declared, o, now, f, front, s);
      var mid := FoldClaims(cfg, digest, declared, o, now, f, front);
      var before, left := FoldFences(cfg, digest, declared, o, now, f, front), ClaimFence(cfg, digest, declared, o, now, mid, c);
      assert s + (before + left) == (s + before) + left;
      match CheckClaim(cfg, declared, mid.revisions, KeyOf(o, c), c)
      case Refuse(code, reason) =>
        PushSuffix(s + before, MakeFenced(digest, o, now, c, code, reason), cfg.maxRejections);
        assert (s + before) + [] == s + before;
      case _ =>
        assert (s + before) + [] == s + before;
    }
  }

  lemma ClaimFences(cfg: Config, digest: Observation -> Digest, epoch: u64, e: Evidence, a: Arrival)
    requires a.observation.source in e.sources
    ensures IngestClaims(cfg, digest, epoch, e, a).0.fencedClaims
         == FoldClaims(cfg, digest, e.sources[a.observation.source].descriptor.aspects, a.observation, a.receivedAt, StartFold(e),
                       a.observation.claims).fencedClaims
  {
    hide FoldClaims, Evict, DropCount, Indexed, RecordRejection, PushWindow, AcceptSource;
  }

  lemma StepFenceTable(cfg: Config, digest: Observation -> Digest, epoch: u64, e: Evidence, a: Arrival, s: seq<FencedClaim>)
    requires e.fencedClaims == Suffix(s, cfg.maxRejections)
    ensures Ingest(cfg, digest, epoch, e, a).0.fencedClaims == Suffix(s + StepFences(cfg, digest, e, a), cfg.maxRejections)
  {
    hide CheckInput, CheckLineage, Indexed, HighWater, Admit, IngestClaims, FoldClaims, FoldFences, Suffix, RecordRejection;
    var o := a.observation;
    assert s + [] == s;
    if !CheckInput(cfg, o, a.receivedAt).Refuse? && Admit(cfg, e.sources, o).Ok? {
      var e0 := e.(sources := Admit(cfg, e.sources, o).value);
      ClaimFences(cfg, digest, epoch, e0, a);
      FoldFenceTable(cfg, digest, e0.sources[o.source].descriptor.aspects, o, a.receivedAt, StartFold(e0), o.claims, s);
    }
  }

  /** What the table holds after any run: the last of all the fences recorded, as many as the bound. So it
      has forgotten none exactly when they were no more than the bound. */
  lemma {:induction false} TableIsLastFences(cfg: Config, digest: Observation -> Digest, epoch: u64, e: Evidence, w: seq<Arrival>)
    requires |e.fencedClaims| <= cfg.maxRejections
    ensures var all, e1 := e.fencedClaims + RunFences(cfg, digest, epoch, e, w), Run(cfg, digest, epoch, e, w);
            && e1.fencedClaims == Suffix(all, cfg.maxRejections)
            && (e1.fencedClaims == all <==> |all| <= cfg.maxRejections)
            && (|e1.fencedClaims| < cfg.maxRejections ==> |all| <= cfg.maxRejections)
  {
    hide Ingest, StepFences;
    var all := e.fencedClaims;
    if w == [] {
      assert all + [] == all;
    } else {
      var front, a := w[..|w| - 1], w[|w| - 1];
      TableIsLastFences(cfg, digest, epoch, e, front);
      var mid, before := Run(cfg, digest, epoch, e, front), RunFences(cfg, digest, epoch, e, front);
      StepFenceTable(cfg, digest, epoch, mid, a, all + before);
      assert all + (before + StepFences(cfg, digest, mid, a)) == (all + before) + StepFences(cfg, digest, mid, a);
    }
  }

  // ---- a claim that did not pass is fenced, unless its fence was forgotten ----

  lemma LeavesFence(cfg: Config, digest: Observation -> Digest, declared: seq<Text>, o: Observation, now: i64, f: ClaimFold, c: Claim)
    ensures CheckClaim(cfg, declared, f.revisions, KeyOf(o, c), c) == Pass
         || HasFence(f.fencedClaims + ClaimFence(cfg, digest, declared, o, now, f, c), digest(o), c)
  {
    hide CheckClaim, KeyOf;
    NeverReplay(cfg, declared, f.revisions, KeyOf(o, c), c);
    match CheckClaim(cfg, declared, f.revisions, KeyOf(o, c), c)
    case Refuse(code, reason) =>
      var x := MakeFenced(digest, o, now, c, code, reason);
      if AlreadyFenced(f.fencedClaims, x) {
        var i :| 0 <= i < |f.fencedClaims| && SameFence(f.fencedClaims[i], x);
        assert f.fencedClaims[i] in f.fencedClaims + ClaimFence(cfg, digest, declared, o, now, f, c);
      } else {
        assert x in f.fencedClaims + [x];
      }
    case _ =>
  }

  /** Of everything recorded so far, counted from any point s the table descends from. */
  lemma {:induction false} FoldLeavesFences(cfg: Config, digest: Observation -> Digest, declared: seq<Text>, o: Observation, now: i64, f: ClaimFold, cs: seq<Claim>, s: seq<FencedClaim>)
    requires f.fencedClaims == Suffix(s, cfg.maxRejections)
    ensures var all := s + FoldFences(cfg, digest, declared, o, now, f, cs);
            forall k :: 0 <= k < |cs| ==>
              || CheckClaim(cfg, declared, FoldClaims(cfg, digest, declared, o, now, f, cs[..k]).revisions, KeyOf(o, cs[k]), cs[k]) == Pass
              || HasFence(all, digest(o), cs[k])
  {
    hide CheckClaim, KeyOf, Suffix, HasFence, ClaimFence, StepClaim;
    if cs != [] {
      var n := |cs| - 1;
      var front, c := cs[..n], cs[n];
      FoldLeavesFences(cfg, digest, declared, o, now, f, front, s);
      FoldFenceTable(cfg, digest, declared, o, now, f, front, s);
      var mid, before := FoldClaims(cfg, digest, declared, o, now, f, front), FoldFences(cfg, digest, declared, o, now, f, front);
      var left := ClaimFence(cfg, digest, declared, o, now, mid, c);
      var all := s + FoldFences(cfg, digest, declared, o, now, f, cs);
      assert all == (s + before) + left;
      LeavesFence(cfg, digest, declared, o, now, mid, c);
      forall k | 0 <= k < |cs|
        ensures CheckClaim(cfg, declared, FoldClaims(cfg, digest, declared, o, now, f, cs[..k]).revisions, KeyOf(o, cs[k]), cs[k]) == Pass
             || HasFence(all, digest(o), cs[k])
      {
        if k < n {
          assert front[..k] == cs[..k] && front[k] == cs[k];
          FenceStays(s + before, all, digest(o), cs[k]);
        } else {
          SuffixMembers(s + before, cfg.maxRejections);
          FenceStays(mid.fencedClaims + left, all, digest(o), c);
        }
      }
    }
  }

  lemma SuffixMembers<T>(s: seq<T>, n: nat)
    ensures forall x :: x in Suffix(s, n) ==> x in s
  {
  }

  lemma NeverReplay(cfg: Config, declared: seq<Text>, revisions: map<RevisionKey, u64>, key: RevisionKey, c: Claim)
    ensures CheckClaim(cfg, declared, revisions, key, c) != Observatories.Replay
  {
    hide FindDescriptor;
  }

  lemma AdmitDeclares(cfg: Config, e: Evidence, o: Observation)
    requires Admit(cfg, e.sources, o).Ok?
    ensures Admit(cfg, e.sources, o).value[o.source].descriptor.aspects == Declared(e, o.source)
  {
    assert Ordering.Sort<Text>([], TextLe) == [];
  }

  /** An accepted arrival: each of its claims passed, or its fence is among all those recorded so far. */
  ghost predicate LeavesFences(cfg: Config, digest: Observation -> Digest, e: Evidence, a: Arrival, all: seq<FencedClaim>) {
    forall k :: 0 <= k < |a.observation.claims| ==>
      ClaimPasses(cfg, digest, e, a, k) || HasFence(all, digest(a.observation), a.observation.claims[k])
  }

  lemma StepLeavesFences(cfg: Config, digest: Observation -> Digest, epoch: u64, e: Evidence, a: Arrival, s: seq<FencedClaim>)
    requires e.fencedClaims == Suffix(s, cfg.maxRejections)
    requires Ingest(cfg, digest, epoch, e, a).1.disposition == Accepted
    ensures LeavesFences(cfg, digest, e, a, s + StepFences(cfg, digest, e, a))
  {
    hide CheckInput, CheckLineage, Indexed, HighWater, Admit, IngestClaims, FoldClaims, FoldFences, Suffix, RecordRejection, HasFence, ClaimPasses;
    var o := a.observation;
    var e0 := e.(sources := Admit(cfg, e.sources, o).value);
    AdmitDeclares(cfg, e, o);
    FoldLeavesFences(cfg, digest, Declared(e0, o.source), o, a.receivedAt, StartFold(e0), o.claims, s);
    forall k | 0 <= k < |o.claims|
      ensures ClaimPasses(cfg, digest, e, a, k) || HasFence(s + StepFences(cfg, digest, e, a), digest(o), o.claims[k])
    {
      PassesUnfolded(cfg, digest, e0, a, k);
      PassesAdmitted(cfg, digest, e, e0, a, k);
    }
  }

  lemma PassesUnfolded(cfg: Config, digest: Observation -> Digest, e: Evidence, a: Arrival, k: nat)
    requires k < |a.observation.claims|
    ensures var o, declared := a.observation, Declared(e, a.observation.source);
            ClaimPasses(cfg, digest, e, a, k)
            <==> CheckClaim(cfg, declared, FoldClaims(cfg, digest, declared, o, a.receivedAt, StartFold(e), o.claims[..k]).revisions,
                            KeyOf(o, o.claims[k]), o.claims[k]) == Pass
  {
    hide CheckClaim, FoldClaims;
  }

  lemma PassesAdmitted(cfg: Config, digest: Observation -> Digest, e: Evidence, e0: Evidence, a: Arrival, k: nat)
    requires k < |a.observation.claims| && e0 == e.(sources := e0.sources)
    requires Declared(e0, a.observation.source) == Declared(e, a.observation.source)
    ensures ClaimPasses(cfg, digest, e0, a, k) == ClaimPasses(cfg, digest, e, a, k)
  {
    hide CheckClaim, FoldClaims;
  }

  /** Either claim k of r passed, or its fence is among all those recorded. */
  ghost predicate Accounted(cfg: Config, digest: Observation -> Digest, epoch: u64, e: Evidence, w: seq<Arrival>, r: ObservationRecord) {
    var all := e.fencedClaims + RunFences(cfg, digest, epoch, e, w);
    r in e.records || forall k :: 0 <= k < |r.observation.claims| ==>
      PassedFences(cfg, digest, epoch, e, w, r, k) || HasFence(all, digest(r.observation), r.observation.claims[k])
  }

  lemma {:induction false} RunAccounts(cfg: Config, digest: Observation -> Digest, epoch: u64, e: Evidence, w: seq<Arrival>)
    requires |e.fencedClaims| <= cfg.maxRejections
    ensures forall r :: r in Run(cfg, digest, epoch, e, w).records ==> Accounted(cfg, digest, epoch, e, w, r)
  {
    hide Ingest, Evict, DropCount, PassedFences, HasFence, ClaimPasses, StepFences, Suffix;
    if w != [] {
      var front, a := w[..|w| - 1], w[|w| - 1];
      assert w == front + [a];
      RunAccounts(cfg, digest, epoch, e, front);
      TableIsLastFences(cfg, digest, epoch, e, front);
      var mid := Run(cfg, digest, epoch, e, front);
      var (e1, out) := Ingest(cfg, digest, epoch, mid, a);
      Runs.IngestRecords(cfg, digest, epoch, mid, a);
      EvictKeepsSome(digest, mid.records + [NewRecord(a, epoch)], cfg.maxEvidence);
      forall r | r in e1.records ensures Accounted(cfg, digest, epoch, e, w, r) {
        if r in mid.records {
          AccountedStill(cfg, digest, epoch, e, front, a, r);
        } else {
          AccountedNow(cfg, digest, epoch, e, front, a, r);
        }
      }
    }
  }

  lemma FenceStays(fenced: seq<FencedClaim>, after: seq<FencedClaim>, id: Digest, c: Claim)
    requires forall x :: x in fenced ==> x in after
    ensures HasFence(fenced, id, c) ==> HasFence(after, id, c)
  {
  }

  lemma PassedStill(cfg: Config, digest: Observation -> Digest, epoch: u64, e: Evidence, w: seq<Arrival>, a: Arrival, r: ObservationRecord, k: nat)
    requires PassedFences(cfg, digest, epoch, e, w, r, k)
    ensures PassedFences(cfg, digest, epoch, e, w + [a], r, k)
  {
    hide Ingest, Run, ClaimPasses;
    var i: nat :| PassedAt(cfg, digest, epoch, e, w, r, k, i);
    assert (w + [a])[..i] == w[..i];
    assert PassedAt(cfg, digest, epoch, e, w + [a], r, k, i);
  }

  lemma RunFencesPush(cfg: Config, digest: Observation -> Digest, epoch: u64, e: Evidence, w: seq<Arrival>, a: Arrival)
    ensures e.fencedClaims + RunFences(cfg, digest, epoch, e, w + [a])
         == (e.fencedClaims + RunFences(cfg, digest, epoch, e, w)) + StepFences(cfg, digest, Run(cfg, digest, epoch, e, w), a)
  {
    hide StepFences;
    assert (w + [a])[..|w|] == w;
  }

  lemma AccountedStill(cfg: Config, digest: Observation -> Digest, epoch: u64, e: Evidence, w: seq<Arrival>, a: Arrival, r: ObservationRecord)
    requires Accounted(cfg, digest, epoch, e, w, r)
    ensures Accounted(cfg, digest, epoch, e, w + [a], r)
  {
    hide PassedFences, HasFence, RunFences;
    RunFencesPush(cfg, digest, epoch, e, w, a);
    if r !in e.records {
      forall k | 0 <= k < |r.observation.claims|
        ensures || PassedFences(cfg, digest, epoch, e, w + [a], r, k)
                || HasFence(e.fencedClaims + RunFences(cfg, digest, epoch, e, w + [a]), digest(r.observation), r.observation.claims[k])
      {
        FenceStays(e.fencedClaims + RunFences(cfg, digest, epoch, e, w), e.fencedClaims + RunFences(cfg, digest, epoch, e, w + [a]),
                   digest(r.observation), r.observation.claims[k]);
        if PassedFences(cfg, digest, epoch, e, w, r, k) {
          PassedStill(cfg, digest, epoch, e, w, a, r, k);
        }
      }
    }
  }

  lemma AccountedNow(cfg: Config, digest: Observation -> Digest, epoch: u64, e: Evidence, w: seq<Arrival>, a: Arrival, r: ObservationRecord)
    requires |e.fencedClaims| <= cfg.maxRejections
    requires r == NewRecord(a, epoch)
    requires Ingest(cfg, digest, epoch, Run(cfg, digest, epoch, e, w), a).1.disposition == Accepted
    ensures Accounted(cfg, digest, epoch, e, w + [a], r)
  {
    hide Ingest, Run, RunFences, StepFences, Suffix, ClaimPasses, HasFence;
    var n, mid := |w|, Run(cfg, digest, epoch, e, w);
    assert (w + [a])[..n] == w && (w + [a])[n] == a;
    RunFencesPush(cfg, digest, epoch, e, w, a);
    TableIsLastFences(cfg, digest, epoch, e, w);
    StepLeavesFences(cfg, digest, epoch, mid, a, e.fencedClaims + RunFences(cfg, digest, epoch, e, w));
    forall k | 0 <= k < |r.observation.claims|
      ensures || PassedFences(cfg, digest, epoch, e, w + [a], r, k)
              || HasFence(e.fencedClaims + RunFences(cfg, digest, epoch, e, w + [a]), digest(r.observation), r.observation.claims[k])
    {
      if ClaimPasses(cfg, digest, mid, a, k) {
        assert PassedAt(cfg, digest, epoch, e, w + [a], r, k, n);
      }
    }
  }

  /** Run safety: starting from recovered evidence only, and as long as the fence table forgot nothing,
      every assertive claim of the published view is backed by a record that was accepted during this run,
      by a claim that passed every fence at that moment. */
  lemma AssertionsPassedTheFences(cfg: Config, policy: Snapshots.Policy, digest: Observation -> Digest, derive: Text -> u128, epoch: u64,
                                  count: u32, evaluation: i64, e: Evidence, w: seq<Arrival>,
                                  s: Snapshots.SubjectState, a: Snapshots.AspectState, c: Truth.ClaimRecord)
    requires forall r :: r in e.records ==> r.recovered
    requires !policy.freshness.allowRecovered
    requires |e.fencedClaims| <= cfg.maxRejections
    requires |e.fencedClaims + RunFences(cfg, digest, epoch, e, w)| <= cfg.maxRejections
          || |Run(cfg, digest, epoch, e, w).fencedClaims| < cfg.maxRejections
    requires var q := Runs.RequestOf(cfg.fabric, policy, Run(cfg, digest, epoch, e, w), evaluation, epoch, count);
             s in Snapshots.Build(digest, derive, q).subjects && a in s.aspects && c in a.claims && Truth.IsAssertive(c)
    ensures var q := Runs.RequestOf(cfg.fabric, policy, Run(cfg, digest, epoch, e, w), evaluation, epoch, count);
            exists r, k :: Views.Backs(digest, q, s.identity.id, a.aspect, c, r, k)
                           && PassedFences(cfg, digest, epoch, e, w, r, k)
  {
    hide Run, RunFences, Snapshots.Build, Runs.Summaries, PassedFences, Truth.IsAssertive;
    var e1 := Run(cfg, digest, epoch, e, w);
    var q := Runs.RequestOf(cfg.fabric, policy, e1, evaluation, epoch, count);
    RunAccounts(cfg, digest, epoch, e, w);
    TableIsLastFences(cfg, digest, epoch, e, w);
    Views.AssertionsAreBacked(digest, derive, q, s, a, c);
    var r, k :| Views.Backs(digest, q, s.identity.id, a.aspect, c, r, k);
    assert Accounted(cfg, digest, epoch, e, w, r);
    NotFenced(digest, q, s.identity.id, a.aspect, c, r, k);
    Unrecovered(digest, q, s.identity.id, a.aspect, c, r, k);
  }

  lemma Unrecovered(digest: Observation -> Digest, q: Snapshots.Request, id: u128, aspect: Text, c: Truth.ClaimRecord, r: ObservationRecord, k: nat)
    requires Views.Backs(digest, q, id, aspect, c, r, k) && !q.policy.freshness.allowRecovered
    ensures !r.recovered && r in q.records && k < |r.observation.claims|
  {
  }

  lemma NotFenced(digest: Observation -> Digest, q: Snapshots.Request, id: u128, aspect: Text, c: Truth.ClaimRecord, r: ObservationRecord, k: nat)
    requires Views.Backs(digest, q, id, aspect, c, r, k)
    ensures !HasFence(q.fencedClaims, digest(r.observation), r.observation.claims[k])
  {
  }

  /** The room matters: a full fence table forgets its oldest fence when a new one comes in, and the claim
      it held back is no longer marked as fenced in the view. */
  lemma OldestFenceIsForgotten(cfg: Config, fenced: seq<FencedClaim>, f: FencedClaim)
    requires fenced != [] && |fenced| == cfg.maxRejections && !AlreadyFenced(fenced, f)
    requires forall i, j :: 0 <= i < j < |fenced| ==> !SameFence(fenced[i], fenced[j])
    ensures Snapshots.KeyOfFence(fenced[0]) in Snapshots.FenceTable(fenced)
    ensures Snapshots.KeyOfFence(fenced[0]) !in Snapshots.FenceTable(RecordFenced(cfg, fenced, f))
  {
    hide Snapshots.FenceTable;
    var after := RecordFenced(cfg, fenced, f);
    Views.FenceTableKeys(fenced);
    Views.FenceTableKeys(after);
    assert fenced[0] in fenced;
  }
}
