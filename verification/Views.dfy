/** What a snapshot may and may not say: the buckets it is made of, one current voice per source, the
    evidence behind each assertion, and how it ages (src/snapshot.cpp). */
module Views {
  import opened Bytes
  import opened Observations
  import opened Truth
  import opened Snapshots
  import Observatories
  import Ordering
  import Times
  import Values

  // ---- buckets hold exactly what was said about their subject and aspect ----

  /** Every classified claim about one subject and aspect, in canonical order. */
  function SaidAbout(ps: seq<Placed>, id: u128, aspect: Text): seq<ClaimRecord> {
    if ps == [] then []
    else
      var before, p := SaidAbout(ps[..|ps| - 1], id, aspect), ps[|ps| - 1];
      if p.subject.id == id && p.aspect == aspect then before + [p.claim] else before
  }

  predicate Mentions(ps: seq<Placed>, id: u128) { exists i :: 0 <= i < |ps| && ps[i].subject.id == id }

  predicate MentionsAspect(ps: seq<Placed>, id: u128, aspect: Text) {
    exists i :: 0 <= i < |ps| && ps[i].subject.id == id && ps[i].aspect == aspect
  }

  predicate FirstMention(ps: seq<Placed>, i: nat) {
    i < |ps| && forall k :: 0 <= k < i ==> ps[k].subject.id != ps[i].subject.id
  }

  ghost predicate BucketHolds(policy: Policy, ps: seq<Placed>, id: u128, b: Bucket) {
    && (forall a :: a in b.aspects <==> MentionsAspect(ps, id, a))
    && (forall a :: ClaimsAt(b, a) == Upto(SaidAbout(ps, id, a), WorkingSetCap(policy)))
    && (exists i: nat :: FirstMention(ps, i) && ps[i].subject == b.identity && b.identity.id == id)
  }

  ghost predicate BucketsHold(policy: Policy, ps: seq<Placed>, b: Buckets) {
    && |b.table| <= policy.maxSubjects
    && (forall id :: id in b.table ==> BucketHolds(policy, ps, id, b.table[id]))
    && (forall id :: id !in b.table && Mentions(ps, id) ==> |b.table| == policy.maxSubjects)
    && (b.truncated <==> exists i :: 0 <= i < |ps| && ps[i].subject.id !in b.table)
  }

  lemma MentionsPush(ps: seq<Placed>, p: Placed, id: u128, aspect: Text)
    ensures Mentions(ps + [p], id) <==> Mentions(ps, id) || p.subject.id == id
    ensures MentionsAspect(ps + [p], id, aspect) <==> MentionsAspect(ps, id, aspect) || (p.subject.id == id && p.aspect == aspect)
  {
    assert (ps + [p])[|ps|] == p;
    forall i | 0 <= i < |ps| ensures (ps + [p])[i] == ps[i] {
    }
    if Mentions(ps, id) {
      var i :| 0 <= i < |ps| && ps[i].subject.id == id;
      assert (ps + [p])[i].subject.id == id;
    }
    if MentionsAspect(ps, id, aspect) {
      var i :| 0 <= i < |ps| && ps[i].subject.id == id && ps[i].aspect == aspect;
      assert (ps + [p])[i].subject.id == id && (ps + [p])[i].aspect == aspect;
    }
  }

  lemma SaidPush(ps: seq<Placed>, p: Placed, id: u128, aspect: Text)
    ensures SaidAbout(ps + [p], id, aspect)
         == if p.subject.id == id && p.aspect == aspect then SaidAbout(ps, id, aspect) + [p.claim] else SaidAbout(ps, id, aspect)
  {
    assert (ps + [p])[..|ps|] == ps;
  }

  lemma {:induction false} NothingSaid(ps: seq<Placed>, id: u128, aspect: Text)
    requires !MentionsAspect(ps, id, aspect)
    ensures SaidAbout(ps, id, aspect) == []
  {
    if ps != [] {
      var front, p := ps[..|ps| - 1], ps[|ps| - 1];
      assert ps == front + [p];
      MentionsPush(front, p, id, aspect);
      NothingSaid(front, id, aspect);
    }
  }

  lemma PutHolds(policy: Policy, ps: seq<Placed>, p: Placed, b: Bucket)
    requires (b == Bucket(p.subject, map[]) && !Mentions(ps, p.subject.id))
          || BucketHolds(policy, ps, p.subject.id, b)
    ensures BucketHolds(policy, ps + [p], p.subject.id, Put(policy, b, p))
  {
    hide SaidAbout, MentionsAspect, Mentions;
    var id, after := p.subject.id, Put(policy, b, p);
    forall a ensures a in after.aspects <==> MentionsAspect(ps + [p], id, a) {
      MentionsPush(ps, p, id, a);
      AspectMentionsSubject(ps, id, a);
    }
    forall a ensures ClaimsAt(after, a) == Upto(SaidAbout(ps + [p], id, a), WorkingSetCap(policy)) {
      SaidPush(ps, p, id, a);
      AspectMentionsSubject(ps, id, a);
      if !MentionsAspect(ps, id, a) {
        NothingSaid(ps, id, a);
      }
    }
    PutIdentity(policy, ps, p, b);
  }

  lemma AspectMentionsSubject(ps: seq<Placed>, id: u128, a: Text)
    ensures MentionsAspect(ps, id, a) ==> Mentions(ps, id)
  {
  }

  lemma PutIdentity(policy: Policy, ps: seq<Placed>, p: Placed, b: Bucket)
    requires (b == Bucket(p.subject, map[]) && !Mentions(ps, p.subject.id))
          || BucketHolds(policy, ps, p.subject.id, b)
    ensures exists i: nat :: FirstMention(ps + [p], i) && (ps + [p])[i].subject == b.identity && b.identity.id == p.subject.id
  {
    hide SaidAbout, MentionsAspect, ClaimsAt;
    if BucketHolds(policy, ps, p.subject.id, b) {
      var i: nat :| FirstMention(ps, i) && ps[i].subject == b.identity && b.identity.id == p.subject.id;
      assert FirstMention(ps + [p], i);
    } else {
      assert FirstMention(ps + [p], |ps|);
    }
  }

  lemma OtherHolds(policy: Policy, ps: seq<Placed>, p: Placed, id: u128, b: Bucket)
    requires BucketHolds(policy, ps, id, b) && p.subject.id != id
    ensures BucketHolds(policy, ps + [p], id, b)
  {
    hide SaidAbout, MentionsAspect, Mentions;
    forall a ensures a in b.aspects <==> MentionsAspect(ps + [p], id, a) {
      MentionsPush(ps, p, id, a);
    }
    forall a ensures ClaimsAt(b, a) == Upto(SaidAbout(ps + [p], id, a), WorkingSetCap(policy)) {
      SaidPush(ps, p, id, a);
    }
    var i: nat :| FirstMention(ps, i) && ps[i].subject == b.identity && b.identity.id == id;
    assert FirstMention(ps + [p], i);
  }

  /** A subject has a bucket unless the subject bound was reached before its first mention; its bucket
      holds, per aspect, exactly what was said about it, up to the working set cap. */
  lemma {:induction false} PlacedBucketsHold(policy: Policy, ps: seq<Placed>)
    ensures BucketsHold(policy, ps, PlaceAll(policy, ps))
  {
    hide BucketHolds, Put, Mentions;
    if ps != [] {
      var front, p := ps[..|ps| - 1], ps[|ps| - 1];
      assert ps == front + [p];
      PlacedBucketsHold(policy, front);
      PlaceHolds(policy, front, p, PlaceAll(policy, front));
    } else {
      NothingMentioned();
    }
  }

  lemma NothingMentioned()
    ensures forall id :: !Mentions([], id)
  {
  }

  lemma PlaceHolds(policy: Policy, ps: seq<Placed>, p: Placed, b: Buckets)
    requires BucketsHold(policy, ps, b)
    ensures BucketsHold(policy, ps + [p], Place(policy, b, p))
  {
    hide BucketHolds, Put, Mentions;
    var after, id := Place(policy, b, p), p.subject.id;
    forall k ensures Mentions(ps + [p], k) <==> Mentions(ps, k) || p.subject.id == k {
      MentionsPush(ps, p, k, []);
    }
    forall k | k in after.table ensures BucketHolds(policy, ps + [p], k, after.table[k]) {
      if k == id {
        if k in b.table {
          PutHolds(policy, ps, p, b.table[k]);
        } else {
          PutHolds(policy, ps, p, Bucket(p.subject, map[]));
        }
      } else {
        OtherHolds(policy, ps, p, k, b.table[k]);
      }
    }
    PlaceTruncates(policy, ps, p, b);
  }

  lemma PlaceTruncates(policy: Policy, ps: seq<Placed>, p: Placed, b: Buckets)
    requires BucketsHold(policy, ps, b)
    ensures var after := Place(policy, b, p);
            after.truncated <==> exists i :: 0 <= i < |ps + [p]| && (ps + [p])[i].subject.id !in after.table
  {
    hide BucketHolds, Put;
    var after, all := Place(policy, b, p), ps + [p];
    assert all[|ps|] == p;
    assert forall i :: 0 <= i < |ps| ==> all[i] == ps[i];
    if after.truncated {
      if b.truncated {
        var i :| 0 <= i < |ps| && ps[i].subject.id !in b.table;
        assert Mentions(ps, ps[i].subject.id);
        assert all[i].subject.id !in after.table;
      } else {
        assert all[|ps|].subject.id !in after.table;
      }
    }
  }

  // ---- the current incarnation ----

  /** The cursor of r's source is no earlier than r, the larger identity breaking ties. */
  predicate CursorCovers(m: map<u128, Cursor>, r: ObservationRecord) {
    var s := r.observation.source;
    && s in m
    && (m[s].received > r.receivedAt || (m[s].received == r.receivedAt && m[s].id >= r.observation.incarnation))
  }

  ghost predicate CursorHeard(m: map<u128, Cursor>, rs: seq<ObservationRecord>, s: u128)
    requires s in m
  {
    exists r :: r in rs && r.observation.source == s && m[s] == Cursor(r.receivedAt, r.observation.incarnation)
  }

  /** No record was received after the cursor of its source; and each cursor is that of a record. */
  ghost predicate CursorsAt(m: map<u128, Cursor>, rs: seq<ObservationRecord>) {
    (forall r :: r in rs ==> CursorCovers(m, r)) && forall s :: s in m ==> CursorHeard(m, rs, s)
  }

  lemma CoversStep(m: map<u128, Cursor>, r: ObservationRecord, last: ObservationRecord)
    ensures CursorCovers(m, r) ==> CursorCovers(StepCursor(m, last), r)
    ensures CursorCovers(StepCursor(m, last), last)
  {
  }

  lemma HeardStep(m: map<u128, Cursor>, rs: seq<ObservationRecord>, last: ObservationRecord, s: u128)
    requires s in StepCursor(m, last) && (s in m ==> CursorHeard(m, rs, s))
    ensures CursorHeard(StepCursor(m, last), rs + [last], s)
  {
    var after := StepCursor(m, last);
    if s in m && after[s] == m[s] {
      var r :| r in rs && r.observation.source == s && m[s] == Cursor(r.receivedAt, r.observation.incarnation);
      assert r in rs + [last];
    } else {
      assert last in rs + [last];
    }
  }

  lemma CursorStep(m: map<u128, Cursor>, rs: seq<ObservationRecord>, last: ObservationRecord)
    requires CursorsAt(m, rs)
    ensures CursorsAt(StepCursor(m, last), rs + [last])
  {
    hide CursorCovers, CursorHeard, StepCursor;
    forall r | r in rs + [last] ensures CursorCovers(StepCursor(m, last), r) {
      CoversStep(m, r, last);
    }
    forall s | s in StepCursor(m, last) ensures CursorHeard(StepCursor(m, last), rs + [last], s) {
      HeardStep(m, rs, last, s);
    }
  }

  /** The cursor of a source is the incarnation received last, whatever order the records came in. */
  lemma {:induction false} CursorIsLatest(rs: seq<ObservationRecord>)
    ensures CursorsAt(CursorsOf(rs), rs)
  {
    if rs != [] {
      hide CursorsAt, StepCursor;
      var front, last := rs[..|rs| - 1], rs[|rs| - 1];
      CursorIsLatest(front);
      CursorStep(CursorsOf(front), front, last);
      assert rs == front + [last];
    }
  }

  // ---- the latest statement ----

  ghost predicate IsLatest(cs: seq<ClaimRecord>, i: nat) {
    i < |cs| && forall j :: 0 <= j < |cs| && SpeakerOf(cs[j]) == SpeakerOf(cs[i]) ==> !Later(cs[j], cs[i])
  }

  lemma LaterMeans(c: ClaimRecord, d: ClaimRecord, e: ClaimRecord)
    ensures Later(c, d) && !Later(e, d) ==> !Later(e, c)
    ensures !Later(c, c)
    ensures Later(c, d) ==> !Later(d, c)
  {
  }

  lemma LatestPush(cs: seq<ClaimRecord>, c: ClaimRecord, i: nat)
    requires IsLatest(cs, i)
    ensures SpeakerOf(cs[i]) == SpeakerOf(c) && Later(c, cs[i]) ==> IsLatest(cs + [c], |cs|)
    ensures !(SpeakerOf(cs[i]) == SpeakerOf(c) && Later(c, cs[i])) ==> IsLatest(cs + [c], i)
  {
    hide Later;
    var all := cs + [c];
    if SpeakerOf(cs[i]) == SpeakerOf(c) && Later(c, cs[i]) {
      forall j | 0 <= j < |all| && SpeakerOf(all[j]) == SpeakerOf(c) ensures !Later(all[j], c) {
        LaterMeans(c, cs[i], all[j]);
        LaterMeans(c, c, c);
      }
    }
  }

  lemma LatestAlone(cs: seq<ClaimRecord>, c: ClaimRecord)
    requires forall x :: x in cs ==> SpeakerOf(x) != SpeakerOf(c)
    ensures IsLatest(cs + [c], |cs|)
  {
    forall j | 0 <= j < |cs| ensures SpeakerOf((cs + [c])[j]) != SpeakerOf(c) {
      assert cs[j] in cs;
    }
  }

  lemma {:induction false} LatestIsSpoken(cs: seq<ClaimRecord>)
    ensures forall k :: k in LatestOf(cs) ==> IsLatest(cs, LatestOf(cs)[k]) && SpeakerOf(cs[LatestOf(cs)[k]]) == k
  {
    if cs != [] {
      var n := |cs| - 1;
      var front, c := cs[..n], cs[n];
      assert cs == front + [c];
      LatestIsSpoken(front);
      var before := LatestOf(front);
      forall k | k in LatestOf(cs) ensures IsLatest(cs, LatestOf(cs)[k]) && SpeakerOf(cs[LatestOf(cs)[k]]) == k {
        LatestStep(front, c, before, k);
      }
    }
  }

  lemma LatestStep(front: seq<ClaimRecord>, c: ClaimRecord, before: map<Speaker, nat>, k: Speaker)
    requires before == LatestOf(front)
    requires k in before ==> IsLatest(front, before[k]) && SpeakerOf(front[before[k]]) == k
    requires k in LatestOf(front + [c])
    ensures IsLatest(front + [c], LatestOf(front + [c])[k]) && SpeakerOf((front + [c])[LatestOf(front + [c])[k]]) == k
  {
    hide IsLatest, Later;
    assert (front + [c])[..|front|] == front;
    if k in before {
      LatestInRange(front, before[k]);
      LatestPush(front, c, before[k]);
    } else {
      LatestAlone(front, c);
    }
  }

  lemma LatestInRange(cs: seq<ClaimRecord>, i: nat)
    requires IsLatest(cs, i)
    ensures i < |cs|
  {
  }

  /** Of everything one speaker says about an aspect exactly one statement is left as it is, none of the
      others is later, and all the others are flagged. */
  lemma OneLatestPerSpeaker(cs: seq<ClaimRecord>, i: nat) returns (latest: nat)
    requires i < |cs|
    ensures latest < |cs| && SpeakerOf(cs[latest]) == SpeakerOf(cs[i]) && MarkLatest(cs)[latest] == cs[latest]
    ensures forall j :: 0 <= j < |cs| && SpeakerOf(cs[j]) == SpeakerOf(cs[i]) ==>
              !Later(cs[j], cs[latest]) && (j != latest ==> MarkLatest(cs)[j] == cs[j].(olderSequence := true))
  {
    hide LatestOf, Later;
    LatestIsSpoken(cs);
    assert cs[i] in cs;
    latest := LatestOf(cs)[SpeakerOf(cs[i])];
    assert IsLatest(cs, latest);
  }

  // ---- where the claims of a snapshot come from ----

  /** c is the classification of a claim some retained record makes about this subject and aspect. */
  ghost predicate Said(digest: Observation -> Digest, f: Frame, rs: seq<ObservationRecord>, id: u128, aspect: Text, c: ClaimRecord) {
    exists r, k :: SaidBy(digest, f, rs, id, aspect, c, r, k)
  }

  ghost predicate SaidBy(digest: Observation -> Digest, f: Frame, rs: seq<ObservationRecord>, id: u128, aspect: Text, c: ClaimRecord, r: ObservationRecord, k: nat) {
    && r in rs && k < |r.observation.claims|
    && r.observation.claims[k].subject.id == id && r.observation.claims[k].aspect == aspect
    && c == Classify(digest, f, r, r.observation.claims[k])
  }

  lemma {:induction false} PlacedWereSaid(digest: Observation -> Digest, f: Frame, rs: seq<ObservationRecord>)
    ensures forall p :: p in AllClaims(digest, f, rs) ==> Said(digest, f, rs, p.subject.id, p.aspect, p.claim)
  {
    hide Classify, Said;
    if rs != [] {
      var front, r := rs[..|rs| - 1], rs[|rs| - 1];
      var ps := RecordClaims(digest, f, r, r.observation.claims);
      PlacedWereSaid(digest, f, front);
      forall p | p in AllClaims(digest, f, rs) ensures Said(digest, f, rs, p.subject.id, p.aspect, p.claim) {
        if p in AllClaims(digest, f, front) {
          SaidStill(digest, f, rs, p);
        } else {
          SaidLast(digest, f, rs, p);
        }
      }
    }
  }

  lemma SaidStill(digest: Observation -> Digest, f: Frame, rs: seq<ObservationRecord>, p: Placed)
    requires rs != [] && Said(digest, f, rs[..|rs| - 1], p.subject.id, p.aspect, p.claim)
    ensures Said(digest, f, rs, p.subject.id, p.aspect, p.claim)
  {
    hide Classify;
    var r, k :| SaidBy(digest, f, rs[..|rs| - 1], p.subject.id, p.aspect, p.claim, r, k);
    assert SaidBy(digest, f, rs, p.subject.id, p.aspect, p.claim, r, k);
  }

  lemma SaidLast(digest: Observation -> Digest, f: Frame, rs: seq<ObservationRecord>, p: Placed)
    requires rs != [] && p in RecordClaims(digest, f, rs[|rs| - 1], rs[|rs| - 1].observation.claims)
    ensures Said(digest, f, rs, p.subject.id, p.aspect, p.claim)
  {
    hide Classify;
    var r := rs[|rs| - 1];
    var k :| 0 <= k < |r.observation.claims| && p == RecordClaims(digest, f, r, r.observation.claims)[k];
    assert SaidBy(digest, f, rs, p.subject.id, p.aspect, p.claim, r, k);
  }

  lemma {:induction false} SaidAboutMembers(ps: seq<Placed>, id: u128, aspect: Text)
    ensures forall c :: (c in SaidAbout(ps, id, aspect)
                         <==> exists p :: p in ps && p.subject.id == id && p.aspect == aspect && p.claim == c)
  {
    if ps != [] {
      var front, last := ps[..|ps| - 1], ps[|ps| - 1];
      SaidAboutMembers(front, id, aspect);
      assert ps == front + [last];
      forall c ensures c in SaidAbout(ps, id, aspect)
                  <==> exists p :: p in ps && p.subject.id == id && p.aspect == aspect && p.claim == c
      {
        if p :| p in ps && p.subject.id == id && p.aspect == aspect && p.claim == c {
          if p in front {
            assert c in SaidAbout(front, id, aspect);
          }
        }
        if c in SaidAbout(front, id, aspect) {
          var p :| p in front && p.subject.id == id && p.aspect == aspect && p.claim == c;
          assert p in ps;
        }
      }
    }
  }

  function FrameOf(digest: Observation -> Digest, q: Request): Frame { MakeFrame(digest, q, InOrder(digest, q.records)) }

  function Filled(digest: Observation -> Digest, q: Request): Buckets {
    PlaceAll(q.policy, AllClaims(digest, FrameOf(digest, q), InOrder(digest, q.records)))
  }

  lemma BucketClaimsWereSaid(digest: Observation -> Digest, q: Request, id: u128, aspect: Text)
    requires id in Filled(digest, q).table
    ensures Filled(digest, q).table[id].identity.id == id
    ensures forall c :: c in ClaimsAt(Filled(digest, q).table[id], aspect)
              ==> Said(digest, FrameOf(digest, q), q.records, id, aspect, c)
  {
    hide InOrder, MakeFrame, AllClaims, PlaceAll, SaidAbout, Classify, Said;
    var f, sorted := FrameOf(digest, q), InOrder(digest, q.records);
    var ps := AllClaims(digest, f, sorted);
    var b := Filled(digest, q).table[id];
    PlacedBucketsHold(q.policy, ps);
    assert BucketHolds(q.policy, ps, id, b);
    forall c | c in ClaimsAt(b, aspect) ensures Said(digest, f, q.records, id, aspect, c) {
      assert c in SaidAbout(ps, id, aspect);
      SaidAboutMembers(ps, id, aspect);
      var p :| p in ps && p.subject.id == id && p.aspect == aspect && p.claim == c;
      PlacedWereSaid(digest, f, sorted);
      SortedWereSaid(digest, f, q.records, p);
    }
  }

  lemma SortedWereSaid(digest: Observation -> Digest, f: Frame, rs: seq<ObservationRecord>, p: Placed)
    requires Said(digest, f, InOrder(digest, rs), p.subject.id, p.aspect, p.claim)
    ensures Said(digest, f, rs, p.subject.id, p.aspect, p.claim)
  {
    hide Classify;
    var sorted := InOrder(digest, rs);
    Ordering.SortMembers(rs, RecordOrder(digest));
    var r, k :| SaidBy(digest, f, sorted, p.subject.id, p.aspect, p.claim, r, k);
    assert SaidBy(digest, f, rs, p.subject.id, p.aspect, p.claim, r, k);
  }

  /** Every subject of a snapshot is one bucket, and every aspect of it one of the bucket's lists. */
  lemma AspectShape(digest: Observation -> Digest, derive: Text -> u128, q: Request, s: SubjectState, a: AspectState)
    requires s in Build(digest, derive, q).subjects && a in s.aspects
    ensures var table := Filled(digest, q).table;
            && s.identity.id in table
            && a.aspect in table[s.identity.id].aspects
            && a == MakeAspect(q.policy, a.aspect, table[s.identity.id].aspects[a.aspect])
  {
    hide InOrder, MakeFrame, AllClaims, PlaceAll, MakeAspect, SortedTexts, SortedIds;
    var table := Filled(digest, q).table;
    var states := SubjectsOf(q.policy, derive, table);
    Ordering.SortMembers(states, SubjectLe);
    assert s in states;
    var i :| 0 <= i < |states| && states[i] == s;
    SubjectAt(q.policy, derive, table, i);
    var id := SortedIds(table.Keys)[i];
    BucketClaimsWereSaid(digest, q, id, a.aspect);
    var j :| 0 <= j < |s.aspects| && s.aspects[j] == a;
    AspectAt(q.policy, table[id], j);
    MadeAspectName(q.policy, SortedTexts(table[id].aspects.Keys)[j], table[id].aspects[SortedTexts(table[id].aspects.Keys)[j]]);
  }

  lemma MadeAspectName(policy: Policy, aspect: Text, cs: seq<ClaimRecord>)
    ensures MakeAspect(policy, aspect, cs).aspect == aspect
  {
    hide Retain, MarkLatest, Evaluate, CoverageFor;
  }

  // ---- one current voice per source ----

  function CurrentFrom(s: u128): ClaimRecord -> bool { (c: ClaimRecord) => IsCurrent(c) && c.source == s }

  function Voices(cs: seq<ClaimRecord>, s: u128): nat { |Ordering.Filter(cs, CurrentFrom(s))| }

  lemma FilterPermuted<T(!new)>(a: seq<T>, b: seq<T>, keep: T -> bool)
    requires multiset(a) == multiset(b)
    ensures multiset(Ordering.Filter(a, keep)) == multiset(Ordering.Filter(b, keep))
    ensures |Ordering.Filter(a, keep)| == |Ordering.Filter(b, keep)|
  {
    hide Ordering.Filter;
    var x, y := multiset(Ordering.Filter(a, keep)), multiset(Ordering.Filter(b, keep));
    forall e: T ensures x[e] == y[e] {
      Ordering.FilterCount(a, keep, e);
      Ordering.FilterCount(b, keep, e);
    }
    assert x == y;
    assert |x| == |y|;
  }

  lemma {:induction false} FilterOfPrefix<T>(s: seq<T>, n: nat, keep: T -> bool)
    requires n <= |s|
    ensures |Ordering.Filter(s[..n], keep)| <= |Ordering.Filter(s, keep)|
    decreases |s|
  {
    if n < |s| {
      FilterOfPrefix(s[..|s| - 1], n, keep);
      assert s[..|s| - 1][..n] == s[..n];
    } else {
      assert s[..n] == s;
    }
  }

  /** Two different positions that pass the test make the filtered sequence at least two long, and back. */
  lemma {:induction false} FilterTwice<T>(s: seq<T>, keep: T -> bool)
    ensures |Ordering.Filter(s, keep)| >= 1 <==> exists i :: 0 <= i < |s| && keep(s[i])
    ensures |Ordering.Filter(s, keep)| >= 2 <==> exists i, j :: 0 <= i < j < |s| && keep(s[i]) && keep(s[j])
  {
    if s != [] {
      var n := |s| - 1;
      var front := s[..n];
      FilterTwice(front, keep);
      assert forall i :: 0 <= i < n ==> front[i] == s[i];
    }
  }

  lemma MarkedVoices(cs: seq<ClaimRecord>, s: u128)
    requires forall c, d :: c in cs && d in cs && CurrentFrom(s)(c) && CurrentFrom(s)(d) ==> c.incarnation == d.incarnation
    ensures Voices(MarkLatest(cs), s) <= 1
  {
    hide MarkLatest;
    var m := MarkLatest(cs);
    FilterTwice(m, CurrentFrom(s));
    if i, j :| 0 <= i < j < |m| && CurrentFrom(s)(m[i]) && CurrentFrom(s)(m[j]) {
      MarkedAt(cs, i);
      MarkedAt(cs, j);
      assert cs[i] in cs && cs[j] in cs;
      var latest := OneLatestPerSpeaker(cs, i);
    }
  }

  lemma MarkedAt(cs: seq<ClaimRecord>, i: nat)
    requires i < |cs|
    ensures MarkLatest(cs)[i] == cs[i] || MarkLatest(cs)[i] == cs[i].(olderSequence := true)
    ensures IsCurrent(MarkLatest(cs)[i]) ==> MarkLatest(cs)[i] == cs[i] && IsCurrent(cs[i]) && !cs[i].olderSequence
  {
    hide LatestOf;
  }

  /** Retaining claims rearranges them, and may drop some. */
  lemma RetainedCount(policy: Policy, cs: seq<ClaimRecord>, keep: ClaimRecord -> bool)
    ensures |Ordering.Filter(Retain(policy, cs), keep)| <= |Ordering.Filter(cs, keep)|
    ensures forall c :: c in Retain(policy, cs) ==> c in cs
    ensures |cs| <= policy.maxClaimsPerAspect ==> multiset(Retain(policy, cs)) == multiset(cs)
    ensures |Retain(policy, cs)| == Min(|cs|, policy.maxClaimsPerAspect)
  {
    var sorted := Ordering.Sort(cs, ClaimRecordLe);
    Ordering.SortContents(cs, ClaimRecordLe);
    Ordering.SortMembers(cs, ClaimRecordLe);
    FilterPermuted(cs, sorted, keep);
    if |sorted| > policy.maxClaimsPerAspect {
      var ranked := Ordering.Sort(sorted, RankLe);
      Ordering.SortContents(sorted, RankLe);
      Ordering.SortMembers(sorted, RankLe);
      FilterPermuted(sorted, ranked, keep);
      var best := ranked[..policy.maxClaimsPerAspect];
      FilterOfPrefix(ranked, policy.maxClaimsPerAspect, keep);
      Ordering.SortContents(best, ClaimRecordLe);
      Ordering.SortMembers(best, ClaimRecordLe);
      FilterPermuted(best, Ordering.Sort(best, ClaimRecordLe), keep);
      forall c | c in Retain(policy, cs) ensures c in cs {
        assert c in best;
        assert c in ranked;
      }
    }
  }

  /** Per subject and aspect a source has at most one current claim in any snapshot. */
  lemma OneCurrentClaimPerSource(digest: Observation -> Digest, derive: Text -> u128, q: Request, s: SubjectState, a: AspectState, source: u128)
    requires s in Build(digest, derive, q).subjects && a in s.aspects
    ensures Voices(a.claims, source) <= 1
  {
    hide Build, MakeFrame, PlaceAll, AllClaims, Retain, MarkLatest, Evaluate, CoverageFor;
    AspectShape(digest, derive, q, s, a);
    var id := s.identity.id;
    var cs := ClaimsAt(Filled(digest, q).table[id], a.aspect);
    BucketClaimsWereSaid(digest, q, id, a.aspect);
    forall c, d | c in cs && d in cs && CurrentFrom(source)(c) && CurrentFrom(source)(d)
      ensures c.incarnation == d.incarnation
    {
      CurrentIncarnation(digest, q, id, a.aspect, c);
      CurrentIncarnation(digest, q, id, a.aspect, d);
    }
    MarkedVoices(cs, source);
    RetainedCount(q.policy, MarkLatest(cs), CurrentFrom(source));
  }

  lemma CurrentIncarnation(digest: Observation -> Digest, q: Request, id: u128, aspect: Text, c: ClaimRecord)
    requires Said(digest, FrameOf(digest, q), q.records, id, aspect, c) && IsCurrent(c)
    ensures var m := CursorsOf(InOrder(digest, q.records)); c.source in m && m[c.source].id == c.incarnation
  {
    hide CursorsOf, EpochWithin, FenceTable, AuthorityTable, InOrder, EvaluateFreshness, Observatories.HighWater;
    var f := FrameOf(digest, q);
    var r, k :| SaidBy(digest, f, q.records, id, aspect, c, r, k);
    InOrderMembers(digest, q.records);
    CursorIsLatest(InOrder(digest, q.records));
  }

  lemma InOrderMembers(digest: Observation -> Digest, rs: seq<ObservationRecord>)
    ensures forall r :: r in InOrder(digest, rs) <==> r in rs
  {
    Ordering.SortMembers(rs, RecordOrder(digest));
  }

  lemma OneVoice(cs: seq<ClaimRecord>, s: u128, c: ClaimRecord, d: ClaimRecord)
    requires Voices(cs, s) <= 1 && c in cs && d in cs && CurrentFrom(s)(c) && CurrentFrom(s)(d)
    ensures c == d
  {
    hide Ordering.Filter;
    FilterTwice(cs, CurrentFrom(s));
    var x :| 0 <= x < |cs| && cs[x] == c;
    var y :| 0 <= y < |cs| && cs[y] == d;
  }

  /** So a source never stands on two sides of a conflict. */
  lemma OneSidePerSource(digest: Observation -> Digest, derive: Text -> u128, q: Request, s: SubjectState, a: AspectState, i: nat, j: nat, source: u128)
    requires s in Build(digest, derive, q).subjects && a in s.aspects
    requires i < |a.conflicts| && j < |a.conflicts| && source in a.conflicts[i].sources && source in a.conflicts[j].sources
    ensures i == j
  {
    hide Build, Retain, MarkLatest, CoverageFor, Report, BestAuthority, SortedIds, Filled;
    OneCurrentClaimPerSource(digest, derive, q, s, a, source);
    AspectShape(digest, derive, q, s, a);
    var as_ := Assertive(a.claims);
    assert a.conflicts == ConflictGroups(as_);
    var c := SpokenInGroup(as_, i, source);
    var d := SpokenInGroup(as_, j, source);
    Ordering.FilterMembers(a.claims, IsAssertive);
    OneVoice(a.claims, source, c, d);
    DistinctGroups(as_, i, j);
  }

  lemma SpokenInGroup(cs: seq<ClaimRecord>, i: nat, source: u128) returns (c: ClaimRecord)
    requires i < |ConflictGroups(cs)| && source in ConflictGroups(cs)[i].sources
    ensures c in cs && c.source == source && c.value == ConflictGroups(cs)[i].value
  {
    hide ConflictGroups;
    ConflictAt(cs, i);
    c :| c in cs && c.source == source && c.value == ConflictGroups(cs)[i].value;
  }

  lemma DistinctGroups(cs: seq<ClaimRecord>, i: nat, j: nat)
    requires i < |ConflictGroups(cs)| && j < |ConflictGroups(cs)|
    ensures ConflictGroups(cs)[i].value == ConflictGroups(cs)[j].value ==> i == j
  {
    hide ConflictGroups, SortedIds;
    ConflictAt(cs, i);
    ConflictAt(cs, j);
    var vs := SortedValues(ValuesIn(cs));
    if i < j {
      Values.CompareLaws(vs[i], vs[j]);
    } else if j < i {
      Values.CompareLaws(vs[j], vs[i]);
    }
  }

  // ---- what stands behind an assertion ----

  /** Its generation and epoch are the newest retained, no other incarnation of its source was heard later
      (the larger identity breaking ties), it is supported, fresh, and carries no fence. */
  ghost predicate Supports(digest: Observation -> Digest, q: Request, r: ObservationRecord, claim: Claim) {
    var o := r.observation;
    && claim.supported
    && (forall x :: x in q.records ==>
          x.observation.generation < o.generation
          || (x.observation.generation == o.generation && x.observation.epoch <= o.epoch))
    && (forall x :: x in q.records && x.observation.source == o.source ==> Outlasted(q.records, o, x))
    && (r.recovered ==> q.policy.freshness.allowRecovered)
    && Max(0, Min(q.evaluationTime - Min(o.observedAt, r.receivedAt), I64_MAX)) <= q.policy.freshness.freshWindow
    && (forall f :: f in q.fencedClaims ==> KeyOfFence(f) != FenceKey(digest(o), claim.subject.id, claim.aspect))
  }

  /** y is a record of o's incarnation that was received no earlier than x. */
  predicate OutlastedBy(rs: seq<ObservationRecord>, o: Observation, x: ObservationRecord, y: ObservationRecord) {
    && y in rs && y.observation.source == o.source && y.observation.incarnation == o.incarnation
    && (x.receivedAt < y.receivedAt || (x.receivedAt == y.receivedAt && x.observation.incarnation <= o.incarnation))
  }

  /** The record r really says what c asserts, and supports it. */
  ghost predicate Backs(digest: Observation -> Digest, q: Request, id: u128, aspect: Text, c: ClaimRecord, r: ObservationRecord, k: nat) {
    var o := r.observation;
    && r in q.records && k < |o.claims|
    && o.claims[k].subject.id == id && o.claims[k].aspect == aspect
    && o.claims[k].value == c.value && o.claims[k].revision == c.revision
    && c.source == o.source && c.incarnation == o.incarnation && c.sequence == o.sequence && c.observationId == digest(o)
    && Supports(digest, q, r, o.claims[k])
  }

  lemma {:induction false} HighWaterIsMax(rs: seq<ObservationRecord>)
    ensures forall r :: r in rs ==> r.observation.generation <= Observatories.HighWater(rs)
  {
    if rs != [] {
      HighWaterIsMax(rs[..|rs| - 1]);
      assert rs == rs[..|rs| - 1] + [rs[|rs| - 1]];
    }
  }

  lemma {:induction false} EpochWithinIsMax(rs: seq<ObservationRecord>, generation: u64)
    ensures forall r :: r in rs && r.observation.generation == generation ==> r.observation.epoch <= EpochWithin(rs, generation)
  {
    if rs != [] {
      EpochWithinIsMax(rs[..|rs| - 1], generation);
      assert rs == rs[..|rs| - 1] + [rs[|rs| - 1]];
    }
  }

  lemma {:induction false} FenceTableKeys(fs: seq<Observatories.FencedClaim>)
    ensures forall f :: f in fs ==> KeyOfFence(f) in FenceTable(fs)
    ensures forall k :: k in FenceTable(fs) ==> exists f :: f in fs && KeyOfFence(f) == k && FenceTable(fs)[k] == f.fence
  {
    if fs != [] {
      var front, last := fs[..|fs| - 1], fs[|fs| - 1];
      FenceTableKeys(front);
      assert fs == front + [last];
      assert last in fs && forall f :: f in front ==> f in fs;
    }
  }

  /** A record of o's incarnation was received no earlier than x, the larger identity breaking ties. */
  ghost predicate Outlasted(rs: seq<ObservationRecord>, o: Observation, x: ObservationRecord) {
    exists y :: OutlastedBy(rs, o, x, y)
  }

  /** A claim of a retained record is classified as assertive exactly when it has all of that. */
  lemma AssertiveMeaning(digest: Observation -> Digest, q: Request, r: ObservationRecord, claim: Claim)
    requires r in q.records
    ensures IsAssertive(Classify(digest, FrameOf(digest, q), r, claim)) <==> Supports(digest, q, r, claim)
  {
    hide CursorsOf, EpochWithin, FenceTable, AuthorityTable, InOrder, EvaluateFreshness, Observatories.HighWater, Outlasted;
    var f, sorted, o := FrameOf(digest, q), InOrder(digest, q.records), r.observation;
    InOrderMembers(digest, q.records);
    NewestMeaning(sorted, r);
    FencedMeaning(q.fencedClaims, FenceKey(digest(o), claim.subject.id, claim.aspect));
    FreshnessMeaning(EvidenceTime(o.observedAt, r.receivedAt), q.evaluationTime, q.evaluationTime, q.policy.freshness, r.recovered);
    CursorMeaning(sorted, r);
    SameOutlasted(q.records, sorted, o);
  }

  lemma SameOutlasted(rs: seq<ObservationRecord>, sorted: seq<ObservationRecord>, o: Observation)
    requires forall x :: x in rs <==> x in sorted
    ensures forall x :: Outlasted(rs, o, x) <==> Outlasted(sorted, o, x)
  {
    forall x, y ensures OutlastedBy(rs, o, x, y) <==> OutlastedBy(sorted, o, x, y) {
    }
  }

  lemma {:induction false} HighWaterIsThere(rs: seq<ObservationRecord>)
    ensures rs != [] ==> exists r :: r in rs && r.observation.generation == Observatories.HighWater(rs)
  {
    if rs != [] {
      var front, last := rs[..|rs| - 1], rs[|rs| - 1];
      assert rs == front + [last];
      HighWaterIsThere(front);
      assert last in rs && Observatories.HighWater([]) == 0;
      if front != [] && Observatories.HighWater(front) >= last.observation.generation {
        var r :| r in front && r.observation.generation == Observatories.HighWater(front);
        assert r in rs;
      }
    }
  }

  lemma {:induction false} EpochWithinIsThere(rs: seq<ObservationRecord>, generation: u64)
    ensures EpochWithin(rs, generation) == 0
         || exists r :: r in rs && r.observation.generation == generation && r.observation.epoch == EpochWithin(rs, generation)
  {
    if rs != [] {
      var front, last := rs[..|rs| - 1], rs[|rs| - 1];
      assert rs == front + [last];
      EpochWithinIsThere(front, generation);
      if EpochWithin(rs, generation) == EpochWithin(front, generation) {
        if EpochWithin(front, generation) != 0 {
          var r :| r in front && r.observation.generation == generation && r.observation.epoch == EpochWithin(front, generation);
          assert r in rs;
        }
      } else {
        assert last in rs;
      }
    }
  }

  lemma NewestMeaning(rs: seq<ObservationRecord>, r: ObservationRecord)
    requires r in rs
    ensures var o, high := r.observation, Observatories.HighWater(rs);
            (!(o.generation < high) && !(o.generation == high && o.epoch < EpochWithin(rs, high)))
            <==> forall x :: x in rs ==>
                   x.observation.generation < o.generation
                   || (x.observation.generation == o.generation && x.observation.epoch <= o.epoch)
  {
    hide Observatories.HighWater, EpochWithin;
    var high := Observatories.HighWater(rs);
    HighWaterIsMax(rs);
    HighWaterIsThere(rs);
    EpochWithinIsMax(rs, high);
    EpochWithinIsThere(rs, high);
  }

  lemma FencedMeaning(fs: seq<Observatories.FencedClaim>, key: FenceKey)
    ensures key !in FenceTable(fs) <==> forall f :: f in fs ==> KeyOfFence(f) != key
  {
    hide FenceTable;
    FenceTableKeys(fs);
  }

  lemma CursorMeaning(rs: seq<ObservationRecord>, r: ObservationRecord)
    requires r in rs
    ensures var m, o := CursorsOf(rs), r.observation;
            && o.source in m
            && (m[o.source].id == o.incarnation
                <==> forall x :: x in rs && x.observation.source == o.source ==> Outlasted(rs, o, x))
  {
    hide CursorsOf;
    CursorIsLatest(rs);
    var m, o := CursorsOf(rs), r.observation;
    var z :| z in rs && z.observation.source == o.source && m[o.source] == Cursor(z.receivedAt, z.observation.incarnation);
    forall x | x in rs && x.observation.source == o.source
      ensures m[o.source].received > x.receivedAt
           || (m[o.source].received == x.receivedAt && m[o.source].id >= x.observation.incarnation)
    {
    }
    HeardLast(rs, o, z);
  }

  /** z was received last, the larger identity breaking ties: its incarnation is o's exactly when o's outlasts
      every record of the source. */
  lemma HeardLast(rs: seq<ObservationRecord>, o: Observation, z: ObservationRecord)
    requires z in rs && z.observation.source == o.source
    requires forall x :: x in rs && x.observation.source == o.source ==>
               z.receivedAt > x.receivedAt || (z.receivedAt == x.receivedAt && z.observation.incarnation >= x.observation.incarnation)
    ensures z.observation.incarnation == o.incarnation
       <==> forall x :: x in rs && x.observation.source == o.source ==> Outlasted(rs, o, x)
  {
    hide Outlasted, OutlastedBy;
    if z.observation.incarnation == o.incarnation {
      forall x | x in rs && x.observation.source == o.source ensures Outlasted(rs, o, x) {
        assert OutlastedBy(rs, o, x, z) by { LastIsLater(rs, o, x, z); }
        LastOutlasts(rs, o, x, z);
      }
    } else {
      OthersDoNot(rs, o, z);
    }
  }

  lemma LastIsLater(rs: seq<ObservationRecord>, o: Observation, x: ObservationRecord, z: ObservationRecord)
    requires z in rs && z.observation.source == o.source && z.observation.incarnation == o.incarnation
    requires z.receivedAt > x.receivedAt || (z.receivedAt == x.receivedAt && z.observation.incarnation >= x.observation.incarnation)
    ensures OutlastedBy(rs, o, x, z)
  {
  }

  lemma LastOutlasts(rs: seq<ObservationRecord>, o: Observation, x: ObservationRecord, z: ObservationRecord)
    requires OutlastedBy(rs, o, x, z)
    ensures Outlasted(rs, o, x)
  {
  }

  lemma OthersDoNot(rs: seq<ObservationRecord>, o: Observation, z: ObservationRecord)
    requires z in rs && z.observation.source == o.source && z.observation.incarnation != o.incarnation
    requires forall x :: x in rs && x.observation.source == o.source ==>
               z.receivedAt > x.receivedAt || (z.receivedAt == x.receivedAt && z.observation.incarnation >= x.observation.incarnation)
    ensures !Outlasted(rs, o, z)
  {
  }

  lemma SaidAndAssertive(digest: Observation -> Digest, q: Request, id: u128, aspect: Text, c: ClaimRecord, r: ObservationRecord, k: nat)
    requires SaidBy(digest, FrameOf(digest, q), q.records, id, aspect, c, r, k) && IsAssertive(c)
    ensures Backs(digest, q, id, aspect, c, r, k)
  {
    hide Supports, FrameOf, IsAssertive, EvaluateFreshness;
    AssertiveMeaning(digest, q, r, r.observation.claims[k]);
  }

  /** Every assertive claim of a snapshot is backed by a retained record. */
  lemma AssertionsAreBacked(digest: Observation -> Digest, derive: Text -> u128, q: Request, s: SubjectState, a: AspectState, c: ClaimRecord)
    requires s in Build(digest, derive, q).subjects && a in s.aspects && c in a.claims && IsAssertive(c)
    ensures exists r, k :: Backs(digest, q, s.identity.id, a.aspect, c, r, k)
  {
    hide Build, FrameOf, PlaceAll, AllClaims, Retain, MarkLatest, Evaluate, CoverageFor, Backs;
    AspectShape(digest, derive, q, s, a);
    var id := s.identity.id;
    var cs := ClaimsAt(Filled(digest, q).table[id], a.aspect);
    BucketClaimsWereSaid(digest, q, id, a.aspect);
    RetainedCount(q.policy, MarkLatest(cs), IsAssertive);
    var i :| 0 <= i < |cs| && MarkLatest(cs)[i] == c;
    MarkedAt(cs, i);
    assert c in cs;
    var r, k :| SaidBy(digest, FrameOf(digest, q), q.records, id, a.aspect, c, r, k);
    SaidAndAssertive(digest, q, id, a.aspect, c, r, k);
  }

  // ---- nothing accepted is silently missing ----

  /** The record a claim becomes, whether or not a later statement supersedes it. */
  predicate SameButForSequence(c: ClaimRecord, d: ClaimRecord) { d == c || d == c.(olderSequence := true) }

  lemma {:induction false} EveryClaimPlaced(digest: Observation -> Digest, f: Frame, rs: seq<ObservationRecord>, r: ObservationRecord, k: nat)
    requires r in rs && k < |r.observation.claims|
    ensures PlacedClaim(digest, f, r, r.observation.claims[k]) in AllClaims(digest, f, rs)
  {
    hide PlacedClaim;
    var front, last := rs[..|rs| - 1], rs[|rs| - 1];
    if r == last {
      assert RecordClaims(digest, f, r, r.observation.claims)[k] == PlacedClaim(digest, f, r, r.observation.claims[k]);
    } else {
      assert rs == front + [last];
      EveryClaimPlaced(digest, f, front, r, k);
    }
  }

  /** What the view says about a subject and aspect, before anything is left out: every claim the retained
      records make about it, in canonical order, with all but the latest of each speaker flagged. */
  function Judged(digest: Observation -> Digest, q: Request, id: u128, aspect: Text): seq<ClaimRecord> {
    MarkLatest(SaidAbout(AllClaims(digest, FrameOf(digest, q), InOrder(digest, q.records)), id, aspect))
  }

  /** A claim of a retained record shows up under its subject and aspect, if the subject has a place in the
      view and its aspect has no more claims than the view keeps. */
  lemma EveryClaimIsShown(digest: Observation -> Digest, derive: Text -> u128, q: Request, r: ObservationRecord, k: nat)
    returns (s: SubjectState, a: AspectState, c: ClaimRecord)
    requires r in q.records && k < |r.observation.claims|
    requires r.observation.claims[k].subject.id in Filled(digest, q).table
    requires |Judged(digest, q, r.observation.claims[k].subject.id, r.observation.claims[k].aspect)| <= q.policy.maxClaimsPerAspect
    ensures s in Build(digest, derive, q).subjects && a in s.aspects && c in a.claims
    ensures s.identity.id == r.observation.claims[k].subject.id && a.aspect == r.observation.claims[k].aspect
    ensures SameButForSequence(Classify(digest, FrameOf(digest, q), r, r.observation.claims[k]), c)
  {
    hide MakeFrame, AllClaims, InOrder, SaidAbout, Retain, Build, Classify;
    var claim := r.observation.claims[k];
    var id, said := claim.subject.id, SaidAbout(AllClaims(digest, FrameOf(digest, q), InOrder(digest, q.records)), claim.subject.id, claim.aspect);
    var i := WasSaid(digest, q, r, k);
    MarkedAt(said, i);
    c := Judged(digest, q, id, claim.aspect)[i];
    CapIsRoomy(q.policy);
    s, a := AspectIsShown(digest, derive, q, r, k);
    RetainedAll(q.policy, Judged(digest, q, id, claim.aspect), c);
  }

  /** The position of a record's claim among everything said about its subject and aspect. */
  lemma WasSaid(digest: Observation -> Digest, q: Request, r: ObservationRecord, k: nat) returns (i: nat)
    requires r in q.records && k < |r.observation.claims|
    ensures var claim := r.observation.claims[k];
            var said := SaidAbout(AllClaims(digest, FrameOf(digest, q), InOrder(digest, q.records)), claim.subject.id, claim.aspect);
            i < |said| && said[i] == Classify(digest, FrameOf(digest, q), r, claim)
  {
    hide Classify, MakeFrame, AllClaims, InOrder, SaidAbout;
    var f, sorted := FrameOf(digest, q), InOrder(digest, q.records);
    var ps, claim := AllClaims(digest, f, sorted), r.observation.claims[k];
    var p := PlacedClaim(digest, f, r, claim);
    InOrderMembers(digest, q.records);
    EveryClaimPlaced(digest, f, sorted, r, k);
    SaidAboutMembers(ps, claim.subject.id, claim.aspect);
    assert p.claim in SaidAbout(ps, claim.subject.id, claim.aspect);
    i :| 0 <= i < |SaidAbout(ps, claim.subject.id, claim.aspect)| && SaidAbout(ps, claim.subject.id, claim.aspect)[i] == p.claim;
  }

  /** The aspect of a claim whose subject has a place in the view, with all that was judged about it. */
  lemma AspectIsShown(digest: Observation -> Digest, derive: Text -> u128, q: Request, r: ObservationRecord, k: nat)
    returns (s: SubjectState, a: AspectState)
    requires r in q.records && k < |r.observation.claims|
    requires r.observation.claims[k].subject.id in Filled(digest, q).table
    requires |Judged(digest, q, r.observation.claims[k].subject.id, r.observation.claims[k].aspect)| <= WorkingSetCap(q.policy)
    ensures s in Build(digest, derive, q).subjects && a in s.aspects
    ensures s.identity.id == r.observation.claims[k].subject.id && a.aspect == r.observation.claims[k].aspect
    ensures var judged := Judged(digest, q, s.identity.id, a.aspect);
            var e := Evaluate(CoverageFor(q.policy.truth, a.aspect), Retain(q.policy, judged));
            a.claims == Retain(q.policy, judged) && a.truth == e.truth && a.agreed == e.agreed
  {
    hide Classify, MakeFrame, AllClaims, PlaceAll, InOrder, SaidAbout, MarkLatest, Retain, Evaluate, CoverageFor;
    hide MakeSubject, MakeAspect, SubjectsOf, AspectsOf;
    var f, sorted := FrameOf(digest, q), InOrder(digest, q.records);
    var ps, claim := AllClaims(digest, f, sorted), r.observation.claims[k];
    var id := claim.subject.id;
    InOrderMembers(digest, q.records);
    EveryClaimPlaced(digest, f, sorted, r, k);
    var n :| 0 <= n < |ps| && ps[n] == PlacedClaim(digest, f, r, claim);
    PlacedBucketsHold(q.policy, ps);
    var table := Filled(digest, q).table;
    assert BucketHolds(q.policy, ps, id, table[id]);
    assert MentionsAspect(ps, id, claim.aspect);
    assert ClaimsAt(table[id], claim.aspect) == SaidAbout(ps, id, claim.aspect);
    s, a := ShownAt(digest, derive, q, id, claim.aspect);
    MadeAspectClaims(q.policy, claim.aspect, table[id].aspects[claim.aspect]);
  }

  lemma CapIsRoomy(policy: Policy)
    ensures WorkingSetCap(policy) >= policy.maxClaimsPerAspect
  {
  }

  lemma RetainedAll(policy: Policy, cs: seq<ClaimRecord>, c: ClaimRecord)
    requires |cs| <= policy.maxClaimsPerAspect && c in cs
    ensures c in Retain(policy, cs)
  {
    hide Retain;
    RetainedCount(policy, cs, IsAssertive);
    assert c in multiset(cs);
    assert c in multiset(Retain(policy, cs));
  }

  lemma MadeAspectClaims(policy: Policy, aspect: Text, cs: seq<ClaimRecord>)
    ensures var a, e := MakeAspect(policy, aspect, cs), Evaluate(CoverageFor(policy.truth, aspect), Retain(policy, MarkLatest(cs)));
            a.claims == Retain(policy, MarkLatest(cs)) && a.aspect == aspect && a.truth == e.truth && a.agreed == e.agreed
  {
    hide Retain, MarkLatest, Evaluate, CoverageFor;
  }

  lemma ShownAt(digest: Observation -> Digest, derive: Text -> u128, q: Request, id: u128, aspect: Text)
    returns (s: SubjectState, a: AspectState)
    requires id in Filled(digest, q).table && aspect in Filled(digest, q).table[id].aspects
    ensures s in Build(digest, derive, q).subjects && a in s.aspects && s.identity.id == id
    ensures a == MakeAspect(q.policy, aspect, Filled(digest, q).table[id].aspects[aspect])
  {
    hide InOrder, MakeFrame, AllClaims, PlaceAll, MakeAspect, SortedTexts, SortedIds;
    var table := Filled(digest, q).table;
    var states := SubjectsOf(q.policy, derive, table);
    Ordering.SortMembers(states, SubjectLe);
    assert id in SortedIds(table.Keys);
    var i :| 0 <= i < |states| && SortedIds(table.Keys)[i] == id;
    SubjectAt(q.policy, derive, table, i);
    s := states[i];
    BucketClaimsWereSaid(digest, q, id, aspect);
    assert aspect in SortedTexts(table[id].aspects.Keys);
    var j :| 0 <= j < |s.aspects| && SortedTexts(table[id].aspects.Keys)[j] == aspect;
    AspectAt(q.policy, table[id], j);
    a := s.aspects[j];
  }
}
