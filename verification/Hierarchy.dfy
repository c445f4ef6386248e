/** Observed topology: the ancestor walk and the explicit-stack traversal over an arbitrary parent
    relation, cycles included (src/query.cpp). */
module Hierarchy {
  import opened Bytes
  import opened Observations
  import opened Snapshots
  import Ids
  import Ordering
  import Truth
  import Views

  // ---- ancestors ----

  /** The n-th ancestor of x, if there is one. */
  function Up(parents: map<u128, u128>, x: u128, n: nat): Option<u128> {
    if n == 0 then Some(x)
    else match Up(parents, x, n - 1)
      case None => None
      case Some(y) => if y in parents then Some(parents[y]) else None
  }

  lemma {:induction false} UpAdds(parents: map<u128, u128>, x: u128, n: nat, m: nat)
    ensures Up(parents, x, n + m) == (match Up(parents, x, n) case None => None case Some(y) => Up(parents, y, m))
  {
    if m > 0 {
      UpAdds(parents, x, n, m - 1);
    }
  }

  /** Whether root is an ancestor of x at exactly distance n and no nearer. */
  ghost predicate LeastDistance(parents: map<u128, u128>, x: u128, root: u128, n: nat) {
    Up(parents, x, n) == Some(root) && forall k :: 0 <= k < n ==> Up(parents, x, k) != Some(root)
  }

  ghost predicate Within(parents: map<u128, u128>, x: u128, root: u128, bound: nat) {
    exists n :: 0 <= n <= bound && Up(parents, x, n) == Some(root)
  }

  /** When an ancestor repeats, the walk is in a cycle and meets nothing it has not met. */
  lemma {:induction false} CycleMeetsNothingNew(parents: map<u128, u128>, x: u128, root: u128, j: nat, k: nat, n: nat)
    requires j < k && Up(parents, x, j) == Up(parents, x, k)
    requires forall i :: 0 <= i < k ==> Up(parents, x, i) != Some(root)
    ensures Up(parents, x, n) != Some(root)
    decreases n
  {
    hide Up;
    if n >= k {
      UpAdds(parents, x, k, n - k);
      UpAdds(parents, x, j, n - k);
      CycleMeetsNothingNew(parents, x, root, j, k, n - k + j);
    }
  }

  lemma {:induction false} EndMeetsNothingMore(parents: map<u128, u128>, x: u128, k: nat, n: nat)
    requires Up(parents, x, k) == None && n >= k
    ensures Up(parents, x, n) == None
  {
    if n > k {
      EndMeetsNothingMore(parents, x, k, n - 1);
    }
  }

  /** depth_from_root: the least distance up to root, when it is within the bound; cycles and ends of the
      chain are told apart from it correctly. */
  method DepthFromRoot(parents: map<u128, u128>, start: u128, root: u128, maxDepth: u32) returns (r: Option<nat>)
    ensures r.Some? ==> r.value <= maxDepth && LeastDistance(parents, start, root, r.value)
    ensures r.None? <==> !Within(parents, start, root, maxDepth)
  {
    if start == root {
      assert Up(parents, start, 0) == Some(root);
      return Some(0);
    }
    var cursor, depth := start, 0;
    var visited: set<u128> := {};
    while depth < maxDepth
      invariant depth <= maxDepth
      invariant Up(parents, start, depth) == Some(cursor)
      invariant forall k :: 0 <= k <= depth ==> Up(parents, start, k) != Some(root)
      invariant forall v :: v in visited ==> exists k :: 1 <= k <= depth && Up(parents, start, k) == Some(v)
    {
      assert Up(parents, start, depth + 1) == if cursor in parents then Some(parents[cursor]) else None;
      hide Up;
      if cursor !in parents {
        forall n | 0 <= n <= maxDepth ensures Up(parents, start, n) != Some(root) {
          if n > depth {
            EndMeetsNothingMore(parents, start, depth + 1, n);
          }
        }
        return None;
      }
      var up := parents[cursor];
      if up in visited {
        var k :| 1 <= k <= depth && Up(parents, start, k) == Some(up);
        forall n | 0 <= n <= maxDepth ensures Up(parents, start, n) != Some(root) {
          CycleMeetsNothingNew(parents, start, root, k, depth + 1, n);
        }
        return None;
      }
      visited := visited + {up};
      depth := depth + 1;
      if up == root {
        return Some(depth);
      }
      cursor := up;
    }
    return None;
  }

  // ---- the observed forest ----

  predicate DistinctIds(subjects: seq<SubjectState>) {
    forall i, j :: 0 <= i < j < |subjects| ==> subjects[i].identity.id != subjects[j].identity.id
  }

  function IdsOf(subjects: seq<SubjectState>): set<u128> { set s | s in subjects :: s.identity.id }

  /** Edges between subjects that are both present. */
  function ParentsOf(subjects: seq<SubjectState>, all: set<u128>): map<u128, u128> {
    if subjects == [] then map[]
    else
      var before, s := ParentsOf(subjects[..|subjects| - 1], all), subjects[|subjects| - 1];
      if s.parent.Some? && s.parent.value in all then before[s.identity.id := s.parent.value] else before
  }

  function Forest(subjects: seq<SubjectState>): map<u128, u128> { ParentsOf(subjects, IdsOf(subjects)) }

  /** The ids of x's children, in the order their subjects come. */
  function ChildIds(subjects: seq<SubjectState>, x: u128): seq<u128> {
    if subjects == [] then []
    else
      var before, s := ChildIds(subjects[..|subjects| - 1], x), subjects[|subjects| - 1];
      if s.parent == Some(x) then before + [s.identity.id] else before
  }

  function IdLe(a: u128, b: u128): bool { a <= b }

  function Children(subjects: seq<SubjectState>, x: u128): seq<u128> { Ordering.Sort(ChildIds(subjects, x), IdLe) }

  datatype Query = Query(rootKind: Option<byte>, root: Option<u128>, maxDepth: u32, limit: u32, includeUnattached: bool)

  predicate Eligible(q: Query, s: SubjectState) {
    if q.root.Some? then s.identity.id == q.root.value
    else if q.rootKind.Some? then Ids.KindOf(s.identity.typed) == q.rootKind.value
    else true
  }

  function RootIds(subjects: seq<SubjectState>, all: set<u128>, q: Query): seq<u128> {
    if subjects == [] then []
    else
      var before, s := RootIds(subjects[..|subjects| - 1], all, q), subjects[|subjects| - 1];
      if !(s.parent.Some? && s.parent.value in all) && Eligible(q, s) then before + [s.identity.id] else before
  }

  /** Subjects without a present parent that the query selects, in id order. */
  function Roots(subjects: seq<SubjectState>, q: Query): seq<u128> {
    Ordering.Sort(RootIds(subjects, IdsOf(subjects), q), IdLe)
  }

  // ---- the recursive meaning of the traversal ----

  datatype Place = Place(id: u128, depth: nat)

  /** x and everything below it in sorted preorder, down to depth max. */
  function Preorder(subjects: seq<SubjectState>, x: u128, depth: nat, max: nat): seq<Place>
    decreases max + 1 - Min(depth, max + 1), 0
  {
    if depth > max then [] else [Place(x, depth)] + PreorderAll(subjects, Children(subjects, x), depth + 1, max)
  }

  function PreorderAll(subjects: seq<SubjectState>, xs: seq<u128>, depth: nat, max: nat): seq<Place>
    decreases max + 1 - Min(depth, max + 1), 1, |xs|
  {
    if xs == [] then [] else Preorder(subjects, xs[0], depth, max) + PreorderAll(subjects, xs[1..], depth, max)
  }

  // ---- facts about the forest ----

  lemma {:induction false} ForestEdges(subjects: seq<SubjectState>, all: set<u128>)
    requires DistinctIds(subjects)
    ensures forall s :: s in subjects ==>
              (s.identity.id in ParentsOf(subjects, all) <==> s.parent.Some? && s.parent.value in all)
              && (s.identity.id in ParentsOf(subjects, all) ==> ParentsOf(subjects, all)[s.identity.id] == s.parent.value)
    ensures forall c :: c in ParentsOf(subjects, all) ==> c in IdsOf(subjects)
  {
    if subjects != [] {
      var front, last := subjects[..|subjects| - 1], subjects[|subjects| - 1];
      ForestEdges(front, all);
      assert subjects == front + [last];
      assert forall s :: s in front ==> s.identity.id != last.identity.id;
      assert last.identity.id !in IdsOf(front);
    }
  }

  lemma {:induction false} ChildIdsMembers(subjects: seq<SubjectState>, x: u128)
    ensures forall c :: c in ChildIds(subjects, x) ==> exists s :: s in subjects && s.identity.id == c && s.parent == Some(x)
    ensures forall s :: s in subjects && s.parent == Some(x) ==> s.identity.id in ChildIds(subjects, x)
  {
    if subjects != [] {
      var front, last := subjects[..|subjects| - 1], subjects[|subjects| - 1];
      ChildIdsMembers(front, x);
      assert subjects == front + [last];
      forall c | c in ChildIds(subjects, x) ensures exists s :: s in subjects && s.identity.id == c && s.parent == Some(x) {
        if c in ChildIds(front, x) {
          var s :| s in front && s.identity.id == c && s.parent == Some(x);
          assert s in subjects;
        } else {
          assert last in subjects;
        }
      }
    }
  }

  lemma {:induction false} ChildIdsDistinct(subjects: seq<SubjectState>, x: u128)
    requires DistinctIds(subjects)
    ensures Ordering.NoRepeats(ChildIds(subjects, x))
  {
    if subjects != [] {
      var front, last := subjects[..|subjects| - 1], subjects[|subjects| - 1];
      ChildIdsDistinct(front, x);
      ChildIdsMembers(front, x);
      var ids := ChildIds(front, x);
      forall i | 0 <= i < |ids| ensures ids[i] != last.identity.id {
        assert ids[i] in ids;
        var s :| s in front && s.identity.id == ids[i] && s.parent == Some(x);
      }
    }
  }

  lemma {:induction false} RootIdsFacts(subjects: seq<SubjectState>, all: set<u128>, q: Query)
    requires DistinctIds(subjects)
    ensures Ordering.NoRepeats(RootIds(subjects, all, q))
    ensures forall x :: (x in RootIds(subjects, all, q)
                         <==> exists s :: s in subjects && s.identity.id == x && !(s.parent.Some? && s.parent.value in all) && Eligible(q, s))
  {
    if subjects != [] {
      var front, last := subjects[..|subjects| - 1], subjects[|subjects| - 1];
      RootIdsFacts(front, all, q);
      assert subjects == front + [last];
      var ids := RootIds(front, all, q);
      forall i | 0 <= i < |ids| ensures ids[i] != last.identity.id {
        assert ids[i] in ids;
        var s :| s in front && s.identity.id == ids[i];
      }
      forall x ensures x in RootIds(subjects, all, q)
        <==> exists s :: s in subjects && s.identity.id == x && !(s.parent.Some? && s.parent.value in all) && Eligible(q, s)
      {
        if x in ids {
          var s :| s in front && s.identity.id == x && !(s.parent.Some? && s.parent.value in all) && Eligible(q, s);
          assert s in subjects;
        }
        if s :| s in subjects && s.identity.id == x && !(s.parent.Some? && s.parent.value in all) && Eligible(q, s) {
          if s in front {
            assert x in ids;
          }
        }
      }
    }
  }

  lemma SortedDistinct(xs: seq<u128>)
    requires Ordering.NoRepeats(xs)
    ensures Ordering.NoRepeats(Ordering.Sort(xs, IdLe))
    ensures forall x :: x in Ordering.Sort(xs, IdLe) <==> x in xs
  {
    var sorted := Ordering.Sort(xs, IdLe);
    Ordering.SortContents(xs, IdLe);
    Ordering.SortMembers(xs, IdLe);
    forall i, j | 0 <= i < j < |sorted| ensures sorted[i] != sorted[j] {
      if sorted[i] == sorted[j] {
        Ordering.CountedTwice(sorted, i, j);
        Ordering.CountedOnce(xs, sorted[i]);
      }
    }
  }

  /** A child is exactly a present subject whose edge leads to x; each is listed once. */
  lemma ChildrenFacts(subjects: seq<SubjectState>, x: u128)
    requires DistinctIds(subjects) && x in IdsOf(subjects)
    ensures Ordering.NoRepeats(Children(subjects, x))
    ensures forall c :: c in Children(subjects, x) <==> c in Forest(subjects) && Forest(subjects)[c] == x
  {
    hide ParentsOf, ChildIds;
    ChildIdsDistinct(subjects, x);
    ChildIdsMembers(subjects, x);
    SortedDistinct(ChildIds(subjects, x));
    ForestEdges(subjects, IdsOf(subjects));
    forall c ensures c in ChildIds(subjects, x) <==> c in Forest(subjects) && Forest(subjects)[c] == x {
      if c in ChildIds(subjects, x) {
        var s :| s in subjects && s.identity.id == c && s.parent == Some(x);
      }
      if c in Forest(subjects) && Forest(subjects)[c] == x {
        var s :| s in subjects && s.identity.id == c;
      }
    }
  }

  lemma RootsFacts(subjects: seq<SubjectState>, q: Query)
    requires DistinctIds(subjects)
    ensures Ordering.NoRepeats(Roots(subjects, q))
    ensures forall x :: x in Roots(subjects, q) ==> x in IdsOf(subjects) && x !in Forest(subjects)
    ensures forall s :: s in subjects ==> (s.identity.id in Roots(subjects, q) <==> s.identity.id !in Forest(subjects) && Eligible(q, s))
  {
    hide ParentsOf, RootIds, Eligible;
    var all := IdsOf(subjects);
    RootIdsFacts(subjects, all, q);
    SortedDistinct(RootIds(subjects, all, q));
    ForestEdges(subjects, all);
    forall s | s in subjects ensures s.identity.id in Roots(subjects, q) <==> s.identity.id !in Forest(subjects) && Eligible(q, s) {
      if s.identity.id in Roots(subjects, q) {
        var t :| t in subjects && t.identity.id == s.identity.id && !(t.parent.Some? && t.parent.value in all) && Eligible(q, t);
        SameSubject(subjects, s, t);
      }
    }
  }

  lemma SameSubject(subjects: seq<SubjectState>, s: SubjectState, t: SubjectState)
    requires DistinctIds(subjects) && s in subjects && t in subjects && s.identity.id == t.identity.id
    ensures s == t
  {
    var i :| 0 <= i < |subjects| && subjects[i] == s;
    var j :| 0 <= j < |subjects| && subjects[j] == t;
  }

  // ---- the preorder is exactly the bounded descendants ----

  ghost predicate Below(subjects: seq<SubjectState>, p: Place, x: u128, depth: nat, max: nat) {
    depth <= p.depth <= max && p.id in IdsOf(subjects) && Up(Forest(subjects), p.id, p.depth - depth) == Some(x)
  }

  lemma {:induction false} PreorderSound(subjects: seq<SubjectState>, x: u128, depth: nat, max: nat)
    requires DistinctIds(subjects) && x in IdsOf(subjects)
    ensures forall p :: p in Preorder(subjects, x, depth, max) ==> Below(subjects, p, x, depth, max)
    decreases max + 1 - Min(depth, max + 1), 0
  {
    hide Children, Forest;
    if depth <= max {
      var kids := Children(subjects, x);
      ChildrenFacts(subjects, x);
      ForestIds(subjects);
      PreorderAllSound(subjects, kids, depth + 1, max);
      forall p | p in Preorder(subjects, x, depth, max) ensures Below(subjects, p, x, depth, max) {
        if p in PreorderAll(subjects, kids, depth + 1, max) {
          var c :| c in kids && Below(subjects, p, c, depth + 1, max);
          assert Up(Forest(subjects), p.id, p.depth - depth) == Some(x);
        }
      }
    }
  }

  lemma ForestIds(subjects: seq<SubjectState>)
    requires DistinctIds(subjects)
    ensures forall c :: c in Forest(subjects) ==> c in IdsOf(subjects)
  {
    ForestEdges(subjects, IdsOf(subjects));
  }

  lemma {:induction false} PreorderAllSound(subjects: seq<SubjectState>, xs: seq<u128>, depth: nat, max: nat)
    requires DistinctIds(subjects) && forall x :: x in xs ==> x in IdsOf(subjects)
    ensures forall p :: p in PreorderAll(subjects, xs, depth, max) ==> exists x :: x in xs && Below(subjects, p, x, depth, max)
    decreases max + 1 - Min(depth, max + 1), 1, |xs|
  {
    hide Preorder, Below, IdsOf;
    if xs != [] {
      assert xs[0] in xs && forall x :: x in xs[1..] ==> x in xs;
      PreorderSound(subjects, xs[0], depth, max);
      PreorderAllSound(subjects, xs[1..], depth, max);
    }
  }

  lemma {:induction false} PreorderComplete(subjects: seq<SubjectState>, p: Place, x: u128, depth: nat, max: nat)
    requires DistinctIds(subjects) && x in IdsOf(subjects) && Below(subjects, p, x, depth, max)
    ensures p in Preorder(subjects, x, depth, max)
    decreases p.depth - depth
  {
    hide Children, Forest, PreorderAll;
    if p.depth > depth {
      var n := p.depth - depth - 1;
      var c := Up(Forest(subjects), p.id, n).value;
      assert c in Forest(subjects) && Forest(subjects)[c] == x;
      ChildrenFacts(subjects, x);
      ForestIds(subjects);
      PreorderComplete(subjects, p, c, depth + 1, max);
      InPreorderAll(subjects, Children(subjects, x), c, p, depth + 1, max);
    }
  }

  lemma {:induction false} InPreorderAll(subjects: seq<SubjectState>, xs: seq<u128>, x: u128, p: Place, depth: nat, max: nat)
    requires x in xs && p in Preorder(subjects, x, depth, max)
    ensures p in PreorderAll(subjects, xs, depth, max)
    decreases |xs|
  {
    hide Preorder;
    if x != xs[0] {
      InPreorderAll(subjects, xs[1..], x, p, depth, max);
    }
  }

  // ---- each subject at most once ----

  predicate OncePerId(ps: seq<Place>) { forall i, j :: 0 <= i < j < |ps| ==> ps[i].id != ps[j].id }

  /** x leads up to a place without a parent in exactly k steps. */
  ghost predicate Rooted(parents: map<u128, u128>, x: u128, k: nat) {
    Up(parents, x, k).Some? && Up(parents, x, k).value !in parents
  }

  lemma RootedOnce(parents: map<u128, u128>, x: u128, j: nat, k: nat)
    requires Rooted(parents, x, j) && Rooted(parents, x, k)
    ensures j == k
  {
    if j < k {
      EndMeetsNothingMore(parents, x, j + 1, k);
    } else if k < j {
      EndMeetsNothingMore(parents, x, k + 1, j);
    }
  }

  lemma RootedAbove(parents: map<u128, u128>, id: u128, n: nat, x: u128, k: nat)
    requires Up(parents, id, n) == Some(x) && Rooted(parents, x, k)
    ensures Rooted(parents, id, n + k)
  {
    UpAdds(parents, id, n, k);
  }

  lemma OnceAppend(a: seq<Place>, b: seq<Place>)
    requires OncePerId(a) && OncePerId(b) && forall p, q :: p in a && q in b ==> p.id != q.id
    ensures OncePerId(a + b)
  {
    forall i, j | 0 <= i < j < |a + b| ensures (a + b)[i].id != (a + b)[j].id {
      if i < |a| <= j {
        assert a[i] in a && b[j - |a|] in b;
      }
    }
  }

  lemma {:induction false} PreorderOnce(subjects: seq<SubjectState>, x: u128, depth: nat, max: nat)
    requires DistinctIds(subjects) && x in IdsOf(subjects) && Rooted(Forest(subjects), x, depth)
    ensures OncePerId(Preorder(subjects, x, depth, max))
    decreases max + 1 - Min(depth, max + 1), 0
  {
    hide Children, Forest, PreorderAll, Rooted;
    if depth <= max {
      var kids := Children(subjects, x);
      ChildrenFacts(subjects, x);
      ForestIds(subjects);
      forall c | c in kids ensures Rooted(Forest(subjects), c, depth + 1) {
        assert Up(Forest(subjects), c, 0) == Some(c);
        assert Up(Forest(subjects), c, 1) == Some(x);
        RootedAbove(Forest(subjects), c, 1, x, depth);
      }
      PreorderAllOnce(subjects, kids, depth + 1, max);
      PreorderAllSound(subjects, kids, depth + 1, max);
      var rest := PreorderAll(subjects, kids, depth + 1, max);
      forall q | q in rest ensures q.id != x {
        var c :| c in kids && Below(subjects, q, c, depth + 1, max);
        RootedAbove(Forest(subjects), q.id, q.depth - depth - 1, c, depth + 1);
        if q.id == x {
          RootedOnce(Forest(subjects), x, q.depth, depth);
        }
      }
      OnceAppend([Place(x, depth)], rest);
    }
  }

  lemma {:induction false} PreorderAllOnce(subjects: seq<SubjectState>, xs: seq<u128>, depth: nat, max: nat)
    requires DistinctIds(subjects) && Ordering.NoRepeats(xs)
    requires forall x :: x in xs ==> x in IdsOf(subjects) && Rooted(Forest(subjects), x, depth)
    ensures OncePerId(PreorderAll(subjects, xs, depth, max))
    decreases max + 1 - Min(depth, max + 1), 1, |xs|
  {
    hide Preorder, Forest, Rooted, IdsOf;
    if xs != [] {
      var x, rest := xs[0], xs[1..];
      assert forall y :: y in rest ==> y in xs && y != x;
      PreorderOnce(subjects, x, depth, max);
      PreorderAllOnce(subjects, rest, depth, max);
      PreorderSound(subjects, x, depth, max);
      PreorderAllSound(subjects, rest, depth, max);
      var a, b := Preorder(subjects, x, depth, max), PreorderAll(subjects, rest, depth, max);
      forall p, q | p in a && q in b ensures p.id != q.id {
        var y :| y in rest && Below(subjects, q, y, depth, max);
        if p.id == q.id {
          RootedAbove(Forest(subjects), p.id, p.depth - depth, x, depth);
          RootedAbove(Forest(subjects), q.id, q.depth - depth, y, depth);
          RootedOnce(Forest(subjects), p.id, p.depth, q.depth);
        }
      }
      OnceAppend(a, b);
    }
  }

  /** The traversal's meaning: a subject is listed at depth d if and only if d is within the bound and its
      d-th ancestor is a selected root, and no subject is listed twice. Subjects on or below a cycle have
      no such ancestor and are not listed. */
  lemma TraversalMeaning(subjects: seq<SubjectState>, q: Query, max: nat)
    requires DistinctIds(subjects)
    ensures var ps := PreorderAll(subjects, Roots(subjects, q), 0, max);
            && OncePerId(ps)
            && forall p :: p in ps <==>
                 p.id in IdsOf(subjects) && p.depth <= max
                 && Up(Forest(subjects), p.id, p.depth).Some? && Up(Forest(subjects), p.id, p.depth).value in Roots(subjects, q)
  {
    hide Roots, Forest, Preorder, PreorderAll, IdsOf;
    var roots := Roots(subjects, q);
    RootsFacts(subjects, q);
    forall x | x in roots ensures Rooted(Forest(subjects), x, 0) {
      assert Up(Forest(subjects), x, 0) == Some(x);
    }
    PreorderAllOnce(subjects, roots, 0, max);
    PreorderAllSound(subjects, roots, 0, max);
    forall p: Place | p.id in IdsOf(subjects) && p.depth <= max
        && Up(Forest(subjects), p.id, p.depth).Some? && Up(Forest(subjects), p.id, p.depth).value in roots
      ensures p in PreorderAll(subjects, roots, 0, max)
    {
      var x := Up(Forest(subjects), p.id, p.depth).value;
      PreorderComplete(subjects, p, x, 0, max);
      InPreorderAll(subjects, roots, x, p, 0, max);
    }
  }

  /** x and its first n ancestors. */
  function Chain(parents: map<u128, u128>, x: u128, n: nat): set<u128> {
    if n == 0 then {x}
    else Chain(parents, x, n - 1) + if Up(parents, x, n).Some? then {Up(parents, x, n).value} else {}
  }

  lemma RootedBelow(parents: map<u128, u128>, x: u128, n: nat, j: nat)
    requires Rooted(parents, x, n) && j <= n
    ensures Up(parents, x, j).Some? && Rooted(parents, Up(parents, x, j).value, n - j)
    ensures j < n ==> Up(parents, x, j).value in parents
  {
    if Up(parents, x, j) == None {
      EndMeetsNothingMore(parents, x, j, n);
    }
    UpAdds(parents, x, j, n - j);
    if j < n {
      if Up(parents, x, j + 1) == None {
        EndMeetsNothingMore(parents, x, j + 1, n);
      }
    }
  }

  lemma ChainStep(parents: map<u128, u128>, x: u128, k: nat)
    requires k > 0 && Up(parents, x, k).Some?
    ensures Chain(parents, x, k) == Chain(parents, x, k - 1) + {Up(parents, x, k).value}
  {
  }

  lemma ChainStart(parents: map<u128, u128>, x: u128)
    ensures Chain(parents, x, 0) == {x} && Up(parents, x, 0) == Some(x)
  {
  }

  ghost predicate AllHigh(parents: map<u128, u128>, ys: set<u128>, low: nat) { forall y :: y in ys ==> HeightFrom(parents, y, low) }

  lemma AllHighPush(parents: map<u128, u128>, ys: set<u128>, low: nat, y: u128)
    requires AllHigh(parents, ys, low + 1) && Rooted(parents, y, low)
    ensures y !in ys && AllHigh(parents, ys + {y}, low)
  {
    hide HeightFrom, Rooted;
    if y in ys {
      HeightExceeds(parents, y, low);
    }
    HasHeight(parents, y, low, low);
    forall z | z in ys + {y} ensures HeightFrom(parents, z, low) {
      if z in ys {
        HeightLess(parents, z, low + 1, low);
      }
    }
  }

  /** On the way to a root no subject comes twice. */
  lemma {:induction false} ChainSize(parents: map<u128, u128>, x: u128, n: nat, k: nat, all: set<u128>)
    requires Rooted(parents, x, n) && k <= n
    requires parents.Keys <= all && Up(parents, x, n).value in all
    ensures |Chain(parents, x, k)| == k + 1 && Chain(parents, x, k) <= all
    ensures AllHigh(parents, Chain(parents, x, k), n - k)
  {
    hide Up, Rooted, AllHigh, Chain;
    RootedBelow(parents, x, n, k);
    if k == 0 {
      ChainStart(parents, x);
      OneHigh(parents, x, n);
    } else {
      ChainSize(parents, x, n, k - 1, all);
      ChainStep(parents, x, k);
      AllHighPush(parents, Chain(parents, x, k - 1), n - k, Up(parents, x, k).value);
    }
  }

  lemma OneHigh(parents: map<u128, u128>, x: u128, n: nat)
    requires Rooted(parents, x, n)
    ensures AllHigh(parents, {x}, n)
  {
    hide Rooted;
  }

  /** y is at least low steps below a root. */
  ghost predicate HeightFrom(parents: map<u128, u128>, y: u128, low: nat) { exists h: nat :: low <= h && Rooted(parents, y, h) }

  lemma HasHeight(parents: map<u128, u128>, y: u128, h: nat, low: nat)
    requires Rooted(parents, y, h) && low <= h
    ensures HeightFrom(parents, y, low)
  {
  }

  lemma HeightLess(parents: map<u128, u128>, y: u128, low: nat, lower: nat)
    requires HeightFrom(parents, y, low) && lower <= low
    ensures HeightFrom(parents, y, lower)
  {
    hide Rooted;
    var h: nat :| low <= h && Rooted(parents, y, h);
  }

  lemma HeightExceeds(parents: map<u128, u128>, y: u128, h: nat)
    requires HeightFrom(parents, y, h + 1)
    ensures !Rooted(parents, y, h)
  {
    hide Rooted;
    var g: nat :| h + 1 <= g && Rooted(parents, y, g);
    if Rooted(parents, y, h) {
      RootedOnce(parents, y, g, h);
    }
  }

  lemma {:induction false} IdsSize(subjects: seq<SubjectState>)
    ensures |IdsOf(subjects)| <= |subjects|
  {
    if subjects != [] {
      IdsSize(subjects[..|subjects| - 1]);
      assert subjects == subjects[..|subjects| - 1] + [subjects[|subjects| - 1]];
      assert IdsOf(subjects) == IdsOf(subjects[..|subjects| - 1]) + {subjects[|subjects| - 1].identity.id};
    }
  }

  /** However large the depth bound, no subject is listed deeper than there are subjects above it, so that the
      depth of a child, which the traversal counts in 32 bits, is at most the number of subjects. */
  lemma ListedDepthFits(subjects: seq<SubjectState>, q: Query, max: nat, p: Place)
    requires DistinctIds(subjects) && p in PreorderAll(subjects, Roots(subjects, q), 0, max)
    ensures p.depth + 1 <= |subjects|
  {
    hide Roots, PreorderAll, IdsOf, ParentsOf, Up;
    var parents, all := Forest(subjects), IdsOf(subjects);
    TraversalMeaning(subjects, q, max);
    RootsFacts(subjects, q);
    ForestEdges(subjects, all);
    ChainSize(parents, p.id, p.depth, p.depth, all);
    IdsSize(subjects);
    Ordering.SubsetSize(Chain(parents, p.id, p.depth), all);
  }

  /** So a listed depth is what the ancestor walk from that subject to its root returns. */
  lemma ListedDepthIsLeast(subjects: seq<SubjectState>, q: Query, max: nat, p: Place, root: u128)
    requires DistinctIds(subjects) && root in Roots(subjects, q)
    requires p in PreorderAll(subjects, Roots(subjects, q), 0, max) && Up(Forest(subjects), p.id, p.depth) == Some(root)
    ensures LeastDistance(Forest(subjects), p.id, root, p.depth)
  {
    hide Roots, Forest, PreorderAll;
    RootsFacts(subjects, q);
    forall k | 0 <= k < p.depth ensures Up(Forest(subjects), p.id, k) != Some(root) {
      if Up(Forest(subjects), p.id, k) == Some(root) {
        assert Rooted(Forest(subjects), p.id, k);
        assert Rooted(Forest(subjects), p.id, p.depth);
        RootedOnce(Forest(subjects), p.id, k, p.depth);
      }
    }
  }

  // ---- the stack ----

  /** What the stack still has to produce: its last frame first. */
  function Output(subjects: seq<SubjectState>, stack: seq<Place>, max: nat): seq<Place> {
    if stack == [] then []
    else
      var top := stack[|stack| - 1];
      Preorder(subjects, top.id, top.depth, max) + Output(subjects, stack[..|stack| - 1], max)
  }

  function Reversed(xs: seq<u128>, depth: nat): (r: seq<Place>)
    ensures |r| == |xs|
  {
    seq(|xs|, i requires 0 <= i < |xs| => Place(xs[|xs| - 1 - i], depth))
  }

  /** Pushing siblings in reverse makes the stack produce them in order. */
  lemma {:induction false} OutputOfSiblings(subjects: seq<SubjectState>, stack: seq<Place>, xs: seq<u128>, depth: nat, max: nat)
    ensures Output(subjects, stack + Reversed(xs, depth), max) == PreorderAll(subjects, xs, depth, max) + Output(subjects, stack, max)
    decreases |xs|
  {
    hide Preorder;
    if xs == [] {
      assert stack + Reversed(xs, depth) == stack;
      assert PreorderAll(subjects, xs, depth, max) == [];
    } else {
      OutputOfSiblings(subjects, stack, xs[1..], depth, max);
      var all := stack + Reversed(xs, depth);
      assert all[..|all| - 1] == stack + Reversed(xs[1..], depth);
      assert all[|all| - 1] == Place(xs[0], depth);
    }
  }

  lemma PreorderUnfold(subjects: seq<SubjectState>, x: u128, depth: nat, max: nat)
    requires depth <= max
    ensures Preorder(subjects, x, depth, max) == [Place(x, depth)] + PreorderAll(subjects, Children(subjects, x), depth + 1, max)
  {
    hide Children, PreorderAll;
  }

  lemma Cons(a: seq<Place>, b: seq<Place>, c: seq<Place>)
    ensures a + b + c == a + (b + c)
  {
  }

  lemma OutputPop(subjects: seq<SubjectState>, stack: seq<Place>, max: nat)
    requires stack != [] && stack[|stack| - 1].depth <= max
    ensures var top, rest := stack[|stack| - 1], stack[..|stack| - 1];
            Output(subjects, stack, max)
            == [top] + Output(subjects, rest + Reversed(Children(subjects, top.id), top.depth + 1), max)
  {
    hide Children, PreorderAll, Preorder;
    var top, rest := stack[|stack| - 1], stack[..|stack| - 1];
    var kids := Children(subjects, top.id);
    PreorderUnfold(subjects, top.id, top.depth, max);
    OutputOfSiblings(subjects, rest, kids, top.depth + 1, max);
    assert Output(subjects, stack, max) == Preorder(subjects, top.id, top.depth, max) + Output(subjects, rest, max);
    hide Output;
    Cons([top], PreorderAll(subjects, kids, top.depth + 1, max), Output(subjects, rest, max));
  }

  lemma DeepestPop(subjects: seq<SubjectState>, stack: seq<Place>, max: nat)
    requires stack != [] && stack[|stack| - 1].depth == max
    ensures Output(subjects, stack, max) == [stack[|stack| - 1]] + Output(subjects, stack[..|stack| - 1], max)
  {
    hide Children;
    var top := stack[|stack| - 1];
    NothingDeeper(subjects, Children(subjects, top.id), max + 1, max);
  }

  lemma {:induction false} NothingDeeper(subjects: seq<SubjectState>, xs: seq<u128>, depth: nat, max: nat)
    requires depth > max
    ensures PreorderAll(subjects, xs, depth, max) == []
    decreases |xs|
  {
    if xs != [] {
      NothingDeeper(subjects, xs[1..], depth, max);
    }
  }

  /** Leaving out everything deeper gives the preorder with the smaller bound. */
  function Shallow(max: nat): Place -> bool { (p: Place) => p.depth <= max }

  lemma {:induction false} FilterSplit<T>(a: seq<T>, b: seq<T>, keep: T -> bool)
    ensures Ordering.Filter(a + b, keep) == Ordering.Filter(a, keep) + Ordering.Filter(b, keep)
  {
    if b == [] {
      assert a + b == a;
    } else {
      FilterSplit(a, b[..|b| - 1], keep);
      assert (a + b)[..|a + b| - 1] == a + b[..|b| - 1];
    }
  }

  lemma {:induction false} ShallowPreorder(subjects: seq<SubjectState>, x: u128, depth: nat, max: nat)
    requires depth <= max + 1
    ensures Ordering.Filter(Preorder(subjects, x, depth, max + 1), Shallow(max)) == Preorder(subjects, x, depth, max)
    decreases max + 2 - depth, 0
  {
    hide Children, Preorder, PreorderAll, Ordering.Filter;
    var kids := Children(subjects, x);
    var rest := PreorderAll(subjects, kids, depth + 1, max + 1);
    PreorderUnfold(subjects, x, depth, max + 1);
    FilterSplit([Place(x, depth)], rest, Shallow(max));
    OneFiltered(Place(x, depth), Shallow(max));
    if depth == max + 1 {
      NothingDeeper(subjects, kids, depth + 1, max + 1);
      TooDeep(subjects, x, depth, max);
      NothingFiltered(Shallow(max));
    } else {
      PreorderUnfold(subjects, x, depth, max);
      ShallowPreorderAll(subjects, kids, depth + 1, max);
    }
  }

  lemma TooDeep(subjects: seq<SubjectState>, x: u128, depth: nat, max: nat)
    requires depth > max
    ensures Preorder(subjects, x, depth, max) == []
  {
  }

  lemma NothingFiltered<T>(keep: T -> bool)
    ensures Ordering.Filter([], keep) == []
  {
  }

  lemma OneFiltered<T>(x: T, keep: T -> bool)
    ensures Ordering.Filter([x], keep) == if keep(x) then [x] else []
  {
    assert [x][..0] == [];
    assert Ordering.Filter([], keep) == [];
  }

  lemma {:induction false} ShallowPreorderAll(subjects: seq<SubjectState>, xs: seq<u128>, depth: nat, max: nat)
    requires depth <= max + 1
    ensures Ordering.Filter(PreorderAll(subjects, xs, depth, max + 1), Shallow(max)) == PreorderAll(subjects, xs, depth, max)
    decreases max + 2 - depth, 1, |xs|
  {
    hide Preorder;
    if xs != [] {
      ShallowPreorder(subjects, xs[0], depth, max);
      ShallowPreorderAll(subjects, xs[1..], depth, max);
      FilterSplit(Preorder(subjects, xs[0], depth, max + 1), PreorderAll(subjects, xs[1..], depth, max + 1), Shallow(max));
    }
  }

  // ---- the query ----

  datatype HierarchyNode = HierarchyNode(
    identity: Ids.SubjectIdentity,
    parent: Option<u128>,
    depth: nat,
    topologyTruth: Truth.TruthState,
    parentAbsent: bool)

  datatype HierarchyResult = HierarchyResult(
    nodes: seq<HierarchyNode>,
    unattached: seq<u128>,
    maxDepthReached: nat,
    cyclesDetected: int,
    depthLimited: nat,
    childrenOfAbsentParents: nat,
    truncated: bool)

  function Effective(configured: u32, asked: u32): u32 { if asked != 0 && asked < configured then asked else configured }

  function IndexById(subjects: seq<SubjectState>): map<u128, SubjectState> {
    if subjects == [] then map[]
    else
      var before, s := IndexById(subjects[..|subjects| - 1]), subjects[|subjects| - 1];
      if s.identity.id in before then before else before[s.identity.id := s]
  }

  lemma {:induction false} IndexFacts(subjects: seq<SubjectState>)
    ensures IndexById(subjects).Keys == IdsOf(subjects)
    ensures forall id :: id in IndexById(subjects) ==> IndexById(subjects)[id] in subjects && IndexById(subjects)[id].identity.id == id
  {
    if subjects != [] {
      var front, last := subjects[..|subjects| - 1], subjects[|subjects| - 1];
      IndexFacts(front);
      assert subjects == front + [last];
      assert IdsOf(subjects) == IdsOf(front) + {last.identity.id};
      assert forall s :: s in front ==> s in subjects;
    }
  }

  function NodeOf(byId: map<u128, SubjectState>, p: Place): HierarchyNode
    requires p.id in byId
  {
    var s := byId[p.id];
    HierarchyNode(s.identity, s.parent, p.depth, s.topologyTruth, s.parent.Some? && s.parent.value !in byId)
  }

  function UnattachedIds(subjects: seq<SubjectState>, all: set<u128>, wanted: bool): seq<u128> {
    if subjects == [] then []
    else
      var before, s := UnattachedIds(subjects[..|subjects| - 1], all, wanted), subjects[|subjects| - 1];
      if !(s.parent.Some? && s.parent.value in all) && wanted && Ids.KindOf(s.identity.typed) != 0 then before + [s.identity.id]
      else before
  }

  function AbsentParents(subjects: seq<SubjectState>, all: set<u128>): nat {
    if subjects == [] then 0
    else
      var s := subjects[|subjects| - 1];
      AbsentParents(subjects[..|subjects| - 1], all) + if s.parent.Some? && s.parent.value !in all then 1 else 0
  }

  /** The child lists as the scan builds them, and the roots it finds. */
  ghost predicate Scanned(subjects: seq<SubjectState>, children: map<u128, seq<u128>>, all: set<u128>) {
    && (forall x :: x in children ==> x in all && children[x] == ChildIds(subjects, x))
    && (forall x :: x in all && x !in children ==> ChildIds(subjects, x) == [])
  }

  lemma ScanStep(front: seq<SubjectState>, s: SubjectState, children: map<u128, seq<u128>>, all: set<u128>)
    requires Scanned(front, children, all)
    ensures s.parent.Some? && s.parent.value in all ==>
              Scanned(front + [s], children[s.parent.value := (if s.parent.value in children then children[s.parent.value] else []) + [s.identity.id]], all)
    ensures !(s.parent.Some? && s.parent.value in all) ==> Scanned(front + [s], children, all)
  {
    assert (front + [s])[..|front|] == front;
  }

  method Scan(subjects: seq<SubjectState>, byId: map<u128, SubjectState>, q: Query)
    returns (children: map<u128, seq<u128>>, roots: seq<u128>, unattached: seq<u128>, absent: nat)
    requires byId.Keys == IdsOf(subjects)
    ensures Scanned(subjects, children, IdsOf(subjects))
    ensures roots == RootIds(subjects, IdsOf(subjects), q)
    ensures unattached == UnattachedIds(subjects, IdsOf(subjects), q.includeUnattached)
    ensures absent == AbsentParents(subjects, IdsOf(subjects))
  {
    ghost var all := IdsOf(subjects);
    children, roots, unattached, absent := map[], [], [], 0;
    for i := 0 to |subjects|
      invariant Scanned(subjects[..i], children, all)
      invariant roots == RootIds(subjects[..i], all, q)
      invariant unattached == UnattachedIds(subjects[..i], all, q.includeUnattached)
      invariant absent == AbsentParents(subjects[..i], all)
    {
      hide Scanned, Eligible, IdsOf;
      var s := subjects[i];
      assert subjects[..i + 1] == subjects[..i] + [s];
      assert subjects[..i + 1][..i] == subjects[..i];
      ScanStep(subjects[..i], s, children, all);
      if s.parent.Some? && s.parent.value in byId {
        var x := s.parent.value;
        children := children[x := (if x in children then children[x] else []) + [s.identity.id]];
      } else {
        if Eligible(q, s) {
          roots := roots + [s.identity.id];
        }
        if s.parent.Some? {
          absent := absent + 1;
        }
        if q.includeUnattached && Ids.KindOf(s.identity.typed) != 0 {
          unattached := unattached + [s.identity.id];
        }
      }
    }
    assert subjects[..|subjects|] == subjects;
  }

  method Index(subjects: seq<SubjectState>) returns (byId: map<u128, SubjectState>)
    ensures byId == IndexById(subjects)
  {
    byId := map[];
    for i := 0 to |subjects|
      invariant byId == IndexById(subjects[..i])
    {
      assert subjects[..i + 1][..i] == subjects[..i];
      if subjects[i].identity.id !in byId {
        byId := byId[subjects[i].identity.id := subjects[i]];
      }
    }
    assert subjects[..|subjects|] == subjects;
  }

  method PushReversed(stack: seq<Place>, xs: seq<u128>, depth: nat) returns (r: seq<Place>)
    ensures r == stack + Reversed(xs, depth)
  {
    r := stack;
    var index: nat := |xs|;
    while index > 0
      invariant index <= |xs|
      invariant r == stack + Reversed(xs, depth)[..|xs| - index]
    {
      index := index - 1;
      r := r + [Place(xs[index], depth)];
    }
  }

  /** The whole visit in order, as far as the loop can look: one level below the depth bound. */
  function Visits(subjects: seq<SubjectState>, q: Query, max: nat): seq<Place> {
    PreorderAll(subjects, Roots(subjects, q), 0, max + 1)
  }

  lemma VisitsFacts(subjects: seq<SubjectState>, q: Query, max: nat)
    requires DistinctIds(subjects)
    ensures OncePerId(Visits(subjects, q, max))
    ensures forall p :: p in Visits(subjects, q, max) ==> p.id in IdsOf(subjects) && p.depth <= max + 1
    ensures Ordering.Filter(Visits(subjects, q, max), Shallow(max)) == PreorderAll(subjects, Roots(subjects, q), 0, max)
  {
    hide Roots, Forest, PreorderAll, IdsOf;
    TraversalMeaning(subjects, q, max + 1);
    ShallowPreorderAll(subjects, Roots(subjects, q), 0, max);
  }

  function Deep(ps: seq<Place>, max: nat): nat {
    if ps == [] then 0 else Deep(ps[..|ps| - 1], max) + if ps[|ps| - 1].depth > max then 1 else 0
  }

  lemma VisitedOnce(ps: seq<Place>, done: seq<Place>, p: Place, rest: seq<Place>)
    requires OncePerId(ps) && ps == done + ([p] + rest)
    ensures forall d :: d in done ==> d.id != p.id
    ensures p in ps
  {
    assert ps[|done|] == p;
    forall d | d in done ensures d.id != p.id {
      var i :| 0 <= i < |done| && done[i] == d;
      assert ps[i] == d;
    }
  }

  predicate Matches(byId: map<u128, SubjectState>, node: HierarchyNode, p: Place) { p.id in byId && node == NodeOf(byId, p) }

  predicate AllMatch(byId: map<u128, SubjectState>, nodes: seq<HierarchyNode>, ps: seq<Place>) {
    |nodes| == |ps| && forall i :: 0 <= i < |ps| ==> Matches(byId, nodes[i], ps[i])
  }

  function IdsAt(ps: seq<Place>): set<u128> { set p | p in ps :: p.id }

  function Kept(ps: seq<Place>, max: nat): seq<Place> { Ordering.Filter(ps, Shallow(max)) }

  /** The loop's state after visiting done: the rest of the visits is on the stack. */
  ghost predicate Walking(subjects: seq<SubjectState>, byId: map<u128, SubjectState>, visits: seq<Place>, max: nat,
                          stack: seq<Place>, visited: set<u128>, nodes: seq<HierarchyNode>, depthLimited: nat, done: seq<Place>) {
    && visits == done + Output(subjects, stack, max + 1)
    && visited == IdsAt(done)
    && (forall p :: p in stack ==> p.depth <= max + 1)
    && depthLimited == Deep(done, max)
    && AllMatch(byId, nodes, Kept(done, max))
  }

  lemma WalkBegins(subjects: seq<SubjectState>, byId: map<u128, SubjectState>, q: Query, max: nat)
    ensures Walking(subjects, byId, Visits(subjects, q, max), max, [] + Reversed(Roots(subjects, q), 0), {}, [], 0, [])
  {
    hide Roots, Output, Visits;
    StackBegins(subjects, q, max);
  }

  lemma IdsPush(done: seq<Place>, p: Place)
    ensures IdsAt(done + [p]) == IdsAt(done) + {p.id}
  {
  }

  lemma MatchPush(byId: map<u128, SubjectState>, nodes: seq<HierarchyNode>, ps: seq<Place>, p: Place)
    requires AllMatch(byId, nodes, ps) && p.id in byId
    ensures AllMatch(byId, nodes + [NodeOf(byId, p)], ps + [p])
  {
    hide NodeOf;
  }

  /** One iteration. The frame on top has never been visited before; below the bound it is only counted,
      otherwise it is listed and its children come next. */
  lemma WalkStep(subjects: seq<SubjectState>, byId: map<u128, SubjectState>, visits: seq<Place>, max: nat, stack: seq<Place>,
                 visited: set<u128>, nodes: seq<HierarchyNode>, depthLimited: nat, done: seq<Place>)
    requires Walking(subjects, byId, visits, max, stack, visited, nodes, depthLimited, done) && stack != []
    requires OncePerId(visits) && forall p :: p in visits ==> p.id in byId
    ensures var top, rest := stack[|stack| - 1], stack[..|stack| - 1];
            && top.id !in visited && top.id in byId && |done| < |visits| && AllMatch(byId, nodes, Kept(done, max))
            && (top.depth > max ==>
                  Walking(subjects, byId, visits, max, rest, visited + {top.id}, nodes, depthLimited + 1, done + [top]))
            && (top.depth <= max ==>
                  && Walking(subjects, byId, visits, max, rest + Reversed(Children(subjects, top.id), top.depth + 1),
                             visited + {top.id}, nodes + [NodeOf(byId, top)], depthLimited, done + [top])
                  && Kept(done, max) + [top] <= Kept(visits, max))
  {
    hide Output, Children, OncePerId, NodeOf, Deep, AllMatch, IdsAt, Ordering.Filter;
    var top, rest := stack[|stack| - 1], stack[..|stack| - 1];
    assert top in stack;
    StepVisits(subjects, stack, visits, done, max);
    IdsPush(done, top);
    NotAmong(done, top);
    DeepPush(done, top, max);
    Ordering.FilterAppend(done, top, Shallow(max));
    FilteredPrefix(visits, done + [top], max);
    MatchPush(byId, nodes, Kept(done, max), top);
    var kids := Children(subjects, top.id);
    forall p | p in rest + Reversed(kids, top.depth + 1) && top.depth <= max ensures p.depth <= max + 1 {
      if p !in rest {
        assert p in Reversed(kids, top.depth + 1);
      }
    }
  }

  lemma NotAmong(done: seq<Place>, p: Place)
    requires forall d :: d in done ==> d.id != p.id
    ensures p.id !in IdsAt(done)
  {
  }

  lemma WalkEnds(subjects: seq<SubjectState>, byId: map<u128, SubjectState>, visits: seq<Place>, max: nat, visited: set<u128>,
                 nodes: seq<HierarchyNode>, depthLimited: nat, done: seq<Place>)
    requires Walking(subjects, byId, visits, max, [], visited, nodes, depthLimited, done)
    ensures AllMatch(byId, nodes, Kept(visits, max)) && depthLimited == Deep(visits, max)
  {
    hide AllMatch, Deep, Kept;
    AllVisited(subjects, visits, done, max);
  }

  /** The explicit stack, loop and visited set produce the recursive preorder: the first limit nodes of it,
      no cycle ever reported, and truncated exactly when something was left out. */
  method Traverse(subjects: seq<SubjectState>, byId: map<u128, SubjectState>, children: map<u128, seq<u128>>, roots: seq<u128>,
                  ghost q: Query, maxDepth: u32, limit: u32)
    returns (nodes: seq<HierarchyNode>, cycles: int, depthLimited: nat, truncated: bool)
    requires DistinctIds(subjects) && byId == IndexById(subjects) && Scanned(subjects, children, IdsOf(subjects))
    requires roots == RootIds(subjects, IdsOf(subjects), q)
    ensures var all := PreorderAll(subjects, Roots(subjects, q), 0, maxDepth);
            AllMatch(byId, nodes, all[..Min(limit, |all|)])
    ensures cycles == 0
    ensures truncated <==> depthLimited > 0 || limit < |PreorderAll(subjects, Roots(subjects, q), 0, maxDepth)|
    ensures |PreorderAll(subjects, Roots(subjects, q), 0, maxDepth)| <= limit ==> depthLimited == Deep(Visits(subjects, q, maxDepth), maxDepth)
  {
    hide Roots, Forest, PreorderAll, Preorder, Output, Scanned, IdsOf, IndexById, OncePerId, Visits, NodeOf, Walking, AllMatch, Deep,
      Kept, DistinctIds, Ordering.Sort, Children;
    ghost var all, visits := PreorderAll(subjects, Roots(subjects, q), 0, maxDepth), Visits(subjects, q, maxDepth);
    VisitsFacts(subjects, q, maxDepth);
    IndexFacts(subjects);
    WalkBegins(subjects, byId, q, maxDepth);
    RootsAre(subjects, q);
    var stack := PushReversed([], Ordering.Sort(roots, IdLe), 0);
    var visited: set<u128> := {};
    ghost var done: seq<Place> := [];
    nodes, cycles, depthLimited, truncated := [], 0, 0, false;
    while stack != []
      invariant Walking(subjects, byId, visits, maxDepth, stack, visited, nodes, depthLimited, done)
      invariant |nodes| <= limit && cycles == 0 && (truncated <==> depthLimited > 0)
      decreases |visits| - |done|
    {
      WalkStep(subjects, byId, visits, maxDepth, stack, visited, nodes, depthLimited, done);
      var frame := stack[|stack| - 1];
      stack := stack[..|stack| - 1];
      if frame.id in visited {
        cycles := cycles + 1;
        continue;
      }
      visited := visited + {frame.id};
      if frame.depth > maxDepth {
        truncated := true;
        depthLimited := depthLimited + 1;
        done := done + [frame];
        continue;
      }
      if |nodes| >= limit {
        LimitReached(byId, nodes, visits, done, frame, maxDepth, all);
        truncated := true;
        return;
      }
      nodes := nodes + [NodeOf(byId, frame)];
      done := done + [frame];
      ChildrenFound(subjects, children, frame.id);
      var kids := if frame.id in children then Ordering.Sort(children[frame.id], IdLe) else [];
      stack := PushReversed(stack, kids, frame.depth + 1);
    }
    WalkEnds(subjects, byId, visits, maxDepth, visited, nodes, depthLimited, done);
    KeptAll(byId, nodes, visits, maxDepth, all);
  }

  /** The limit was met with at least one more node to come. */
  lemma LimitReached(byId: map<u128, SubjectState>, nodes: seq<HierarchyNode>, visits: seq<Place>, done: seq<Place>, top: Place, max: nat, all: seq<Place>)
    requires all == Ordering.Filter(visits, Shallow(max)) && Kept(done, max) + [top] <= Kept(visits, max)
    requires AllMatch(byId, nodes, Kept(done, max))
    ensures |nodes| < |all| && AllMatch(byId, nodes, all[..|nodes|])
  {
    hide Matches, Ordering.Filter;
    assert Kept(done, max) == all[..|nodes|];
  }

  lemma KeptAll(byId: map<u128, SubjectState>, nodes: seq<HierarchyNode>, visits: seq<Place>, max: nat, all: seq<Place>)
    requires all == Ordering.Filter(visits, Shallow(max)) && AllMatch(byId, nodes, Kept(visits, max))
    ensures |nodes| == |all| && AllMatch(byId, nodes, all[..|all|])
  {
    hide Matches, Ordering.Filter;
    assert all[..|all|] == all;
  }

  lemma RootsAre(subjects: seq<SubjectState>, q: Query)
    ensures Roots(subjects, q) == Ordering.Sort(RootIds(subjects, IdsOf(subjects), q), IdLe)
  {
  }

  lemma StackBegins(subjects: seq<SubjectState>, q: Query, max: nat)
    ensures Output(subjects, [] + Reversed(Roots(subjects, q), 0), max + 1) == Visits(subjects, q, max)
    ensures Ordering.Filter([], Shallow(max)) == []
  {
    hide Roots, PreorderAll;
    OutputOfSiblings(subjects, [], Roots(subjects, q), 0, max + 1);
    assert Output(subjects, [], max + 1) == [];
  }

  /** The frame on top is the next visit, new, and its subject is present. */
  lemma StepVisits(subjects: seq<SubjectState>, stack: seq<Place>, visits: seq<Place>, done: seq<Place>, max: nat)
    requires stack != [] && stack[|stack| - 1].depth <= max + 1
    requires OncePerId(visits) && visits == done + Output(subjects, stack, max + 1)
    ensures var top, rest := stack[|stack| - 1], stack[..|stack| - 1];
            var kids := Reversed(Children(subjects, top.id), top.depth + 1);
            && top in visits && (forall d :: d in done ==> d.id != top.id)
            && |done| < |visits|
            && done + [top] <= visits
            && (top.depth <= max ==> visits == done + [top] + Output(subjects, rest + kids, max + 1))
            && (top.depth > max ==> visits == done + [top] + Output(subjects, rest, max + 1))
  {
    hide Output, Children, OncePerId;
    var top, rest := stack[|stack| - 1], stack[..|stack| - 1];
    if top.depth <= max {
      OutputPop(subjects, stack, max + 1);
      var after := Output(subjects, rest + Reversed(Children(subjects, top.id), top.depth + 1), max + 1);
      VisitedOnce(visits, done, top, after);
      Cons(done, [top], after);
    } else {
      DeepestPop(subjects, stack, max + 1);
      VisitedOnce(visits, done, top, Output(subjects, rest, max + 1));
      Cons(done, [top], Output(subjects, rest, max + 1));
    }
  }

  lemma DeepPush(done: seq<Place>, p: Place, max: nat)
    ensures Deep(done + [p], max) == Deep(done, max) + if p.depth > max then 1 else 0
  {
    assert (done + [p])[..|done|] == done;
  }

  lemma FilteredPrefix(visits: seq<Place>, done: seq<Place>, max: nat)
    requires done <= visits
    ensures Ordering.Filter(done, Shallow(max)) <= Ordering.Filter(visits, Shallow(max))
  {
    var rest := visits[|done|..];
    assert visits == done + rest;
    FilterSplit(done, rest, Shallow(max));
  }

  lemma ChildrenFound(subjects: seq<SubjectState>, children: map<u128, seq<u128>>, x: u128)
    requires Scanned(subjects, children, IdsOf(subjects)) && x in IdsOf(subjects)
    ensures (if x in children then Ordering.Sort(children[x], IdLe) else []) == Children(subjects, x)
  {
    hide ChildIds;
    assert Ordering.Sort<u128>([], IdLe) == [];
  }

  lemma AllVisited(subjects: seq<SubjectState>, visits: seq<Place>, done: seq<Place>, max: nat)
    requires visits == done + Output(subjects, [], max + 1)
    ensures visits == done
  {
  }

  /** execute_hierarchy, up to the result digest. */
  method ExecuteHierarchy(subjects: seq<SubjectState>, q: Query, maxHierarchyDepth: u32, maxQueryResults: u32) returns (r: HierarchyResult)
    requires DistinctIds(subjects)
    ensures var byId := IndexById(subjects);
            var all := PreorderAll(subjects, Roots(subjects, q), 0, Effective(maxHierarchyDepth, q.maxDepth));
            var limit := Effective(maxQueryResults, q.limit);
            && AllMatch(byId, r.nodes, all[..Min(limit, |all|)])
            && r.cyclesDetected == 0
            && (r.truncated <==> r.depthLimited > 0 || limit < |all|)
            && r.maxDepthReached == Deepest(r.nodes)
            && r.unattached == Ordering.Sort(UnattachedIds(subjects, IdsOf(subjects), q.includeUnattached), IdLe)
            && r.childrenOfAbsentParents == AbsentParents(subjects, IdsOf(subjects))
  {
    hide Scanned, PreorderAll, Roots, IndexById, UnattachedIds, AbsentParents, AllMatch, Visits, Deep;
    IndexFacts(subjects);
    var byId := Index(subjects);
    var children, roots, unattached, absent := Scan(subjects, byId, q);
    var nodes, cycles, depthLimited, truncated :=
      Traverse(subjects, byId, children, roots, q, Effective(maxHierarchyDepth, q.maxDepth), Effective(maxQueryResults, q.limit));
    var deepest := 0;
    for i := 0 to |nodes|
      invariant deepest == Deepest(nodes[..i])
    {
      assert nodes[..i + 1][..i] == nodes[..i];
      deepest := Max(deepest, nodes[i].depth);
    }
    assert nodes[..|nodes|] == nodes;
    r := HierarchyResult(nodes, Ordering.Sort(unattached, IdLe), deepest, cycles, depthLimited, absent, truncated);
  }

  function Deepest(nodes: seq<HierarchyNode>): nat {
    if nodes == [] then 0 else Max(Deepest(nodes[..|nodes| - 1]), nodes[|nodes| - 1].depth)
  }

  // ---- the subjects of a snapshot ----

  /** Every snapshot lists each subject once, so the queries' requirement always holds of it. */
  lemma SnapshotSubjectsAreDistinct(digest: Observation -> Digest, derive: Text -> u128, q: Request)
    ensures DistinctIds(Build(digest, derive, q).subjects)
  {
    hide AspectsOf, TopologyOf, SubjectLe, Truth.SortedIds, Views.Filled, InOrder, MakeFrame, AllClaims, PlaceAll;
    var table := Views.Filled(digest, q).table;
    var states := SubjectsOf(q.policy, derive, table);
    var ids := Truth.SortedIds(table.Keys);
    forall i | 0 <= i < |states| ensures states[i].identity.id == ids[i] {
      SubjectAt(q.policy, derive, table, i);
      Views.BucketClaimsWereSaid(digest, q, ids[i], []);
    }
    PermutedDistinct(states, Ordering.Sort(states, SubjectLe));
    BuiltSubjects(digest, derive, q);
  }

  lemma BuiltSubjects(digest: Observation -> Digest, derive: Text -> u128, q: Request)
    ensures Build(digest, derive, q).subjects == Ordering.Sort(SubjectsOf(q.policy, derive, Views.Filled(digest, q).table), SubjectLe)
  {
    hide InOrder, MakeFrame, AllClaims, PlaceAll, SubjectsOf;
  }

  lemma PermutedDistinct(a: seq<SubjectState>, b: seq<SubjectState>)
    requires DistinctIds(a) && b == Ordering.Sort(a, SubjectLe)
    ensures DistinctIds(b)
  {
    hide SubjectLe;
    Ordering.SortContents(a, SubjectLe);
    Ordering.SortMembers(a, SubjectLe);
    forall i, j | 0 <= i < j < |b| ensures b[i].identity.id != b[j].identity.id {
      if b[i].identity.id == b[j].identity.id {
        assert b[i] in b && b[j] in b;
        SameSubject(a, b[i], b[j]);
        Ordering.CountedTwice(b, i, j);
        Ordering.CountedOnce(a, b[i]);
      }
    }
  }
}
