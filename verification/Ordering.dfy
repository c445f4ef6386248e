/** Sorting by a caller-supplied order, and when a sorted result depends on nothing but the
    multiset of its input. */
module Ordering {

  /** Inserts x before the first element that is not below it, so that sorting is stable. */
  function Insert<T>(x: T, s: seq<T>, le: (T, T) -> bool): seq<T> {
    if s == [] || le(x, s[0]) then [x] + s else [s[0]] + Insert(x, s[1..], le)
  }

  function Sort<T>(s: seq<T>, le: (T, T) -> bool): seq<T> {
    if s == [] then [] else Insert(s[0], Sort(s[1..], le), le)
  }

  ghost predicate Sorted<T>(s: seq<T>, le: (T, T) -> bool) {
    forall i, j :: 0 <= i < j < |s| ==> le(s[i], s[j])
  }

  ghost predicate TotalPreorder<T(!new)>(le: (T, T) -> bool) {
    && (forall x, y :: le(x, y) || le(y, x))
    && (forall x, y, z :: le(x, y) && le(y, z) ==> le(x, z))
  }

  /** No two different elements of s are tied under le. */
  ghost predicate Untied<T>(s: seq<T>, le: (T, T) -> bool) {
    forall x, y :: x in s && y in s && le(x, y) && le(y, x) ==> x == y
  }

  lemma {:induction false} InsertContents<T>(x: T, s: seq<T>, le: (T, T) -> bool)
    ensures multiset(Insert(x, s, le)) == multiset{x} + multiset(s)
  {
    if s == [] || le(x, s[0]) {
      assert multiset([x] + s) == multiset{x} + multiset(s);
    } else {
      InsertContents(x, s[1..], le);
      assert s == [s[0]] + s[1..];
    }
  }

  lemma InMultiset<T>(x: T, s: seq<T>)
    ensures x in multiset(s) <==> x in s
  {
  }

  lemma {:induction false} InsertSorted<T(!new)>(x: T, s: seq<T>, le: (T, T) -> bool)
    requires TotalPreorder(le) && Sorted(s, le)
    ensures Sorted(Insert(x, s, le), le)
  {
    if s == [] {
    } else if le(x, s[0]) {
      forall j | 0 <= j < |s| ensures le(x, s[j]) {
        assert le(s[0], s[j]) || j == 0;
      }
    } else {
      InsertSorted(x, s[1..], le);
      var rest := Insert(x, s[1..], le);
      forall j | 0 <= j < |rest| ensures le(s[0], rest[j]) {
        InsertContents(x, s[1..], le);
        assert rest[j] in multiset(rest);
        if rest[j] != x {
          assert rest[j] in multiset(s[1..]);
          assert rest[j] in s[1..];
        }
      }
    }
  }

  lemma {:induction false} SortContents<T>(s: seq<T>, le: (T, T) -> bool)
    ensures multiset(Sort(s, le)) == multiset(s)
    ensures |Sort(s, le)| == |s|
  {
    if s != [] {
      SortContents(s[1..], le);
      InsertContents(s[0], Sort(s[1..], le), le);
      assert s == [s[0]] + s[1..];
    }
    assert |multiset(Sort(s, le))| == |multiset(s)|;
  }

  lemma {:induction false} SortSorted<T(!new)>(s: seq<T>, le: (T, T) -> bool)
    requires TotalPreorder(le)
    ensures Sorted(Sort(s, le), le)
  {
    if s != [] {
      SortSorted(s[1..], le);
      InsertSorted(s[0], Sort(s[1..], le), le);
    }
  }

  lemma SortMembers<T>(s: seq<T>, le: (T, T) -> bool)
    ensures forall x :: x in Sort(s, le) <==> x in s
  {
    SortContents(s, le);
    forall x ensures x in Sort(s, le) <==> x in s {
      InMultiset(x, s);
      InMultiset(x, Sort(s, le));
    }
  }

  /** Sorted arrangements of one multiset with no ties agree on their first element. */
  lemma SortedHeads<T>(a: seq<T>, b: seq<T>, le: (T, T) -> bool)
    requires a != [] && b != [] && multiset(a) == multiset(b)
    requires Sorted(a, le) && Sorted(b, le) && Untied(a, le)
    ensures a[0] == b[0]
  {
    InMultiset(b[0], a);
    InMultiset(a[0], b);
    assert a[0] in multiset(a) && b[0] in multiset(b);
    var i :| 0 <= i < |a| && a[i] == b[0];
    var j :| 0 <= j < |b| && b[j] == a[0];
    if i > 0 && j > 0 {
      assert le(a[0], a[i]) && le(b[0], b[j]);
    }
  }

  lemma TailContents<T>(a: seq<T>)
    requires a != []
    ensures multiset(a[1..]) == multiset(a) - multiset{a[0]}
    ensures forall x :: x in a[1..] ==> x in a
  {
    assert a == [a[0]] + a[1..];
  }

  /** Two sorted arrangements of one multiset with no ties are the same sequence. */
  lemma {:induction false} SortedUnique<T>(a: seq<T>, b: seq<T>, le: (T, T) -> bool)
    requires multiset(a) == multiset(b)
    requires Sorted(a, le) && Sorted(b, le) && Untied(a, le)
    ensures a == b
    decreases |a|
  {
    hide Sorted, Untied;
    assert |multiset(a)| == |a| && |multiset(b)| == |b|;
    if a != [] {
      SortedHeads(a, b, le);
      TailContents(a);
      TailContents(b);
      TailStaysSorted(a, le);
      TailStaysSorted(b, le);
      TailStaysUntied(a, le);
      SortedUnique(a[1..], b[1..], le);
      assert a == [a[0]] + a[1..] && b == [b[0]] + b[1..];
    }
  }

  lemma TailStaysSorted<T>(a: seq<T>, le: (T, T) -> bool)
    requires a != [] && Sorted(a, le)
    ensures Sorted(a[1..], le)
  {
  }

  lemma TailStaysUntied<T>(a: seq<T>, le: (T, T) -> bool)
    requires a != [] && Untied(a, le)
    ensures Untied(a[1..], le)
  {
    TailContents(a);
  }

  /** Sorting forgets the arrangement: permuted inputs without ties sort to the same sequence. */
  lemma SortForgetsOrder<T(!new)>(a: seq<T>, b: seq<T>, le: (T, T) -> bool)
    requires TotalPreorder(le) && multiset(a) == multiset(b) && Untied(a, le)
    ensures Sort(a, le) == Sort(b, le)
  {
    SortContents(a, le);
    SortContents(b, le);
    SortSorted(a, le);
    SortSorted(b, le);
    SortMembers(a, le);
    SortedUnique(Sort(a, le), Sort(b, le), le);
  }

  /** Sorting leaves an already sorted sequence alone. */
  lemma {:induction false} SortOfSorted<T>(s: seq<T>, le: (T, T) -> bool)
    requires Sorted(s, le)
    ensures Sort(s, le) == s
  {
    if s != [] {
      SortOfSorted(s[1..], le);
      assert s == [s[0]] + s[1..];
      assert |s| > 1 ==> le(s[0], s[1]);
    }
  }

  // ---- the ascending enumeration of a set, as an ordered container iterates ----

  ghost predicate TotalOrder<T(!new)>(le: (T, T) -> bool) {
    TotalPreorder(le) && forall x, y :: le(x, y) && le(y, x) ==> x == y
  }

  lemma {:induction false} LeastExists<T(!new)>(s: set<T>, le: (T, T) -> bool)
    requires TotalOrder(le) && s != {}
    ensures exists m :: m in s && forall y :: y in s ==> le(m, y)
    decreases |s|
  {
    var x :| x in s;
    if s == {x} {
      assert forall y :: y in s ==> le(x, y);
    } else {
      var rest := s - {x};
      LeastExists(rest, le);
      var m :| m in rest && forall y :: y in rest ==> le(m, y);
      if le(x, m) {
        assert forall y :: y in s ==> y == x || le(m, y);
      } else {
        assert forall y :: y in s ==> le(m, y);
      }
    }
  }

  function Enumerate<T(==, !new)>(s: set<T>, le: (T, T) -> bool): (r: seq<T>)
    requires TotalOrder(le)
    ensures |r| == |s|
    ensures forall x :: x in r <==> x in s
    ensures forall i, j :: 0 <= i < j < |r| ==> le(r[i], r[j]) && r[i] != r[j]
    decreases |s|
  {
    if s == {} then []
    else
      LeastExists(s, le);
      var m :| m in s && forall y :: y in s ==> le(m, y);
      [m] + Enumerate(s - {m}, le)
  }

  predicate NoRepeats<T(==)>(s: seq<T>) { forall i, j :: 0 <= i < j < |s| ==> s[i] != s[j] }

  lemma {:induction false} SubsetSize<T>(a: set<T>, b: set<T>)
    requires a <= b
    ensures |a| <= |b|
  {
    if a != {} {
      var x :| x in a;
      SubsetSize(a - {x}, b - {x});
    }
  }

  function Elements<T>(s: seq<T>): set<T> { set x | x in s }

  lemma {:induction false} ElementCount<T>(s: seq<T>)
    ensures |Elements(s)| <= |s|
  {
    if s != [] {
      ElementCount(s[..|s| - 1]);
      assert s == s[..|s| - 1] + [s[|s| - 1]];
      assert Elements(s) == Elements(s[..|s| - 1]) + {s[|s| - 1]};
    }
  }

  // ---- keeping the elements that satisfy a test ----

  function Filter<T>(s: seq<T>, keep: T -> bool): (r: seq<T>)
  {
    if s == [] then []
    else if keep(s[|s| - 1]) then Filter(s[..|s| - 1], keep) + [s[|s| - 1]]
    else Filter(s[..|s| - 1], keep)
  }

  lemma {:induction false} FilterFront<T>(x: T, s: seq<T>, keep: T -> bool)
    ensures Filter([x] + s, keep) == (if keep(x) then [x] else []) + Filter(s, keep)
  {
    if s == [] {
      assert [x] + s == [x] && [x][..0] == [];
    } else {
      FilterFront(x, s[..|s| - 1], keep);
      assert ([x] + s)[..|s|] == [x] + s[..|s| - 1];
    }
  }

  lemma {:induction false} InsertStable<T(!new)>(x: T, s: seq<T>, le: (T, T) -> bool, keep: T -> bool)
    requires forall y, z :: keep(y) && keep(z) ==> le(y, z)
    ensures Filter(Insert(x, s, le), keep) == (if keep(x) then [x] else []) + Filter(s, keep)
  {
    if s == [] || le(x, s[0]) {
      FilterFront(x, s, keep);
    } else {
      InsertStable(x, s[1..], le, keep);
      FilterFront(s[0], Insert(x, s[1..], le), keep);
      FilterFront(s[0], s[1..], keep);
      assert s == [s[0]] + s[1..];
    }
  }

  /** Sorting is stable: elements tied with each other keep their arrangement. */
  lemma {:induction false} SortStable<T(!new)>(s: seq<T>, le: (T, T) -> bool, keep: T -> bool)
    requires forall y, z :: keep(y) && keep(z) ==> le(y, z)
    ensures Filter(Sort(s, le), keep) == Filter(s, keep)
  {
    if s != [] {
      SortStable(s[1..], le, keep);
      InsertStable(s[0], Sort(s[1..], le), le, keep);
      FilterFront(s[0], s[1..], keep);
      assert s == [s[0]] + s[1..];
    }
  }

  lemma CountedTwice<T>(s: seq<T>, i: nat, j: nat)
    requires i < j < |s| && s[i] == s[j]
    ensures multiset(s)[s[i]] >= 2
  {
    assert s == s[..j] + s[j..];
    assert s[j] in multiset(s[j..]) && s[i] in multiset(s[..j]) by {
      assert s[..j][i] == s[i] && s[j..][0] == s[j];
    }
  }

  lemma {:induction false} CountedOnce<T>(s: seq<T>, x: T)
    requires forall i, j :: 0 <= i < j < |s| ==> s[i] != s[j]
    ensures multiset(s)[x] <= 1
  {
    if s != [] {
      var front, last := s[..|s| - 1], s[|s| - 1];
      CountedOnce(front, x);
      assert s == front + [last];
      if x == last {
        assert last !in front;
        assert last !in multiset(front);
      }
    }
  }

  lemma {:induction false} FilterCount<T>(s: seq<T>, keep: T -> bool, x: T)
    ensures multiset(Filter(s, keep))[x] == if keep(x) then multiset(s)[x] else 0
  {
    if s != [] {
      var front, last := s[..|s| - 1], s[|s| - 1];
      FilterCount(front, keep, x);
      assert s == front + [last];
    }
  }

  lemma FilterAppend<T>(s: seq<T>, x: T, keep: T -> bool)
    ensures Filter(s + [x], keep) == if keep(x) then Filter(s, keep) + [x] else Filter(s, keep)
  {
    assert (s + [x])[..|s|] == s;
  }

  lemma {:induction false} FilterMembers<T>(s: seq<T>, keep: T -> bool)
    ensures forall x :: x in Filter(s, keep) <==> x in s && keep(x)
  {
    if s != [] {
      FilterMembers(s[..|s| - 1], keep);
      assert s == s[..|s| - 1] + [s[|s| - 1]];
    }
  }

  lemma {:induction false} FilterLength<T>(s: seq<T>, keep: T -> bool)
    ensures |Filter(s, keep)| <= |s|
  {
    if s != [] {
      FilterLength(s[..|s| - 1], keep);
    }
  }
}
