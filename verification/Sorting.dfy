/** The standard library's stable sort, as the two callers use it: the candidate queue and
    the children of a batch. */
module Sorting {

  ghost predicate TotalPreorder<T(!new)>(le: (T, T) -> bool) {
    && (forall a, b :: le(a, b) || le(b, a))
    && (forall a, b, c :: le(a, b) && le(b, c) ==> le(a, c))
  }

  ghost predicate SortedBy<T>(s: seq<T>, le: (T, T) -> bool) {
    forall i, j :: 0 <= i < j < |s| ==> le(s[i], s[j])
  }

  function Insert<T>(x: T, s: seq<T>, le: (T, T) -> bool): (r: seq<T>)
    ensures multiset(r) == multiset(s) + multiset{x}
  {
    if s == [] || le(x, s[0]) then [x] + s
    else
      assert s == [s[0]] + s[1..];
      [s[0]] + Insert(x, s[1..], le)
  }

  function StableSort<T>(s: seq<T>, le: (T, T) -> bool): (r: seq<T>)
    ensures multiset(r) == multiset(s)
  {
    if s == [] then []
    else
      assert s == [s[0]] + s[1..];
      Insert(s[0], StableSort(s[1..], le), le)
  }

  lemma {:induction false} InsertSorted<T(!new)>(x: T, s: seq<T>, le: (T, T) -> bool)
    requires TotalPreorder(le) && SortedBy(s, le)
    ensures SortedBy(Insert(x, s, le), le)
  {
    var r := Insert(x, s, le);
    if s == [] || le(x, s[0]) {
      forall i, j | 0 <= i < j < |r| ensures le(r[i], r[j]) {
        if i == 0 { assert j == 1 || le(s[0], s[j - 1]); }
      }
    } else {
      InsertSorted(x, s[1..], le);
      var t := Insert(x, s[1..], le);
      forall i, j | 0 <= i < j < |r| ensures le(r[i], r[j]) {
        if i == 0 {
          assert t[j - 1] in multiset(s[1..]) + multiset{x};
          if t[j - 1] != x {
            var k :| 0 <= k < |s[1..]| && s[1..][k] == t[j - 1];
            assert le(s[0], s[k + 1]);
          }
        }
      }
    }
  }

  lemma {:induction false} StableSortSorted<T(!new)>(s: seq<T>, le: (T, T) -> bool)
    requires TotalPreorder(le)
    ensures SortedBy(StableSort(s, le), le)
  {
    if s != [] {
      StableSortSorted(s[1..], le);
      InsertSorted(s[0], StableSort(s[1..], le), le);
    }
  }

  function Matching<T>(s: seq<T>, keep: T -> bool): seq<T> {
    if s == [] then [] else (if keep(s[0]) then [s[0]] else []) + Matching(s[1..], keep)
  }

  /** What is kept of two parts is what is kept of the first and then of the second. */
  lemma {:induction false} MatchingJoins<T>(a: seq<T>, b: seq<T>, keep: T -> bool)
    ensures Matching(a + b, keep) == Matching(a, keep) + Matching(b, keep)
  {
    if a == [] {
      assert a + b == b;
    } else {
      MatchingJoins(a[1..], b, keep);
      assert a + b == [a[0]] + (a[1..] + b) && a == [a[0]] + a[1..];
      hide Matching;
      MatchingFirst(a[0], a[1..] + b, keep);
      MatchingFirst(a[0], a[1..], keep);
    }
  }

  lemma MatchingOne<T>(x: T, keep: T -> bool)
    ensures Matching([x], keep) == if keep(x) then [x] else []
  {
  }

  lemma {:induction false} MatchingMembers<T>(s: seq<T>, keep: T -> bool)
    ensures forall x :: multiset(Matching(s, keep))[x] == if keep(x) then multiset(s)[x] else 0
  {
    if s != [] {
      MatchingMembers(s[1..], keep);
      assert s == [s[0]] + s[1..];
    }
  }

  /** Elements that the order cannot tell apart. */
  ghost predicate OneClass<T(!new)>(keep: T -> bool, le: (T, T) -> bool) {
    forall a, b :: keep(a) && keep(b) ==> le(a, b)
  }

  lemma MatchingFirst<T>(a: T, s: seq<T>, keep: T -> bool)
    ensures Matching([a] + s, keep) == (if keep(a) then [a] else []) + Matching(s, keep)
  {
    assert ([a] + s)[1..] == s;
  }

  lemma {:induction false} InsertKeepsOrder<T(!new)>(x: T, s: seq<T>, le: (T, T) -> bool, keep: T -> bool)
    requires OneClass(keep, le)
    ensures Matching(Insert(x, s, le), keep) == (if keep(x) then [x] else []) + Matching(s, keep)
  {
    hide Matching;
    if s == [] || le(x, s[0]) {
      MatchingFirst(x, s, keep);
    } else {
      var a, rest := s[0], s[1..];
      InsertKeepsOrder(x, rest, le, keep);
      assert Insert(x, s, le) == [a] + Insert(x, rest, le) && s == [a] + rest;
      hide Insert;
      MatchingFirst(a, Insert(x, rest, le), keep);
      MatchingFirst(a, rest, keep);
      assert !(keep(x) && keep(a));
    }
  }

  /** The sort is stable: elements of one class keep their order. */
  lemma {:induction false} StableSortKeepsOrder<T(!new)>(s: seq<T>, le: (T, T) -> bool, keep: T -> bool)
    requires OneClass(keep, le)
    ensures Matching(StableSort(s, le), keep) == Matching(s, keep)
  {
    if s != [] {
      StableSortKeepsOrder(s[1..], le, keep);
      InsertKeepsOrder(s[0], StableSort(s[1..], le), le, keep);
    }
  }
}
