/** Sorted sequences: the merge of two runs and the one sorted permutation of a sequence. */
module SortedSeq {

  ghost predicate Sorted(s: seq<int>) {
    forall i, j :: 0 <= i < j < |s| ==> s[i] <= s[j]
  }

  /** `r` is what a sort of `s` may return: sorted, with the same elements. */
  ghost predicate IsSortOf(r: seq<int>, s: seq<int>) {
    Sorted(r) && |r| == |s| && multiset(r) == multiset(s)
  }

  function Insert(x: int, s: seq<int>): seq<int> {
    if s == [] || x <= s[0] then [x] + s else [s[0]] + Insert(x, s[1..])
  }

  function Sort(s: seq<int>): seq<int> {
    if s == [] then [] else Insert(s[0], Sort(s[1..]))
  }

  /** The merge of two runs; on a tie the left run goes first. */
  function Merge(a: seq<int>, b: seq<int>): (r: seq<int>)
    ensures |r| == |a| + |b|
    decreases |a| + |b|
  {
    if a == [] then b
    else if b == [] then a
    else if a[0] <= b[0] then [a[0]] + Merge(a[1..], b)
    else [b[0]] + Merge(a, b[1..])
  }

  lemma Cons(x: int, s: seq<int>)
    ensures multiset([x] + s) == multiset{x} + multiset(s)
  {
  }

  lemma Split(s: seq<int>)
    requires s != []
    ensures multiset(s) == multiset{s[0]} + multiset(s[1..])
  {
    assert s == [s[0]] + s[1..];
  }

  lemma SortedCons(x: int, s: seq<int>)
    requires Sorted(s)
    requires forall y :: y in multiset(s) ==> x <= y
    ensures Sorted([x] + s)
  {
    forall i, j | 0 <= i < j < |s| + 1
      ensures ([x] + s)[i] <= ([x] + s)[j]
    {
      assert s[j - 1] in multiset(s);
    }
  }

  lemma HeadLeast(s: seq<int>)
    requires Sorted(s) && s != []
    ensures forall y :: y in multiset(s) ==> s[0] <= y
  {
    forall y | y in multiset(s)
      ensures s[0] <= y
    {
      assert y in s;
    }
  }

  lemma {:induction false} InsertSorts(x: int, s: seq<int>)
    requires Sorted(s)
    ensures IsSortOf(Insert(x, s), [x] + s)
  {
    Cons(x, s);
    if s != [] {
      HeadLeast(s);
      if x <= s[0] {
        SortedCons(x, s);
      } else {
        InsertSorts(x, s[1..]);
        InsertLater(x, s, Insert(x, s[1..]));
      }
    }
  }

  lemma InsertLater(x: int, s: seq<int>, t: seq<int>)
    requires s != [] && s[0] < x && (forall y :: y in multiset(s) ==> s[0] <= y)
    requires IsSortOf(t, [x] + s[1..])
    ensures IsSortOf([s[0]] + t, [x] + s)
  {
    Cons(x, s);
    Cons(x, s[1..]);
    Split(s);
    Cons(s[0], t);
    forall y | y in multiset(t)
      ensures s[0] <= y
    {
      if y != x {
        assert multiset(t)[y] == multiset(s[1..])[y] <= multiset(s)[y];
      }
    }
    SortedCons(s[0], t);
  }

  lemma {:induction false} SortSorts(s: seq<int>)
    ensures IsSortOf(Sort(s), s)
  {
    if s != [] {
      SortSorts(s[1..]);
      InsertSorts(s[0], Sort(s[1..]));
      Cons(s[0], Sort(s[1..]));
      Split(s);
    }
  }

  /** A sequence has only one sorted permutation. */
  lemma {:induction false} SortedUnique(a: seq<int>, b: seq<int>)
    requires Sorted(a) && Sorted(b) && multiset(a) == multiset(b)
    ensures a == b
  {
    if a == [] {
      assert |multiset(b)| == 0;
    } else {
      assert a[0] in multiset(b);
      HeadLeast(a);
      HeadLeast(b);
      assert b != [] && b[0] in multiset(a);
      Split(a);
      Split(b);
      assert a[0] == b[0];
      assert multiset(a[1..]) == multiset(a) - multiset{a[0]};
      assert multiset(b[1..]) == multiset(b) - multiset{a[0]};
      SortedUnique(a[1..], b[1..]);
    }
  }

  lemma SortOfUnique(r: seq<int>, s: seq<int>)
    requires IsSortOf(r, s)
    ensures r == Sort(s)
  {
    SortSorts(s);
    SortedUnique(r, Sort(s));
  }

  /** Putting the least element `x` in front of a sort of `s`. */
  lemma SortCons(x: int, t: seq<int>, s: seq<int>)
    requires IsSortOf(t, s)
    requires forall i :: 0 <= i < |s| ==> x <= s[i]
    ensures IsSortOf([x] + t, [x] + s)
  {
    forall y | y in multiset(t)
      ensures x <= y
    {
      assert y in multiset(s);
    }
    SortedCons(x, t);
    Cons(x, t);
    Cons(x, s);
  }

  lemma IsSortOfSame(r: seq<int>, s: seq<int>, t: seq<int>)
    requires IsSortOf(r, s) && |s| == |t| && multiset(s) == multiset(t)
    ensures IsSortOf(r, t)
  {
  }

  lemma MoveToMiddle(a: seq<int>, b: seq<int>)
    requires b != []
    ensures multiset([b[0]] + (a + b[1..])) == multiset(a + b)
  {
    assert b == [b[0]] + b[1..];
  }

  lemma {:induction false} MergeSorts(a: seq<int>, b: seq<int>)
    requires Sorted(a) && Sorted(b)
    ensures IsSortOf(Merge(a, b), a + b)
    decreases |a| + |b|
  {
    if a == [] {
      assert a + b == b;
    } else if b == [] {
      assert a + b == a;
    } else {
      if a[0] <= b[0] {
        MergeSorts(a[1..], b);
        SortCons(a[0], Merge(a[1..], b), a[1..] + b);
        assert [a[0]] + (a[1..] + b) == a + b;
      } else {
        MergeSorts(a, b[1..]);
        SortCons(b[0], Merge(a, b[1..]), a + b[1..]);
        MoveToMiddle(a, b);
        IsSortOfSame(Merge(a, b), [b[0]] + (a + b[1..]), a + b);
      }
    }
  }

  /** Merging two sorted halves gives the sorted permutation of the whole. */
  lemma MergeOfSorts(a: seq<int>, b: seq<int>)
    ensures Merge(Sort(a), Sort(b)) == Sort(a + b)
  {
    SortSorts(a);
    SortSorts(b);
    MergeSorts(Sort(a), Sort(b));
    assert multiset(Sort(a) + Sort(b)) == multiset(a + b);
    SortOfUnique(Merge(Sort(a), Sort(b)), a + b);
  }
}
