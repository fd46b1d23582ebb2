/** A stable sort by a given order: what list.sort, sorted and ORDER BY are taken to do. */
module Sorting {
  ghost predicate TotalPreorder<T(!new)>(le: (T, T) -> bool) {
    && (forall x, y :: le(x, y) || le(y, x))
    && (forall x, y, z :: le(x, y) && le(y, z) ==> le(x, z))
  }

  ghost predicate Sorted<T>(le: (T, T) -> bool, xs: seq<T>) {
    forall i, j :: 0 <= i < j < |xs| ==> le(xs[i], xs[j])
  }

  function Insert<T>(le: (T, T) -> bool, x: T, xs: seq<T>): seq<T> {
    if xs == [] || le(x, xs[0]) then [x] + xs else [xs[0]] + Insert(le, x, xs[1..])
  }

  function Sort<T>(le: (T, T) -> bool, xs: seq<T>): seq<T> {
    if xs == [] then [] else Insert(le, xs[0], Sort(le, xs[1..]))
  }

  lemma {:induction false} InsertPermutes<T>(le: (T, T) -> bool, x: T, xs: seq<T>)
    ensures multiset(Insert(le, x, xs)) == multiset([x] + xs)
  {
    if xs != [] && !le(x, xs[0]) {
      InsertPermutes(le, x, xs[1..]);
      assert xs == [xs[0]] + xs[1..];
    }
  }

  lemma {:induction false} SortPermutes<T>(le: (T, T) -> bool, xs: seq<T>)
    ensures multiset(Sort(le, xs)) == multiset(xs)
    ensures |Sort(le, xs)| == |xs|
  {
    if xs != [] {
      SortPermutes(le, xs[1..]);
      InsertPermutes(le, xs[0], Sort(le, xs[1..]));
      assert xs == [xs[0]] + xs[1..];
    }
    assert |multiset(Sort(le, xs))| == |multiset(xs)|;
  }

  lemma SortMembers<T>(le: (T, T) -> bool, xs: seq<T>, x: T)
    ensures x in Sort(le, xs) <==> x in xs
  {
    SortPermutes(le, xs);
    assert x in multiset(Sort(le, xs)) <==> x in multiset(xs);
  }

  lemma {:induction false} InsertSorted<T(!new)>(le: (T, T) -> bool, x: T, xs: seq<T>)
    requires TotalPreorder(le) && Sorted(le, xs)
    ensures Sorted(le, Insert(le, x, xs))
  {
    if xs != [] && !le(x, xs[0]) {
      var rest := Insert(le, x, xs[1..]);
      InsertSorted(le, x, xs[1..]);
      InsertPermutes(le, x, xs[1..]);
      forall j | 0 <= j < |rest|
        ensures le(xs[0], rest[j])
      {
        assert rest[j] in multiset([x] + xs[1..]);
        if rest[j] != x {
          assert rest[j] in xs[1..];
        }
      }
    }
  }

  lemma {:induction false} SortSorts<T(!new)>(le: (T, T) -> bool, xs: seq<T>)
    requires TotalPreorder(le)
    ensures Sorted(le, Sort(le, xs))
  {
    if xs != [] {
      SortSorts(le, xs[1..]);
      InsertSorted(le, xs[0], Sort(le, xs[1..]));
    }
  }

  /** The order tells different elements apart. */
  ghost predicate Separates<T>(le: (T, T) -> bool, xs: seq<T>) {
    forall x, y :: x in xs && y in xs && le(x, y) && le(y, x) ==> x == y
  }

  lemma HeadsAgree<T>(le: (T, T) -> bool, xs: seq<T>, ys: seq<T>)
    requires Sorted(le, xs) && Sorted(le, ys) && multiset(xs) == multiset(ys) && Separates(le, xs)
    requires xs != [] && ys != []
    ensures xs[0] == ys[0]
  {
    assert xs[0] in multiset(ys) && ys[0] in multiset(xs);
    var i :| 0 <= i < |ys| && ys[i] == xs[0];
    var j :| 0 <= j < |xs| && xs[j] == ys[0];
    if i > 0 && j > 0 {
      assert le(ys[0], ys[i]) && le(xs[0], xs[j]);
    }
  }

  lemma SameLength<T>(xs: seq<T>, ys: seq<T>)
    requires multiset(xs) == multiset(ys)
    ensures |xs| == |ys|
  {
    assert |multiset(xs)| == |multiset(ys)|;
  }

  lemma TailsAgree<T>(xs: seq<T>, ys: seq<T>)
    requires multiset(xs) == multiset(ys) && xs != [] && ys != [] && xs[0] == ys[0]
    ensures multiset(xs[1..]) == multiset(ys[1..])
  {
    assert xs == [xs[0]] + xs[1..] && ys == [ys[0]] + ys[1..];
    assert multiset(xs[1..]) == multiset(xs) - multiset{xs[0]};
  }

  lemma TailFacts<T>(le: (T, T) -> bool, xs: seq<T>)
    requires xs != []
    ensures Sorted(le, xs) ==> Sorted(le, xs[1..])
    ensures Separates(le, xs) ==> Separates(le, xs[1..])
  {
  }

  /** Then a sorted arrangement is unique. */
  lemma {:induction false} SortedUnique<T>(le: (T, T) -> bool, xs: seq<T>, ys: seq<T>)
    requires Sorted(le, xs) && Sorted(le, ys) && multiset(xs) == multiset(ys) && Separates(le, xs)
    ensures xs == ys
  {
    hide Sorted, Separates;
    SameLength(xs, ys);
    if xs != [] {
      HeadsAgree(le, xs, ys);
      TailsAgree(xs, ys);
      TailFacts(le, xs);
      TailFacts(le, ys);
      SortedUnique(le, xs[1..], ys[1..]);
    }
  }

  ghost predicate NoDups<T>(xs: seq<T>) {
    forall i, j :: 0 <= i < j < |xs| ==> xs[i] != xs[j]
  }

  lemma {:induction false} NoDupsCount<T>(xs: seq<T>, x: T)
    requires NoDups(xs)
    ensures multiset(xs)[x] == if x in xs then 1 else 0
  {
    if xs != [] {
      NoDupsCount(xs[1..], x);
      assert xs == [xs[0]] + xs[1..];
    }
  }

  lemma SameMembers<T>(xs: seq<T>, ys: seq<T>)
    requires NoDups(xs) && NoDups(ys)
    requires forall x :: x in xs <==> x in ys
    ensures multiset(xs) == multiset(ys)
  {
    forall x: T
      ensures multiset(xs)[x] == multiset(ys)[x]
    {
      NoDupsCount(xs, x);
      NoDupsCount(ys, x);
    }
  }

  lemma TwiceCounts<T>(xs: seq<T>, i: nat, j: nat)
    requires i < j < |xs| && xs[i] == xs[j]
    ensures multiset(xs)[xs[i]] >= 2
  {
    assert xs == xs[..j] + xs[j..] && xs[i] in xs[..j] && xs[j] in xs[j..];
  }

  lemma CountedOnce<T>(xs: seq<T>, ys: seq<T>)
    requires NoDups(xs) && multiset(xs) == multiset(ys)
    ensures NoDups(ys)
  {
    if i, j :| 0 <= i < j < |ys| && ys[i] == ys[j] {
      NoDupsCount(xs, ys[i]);
      TwiceCounts(ys, i, j);
    }
  }

  lemma SplitNoDups<T>(xs: seq<T>, n: nat, x: T)
    requires NoDups(xs) && n <= |xs|
    ensures x in xs[n..] <==> x in xs && x !in xs[..n]
  {
  }
}
