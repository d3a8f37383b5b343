/**
 Stable sorting by a total preorder: what Array.prototype.sort guarantees, and why that is all
 one needs to know about it, whichever algorithm an engine uses.
 */
module Sorting {

  ghost predicate TotalPreorder<T(!new)>(leq: (T, T) -> bool) {
    && (forall x, y :: leq(x, y) || leq(y, x))
    && (forall x, y, z :: leq(x, y) && leq(y, z) ==> leq(x, z))
  }

  predicate Sorted<T>(leq: (T, T) -> bool, s: seq<T>) {
    forall i, j | 0 <= i < j < |s| :: leq(s[i], s[j])
  }

  /** In front of the first element that is not strictly smaller, so earlier elements stay ahead of their ties. */
  function Insert<T>(leq: (T, T) -> bool, x: T, s: seq<T>): seq<T> {
    if s == [] || leq(x, s[0]) then [x] + s else [s[0]] + Insert(leq, x, s[1..])
  }

  function Sort<T>(leq: (T, T) -> bool, s: seq<T>): seq<T> {
    if s == [] then [] else Insert(leq, s[0], Sort(leq, s[1..]))
  }

  /** The elements tied with x, in order. */
  function Ties<T>(leq: (T, T) -> bool, x: T, s: seq<T>): seq<T> {
    if s == [] then []
    else (if leq(x, s[0]) && leq(s[0], x) then [s[0]] else []) + Ties(leq, x, s[1..])
  }

  lemma {:induction false} InsertPermutes<T>(leq: (T, T) -> bool, x: T, s: seq<T>)
    ensures multiset(Insert(leq, x, s)) == multiset{x} + multiset(s)
    ensures |Insert(leq, x, s)| == |s| + 1
  {
    if s != [] && !leq(x, s[0]) {
      InsertPermutes(leq, x, s[1..]);
      assert s == [s[0]] + s[1..];
    }
  }

  lemma {:induction false} SortPermutes<T>(leq: (T, T) -> bool, s: seq<T>)
    ensures multiset(Sort(leq, s)) == multiset(s) && |Sort(leq, s)| == |s|
  {
    if s != [] {
      SortPermutes(leq, s[1..]);
      InsertPermutes(leq, s[0], Sort(leq, s[1..]));
      assert s == [s[0]] + s[1..];
    }
  }

  lemma {:induction false} SameElements<T>(a: seq<T>, b: seq<T>)
    requires multiset(a) == multiset(b)
    ensures forall x :: x in a <==> x in b
  {
    assert forall x :: x in a <==> x in multiset(a);
  }

  lemma {:induction false} SortElements<T>(leq: (T, T) -> bool, s: seq<T>)
    ensures forall x :: x in Sort(leq, s) <==> x in s
  {
    SortPermutes(leq, s);
    SameElements(Sort(leq, s), s);
  }

  lemma {:induction false} InsertSorted<T(!new)>(leq: (T, T) -> bool, x: T, s: seq<T>)
    requires TotalPreorder(leq) && Sorted(leq, s)
    ensures Sorted(leq, Insert(leq, x, s))
  {
    if s != [] && !leq(x, s[0]) {
      InsertSorted(leq, x, s[1..]);
      InsertPermutes(leq, x, s[1..]);
      var tail := Insert(leq, x, s[1..]);
      forall j | 0 <= j < |tail| ensures leq(s[0], tail[j]) {
        assert tail[j] in multiset(tail);
        if tail[j] != x { assert tail[j] in s[1..]; }
      }
    }
  }

  lemma {:induction false} SortSorted<T(!new)>(leq: (T, T) -> bool, s: seq<T>)
    requires TotalPreorder(leq)
    ensures Sorted(leq, Sort(leq, s))
  {
    if s != [] {
      SortSorted(leq, s[1..]);
      InsertSorted(leq, s[0], Sort(leq, s[1..]));
    }
  }

  /** Sorting what is sorted changes nothing. */
  lemma {:induction false} SortFixed<T>(leq: (T, T) -> bool, s: seq<T>)
    requires Sorted(leq, s)
    ensures Sort(leq, s) == s
  {
    if s != [] {
      SortFixed(leq, s[1..]);
      assert |s| > 1 ==> leq(s[0], s[1]);
      assert s == [s[0]] + s[1..];
    }
  }

  lemma {:induction false} InsertTies<T(!new)>(leq: (T, T) -> bool, x: T, y: T, s: seq<T>)
    requires TotalPreorder(leq)
    ensures Ties(leq, x, Insert(leq, y, s)) == Ties(leq, x, [y] + s)
  {
    assert ([y] + s)[1..] == s;
    if s != [] && !leq(y, s[0]) {
      InsertTies(leq, x, y, s[1..]);
      assert ([y] + s[1..])[1..] == s[1..];
      assert Insert(leq, y, s)[1..] == Insert(leq, y, s[1..]);
    }
  }

  /** Stability: ties keep their order. */
  lemma {:induction false} SortStable<T(!new)>(leq: (T, T) -> bool, x: T, s: seq<T>)
    requires TotalPreorder(leq)
    ensures Ties(leq, x, Sort(leq, s)) == Ties(leq, x, s)
  {
    if s != [] {
      SortStable(leq, x, s[1..]);
      InsertTies(leq, x, s[0], Sort(leq, s[1..]));
      assert ([s[0]] + Sort(leq, s[1..]))[1..] == Sort(leq, s[1..]);
    }
  }

  lemma {:induction false} TiesMember<T>(leq: (T, T) -> bool, x: T, s: seq<T>)
    ensures forall y :: y in Ties(leq, x, s) <==> y in s && leq(x, y) && leq(y, x)
  {
    if s != [] {
      TiesMember(leq, x, s[1..]);
      assert s == [s[0]] + s[1..];
    }
  }

  lemma {:induction false} TailTies<T>(leq: (T, T) -> bool, y: T, a: seq<T>, b: seq<T>)
    requires a != [] && b != [] && a[0] == b[0] && Ties(leq, y, a) == Ties(leq, y, b)
    ensures Ties(leq, y, a[1..]) == Ties(leq, y, b[1..])
  {
    if leq(y, a[0]) && leq(a[0], y) {
      assert Ties(leq, y, a)[1..] == Ties(leq, y, a[1..]) && Ties(leq, y, b)[1..] == Ties(leq, y, b[1..]);
    } else {
      assert Ties(leq, y, a) == Ties(leq, y, a[1..]) && Ties(leq, y, b) == Ties(leq, y, b[1..]);
    }
  }

  /** Sorted and stable leaves one possible result, so any stable sort computes this one. */
  lemma {:induction false} SortUnique<T(!new)>(leq: (T, T) -> bool, a: seq<T>, b: seq<T>)
    requires TotalPreorder(leq) && Sorted(leq, a) && Sorted(leq, b)
    requires forall x :: Ties(leq, x, a) == Ties(leq, x, b)
    ensures a == b
  {
    assert b != [] ==> leq(b[0], b[0]) && Ties(leq, b[0], b) != [];
    if a != [] {
      var x := a[0];
      assert leq(x, x) && Ties(leq, x, a)[0] == x;
      TiesMember(leq, x, b);
      assert x in Ties(leq, x, b);
      HeadsAgree(leq, a, b);
      forall y ensures Ties(leq, y, a[1..]) == Ties(leq, y, b[1..]) { TailTies(leq, y, a, b); }
      SortUnique(leq, a[1..], b[1..]);
      assert a == [x] + a[1..] && b == [x] + b[1..];
    }
  }

  lemma {:induction false} HeadsAgree<T(!new)>(leq: (T, T) -> bool, a: seq<T>, b: seq<T>)
    requires TotalPreorder(leq) && Sorted(leq, a) && Sorted(leq, b) && a != [] && b != []
    requires forall x :: Ties(leq, x, a) == Ties(leq, x, b)
    ensures a[0] == b[0]
  {
    TiesMember(leq, a[0], b);
    TiesMember(leq, b[0], a);
    assert leq(a[0], a[0]) && leq(b[0], b[0]);
    assert Ties(leq, a[0], a)[0] == a[0] && Ties(leq, b[0], b)[0] == b[0];
    assert a[0] in Ties(leq, a[0], b) && b[0] in Ties(leq, b[0], a);
    assert leq(a[0], b[0]) && leq(b[0], a[0]);
    assert Ties(leq, a[0], b)[0] == b[0];
  }

  /** Only equal elements tie. */
  predicate TellsApart<T(==)>(leq: (T, T) -> bool, s: seq<T>) {
    forall i, j | 0 <= i < |s| && 0 <= j < |s| && leq(s[i], s[j]) && leq(s[j], s[i]) :: s[i] == s[j]
  }

  lemma {:induction false} SortTellsApart<T>(leq: (T, T) -> bool, s: seq<T>)
    requires TellsApart(leq, s)
    ensures TellsApart(leq, Sort(leq, s))
  {
    var t := Sort(leq, s);
    SortPermutes(leq, s);
    forall i, j | 0 <= i < |t| && 0 <= j < |t| && leq(t[i], t[j]) && leq(t[j], t[i]) ensures t[i] == t[j] {
      assert t[i] in multiset(s) && t[j] in multiset(s);
    }
  }

  /** Then the elements alone determine the sorted list. */
  lemma {:induction false} SortedSame<T(!new)>(leq: (T, T) -> bool, a: seq<T>, b: seq<T>)
    requires TotalPreorder(leq) && Sorted(leq, a) && Sorted(leq, b) && multiset(a) == multiset(b)
    requires TellsApart(leq, a)
    ensures a == b
  {
    SameLength(a, b);
    if a != [] {
      SameHeads(leq, a, b);
      TailElements(a);
      TailElements(b);
      SortedSame(leq, a[1..], b[1..]);
      assert a == [a[0]] + a[1..] && b == [b[0]] + b[1..];
    }
  }

  lemma {:induction false} SameLength<T>(a: seq<T>, b: seq<T>)
    requires multiset(a) == multiset(b)
    ensures |a| == |b|
  {
    assert |multiset(a)| == |multiset(b)|;
  }

  lemma {:induction false} TailElements<T>(s: seq<T>)
    requires s != []
    ensures multiset(s[1..]) == multiset(s) - multiset{s[0]}
  {
    assert s == [s[0]] + s[1..];
  }

  lemma {:induction false} SameHeads<T(!new)>(leq: (T, T) -> bool, a: seq<T>, b: seq<T>)
    requires TotalPreorder(leq) && Sorted(leq, a) && Sorted(leq, b) && a != [] && b != []
    requires multiset(a) == multiset(b) && TellsApart(leq, a)
    ensures a[0] == b[0]
  {
    SameElements(a, b);
    assert a[0] in b && b[0] in a;
    assert leq(a[0], a[0]) && leq(b[0], b[0]);
  }
}
