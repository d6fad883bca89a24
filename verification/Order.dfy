/**
 Total preorders, and the one sort the service uses everywhere it lists something.

 Python's `sorted` is modelled by insertion sort. What the rest of the project relies on is not
 how it sorts but that nothing else could come out: under an order that separates the elements,
 every sorted rearrangement of the same rows is the same list.
 */
module Order {

  ghost predicate TotalPreorder<T(!new)>(leq: (T, T) -> bool) {
    && (forall x, y :: leq(x, y) || leq(y, x))
    && (forall x, y, z :: leq(x, y) && leq(y, z) ==> leq(x, z))
  }

  /** No two different elements of `s` tie. */
  ghost predicate Separates<T(!new)>(leq: (T, T) -> bool, s: seq<T>) {
    forall x, y :: x in s && y in s && leq(x, y) && leq(y, x) ==> x == y
  }

  ghost predicate Sorted<T(!new)>(leq: (T, T) -> bool, s: seq<T>) {
    forall i, j :: 0 <= i < j < |s| ==> leq(s[i], s[j])
  }

  function Insert<T>(leq: (T, T) -> bool, x: T, s: seq<T>): seq<T> {
    if s == [] then [x]
    else if leq(x, s[0]) then [x] + s
    else [s[0]] + Insert(leq, x, s[1..])
  }

  function Sort<T>(leq: (T, T) -> bool, s: seq<T>): seq<T> {
    if s == [] then [] else Insert(leq, s[0], Sort(leq, s[1..]))
  }

  lemma {:induction false} InsertSorts<T(!new)>(leq: (T, T) -> bool, x: T, s: seq<T>)
    requires TotalPreorder(leq) && Sorted(leq, s)
    ensures multiset(Insert(leq, x, s)) == multiset{x} + multiset(s)
    ensures Sorted(leq, Insert(leq, x, s))
  {
    if s == [] || leq(x, s[0]) {
    } else {
      assert s == [s[0]] + s[1..];
      InsertSorts(leq, x, s[1..]);
      var rest := Insert(leq, x, s[1..]);
      forall y | y in rest ensures leq(s[0], y) {
        assert y in multiset(rest);
        assert y == x || y in s[1..];
      }
    }
  }

  lemma {:induction false} SortSorts<T(!new)>(leq: (T, T) -> bool, s: seq<T>)
    requires TotalPreorder(leq)
    ensures multiset(Sort(leq, s)) == multiset(s)
    ensures Sorted(leq, Sort(leq, s))
  {
    if s == [] {
    } else {
      assert s == [s[0]] + s[1..];
      SortSorts(leq, s[1..]);
      InsertSorts(leq, s[0], Sort(leq, s[1..]));
    }
  }

  lemma HeadsAgree<T(!new)>(leq: (T, T) -> bool, a: seq<T>, b: seq<T>)
    requires TotalPreorder(leq) && Separates(leq, a) && Sorted(leq, a) && Sorted(leq, b)
    requires a != [] && b != [] && forall x :: x in a <==> x in b
    ensures a[0] == b[0]
  {
    assert a[0] in b && b[0] in a;
    assert leq(a[0], a[0]) && leq(b[0], b[0]);
    assert leq(a[0], b[0]) && leq(b[0], a[0]);
  }

  lemma TailKeepsOrder<T(!new)>(leq: (T, T) -> bool, s: seq<T>)
    requires s != [] && Sorted(leq, s)
    ensures Sorted(leq, s[1..])
    ensures Separates(leq, s) ==> Separates(leq, s[1..])
  {
    var t := s[1..];
    forall i, j | 0 <= i < j < |t| ensures leq(t[i], t[j]) {
      assert t[i] == s[i + 1] && t[j] == s[j + 1];
    }
    if Separates(leq, s) {
      forall x, y | x in t && y in t && leq(x, y) && leq(y, x) ensures x == y {
        assert x in s && y in s;
      }
    }
  }

  lemma TailMultiset<T>(a: seq<T>)
    requires a != []
    ensures multiset(a[1..]) == multiset(a) - multiset{a[0]}
  {
    assert a == [a[0]] + a[1..];
  }

  /** A sorted listing is determined by what it lists: the arrival order leaves no trace. */
  lemma {:induction false} SortedListingIsUnique<T(!new)>(leq: (T, T) -> bool, a: seq<T>, b: seq<T>)
    requires TotalPreorder(leq) && Separates(leq, a)
    requires Sorted(leq, a) && Sorted(leq, b) && multiset(a) == multiset(b)
    ensures a == b
  {
    SameMembers(a, b);
    if a != [] {
      HeadsAgree(leq, a, b);
      TailMultiset(a);
      TailMultiset(b);
      TailKeepsOrder(leq, a);
      TailKeepsOrder(leq, b);
      SortedListingIsUnique(leq, a[1..], b[1..]);
      assert a == [a[0]] + a[1..] && b == [b[0]] + b[1..];
    }
  }

  lemma SameMembers<T>(a: seq<T>, b: seq<T>)
    requires multiset(a) == multiset(b)
    ensures |a| == |b|
    ensures forall x :: x in a <==> x in b
  {
    assert |multiset(a)| == |multiset(b)|;
    forall x ensures x in a <==> x in b {
      assert x in a <==> x in multiset(a);
      assert x in b <==> x in multiset(b);
    }
  }

  /** Sorting forgets the order the rows came in. */
  lemma SortForgetsOrder<T(!new)>(leq: (T, T) -> bool, a: seq<T>, b: seq<T>)
    requires TotalPreorder(leq) && Separates(leq, a) && multiset(a) == multiset(b)
    ensures Sort(leq, a) == Sort(leq, b)
  {
    SortSorts(leq, a);
    SortSorts(leq, b);
    SameMembers(a, Sort(leq, a));
    SortedListingIsUnique(leq, Sort(leq, a), Sort(leq, b));
  }

  /** Python's comparison of two strings, code point by code point. */
  predicate StringLeq(s: string, t: string) {
    s == [] || (t != [] && (s[0] < t[0] || (s[0] == t[0] && StringLeq(s[1..], t[1..]))))
  }

  lemma {:induction false} StringLeqTotal(s: string, t: string)
    ensures StringLeq(s, t) || StringLeq(t, s)
  {
    if s != [] && t != [] {
      StringLeqTotal(s[1..], t[1..]);
    }
  }

  lemma {:induction false} StringLeqAntisymmetric(s: string, t: string)
    requires StringLeq(s, t) && StringLeq(t, s)
    ensures s == t
  {
    if s != [] && t != [] {
      StringLeqAntisymmetric(s[1..], t[1..]);
      assert s == [s[0]] + s[1..] && t == [t[0]] + t[1..];
    }
  }

  lemma {:induction false} StringLeqTransitive(s: string, t: string, u: string)
    requires StringLeq(s, t) && StringLeq(t, u)
    ensures StringLeq(s, u)
  {
    if s != [] && t != [] && u != [] && s[0] == t[0] == u[0] {
      StringLeqTransitive(s[1..], t[1..], u[1..]);
    }
  }

  lemma StringOrder()
    ensures TotalPreorder(StringLeq)
    ensures forall s, t :: StringLeq(s, t) && StringLeq(t, s) ==> s == t
  {
    forall s, t ensures StringLeq(s, t) || StringLeq(t, s) {
      StringLeqTotal(s, t);
    }
    forall s, t, u | StringLeq(s, t) && StringLeq(t, u) ensures StringLeq(s, u) {
      StringLeqTransitive(s, t, u);
    }
    forall s, t | StringLeq(s, t) && StringLeq(t, s) ensures s == t {
      StringLeqAntisymmetric(s, t);
    }
  }
}
