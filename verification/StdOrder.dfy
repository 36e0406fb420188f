/** The order in which std::set<int> and std::map<int, ...> are iterated. */
module StdOrder {
  import opened Basics

  lemma {:induction false} HasElement(s: set<int>)
    ensures s == {} || exists x :: x in s
  {
    if forall x :: x !in s {
      assert s == {};
    }
  }

  ghost function Least(s: set<int>): (m: int)
    requires s != {}
    ensures m in s && forall x :: x in s ==> m <= x
  {
    HasElement(s);
    var x :| x in s;
    if s == {x} then x
    else
      var m := Least(s - {x});
      assert forall y :: y in s ==> y == x || y in s - {x};
      Min(x, m)
  }

  predicate Increasing(q: seq<int>) {
    forall i, j :: 0 <= i < j < |q| ==> q[i] < q[j]
  }

  /** The elements in increasing order: the least first. */
  ghost function Listing(s: set<int>): seq<int> {
    if s == {} then [] else [Least(s)] + Listing(s - {Least(s)})
  }

  ghost function Ascending(s: set<int>): (q: seq<int>)
    ensures |q| == |s| && (forall x :: x in q <==> x in s) && Increasing(q)
  {
    ListingAscends(s);
    Listing(s)
  }

  lemma {:induction false} ListingAscends(s: set<int>)
    ensures |Listing(s)| == |s| && (forall x :: x in Listing(s) <==> x in s) && Increasing(Listing(s))
  {
    if s != {} {
      ListingAscends(s - {Least(s)});
      Prepend(s, Least(s), Listing(s - {Least(s)}));
    }
  }

  lemma {:induction false} Prepend(s: set<int>, m: int, rest: seq<int>)
    requires m in s && (forall x :: x in s ==> m <= x)
    requires |rest| == |s - {m}| && (forall x :: x in rest <==> x in s - {m}) && Increasing(rest)
    ensures |[m] + rest| == |s| && (forall x :: x in [m] + rest <==> x in s) && Increasing([m] + rest)
  {
    var q := [m] + rest;
    forall i, j | 0 <= i < j < |q| ensures q[i] < q[j] {
      assert q[j] == rest[j - 1] && rest[j - 1] in s - {m};
      if i > 0 {
        assert q[i] == rest[i - 1];
      }
    }
    forall x ensures x in q <==> x in s {
      assert x in q <==> x == m || x in rest;
    }
  }

  /** Iterating over a std::set<int>, or over the keys of a std::map<int, ...>. */
  method Iterate(s: set<int>) returns (q: seq<int>)
    ensures q == Ascending(s)
  {
    var rest := s;
    q := [];
    while rest != {}
      invariant rest <= s && q + Listing(rest) == Listing(s)
      decreases |rest|
    {
      var m := FindLeast(rest);
      assert q + [m] + Listing(rest - {m}) == q + ([m] + Listing(rest - {m}));
      q, rest := q + [m], rest - {m};
    }
  }

  method FindLeast(s: set<int>) returns (m: int)
    requires s != {}
    ensures m == Least(s)
  {
    var rest := s;
    HasElement(s);
    m :| m in s;
    while rest != {}
      invariant rest <= s && m in s
      invariant forall x :: x in s && x !in rest ==> m <= x
      decreases |rest|
    {
      HasElement(rest);
      var x :| x in rest;
      m, rest := Min(m, x), rest - {x};
    }
  }
}
