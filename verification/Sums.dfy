/** Sums of a weight over a multiset, and concatenation of sequences of sequences. */
module Sums {

  ghost function Sum<T(!new)>(m: multiset<T>, f: T -> int): int
    decreases |m|
  {
    if m == multiset{} then 0
    else
      var x :| x in m;
      f(x) + Sum(m - multiset{x}, f)
  }

  lemma {:induction false} SumRemove<T(!new)>(m: multiset<T>, f: T -> int, x: T)
    requires x in m
    ensures Sum(m, f) == f(x) + Sum(m - multiset{x}, f)
    decreases |m|
  {
    var y :| y in m && Sum(m, f) == f(y) + Sum(m - multiset{y}, f);
    if x != y {
      var rest := m - multiset{x} - multiset{y};
      assert m - multiset{y} - multiset{x} == rest;
      SumRemove(m - multiset{y}, f, x);
      SumRemove(m - multiset{x}, f, y);
    }
  }

  lemma SumInsert<T(!new)>(m: multiset<T>, f: T -> int, x: T)
    ensures Sum(m + multiset{x}, f) == Sum(m, f) + f(x)
  {
    SumRemove(m + multiset{x}, f, x);
    assert m + multiset{x} - multiset{x} == m;
  }

  lemma SumSnoc<T(!new)>(s: seq<T>, f: T -> int, x: T)
    ensures Sum(multiset(s + [x]), f) == Sum(multiset(s), f) + f(x)
  {
    assert multiset(s + [x]) == multiset(s) + multiset{x};
    SumInsert(multiset(s), f, x);
  }

  lemma {:induction false} SumUnion<T(!new)>(m: multiset<T>, n: multiset<T>, f: T -> int)
    ensures Sum(m + n, f) == Sum(m, f) + Sum(n, f)
    decreases |n|
  {
    if n == multiset{} {
      assert m + n == m;
    } else {
      var x :| x in n;
      var rest := n - multiset{x};
      SumUnion(m, rest, f);
      assert m + n == m + rest + multiset{x};
      SumInsert(m + rest, f, x);
      SumRemove(n, f, x);
    }
  }

  lemma {:induction false} SumEqual<T(!new)>(m: multiset<T>, f: T -> int, g: T -> int)
    requires forall x :: x in m ==> f(x) == g(x)
    ensures Sum(m, f) == Sum(m, g)
    decreases |m|
  {
    if m != multiset{} {
      var x :| x in m;
      SumRemove(m, f, x);
      SumRemove(m, g, x);
      SumEqual(m - multiset{x}, f, g);
    }
  }

  lemma {:induction false} SumAtMost<T(!new)>(m: multiset<T>, f: T -> int, g: T -> int)
    requires forall x :: x in m ==> f(x) <= g(x)
    ensures Sum(m, f) <= Sum(m, g)
    decreases |m|
  {
    if m != multiset{} {
      var x :| x in m;
      SumRemove(m, f, x);
      SumRemove(m, g, x);
      SumAtMost(m - multiset{x}, f, g);
    }
  }

  lemma {:induction false} SumAdd<T(!new)>(m: multiset<T>, f: T -> int, g: T -> int, h: T -> int)
    requires forall x :: x in m ==> h(x) == f(x) + g(x)
    ensures Sum(m, h) == Sum(m, f) + Sum(m, g)
    decreases |m|
  {
    if m != multiset{} {
      var x :| x in m;
      SumRemove(m, f, x);
      SumRemove(m, g, x);
      SumRemove(m, h, x);
      SumAdd(m - multiset{x}, f, g, h);
    }
  }

  lemma {:induction false} SumZero<T(!new)>(m: multiset<T>, f: T -> int)
    requires forall x :: x in m ==> f(x) == 0
    ensures Sum(m, f) == 0
    decreases |m|
  {
    if m != multiset{} {
      var x :| x in m;
      SumRemove(m, f, x);
      SumZero(m - multiset{x}, f);
    }
  }

  /** A sum of non-negative weights is at least the weight of any member. */
  lemma SumCovers<T(!new)>(m: multiset<T>, f: T -> int, x: T)
    requires x in m
    requires forall y :: y in m ==> 0 <= f(y)
    ensures f(x) <= Sum(m, f)
  {
    SumRemove(m, f, x);
    SumNonNegative(m - multiset{x}, f);
  }

  lemma {:induction false} SumNonNegative<T(!new)>(m: multiset<T>, f: T -> int)
    requires forall x :: x in m ==> 0 <= f(x)
    ensures 0 <= Sum(m, f)
    decreases |m|
  {
    if m != multiset{} {
      var x :| x in m;
      SumRemove(m, f, x);
      SumNonNegative(m - multiset{x}, f);
    }
  }

  // Filters.

  /** The elements of `s` that satisfy `p`, in order. */
  function Filter<T>(s: seq<T>, p: T -> bool): seq<T>
  {
    if s == [] then []
    else
      var last := s[|s| - 1];
      Filter(s[..|s| - 1], p) + if p(last) then [last] else []
  }

  lemma FilterSnoc<T>(s: seq<T>, p: T -> bool, x: T)
    ensures Filter(s + [x], p) == Filter(s, p) + if p(x) then [x] else []
  {
    assert (s + [x])[..|s|] == s;
  }

  lemma {:induction false} FilterAppend<T>(a: seq<T>, b: seq<T>, p: T -> bool)
    ensures Filter(a + b, p) == Filter(a, p) + Filter(b, p)
  {
    if b == [] {
      assert a + b == a;
    } else {
      var front, x := b[..|b| - 1], b[|b| - 1];
      FilterAppend(a, front, p);
      assert a + b == (a + front) + [x];
      FilterSnoc(a + front, p, x);
    }
  }

  lemma {:induction false} FilterCount<T>(s: seq<T>, p: T -> bool, x: T)
    ensures multiset(Filter(s, p))[x] == if p(x) then multiset(s)[x] else 0
  {
    if s != [] {
      FilterCount(s[..|s| - 1], p, x);
      assert s == s[..|s| - 1] + [s[|s| - 1]];
    }
  }

  lemma FilterMember<T>(s: seq<T>, p: T -> bool, x: T)
    ensures x in Filter(s, p) <==> x in s && p(x)
  {
    FilterCount(s, p, x);
    assert x in Filter(s, p) <==> x in multiset(Filter(s, p));
    assert x in s <==> x in multiset(s);
  }

  lemma {:induction false} FilterAll<T>(s: seq<T>, p: T -> bool)
    requires forall x :: x in s ==> p(x)
    ensures Filter(s, p) == s
  {
    if s != [] {
      FilterAll(s[..|s| - 1], p);
      assert s == s[..|s| - 1] + [s[|s| - 1]];
    }
  }

  lemma {:induction false} FilterNone<T>(s: seq<T>, p: T -> bool)
    requires forall x :: x in s ==> !p(x)
    ensures Filter(s, p) == []
  {
    if s != [] {
      FilterNone(s[..|s| - 1], p);
    }
  }

  lemma {:induction false} FilterEqual<T>(s: seq<T>, p: T -> bool, q: T -> bool)
    requires forall x :: x in s ==> p(x) == q(x)
    ensures Filter(s, p) == Filter(s, q)
  {
    if s != [] {
      FilterEqual(s[..|s| - 1], p, q);
    }
  }

  lemma {:induction false} FilterTwice<T>(s: seq<T>, p: T -> bool, q: T -> bool)
    requires forall x :: x in s && q(x) ==> p(x)
    ensures Filter(Filter(s, p), q) == Filter(s, q)
    decreases |s|
  {
    if s != [] {
      var front, last := s[..|s| - 1], s[|s| - 1];
      FilterTwice(front, p, q);
      FilterSnoc(Filter(front, p), q, last);
      assert Filter(front, p) + [] == Filter(front, p) && Filter(front, q) + [] == Filter(front, q);
    }
  }
}
