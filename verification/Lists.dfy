/** Selecting from and rewriting the rows of a table, in order. */
module Lists {

  function Filter<T(!new)>(p: T -> bool, xs: seq<T>): (r: seq<T>)
    ensures forall x :: x in r <==> x in xs && p(x)
  {
    if xs == [] then []
    else
      assert forall x :: x in xs <==> x == xs[0] || x in xs[1..];
      (if p(xs[0]) then [xs[0]] else []) + Filter(p, xs[1..])
  }

  function Map<T, U>(f: T -> U, xs: seq<T>): (r: seq<U>)
    ensures |r| == |xs|
    ensures forall i :: 0 <= i < |xs| ==> r[i] == f(xs[i])
  {
    if xs == [] then [] else [f(xs[0])] + Map(f, xs[1..])
  }

  lemma MapAppend<T, U>(f: T -> U, xs: seq<T>, ys: seq<T>)
    ensures Map(f, xs + ys) == Map(f, xs) + Map(f, ys)
  {
  }

  lemma {:induction false} FilterAppend<T(!new)>(p: T -> bool, xs: seq<T>, ys: seq<T>)
    ensures Filter(p, xs + ys) == Filter(p, xs) + Filter(p, ys)
  {
    if xs == [] {
      assert xs + ys == ys;
    } else {
      var zs := xs + ys;
      assert zs[0] == xs[0] && zs[1..] == xs[1..] + ys;
      FilterAppend(p, xs[1..], ys);
      var head := if p(xs[0]) then [xs[0]] else [];
      assert head + (Filter(p, xs[1..]) + Filter(p, ys)) == head + Filter(p, xs[1..]) + Filter(p, ys);
    }
  }

  lemma FilterSnoc<T(!new)>(p: T -> bool, xs: seq<T>, i: nat)
    requires i < |xs|
    ensures Filter(p, xs[..i + 1]) == Filter(p, xs[..i]) + (if p(xs[i]) then [xs[i]] else [])
  {
    assert xs[..i + 1] == xs[..i] + [xs[i]];
    FilterAppend(p, xs[..i], [xs[i]]);
    assert Filter(p, [xs[i]]) == if p(xs[i]) then [xs[i]] else [];
  }

  // Two selections that agree element by element are one.
  lemma {:induction false} FilterAgree<T(!new)>(p: T -> bool, q: T -> bool, xs: seq<T>)
    requires forall x :: x in xs ==> p(x) == q(x)
    ensures Filter(p, xs) == Filter(q, xs)
  {
    if xs != [] {
      assert xs[0] in xs;
      FilterAgree(p, q, xs[1..]);
    }
  }

  // A selection and its complement count every element once.
  lemma {:induction false} FilterSplit<T(!new)>(p: T -> bool, q: T -> bool, xs: seq<T>)
    requires forall x :: x in xs ==> p(x) != q(x)
    ensures |Filter(p, xs)| + |Filter(q, xs)| == |xs|
  {
    if xs != [] {
      assert xs[0] in xs;
      FilterSplit(p, q, xs[1..]);
    }
  }

  lemma {:induction false} FilterTwice<T(!new)>(p: T -> bool, q: T -> bool, r: T -> bool, xs: seq<T>)
    requires forall x :: x in xs ==> r(x) == (p(x) && q(x))
    ensures Filter(p, Filter(q, xs)) == Filter(r, xs)
  {
    if xs != [] {
      assert xs[0] in xs;
      FilterTwice(p, q, r, xs[1..]);
      FilterAppend(p, if q(xs[0]) then [xs[0]] else [], Filter(q, xs[1..]));
    }
  }

  // Selecting from a rewritten table: rows that stay selected are unchanged.
  lemma {:induction false} FilterThrough<T(!new)>(p: T -> bool, q: T -> bool, xs: seq<T>, ys: seq<T>)
    requires |xs| == |ys|
    requires forall i :: 0 <= i < |xs| ==> p(ys[i]) == q(xs[i]) && (q(xs[i]) ==> ys[i] == xs[i])
    ensures Filter(p, ys) == Filter(q, xs)
  {
    if xs != [] {
      FilterThrough(p, q, xs[1..], ys[1..]);
    }
  }

  lemma {:induction false} FilterAll<T(!new)>(p: T -> bool, xs: seq<T>)
    requires forall x :: x in xs ==> p(x)
    ensures Filter(p, xs) == xs
  {
    if xs != [] {
      assert xs[0] in xs;
      FilterAll(p, xs[1..]);
    }
  }

  lemma {:induction false} FilterNone<T(!new)>(p: T -> bool, xs: seq<T>)
    requires forall x :: x in xs ==> !p(x)
    ensures Filter(p, xs) == []
  {
    if xs != [] {
      assert xs[0] in xs;
      FilterNone(p, xs[1..]);
    }
  }

  // Dropping exactly the first n elements.
  lemma {:induction false} FilterDrop<T(!new)>(p: T -> bool, xs: seq<T>, n: nat)
    requires n <= |xs|
    requires forall i :: 0 <= i < |xs| ==> p(xs[i]) == (n <= i)
    ensures Filter(p, xs) == xs[n..]
  {
    if xs == [] {
    } else if n == 0 {
      FilterAll(p, xs);
    } else {
      FilterDrop(p, xs[1..], n - 1);
    }
  }

  // A selection that keeps everything around one stretch of a list.
  lemma FilterMiddle<T(!new)>(p: T -> bool, q: T -> bool, a: seq<T>, b: seq<T>, c: seq<T>)
    requires (forall x :: x in a ==> p(x)) && (forall x :: x in b ==> p(x) == q(x)) && (forall x :: x in c ==> p(x))
    ensures Filter(p, a + b + c) == a + Filter(q, b) + c
  {
    FilterAppend(p, a + b, c);
    FilterAppend(p, a, b);
    FilterAll(p, a);
    FilterAll(p, c);
    FilterAgree(p, q, b);
  }
}
