/** Pages of a filtered list, computed by streaming the list and skipping. */
module Pages {
  import opened Lists

  function Min(a: nat, b: nat): nat { if a < b then a else b }

  // The elements [offset, offset + size) of a list, as far as it has them.
  function Window<T(!new)>(xs: seq<T>, offset: nat, size: nat): (w: seq<T>)
    ensures forall x :: x in w ==> x in xs
  {
    xs[Min(offset, |xs|)..Min(offset + size, |xs|)]
  }

  function FirstPages<T(!new)>(xs: seq<T>, size: nat, n: nat): seq<T> {
    if n == 0 then [] else FirstPages(xs, size, n - 1) + Window(xs, (n - 1) * size, size)
  }

  // Successive pages put together are the list.
  lemma {:induction false} PagesCover<T(!new)>(xs: seq<T>, size: nat, n: nat)
    requires size >= 1
    ensures FirstPages(xs, size, n) == xs[..Min(n * size, |xs|)]
  {
    if n > 0 {
      PagesCover(xs, size, n - 1);
      assert n * size == (n - 1) * size + size;
    }
  }

  // What a stream has seen and collected after i elements.
  ghost predicate Streamed<T(!new)>(p: T -> bool, xs: seq<T>, i: nat, offset: nat, size: nat, seen: nat, page: seq<T>)
    requires i <= |xs|
  {
    && seen == |Filter(p, xs[..i])|
    && page == Window(Filter(p, xs[..i]), offset, size)
  }

  lemma StreamStep<T(!new)>(p: T -> bool, xs: seq<T>, i: nat, offset: nat, size: nat, seen: nat, page: seq<T>)
    requires i < |xs| && Streamed(p, xs, i, offset, size, seen, page) && |page| < size
    ensures !p(xs[i]) ==> Streamed(p, xs, i + 1, offset, size, seen, page)
    ensures p(xs[i]) ==>
      Streamed(p, xs, i + 1, offset, size, seen + 1, if seen < offset then page else page + [xs[i]])
  {
    var before := Filter(p, xs[..i]);
    FilterSnoc(p, xs, i);
    if p(xs[i]) {
      assert page + [] == page;
    } else {
      assert before + [] == before;
    }
  }

  lemma FilterPrefix<T(!new)>(p: T -> bool, xs: seq<T>, i: nat)
    requires i <= |xs|
    ensures Filter(p, xs[..i]) <= Filter(p, xs)
  {
    assert xs == xs[..i] + xs[i..];
    FilterAppend(p, xs[..i], xs[i..]);
  }

  lemma StreamEnd<T(!new)>(p: T -> bool, xs: seq<T>, i: nat, offset: nat, size: nat, seen: nat, page: seq<T>)
    requires i <= |xs| && Streamed(p, xs, i, offset, size, seen, page) && size >= 1
    requires i == |xs| || |page| >= size
    ensures page == Window(Filter(p, xs), offset, size)
  {
    FilterPrefix(p, xs, i);
    if i == |xs| {
      assert xs[..i] == xs;
    } else {
    }
  }

  // Streams a list, skips `offset` selected elements and stops at a full page.
  // A page is at least one element long, even when asked for none.
  method StreamPage<T(!new)>(p: T -> bool, xs: seq<T>, limit: nat, offset: nat) returns (page: seq<T>)
    ensures page == Window(Filter(p, xs), offset, if limit == 0 then 1 else limit)
  {
    ghost var size := if limit == 0 then 1 else limit;
    page := [];
    var seen := 0;
    var i := 0;
    while i < |xs|
      invariant 0 <= i <= |xs|
      invariant Streamed(p, xs, i, offset, size, seen, page)
      invariant |page| < size
    {
      var x := xs[i];
      StreamStep(p, xs, i, offset, size, seen, page);
      i := i + 1;
      if !p(x) {
        continue;
      }
      seen := seen + 1;
      if seen <= offset {
        continue;
      }
      page := page + [x];
      if |page| >= limit {
        break;
      }
    }
    StreamEnd(p, xs, i, offset, size, seen, page);
  }
}
