/** Facts about vectors that several components share. */
module Sequences {

  /** What `retain(|y| y != x)` leaves. */
  function Without<T(==)>(xs: seq<T>, x: T): (r: seq<T>)
    ensures forall y | y in r :: y in xs && y != x
    ensures forall y | y in xs :: y == x || y in r
    ensures r == [] <==> forall y | y in xs :: y == x
  {
    if xs == [] then []
    else
      var rest := Without(xs[1..], x);
      assert forall y | y in xs :: y == xs[0] || y in xs[1..];
      assert xs[0] in xs;
      if xs[0] == x then rest else [xs[0]] + rest
  }

  lemma {:induction false} WithoutSnoc<T>(xs: seq<T>, last: T, x: T)
    ensures Without(xs + [last], x) == Without(xs, x) + if last == x then [] else [last]
  {
    if xs == [] {
      assert xs + [last] == [last] && [last][1..] == [];
    } else {
      assert (xs + [last])[1..] == xs[1..] + [last];
      WithoutSnoc(xs[1..], last, x);
    }
  }

  ghost predicate NoDuplicates<T>(xs: seq<T>) {
    forall i, j :: 0 <= i < j < |xs| ==> xs[i] != xs[j]
  }

  lemma {:induction false} WithoutNoDuplicates<T>(xs: seq<T>, x: T)
    requires NoDuplicates(xs)
    ensures NoDuplicates(Without(xs, x))
  {
    if xs != [] {
      assert forall i :: 0 <= i < |xs[1..]| ==> xs[1..][i] == xs[i + 1];
      assert xs[0] !in xs[1..];
      WithoutNoDuplicates(xs[1..], x);
    }
  }

  lemma NoDuplicatesSnoc<T>(xs: seq<T>, x: T)
    requires NoDuplicates(xs) && x !in xs
    ensures NoDuplicates(xs + [x])
  {
  }
}
