/** Linked lists, as far as several components use them. */
module Lists {
  predicate Distinct<T(==)>(xs: seq<T>) {
    forall i, j :: 0 <= i < j < |xs| ==> xs[i] != xs[j]
  }

  /** g_slist_remove and g_list_remove: the first link with x goes. */
  function Without<T(==)>(xs: seq<T>, x: T): (r: seq<T>)
    ensures |r| <= |xs|
  {
    if xs == [] then [] else if xs[0] == x then xs[1..] else [xs[0]] + Without(xs[1..], x)
  }

  lemma {:induction false} WithoutIn<T>(xs: seq<T>, x: T, y: T)
    ensures y in Without(xs, x) ==> y in xs
    ensures y in xs && y != x ==> y in Without(xs, x)
  {
    if xs != [] && xs[0] != x { WithoutIn(xs[1..], x, y); }
  }

  lemma {:induction false} WithoutNone<T>(xs: seq<T>, x: T)
    requires x !in xs
    ensures Without(xs, x) == xs
  {
    if xs != [] { WithoutNone(xs[1..], x); }
  }

  lemma {:induction false} WithoutDistinct<T>(xs: seq<T>, x: T)
    requires Distinct(xs)
    ensures Distinct(Without(xs, x)) && x !in Without(xs, x)
  {
    if xs != [] && xs[0] != x {
      WithoutDistinct(xs[1..], x);
      var r := Without(xs[1..], x);
      forall j | 0 <= j < |r| ensures r[j] != xs[0] { WithoutIn(xs[1..], x, r[j]); }
    }
  }
}
