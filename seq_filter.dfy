/** Removing elements from a list by identity, as `remove_from_sprite_lists`
    and `SpriteList.remove` do. */
module SeqFilter {

  /** No element occurs twice. */
  predicate Distinct<T(==)>(xs: seq<T>)
  {
    forall i, j :: 0 <= i < j < |xs| ==> xs[i] != xs[j]
  }

  /** Appending a new element keeps the elements distinct. */
  lemma DistinctAppend<T>(xs: seq<T>, x: T)
    requires Distinct(xs) && x !in xs
    ensures Distinct(xs + [x])
  {
  }

  /** `xs` with every element of `gone` taken out, the rest kept in order.
      What it keeps is stated by `WithoutMembers` and `WithoutNothing`. */
  function Without<T(==)>(xs: seq<T>, gone: set<T>): (r: seq<T>)
    ensures |r| <= |xs|
  {
    if xs == [] then []
    else (if xs[0] in gone then [] else [xs[0]]) + Without(xs[1..], gone)
  }

  /** The elements kept are exactly those of `xs` not in `gone`. */
  lemma {:induction false} WithoutMembers<T>(xs: seq<T>, gone: set<T>)
    ensures forall x :: x in Without(xs, gone) ==> x in xs && x !in gone
    ensures forall x :: x in xs && x !in gone ==> x in Without(xs, gone)
  {
    if xs != [] {
      WithoutMembers(xs[1..], gone);
      assert forall x :: x in xs ==> x == xs[0] || x in xs[1..];
    }
  }

  /** Removing elements that do not occur changes nothing. */
  lemma {:induction false} WithoutNothing<T>(xs: seq<T>, gone: set<T>)
    requires forall x :: x in xs ==> x !in gone
    ensures Without(xs, gone) == xs
  {
    if xs != [] {
      assert xs[0] in xs;
      WithoutNothing(xs[1..], gone);
      assert [xs[0]] + xs[1..] == xs;
    }
  }

  /** Removing never introduces a repetition. */
  lemma {:induction false} WithoutDistinct<T>(xs: seq<T>, gone: set<T>)
    requires Distinct(xs)
    ensures Distinct(Without(xs, gone))
  {
    if xs != [] {
      assert Distinct(xs[1..]);
      WithoutDistinct(xs[1..], gone);
      WithoutMembers(xs[1..], gone);
      var rest := Without(xs[1..], gone);
      assert xs[0] !in rest by {
        assert xs[0] !in xs[1..];
      }
    }
  }

  /** Removing one set and then another is removing both at once. */
  lemma {:induction false} WithoutWithout<T>(xs: seq<T>, a: set<T>, b: set<T>)
    ensures Without(Without(xs, a), b) == Without(xs, a + b)
  {
    if xs != [] {
      WithoutWithout(xs[1..], a, b);
      var head := if xs[0] in a then [] else [xs[0]];
      var rest := Without(xs[1..], a);
      assert Without(xs, a) == head + rest;
      WithoutAppend(head, rest, b);
    }
  }

  /** Removal distributes over concatenation. */
  lemma {:induction false} WithoutAppend<T>(xs: seq<T>, ys: seq<T>, gone: set<T>)
    ensures Without(xs + ys, gone) == Without(xs, gone) + Without(ys, gone)
  {
    if xs == [] {
      assert xs + ys == ys;
    } else {
      assert (xs + ys)[1..] == xs[1..] + ys;
      WithoutAppend(xs[1..], ys, gone);
    }
  }
}
