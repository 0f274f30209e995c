/** Sequences without repetition, as the subscriber lists use them. */
module Lists {
  function Min(a: nat, b: nat): nat {
    if a <= b then a else b
  }

  ghost predicate NoDuplicates<S>(xs: seq<S>) {
    forall i, j | 0 <= i < j < |xs| :: xs[i] != xs[j]
  }

  function RemoveFirst<S(==)>(xs: seq<S>, x: S): seq<S> {
    if xs == [] then [] else if xs[0] == x then xs[1..] else [xs[0]] + RemoveFirst(xs[1..], x)
  }

  lemma {:induction false} RemoveFirstKeeps<S>(xs: seq<S>, x: S)
    requires NoDuplicates(xs) && x in xs
    ensures |RemoveFirst(xs, x)| == |xs| - 1
    ensures NoDuplicates(RemoveFirst(xs, x))
    ensures forall y | y in RemoveFirst(xs, x) :: y in xs && y != x
    ensures forall y | y in xs :: y == x || y in RemoveFirst(xs, x)
  {
    if xs[0] != x {
      RemoveFirstKeeps(xs[1..], x);
      assert xs == [xs[0]] + xs[1..];
      assert xs[0] !in xs[1..];
    } else {
      assert xs == [x] + xs[1..];
    }
  }

  /** Cutting out the position a search loop stopped at removes the first occurrence. */
  lemma {:induction false} RemoveFirstAt<S>(xs: seq<S>, x: S, i: nat)
    requires i <= |xs| && x !in xs[..i] && (i < |xs| ==> xs[i] == x)
    ensures i < |xs| ==> RemoveFirst(xs, x) == xs[..i] + xs[i + 1..]
    ensures i < |xs| <==> x in xs
  {
    if xs != [] && i > 0 {
      assert xs[0] in xs[..i];
      assert xs[1..][..i - 1] == xs[1..i];
      RemoveFirstAt(xs[1..], x, i - 1);
      assert xs == [xs[0]] + xs[1..];
    }
  }
}
