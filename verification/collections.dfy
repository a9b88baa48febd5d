/** Sequence helpers standing in for the program's `list(set(...))`. */
module Collections {

  predicate NoDuplicates<T(==)>(xs: seq<T>) {
    forall i, j :: 0 <= i < j < |xs| ==> xs[i] != xs[j]
  }

  /** The distinct elements of `xs`, each kept at its first appearance.  The
      program's set leaves the order unspecified; this is one such order. */
  function Dedup(xs: seq<nat>): (r: seq<nat>)
    ensures NoDuplicates(r)
    ensures forall x :: x in r <==> x in xs
    ensures |r| <= |xs|
  {
    if xs == [] then []
    else
      var rest := Dedup(xs[..|xs| - 1]);
      var last := xs[|xs| - 1];
      assert xs == xs[..|xs| - 1] + [last];
      if last in rest then rest else rest + [last]
  }

  /** Appending an element that is not yet present keeps a sequence free of
      duplicates, and the element then occurs exactly once. */
  lemma AppendFresh<T>(xs: seq<T>, x: T)
    requires NoDuplicates(xs)
    requires x !in xs
    ensures NoDuplicates(xs + [x])
    ensures multiset(xs + [x])[x] == 1
  {
    assert multiset(xs)[x] == 0;
  }
}
