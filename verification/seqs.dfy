/** Facts about sequences used by the insertion-ordered dictionaries. */
module Seqs {

  /** No element occurs twice. */
  predicate Distinct<T(==)>(xs: seq<T>) {
    forall i, j :: 0 <= i < j < |xs| ==> xs[i] != xs[j]
  }

  /** The elements of `xs` in order of first occurrence, each kept once:
      the key order of a Python dict that is filled with the keys `xs`. */
  function Dedup<T(==)>(xs: seq<T>): (r: seq<T>)
    ensures Distinct(r)
    ensures |r| <= |xs|
  {
    if |xs| == 0 then []
    else
      var p := Dedup(xs[..|xs| - 1]);
      assert xs == xs[..|xs| - 1] + [xs[|xs| - 1]];
      if xs[|xs| - 1] in p then p else p + [xs[|xs| - 1]]
  }

  /** Adding an element that was already seen leaves the order unchanged;
      adding a new one puts it last. */
  lemma DedupSnoc<T>(xs: seq<T>, x: T)
    ensures Dedup(xs + [x]) == if x in xs then Dedup(xs) else Dedup(xs) + [x]
  {
    assert (xs + [x])[..|xs|] == xs;
    DedupMember(xs, x);
  }

  /** Deduplication keeps exactly the elements there were. */
  lemma {:induction false} DedupMember<T>(xs: seq<T>, x: T)
    ensures x in Dedup(xs) <==> x in xs
  {
    if |xs| > 0 {
      var prior := xs[..|xs| - 1];
      assert xs == prior + [xs[|xs| - 1]];
      DedupMember(prior, x);
      DedupMember(prior, xs[|xs| - 1]);
    }
  }
}
