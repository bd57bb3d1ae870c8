/** Generic sequence helpers shared by the batch packer and the tile slicer. */
module Seqs {

  /** Concatenation of a list of lists, in order (a batch list read back as one domain list,
      or a band's rows read back as PIL's row-major pixel data). */
  function Flatten<T>(xss: seq<seq<T>>): (r: seq<T>)
    ensures |xss| == 0 ==> r == []
  {
    if |xss| == 0 then [] else Flatten(xss[..|xss| - 1]) + xss[|xss| - 1]
  }

  lemma FlattenAppend<T>(xss: seq<seq<T>>, xs: seq<T>)
    ensures Flatten(xss + [xs]) == Flatten(xss) + xs
  {
    assert (xss + [xs])[..|xss|] == xss;
  }

  /** The elements of `xs` that satisfy `keep`, in their original order
      (a Python list comprehension with an `if` filter). */
  function Filter<T>(xs: seq<T>, keep: T -> bool): (r: seq<T>)
    ensures |r| <= |xs|
    ensures forall i :: 0 <= i < |r| ==> keep(r[i]) && r[i] in xs
    ensures forall i :: 0 <= i < |xs| && keep(xs[i]) ==> xs[i] in r
  {
    if |xs| == 0 then []
    else
      var init := Filter(xs[..|xs| - 1], keep);
      assert forall i :: 0 <= i < |xs| - 1 ==> xs[..|xs| - 1][i] == xs[i];
      if keep(xs[|xs| - 1]) then init + [xs[|xs| - 1]] else init
  }

  /** `f` applied to every element of `xs`, in order (a Python list built by a `for` loop). */
  function Map<A, B>(xs: seq<A>, f: A -> B): (ys: seq<B>)
    ensures |ys| == |xs|
    ensures forall i :: 0 <= i < |xs| ==> ys[i] == f(xs[i])
  {
    if |xs| == 0 then []
    else
      var init := xs[..|xs| - 1];
      assert forall i :: 0 <= i < |init| ==> init[i] == xs[i];
      Map(init, f) + [f(xs[|xs| - 1])]
  }

  /** Extending the prefix by one element extends the mapped prefix by its image; `head` is
      whatever the mapped prefix is appended to. */
  lemma MapPrefixStep<A, B>(head: seq<B>, xs: seq<A>, f: A -> B, i: nat)
    requires i < |xs|
    ensures head + Map(xs[..i + 1], f) == (head + Map(xs[..i], f)) + [f(xs[i])]
  {
    assert xs[..i + 1][..i] == xs[..i];
  }
}
