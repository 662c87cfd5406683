/** Byte strings, and a few facts about sequences that several modules need. */
module Bytes {
  type Byte = bv8

  type Bytes = seq<Byte>

  /** The chunks, one after the other. */
  function Flatten(chunks: seq<Bytes>): Bytes {
    if chunks == [] then [] else chunks[0] + Flatten(chunks[1..])
  }

  lemma {:induction false} FlattenSnoc(chunks: seq<Bytes>, b: Bytes)
    ensures Flatten(chunks + [b]) == Flatten(chunks) + b
  {
    if chunks == [] {
      assert [] + [b] == [b];
      assert Flatten([b]) == b + Flatten([]);
    } else {
      assert (chunks + [b])[1..] == chunks[1..] + [b];
      FlattenSnoc(chunks[1..], b);
    }
  }

  /** `a` is what is left of `b` after some elements have been dropped. */
  ghost predicate Subsequence<T>(a: seq<T>, b: seq<T>) {
    if a == [] then true
    else if b == [] then false
    else
      || (a[|a| - 1] == b[|b| - 1] && Subsequence(a[..|a| - 1], b[..|b| - 1]))
      || Subsequence(a, b[..|b| - 1])
  }

  lemma SubsequenceKeep<T>(a: seq<T>, b: seq<T>, x: T)
    requires Subsequence(a, b)
    ensures Subsequence(a + [x], b + [x])
  {
    assert (a + [x])[..|a|] == a && (b + [x])[..|b|] == b;
  }

  lemma SubsequenceDrop<T>(a: seq<T>, b: seq<T>, x: T)
    requires Subsequence(a, b)
    ensures Subsequence(a, b + [x])
  {
    assert (b + [x])[..|b|] == b;
  }
}
