/** Sequence identities, stated once so that the proofs about the parser need not rediscover them. */
module Seqs {
  lemma Unit<T>(xs: seq<T>)
    ensures [] + xs == xs
  {
  }

  lemma Pair<T>(x: T, y: T)
    ensures [x] + [y] == [x, y]
  {
  }

  lemma Snoc2<T>(xs: seq<T>, x: T, y: T)
    ensures xs + [x] + [y] == xs + [x, y]
  {
  }

  lemma UnitRight<T>(xs: seq<T>)
    ensures xs + [] == xs
  {
  }

  /** A non-empty sequence is its first element and the rest, or all but its last element and the last. */
  lemma Split<T>(xs: seq<T>)
    requires |xs| > 0
    ensures [xs[0]] + xs[1..] == xs
    ensures xs[..|xs| - 1] + [xs[|xs| - 1]] == xs
  {
  }

  lemma Assoc<T>(x: seq<T>, y: seq<T>, z: seq<T>)
    ensures x + (y + z) == x + y + z
  {
  }

  /** The prefix of length `i + 1` is the prefix of length `i` and one more element. */
  lemma TakeSnoc<T>(xs: seq<T>, i: nat)
    requires i < |xs|
    ensures xs[..i] + [xs[i]] == xs[..i + 1]
  {
  }

  /** A two-element sequence. */
  lemma Two<T>(xs: seq<T>)
    requires |xs| == 2
    ensures xs[1..] == [xs[1]] && xs[..1] + [xs[1]] == xs
  {
  }

  /** A three-element sequence. */
  lemma Three<T>(xs: seq<T>)
    requires |xs| == 3
    ensures xs[..1] + [xs[1]] == xs[..2] && xs[..2] + [xs[2]] == xs
  {
  }

  lemma TakeDrop<T>(xs: seq<T>, i: nat)
    requires i <= |xs|
    ensures xs[..i] + xs[i..] == xs && xs[..|xs|] == xs
  {
  }
}
