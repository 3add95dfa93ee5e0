/** Facts about prefixes of sequences that the loops over lists and the
    definitions by recursion from the end rely on. */
module Seqs {

  /** A prefix one longer is the prefix and the next element. */
  lemma PrefixSnoc<T>(s: seq<T>, i: nat)
    requires i < |s|
    ensures s[..i + 1] == s[..i] + [s[i]]
    ensures s[..i + 1][..i] == s[..i]
  {
  }

  /** The front of a sequence with one element appended is the sequence. */
  lemma SnocFront<T>(s: seq<T>, x: T)
    ensures (s + [x])[..|s|] == s
    ensures (s + [x])[|s|] == x
  {
  }

  /** Concatenation regrouped to the right. */
  lemma Reassociate<T>(p: seq<T>, q: seq<T>, r: seq<T>, u: seq<T>)
    ensures p + q + r + u == p + (q + (r + u))
  {
  }

  /** A sequence is its prefix followed by the rest. */
  lemma SplitAt<T>(s: seq<T>, n: nat)
    requires n <= |s|
    ensures s == s[..n] + s[n..]
  {
  }

  /** Dropping from the front of a concatenation drops from its first
      part. */
  lemma DropConcat<T>(p: seq<T>, q: seq<T>, k: nat)
    requires k <= |p|
    ensures (p + q)[k..] == p[k..] + q
  {
  }

  /** Concatenation regrouped after its first part. */
  lemma Regroup<T>(p: seq<T>, q: seq<T>, r: seq<T>, u: seq<T>)
    ensures p + q + r + u == p + (q + r + u)
  {
  }

  /** Dropping the head of a sequence that starts with one element. */
  lemma DropHead<T>(x: T, y: seq<T>)
    ensures ([x] + y)[1..] == y
  {
  }

  /** Concatenation of three regrouped to the right. */
  lemma Assoc<T>(p: seq<T>, q: seq<T>, r: seq<T>)
    ensures p + q + r == p + (q + r)
  {
  }
}
