/**
 * Regrouping of concatenations, stated over plain sequence variables so that callers can apply it
 * to large terms without the solver unfolding them.
 */
module Seqs {
  lemma AppendAssoc<T>(a: seq<T>, b: seq<T>, c: seq<T>)
    ensures a + (b + c) == a + b + c
  {
  }

  lemma AppendAssoc4<T>(a: seq<T>, b: seq<T>, c: seq<T>, d: seq<T>)
    ensures a + (b + c + d) == a + b + c + d
  {
  }

  lemma AppendAssoc8<T>(a: seq<T>, b: seq<T>, c: seq<T>, d: seq<T>, e: seq<T>, f: seq<T>, g: seq<T>, h: seq<T>)
    ensures a + b + c + d + e + f + g + h == a + (b + c + d + e + f + g + h)
  {
  }

  /** A prefix of `x + y` that fits in `x` is a prefix of `x`. */
  lemma PrefixOfAppend<T>(x: seq<T>, y: seq<T>, n: nat)
    requires n <= |x|
    ensures (x + y)[..n] == x[..n]
  {
  }

  /** `y` sits in `x + y + z` right after `x`. */
  lemma SliceOfAppend<T>(x: seq<T>, y: seq<T>, z: seq<T>)
    ensures (x + y + z)[|x|..|x| + |y|] == y
  {
  }

  /** The regroupings that bring out a five-part middle of a nine-part sequence. */
  lemma Regroup<T>(a: seq<T>, h: seq<T>, i: seq<T>, n: seq<T>, f: seq<T>,
                   v: seq<T>, w: seq<T>, x: seq<T>, c: seq<T>)
    ensures var t := v + w + x + c;
      && a + h + i + n + f + v + w + x + c == a + (h + i + n + f) + t
      && a + h + i + n + f + v + w + x + c == (a + h) + i + (n + f + t)
      && a + h + i + n + f + v + w + x + c == (a + h + i) + n + (f + t)
      && a + h + i + n + f + v + w + x + c == (a + h + i + n) + f + t
  {
  }
}
