/**
 * Facts about concatenation that the loops writing one run after another
 * need: where an element or a slice of `a + b` comes from.
 */
module Seqs {
  /** `c` appended to a sequence that is `a + b`. */
  lemma Snoc<T>(a: seq<T>, b: seq<T>, c: seq<T>, ab: seq<T>, abc: seq<T>)
    requires ab == a + b && abc == ab + c
    ensures abc == a + (b + c)
  {
  }

  /** An index into the first part of `a + b` reads `a`. */
  lemma AppendLeft<T>(a: seq<T>, b: seq<T>, ab: seq<T>, at: int)
    requires ab == a + b && 0 <= at < |a|
    ensures at < |ab| && ab[at] == a[at]
  {
  }

  /** An index past `a` in `a + b` reads `b`. */
  lemma AppendRight<T>(a: seq<T>, b: seq<T>, ab: seq<T>, off: int)
    requires ab == a + b && 0 <= off < |b|
    ensures |a| + off < |ab| && ab[|a| + off] == b[off]
  {
  }

  /** A slice inside the first part of `a + b` is a slice of `a`. */
  lemma SliceLeft<T>(a: seq<T>, b: seq<T>, ab: seq<T>, lo: nat, hi: nat)
    requires ab == a + b && lo <= hi <= |a|
    ensures ab[lo..hi] == a[lo..hi]
  {
  }

  /** The slice of `a + b` past `a` is `b`. */
  lemma SliceRight<T>(a: seq<T>, b: seq<T>, ab: seq<T>)
    requires ab == a + b
    ensures ab[|a|..|a| + |b|] == b
  {
  }
}
