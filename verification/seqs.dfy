/** Sequence helpers shared by the renderers and the parsers. */
module Seqs {

  /** Concatenates a sequence of sequences, in order. */
  function Flatten<T>(xss: seq<seq<T>>): (r: seq<T>)
    ensures |xss| == 0 ==> r == []
  {
    if |xss| == 0 then [] else xss[0] + Flatten(xss[1..])
  }

  lemma {:induction false} FlattenAppend<T>(a: seq<seq<T>>, b: seq<seq<T>>)
    ensures Flatten(a + b) == Flatten(a) + Flatten(b)
  {
    if |a| == 0 {
      assert a + b == b;
    } else {
      assert (a + b)[1..] == a[1..] + b;
      FlattenAppend(a[1..], b);
    }
  }

  lemma FlattenSingle<T>(xs: seq<T>)
    ensures Flatten([xs]) == xs
  {
    assert [xs][1..] == [];
  }

  /** Indexing past the first part of `a + (b + c)` lands in `b`. */
  lemma IndexSecond<T>(a: seq<T>, b: seq<T>, c: seq<T>, i: nat)
    requires i < |b|
    ensures (a + (b + c))[|a| + i] == b[i]
  {
  }

  /** Indexing past the first two parts of `a + (b + (c + d))` lands in `c`. */
  lemma IndexThird<T>(a: seq<T>, b: seq<T>, c: seq<T>, d: seq<T>, i: nat)
    requires i < |c|
    ensures (a + (b + (c + d)))[|a| + |b| + i] == c[i]
  {
    assert (a + (b + (c + d)))[|a| + |b| + i] == (b + (c + d))[|b| + i];
  }

  lemma AppendAssoc<T>(a: seq<T>, b: seq<T>, c: seq<T>)
    ensures (a + b) + c == a + (b + c)
  {
  }

  /** The parts of `a + [x] + b` around `x` read back as `a` and `b`. */
  lemma SplitAround<T>(a: seq<T>, x: T, b: seq<T>)
    ensures var s := a + ([x] + b);
      s[|a|] == x && s[..|a|] == a && s[|a| + 1..] == b
  {
  }

  /** A non-empty sequence is its head followed by its tail. */
  lemma HeadTail<T>(xs: seq<T>)
    requires |xs| > 0
    ensures [xs[0]] + xs[1..] == xs
  {
  }

  /** Where an index into `a + b + c` lands. */
  lemma IndexOfThree<T>(a: seq<T>, b: seq<T>, c: seq<T>, i: nat)
    requires i < |a| + |b| + |c|
    ensures (a + b + c)[i] == if i < |a| then a[i] else if i < |a| + |b| then b[i - |a|] else c[i - |a| - |b|]
  {
  }

  lemma AppendNil<T>(a: seq<T>)
    ensures a + [] == a && [] + a == a
  {
  }

  /** Past the head of `[x] + xs`, the tail. */
  lemma ConsIndex<T>(x: T, xs: seq<T>, i: nat)
    requires 0 < i <= |xs|
    ensures ([x] + xs)[i] == xs[i - 1]
  {
  }
}
