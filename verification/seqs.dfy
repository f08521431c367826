/** Concatenation of a list of lists, in list order, and element-wise map. */
module Seqs {

  /** The lists joined in index order: the first list, then each later one
      appended, as repeated `addAll` calls build it. */
  function Concat<T>(parts: seq<seq<T>>): seq<T>
  {
    if |parts| == 0 then [] else Concat(parts[..|parts| - 1]) + parts[|parts| - 1]
  }

  /** The sum of the lists' lengths. */
  function TotalLength<T>(parts: seq<seq<T>>): nat
  {
    if |parts| == 0 then 0 else TotalLength(parts[..|parts| - 1]) + |parts[|parts| - 1]|
  }

  function Map<A, B>(f: A -> B, xs: seq<A>): (ys: seq<B>)
    ensures |ys| == |xs|
    ensures forall k :: 0 <= k < |xs| ==> ys[k] == f(xs[k])
  {
    seq(|xs|, k requires 0 <= k < |xs| => f(xs[k]))
  }

  /** Joining two runs of lists joins their concatenations. */
  lemma {:induction false} ConcatAppend<T>(a: seq<seq<T>>, b: seq<seq<T>>)
    ensures Concat(a + b) == Concat(a) + Concat(b)
  {
    if |b| == 0 {
      assert a + b == a;
    } else {
      var b' := b[..|b| - 1];
      assert (a + b)[..|a + b| - 1] == a + b';
      ConcatAppend(a, b');
    }
  }

  /** The concatenation is as long as the lists together. */
  lemma {:induction false} ConcatLength<T>(parts: seq<seq<T>>)
    ensures |Concat(parts)| == TotalLength(parts)
  {
    if |parts| > 0 {
      ConcatLength(parts[..|parts| - 1]);
    }
  }

  /** Lists that are all empty join to the empty list. */
  lemma {:induction false} ConcatOfEmpty<T>(parts: seq<seq<T>>)
    requires forall i :: 0 <= i < |parts| ==> parts[i] == []
    ensures Concat(parts) == []
  {
    if |parts| > 0 {
      ConcatOfEmpty(parts[..|parts| - 1]);
    }
  }

  /** Mapping a concatenation maps each list. */
  lemma {:induction false} MapConcat<A, B>(f: A -> B, parts: seq<seq<A>>)
    ensures Map(f, Concat(parts)) == Concat(seq(|parts|, i requires 0 <= i < |parts| => Map(f, parts[i])))
  {
    var mapped := seq(|parts|, i requires 0 <= i < |parts| => Map(f, parts[i]));
    if |parts| > 0 {
      var init := parts[..|parts| - 1];
      MapConcat(f, init);
      assert mapped[..|parts| - 1] == seq(|init|, i requires 0 <= i < |init| => Map(f, init[i]));
      assert Map(f, Concat(init) + parts[|parts| - 1]) == Map(f, Concat(init)) + Map(f, parts[|parts| - 1]);
    }
  }
}
