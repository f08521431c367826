/**
 * Joining the per-worker output lists into the run's result, in ascending
 * worker index: `ParSPICE.aggregateOutputs` and the aggregation in
 * `worker.OJob.run`. Both start from worker 0's list (so both need at
 * least one worker) and `addAll` every later list in turn.
 */
module Aggregate {
  import opened Wrappers
  import opened Exceptions
  import opened Seqs
  import Partition

  /** List `i`, placed in the concatenation right after the lists before it. */
  lemma ConcatSlice<T>(parts: seq<seq<T>>, i: int)
    requires 0 <= i < |parts|
    ensures TotalLength(parts[..i]) + |parts[i]| <= |Concat(parts)|
    ensures Concat(parts)[TotalLength(parts[..i])..TotalLength(parts[..i]) + |parts[i]|] == parts[i]
  {
    assert parts == parts[..i] + [parts[i]] + parts[i + 1..];
    ConcatAppend(parts[..i] + [parts[i]], parts[i + 1..]);
    ConcatAppend(parts[..i], [parts[i]]);
    assert Concat([parts[i]]) == parts[i] by {
      assert [parts[i]][..0] == [];
    }
    ConcatLength(parts[..i]);
  }

  /** `r` is the lists laid end to end in index order: it is exactly as
      long as the lists together and list `i` is the slice of `r` that
      starts after the lists before `i`. */
  ghost predicate InWorkerOrder<T>(parts: seq<seq<T>>, r: seq<T>)
  {
    && |r| == TotalLength(parts)
    && forall i :: 0 <= i < |parts| ==>
         TotalLength(parts[..i]) + |parts[i]| <= |r| &&
         r[TotalLength(parts[..i])..TotalLength(parts[..i]) + |parts[i]|] == parts[i]
  }

  /** The concatenation keeps worker order. */
  lemma ConcatOrder<T>(parts: seq<seq<T>>)
    ensures InWorkerOrder(parts, Concat(parts))
  {
    ConcatLength(parts);
    forall i | 0 <= i < |parts| {
      ConcatSlice(parts, i);
    }
  }

  /** `aggregateOutputs(ioManagers, numIterations)`, given each manager's
      output list. `get(0)` throws on an empty manager list. The result
      holds every list's values, each list kept in order and placed after
      all lists of lower worker index. */
  function AggregateOutputs<O>(outputs: seq<seq<O>>): (r: Result<seq<O>, Exception>)
    ensures r.Failure? <==> |outputs| == 0
    ensures r.Failure? ==> r.error == IndexOutOfBounds(0)
    ensures r.Success? ==> InWorkerOrder(outputs, r.value)
  {
    if |outputs| == 0 then Failure(IndexOutOfBounds(0))
    else
      ConcatOrder(outputs);
      Success(Concat(outputs))
  }

  /** The lengths of the first `m` lists sum to worker `m`'s first task
      index when each list holds its worker's share. */
  lemma {:induction false} SharePrefixLength<O>(outputs: seq<seq<O>>, n: int, w: int, m: int)
    requires n >= 0 && w >= 1 && |outputs| == w && 0 <= m <= w
    requires forall i :: 0 <= i < w ==> |outputs[i]| == Partition.Subset(n, w, i)
    ensures TotalLength(outputs[..m]) == Partition.Start(n, w, m)
  {
    if m > 0 {
      SharePrefixLength(outputs, n, w, m - 1);
      assert outputs[..m][..m - 1] == outputs[..m - 1];
    }
  }

  /** When every collector completed (worker `i`'s list holds its share),
      the aggregate holds exactly `n` values. */
  lemma AggregateLength<O>(outputs: seq<seq<O>>, n: int, w: int)
    requires n >= 0 && w >= 1 && |outputs| == w
    requires forall i :: 0 <= i < w ==> |outputs[i]| == Partition.Subset(n, w, i)
    ensures AggregateOutputs(outputs).Success?
    ensures |AggregateOutputs(outputs).value| == n
  {
    SharePrefixLength(outputs, n, w, w);
    assert outputs[..w] == outputs;
    Partition.SharesSumToTotal(n, w);
  }

  /** True when no list is `null`. */
  predicate AllPresent<O>(lists: seq<Option<seq<O>>>) {
    forall i :: 0 <= i < |lists| ==> lists[i].Some?
  }

  /** The lists, none of them `null`. */
  function Present<O>(lists: seq<Option<seq<O>>>): (ps: seq<seq<O>>)
    requires AllPresent(lists)
    ensures |ps| == |lists|
    ensures forall i :: 0 <= i < |lists| ==> ps[i] == lists[i].value
  {
    seq(|lists|, i requires 0 <= i < |lists| => lists[i].value)
  }

  /** The aggregation in `worker.OJob.run(par)`, given each manager's
      `getOutputs()` (`None` for `null`). A `null` first list makes the
      result `null`; a `null` later list makes `addAll` throw a
      NullPointerException; otherwise the lists are joined in order. */
  method CollectResults<O>(lists: seq<Option<seq<O>>>)
    returns (r: Result<Option<seq<O>>, Exception>)
    ensures |lists| == 0 ==> r == Failure(IndexOutOfBounds(0))
    ensures |lists| > 0 && lists[0].None? ==> r == Success(None)
    ensures |lists| > 0 && lists[0].Some? && AllPresent(lists) ==> r == Success(Some(Concat(Present(lists))))
    ensures |lists| > 0 && lists[0].Some? && !AllPresent(lists) ==> r == Failure(NullPointer)
  {
    if |lists| == 0 {
      return Failure(IndexOutOfBounds(0));
    }
    if lists[0].None? {
      return Success(None);
    }
    var results := lists[0].value;
    var i := 1;
    while i < |lists|
      invariant 1 <= i <= |lists|
      invariant AllPresent(lists[..i])
      invariant results == Concat(Present(lists[..i]))
    {
      if lists[i].None? {
        return Failure(NullPointer);
      }
      assert Present(lists[..i + 1]) == Present(lists[..i]) + [lists[i].value];
      assert Present(lists[..i + 1])[..i] == Present(lists[..i]);
      results := results + lists[i].value;
      i := i + 1;
    }
    assert lists[..i] == lists;
    return Success(Some(results));
  }
}
