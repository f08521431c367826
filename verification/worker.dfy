/**
 * The worker-side task loops. An output-only worker runs the task on each
 * index of its range and writes each result as soon as it is computed; an
 * input+output worker alternates one read of an input, one task call and
 * one write of the result. The task is an uninterpreted function.
 */
module Worker {
  import opened Wrappers
  import opened Exceptions
  import opened JavaInt
  import opened DataStream
  import opened SenderContract
  import opened Seqs

  /** The results of the tasks `start .. start + count - 1`, in index order
      (none when `count` is not positive). */
  function IndexOutputs<O>(task: int -> O, start: int, count: int): (os: seq<O>)
    ensures |os| == Max0(count)
    ensures forall k :: 0 <= k < |os| ==> os[k] == task(start + k)
  {
    seq(Max0(count), k => task(start + k))
  }

  /** `taskWrapper` of an output-only job: the output stream holds the
      encodings of `task(start)`, …, `task(start + count - 1)` in that order
      and nothing else. */
  method OutputTaskLoop<O>(task: int -> O, write: Writer<O>, start: int, count: int)
    returns (out: seq<byte>)
    ensures out == EncodeAll(write, IndexOutputs(task, start, count))
  {
    out := [];
    var i := start;
    while i < start + count
      invariant start <= i
      invariant count >= 0 ==> i <= start + count
      invariant count < 0 ==> i == start
      invariant out == EncodeAll(write, IndexOutputs(task, start, i - start))
    {
      var done := IndexOutputs(task, start, i - start);
      assert IndexOutputs(task, start, i + 1 - start) == done + [task(i)];
      EncodeAllSnoc(write, done, task(i));
      out := out + write(task(i));
      i := i + 1;
    }
    assert IndexOutputs(task, start, i - start) == IndexOutputs(task, start, count);
  }

  /** `taskWrapper` of an input+output job. It reads at most `count` inputs
      from `input`, stopping at the first read that throws; the output
      stream holds the encodings of `task` applied to each input read, in
      the order read. `failure` is the exception the loop rethrows. */
  method InputOutputTaskLoop<I, O>(task: I -> O, read: Reader<I>, write: Writer<O>,
                                   input: seq<byte>, start: int, count: int)
    returns (inputsRead: seq<I>, out: seq<byte>, failure: Option<Exception>)
    ensures inputsRead == DecodeMany(read, input, Max0(count)).values
    ensures failure == DecodeMany(read, input, Max0(count)).failure
    ensures out == EncodeAll(write, Map(task, inputsRead))
  {
    inputsRead, out := [], [];
    var s := input;
    var i := start;
    while i < start + count
      invariant start <= i <= start + Max0(count)
      invariant |inputsRead| == i - start
      invariant DecodeMany(read, input, Max0(count))
                == Prepend(inputsRead, DecodeMany(read, s, Max0(count) - (i - start)))
      invariant out == EncodeAll(write, Map(task, inputsRead))
    {
      var r := read(s);
      if r.Failure? {
        failure := Some(r.error);
        assert inputsRead + [] == inputsRead;
        return;
      }
      DecodeManyStep(read, inputsRead, s, Max0(count) - (i - start));
      var x := r.value.value;
      EncodeAllSnoc(write, Map(task, inputsRead), task(x));
      assert Map(task, inputsRead + [x]) == Map(task, inputsRead) + [task(x)];
      out := out + write(task(x));
      inputsRead := inputsRead + [x];
      s := r.value.rest;
      i := i + 1;
    }
    failure := None;
    assert inputsRead + [] == inputsRead;
  }
}
