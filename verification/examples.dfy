/**
 * Concrete instances: the share split of ten tasks over three workers, the
 * repository's doubling job over two workers, its large fixed-length array
 * worker, and a collector that loses its connection part-way.
 */
module Examples {
  import opened Wrappers
  import opened Exceptions
  import opened JavaInt
  import opened DataStream
  import opened SenderContract
  import opened Seqs
  import opened Partition
  import opened Launch
  import opened IntArraySender
  import opened Pipeline

  /** Ten tasks over three workers: shares 4, 3, 3 starting at 0, 4, 7. */
  lemma TenTasksOverThreeWorkers()
    ensures Subset(10, 3, 0) == 4 && Subset(10, 3, 1) == 3 && Subset(10, 3, 2) == 3
    ensures Start(10, 3, 0) == 0 && Start(10, 3, 1) == 4 && Start(10, 3, 2) == 7 && Start(10, 3, 3) == 10
  {
  }

  /** An `Integer` travels as one `int`. */
  lemma IntRoundTrips()
    ensures RoundTrips(ReadInt, (x: int32) => WriteInt(x), (x: int32) => true)
  {
    forall x: int32, rest: seq<byte>
      ensures ReadInt(WriteInt(x) + rest) == Success(Decoded(x, rest))
    {
      ReadWriteInt(x, rest);
    }
  }

  /** `i * 2` on a Java `int`. */
  function Double(x: int32): int32 {
    Wrap32(x as int * 2)
  }

  /** The doubling job's inputs `0, 2, …, 18`. */
  function EvenInputs(): (xs: seq<int32>)
    ensures |xs| == 10
    ensures forall i :: 0 <= i < 10 ==> xs[i] as int == 2 * i
  {
    seq(10, i requires 0 <= i < 10 => (2 * i) as int32)
  }

  /** The doubling job with inputs `0, 2, …, 18` over two workers returns
      `0, 4, …, 36`, in input order. */
  method DoublingJob(entries: seq<string>, workerJar: string, workerClass: string, minPort: int)
    returns (r: Result<seq<int32>, Exception>)
    requires JarDeclares(entries, IO_WORKER_MAIN)
    requires IsWord(workerJar) && IsWord(workerClass)
    ensures r.Success? && |r.value| == 10
    ensures forall i :: 0 <= i < 10 ==> r.value[i] as int == 4 * i
  {
    IntRoundTrips();
    var write := (x: int32) => WriteInt(x);
    var fits := (x: int32) => true;
    r := RunInputOutput(entries, workerJar, workerClass, Double, ReadInt, write, fits,
                        ReadInt, write, fits, EvenInputs(), 2, minPort);
  }

  const LARGE_LENGTH: int32 := 300

  /** The large-output benchmark task: `i, i + 1, …, i + 299` as Java ints. */
  function LargeOutputTask(i: int): IntArray {
    var a := seq(LARGE_LENGTH as int, j requires 0 <= j < LARGE_LENGTH as int => Wrap32(i + j));
    assert |a| == 300;
    a
  }

  /** The benchmark's fixed-length sender of 300 ints carries every result
      of its task. */
  lemma LargeOutputWorkerFits(n: int)
    ensures var snd := NewFixed(LARGE_LENGTH);
            && !snd.IsDynamic()
            && RoundTrips((s: seq<byte>) => Read(snd, s), (a: IntArray) => Write(snd, a), (a: IntArray) => snd.Fits(a))
            && forall k :: 0 <= k < n ==> snd.Fits(LargeOutputTask(k))
  {
    IsSender(NewFixed(LARGE_LENGTH));
  }

  /** So the benchmark's output-only run returns the task's results in
      index order. */
  method LargeOutputRun(entries: seq<string>, workerJar: string, workerClass: string,
                        n: int, w: int, minPort: int) returns (r: Result<seq<IntArray>, Exception>)
    requires JarDeclares(entries, O_WORKER_MAIN) && w >= 1
    requires IsWord(workerJar) && IsWord(workerClass)
    ensures r == Success(Map(LargeOutputTask, Indices(Max0(n))))
  {
    var snd := NewFixed(LARGE_LENGTH);
    LargeOutputWorkerFits(n);
    r := RunOutputOnly(entries, workerJar, workerClass, LargeOutputTask,
                       (s: seq<byte>) => Read(snd, s), (a: IntArray) => Write(snd, a), (a: IntArray) => snd.Fits(a),
                       n, w, minPort);
  }

  /** An output-only job of ten tasks over two workers returns ten values,
      the `k`-th being the task's result for `k`. */
  method TenTasksTwoWorkers<O(!new)>(entries: seq<string>, workerJar: string, workerClass: string,
                                     task: int -> O, read: Reader<O>, write: Writer<O>, fits: O -> bool,
                                     minPort: int) returns (r: Result<seq<O>, Exception>)
    requires JarDeclares(entries, O_WORKER_MAIN)
    requires IsWord(workerJar) && IsWord(workerClass)
    requires RoundTrips(read, write, fits)
    requires forall k :: 0 <= k < 10 ==> fits(task(k))
    ensures r.Success? && |r.value| == 10
    ensures forall k :: 0 <= k < 10 ==> r.value[k] == task(k)
  {
    r := RunOutputOnly(entries, workerJar, workerClass, task, read, write, fits, 10, 2, minPort);
  }

  /** A collector expecting five ints whose connection closes after three
      keeps those three, in order, and reports the end of the stream. */
  lemma ConnectionLostAfterThree(tail: seq<byte>)
    requires |tail| < 4
    ensures var b := DecodeMany(ReadInt, EncodeAll((x: int32) => WriteInt(x), [7, 8, 9]) + tail, 5);
            b.values == [7, 8, 9] && b.failure == Some(EndOfStream)
  {
    IntRoundTrips();
    DecodeTruncated(ReadInt, (x: int32) => WriteInt(x), (x: int32) => true, [7, 8, 9], tail, 5);
  }
}
