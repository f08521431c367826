/**
 * The job API (job/OJob.java, job/IOJob.java): a job is initialised on the
 * controller with its worker count and its tasks, and `run` plans one
 * manager per worker the same way the controller's `run` overloads do.
 * `taskSubset` is taken to be the controller's share formula. The worker
 * side of a job is the task loops of the Worker module.
 */
module Jobs {
  import opened Wrappers
  import opened Exceptions
  import opened JavaInt
  import opened SenderContract
  import opened Seqs
  import opened Partition
  import opened Worker
  import opened Controller

  /** What an output-only job holds on the controller. */
  datatype OJob = OJob(numWorkers: int, numTasks: int)

  /** `OJob.init(numWorkers, numTasks)`: records both counts. */
  function InitOJob(job: OJob, numWorkers: int, numTasks: int): OJob {
    job.(numWorkers := numWorkers, numTasks := numTasks)
  }

  /** The manager loop of `OJob.run(par)`: worker `i`'s manager has no input
      server and an output server for its share of the tasks on port
      `minPort + 2i + 1`. */
  method OJobManagers<I>(job: OJob, minPort: int) returns (r: Result<seq<Manager<I>>, Exception>)
    ensures r.Failure? <==> job.numWorkers < 0
    ensures r.Failure? ==> r.error == IllegalArgument
    ensures r.Success? ==> |r.value| == job.numWorkers
    ensures r.Success? ==> forall i :: 0 <= i < job.numWorkers ==>
              && r.value[i].input.None?
              && r.value[i].workerIndex == i
              && r.value[i].output == Some(OutputServer(Subset(job.numTasks, job.numWorkers, i), OutputPort(minPort, i), i))
  {
    r := PlanOManagers(job.numTasks, job.numWorkers, minPort);
  }

  /** After `init(w, n)` with `w >= 1` and `n >= 0`, the output servers of
      `run` expect `n` values between them. */
  lemma OJobCollectsAllTasks(job: OJob, w: int, n: int, minPort: int)
    requires w >= 1 && n >= 0
    ensures var j := InitOJob(job, w, n);
            Start(j.numTasks, j.numWorkers, j.numWorkers) == n
    ensures forall i :: 0 <= i < w ==>
              OManagerFor<int>(n, w, minPort, i).output.value.batchSize == Subset(n, w, i) >= 0
  {
    SharesSumToTotal(n, w);
    forall i | 0 <= i < w
      ensures Subset(n, w, i) >= 0
    {
      SubsetBalanced(n, w, i);
    }
  }

  /** Encoding the lists in order and joining the bytes is encoding their
      concatenation. */
  lemma {:induction false} EncodeAllConcat<T>(write: Writer<T>, parts: seq<seq<T>>)
    ensures EncodeAll(write, Concat(parts)) == Concat(seq(|parts|, i requires 0 <= i < |parts| => EncodeAll(write, parts[i])))
  {
    var streams := seq(|parts|, i requires 0 <= i < |parts| => EncodeAll(write, parts[i]));
    if |parts| > 0 {
      var init := parts[..|parts| - 1];
      EncodeAllConcat(write, init);
      assert streams[..|parts| - 1] == seq(|init|, i requires 0 <= i < |init| => EncodeAll(write, init[i]));
      EncodeAllAppend(write, Concat(init), parts[|parts| - 1]);
    }
  }

  /** The results worker `i` of an output-only run sends: the task applied
      to each index of its range. */
  function WorkerResults<O>(task: int -> O, n: int, w: int, i: int): seq<O>
    requires w >= 1 && 0 <= i < w
  {
    IndexOutputs(task, Start(n, w, i), Subset(n, w, i))
  }

  /** Every worker's results, in worker order, are the task applied to
      `0, 1, …, n - 1` (to nothing when `n` is negative). */
  lemma WorkerResultsConcat<O>(task: int -> O, n: int, w: int)
    requires w >= 1
    ensures Concat(seq(w, i requires 0 <= i < w => WorkerResults(task, n, w, i))) == Map(task, Indices(Max0(n)))
  {
    var parts := seq(w, i requires 0 <= i < w => WorkerResults(task, n, w, i));
    if n < 0 {
      forall i | 0 <= i < w
        ensures parts[i] == []
      {
        SubsetOfNegative(n, w, i);
      }
      ConcatOfEmpty(parts);
    } else {
      var ranges := seq(w, i requires 0 <= i < w => WorkerIndices(n, w, i));
      forall i | 0 <= i < w
        ensures parts[i] == Map(task, ranges[i])
      {
        SubsetBalanced(n, w, i);
      }
      assert parts == seq(|ranges|, i requires 0 <= i < |ranges| => Map(task, ranges[i]));
      MapConcat(task, ranges);
      IndicesConcat(n, w);
    }
  }

  /** The streams the `taskWrapper`s of an output-only job write, joined in
      worker order, are the encodings of `task(0), …, task(n - 1)`. */
  lemma OJobStreamsConcat<O>(task: int -> O, write: Writer<O>, n: int, w: int)
    requires w >= 1
    ensures Concat(seq(w, i requires 0 <= i < w => EncodeAll(write, WorkerResults(task, n, w, i))))
            == EncodeAll(write, Map(task, Indices(Max0(n))))
  {
    var parts := seq(w, i requires 0 <= i < w => WorkerResults(task, n, w, i));
    WorkerResultsConcat(task, n, w);
    EncodeAllConcat(write, parts);
    assert seq(|parts|, i requires 0 <= i < |parts| => EncodeAll(write, parts[i]))
        == seq(w, i requires 0 <= i < w => EncodeAll(write, WorkerResults(task, n, w, i)));
  }

  /** What an input+output job holds on the controller; `inputs` is `None`
      until `init` sets it. */
  datatype IOJob<I> = IOJob(numWorkers: int, inputs: Option<seq<I>>)
  {
    /** `numTasks`: the size of the inputs once they are set. */
    function NumTasks(): nat {
      if inputs.Some? then |inputs.value| else 0
    }
  }

  /** What `IOJob.init` leaves behind: the job's fields after the call, and
      whether the call returned or threw. */
  datatype InitResult<I> = InitResult(job: IOJob<I>, outcome: Outcome<Exception>)

  /** `IOJob.init(numWorkers, inputs)`: both fields are assigned before the
      input count is taken, so a `null` input list throws with the worker
      count and the `null` list already recorded. */
  function InitIOJob<I>(job: IOJob<I>, numWorkers: int, inputs: Option<seq<I>>): (r: InitResult<I>)
    ensures r.job.numWorkers == numWorkers && r.job.inputs == inputs
    ensures r.outcome.Fail? <==> inputs.None?
    ensures r.outcome.Fail? ==> r.outcome.error == NullPointer
    ensures r.outcome.Pass? ==> r.job.NumTasks() == |inputs.value|
  {
    var updated := job.(numWorkers := numWorkers, inputs := inputs);
    if inputs.None? then InitResult(updated, Fail(NullPointer)) else InitResult(updated, Pass)
  }

  /** The manager loop of `IOJob.run(par)`: a job whose inputs were never
      set is rejected before any manager is built; otherwise worker `i`
      gets its slice of the inputs on port `minPort + 2i` and an output
      server for as many values on port `minPort + 2i + 1`. */
  method IOJobManagers<I>(job: IOJob<I>, minPort: int) returns (r: Result<seq<Manager<I>>, Exception>)
    ensures job.inputs.None? ==> r == Failure(IllegalState("Inputs must be specified."))
    ensures job.inputs.Some? ==> (r.Failure? <==> job.numWorkers < 0)
    ensures job.inputs.Some? && r.Failure? ==> r.error == IllegalArgument
    ensures r.Success? ==> job.inputs.Some? && |r.value| == job.numWorkers
    ensures r.Success? ==> forall i :: 0 <= i < job.numWorkers ==>
              var m := r.value[i];
              && m.workerIndex == i
              && m.input == Some(InputServer(Sublist(job.inputs.value, job.numWorkers, i), InputPort(minPort, i), i))
              && m.output == Some(OutputServer(Subset(job.NumTasks(), job.numWorkers, i), OutputPort(minPort, i), i))
  {
    if job.inputs.None? {
      return Failure(IllegalState("Inputs must be specified."));
    }
    r := PlanIOManagers(job.inputs.value, job.numWorkers, minPort);
  }

  /** A job whose `init` succeeded plans the same managers as the
      controller's `run(IOWorker, inputs, numWorkers)`, and its input
      servers hand out every input once, in order. */
  lemma IOJobInitThenRun<I>(job: IOJob<I>, w: int, inputs: seq<I>, minPort: int)
    requires w >= 1
    ensures InitIOJob(job, w, Some(inputs)).outcome.Pass?
    ensures var j := InitIOJob(job, w, Some(inputs)).job;
            forall i :: 0 <= i < w ==>
              IOManagerFor(inputs, w, minPort, i).input
                == Some(InputServer(Sublist(j.inputs.value, j.numWorkers, i), InputPort(minPort, i), i))
    ensures Concat(ServerInputs(inputs, w, minPort)) == inputs
  {
    InputServersPartition(inputs, w, minPort);
  }

  /** A job whose `init` threw on a `null` input list keeps that list, so
      running it afterwards is rejected before any manager is built,
      whatever it held before. */
  method InitNullThenRun<I>(job: IOJob<I>, w: int, minPort: int) returns (r: Result<seq<Manager<I>>, Exception>)
    ensures r == Failure(IllegalState("Inputs must be specified."))
  {
    var init := InitIOJob(job, w, None);
    r := IOJobManagers(init.job, minPort);
  }
}
