/**
 * The controller side of a run (ParSPICE.java): the `run` overloads build
 * one manager per worker with a running sum over the shares, and
 * `runInternal` checks the main class and launches the workers, again with
 * a running sum for each worker's first task index. Threads, sockets and
 * processes are not modelled; what is modelled is what each manager and
 * each worker is given.
 */
module Controller {
  import opened Wrappers
  import opened Exceptions
  import opened JavaInt
  import opened Seqs
  import opened Partition
  import opened Launch

  /** An `IServer`: the inputs it sends to one worker, the port it listens
      on, and the worker's index. */
  datatype InputServer<I> = InputServer(inputs: seq<I>, port: int, workerIndex: int)

  /** An `OServer`: how many outputs it collects from one worker, the port
      it listens on, and the worker's index. */
  datatype OutputServer = OutputServer(batchSize: int, port: int, workerIndex: int)

  /** An `IOManager`: the servers of one worker; either may be null. */
  datatype Manager<I> = Manager(input: Option<InputServer<I>>, output: Option<OutputServer>, workerIndex: int)

  /** The input server worker `i` is meant to have: its share of the
      inputs, on its input port. */
  function InputServerFor<I>(inputs: seq<I>, w: int, minPort: int, i: int): InputServer<I>
    requires w >= 1 && 0 <= i < w
  {
    InputServer(Sublist(inputs, w, i), InputPort(minPort, i), i)
  }

  /** The output server worker `i` is meant to have: as many outputs as it
      has tasks, on its output port. */
  function OutputServerFor(n: int, w: int, minPort: int, i: int): OutputServer
    requires w != 0
  {
    OutputServer(Subset(n, w, i), OutputPort(minPort, i), i)
  }

  /** The planned manager of worker `i` of an input+output run. */
  function IOManagerFor<I>(inputs: seq<I>, w: int, minPort: int, i: int): Manager<I>
    requires w >= 1 && 0 <= i < w
  {
    Manager(Some(InputServerFor(inputs, w, minPort, i)), Some(OutputServerFor(|inputs|, w, minPort, i)), i)
  }

  /** The planned manager of worker `i` of an output-only run. */
  function OManagerFor<I>(n: int, w: int, minPort: int, i: int): Manager<I>
    requires w != 0
  {
    Manager(None, Some(OutputServerFor(n, w, minPort, i)), i)
  }

  /** The planned manager of worker `i` of an input-only run. */
  function IManagerFor<I>(inputs: seq<I>, w: int, minPort: int, i: int): Manager<I>
    requires w >= 1 && 0 <= i < w
  {
    Manager(Some(InputServerFor(inputs, w, minPort, i)), None, i)
  }

  /** One step of the running sum: the next share starts where this one
      ends, and both stay inside the task list. */
  lemma RunningSumStep(n: int, w: int, i: int)
    requires n >= 0 && w >= 1 && 0 <= i < w
    ensures 0 <= Start(n, w, i) <= Start(n, w, i) + Subset(n, w, i) == Start(n, w, i + 1) <= n
  {
    StartBounds(n, w, i);
    StartBounds(n, w, i + 1);
    SubsetBalanced(n, w, i);
  }

  /** The manager list of `run(IOWorker, inputs, numWorkers)`: a negative
      worker count is rejected by the list's capacity; otherwise worker `i`
      gets `inputs[start_i .. start_i + subset_i)` on port `minPort + 2i`
      and an output server for `subset_i` values on port `minPort + 2i + 1`. */
  method PlanIOManagers<I>(inputs: seq<I>, w: int, minPort: int) returns (r: Result<seq<Manager<I>>, Exception>)
    ensures r.Failure? <==> w < 0
    ensures r.Failure? ==> r.error == IllegalArgument
    ensures r.Success? ==> |r.value| == w
    ensures r.Success? ==> forall i :: 0 <= i < w ==> r.value[i] == IOManagerFor(inputs, w, minPort, i)
  {
    if w < 0 {
      return Failure(IllegalArgument);
    }
    var n := |inputs|;
    var managers: seq<Manager<I>> := [];
    var iteration := 0;
    for i := 0 to w
      invariant |managers| == i
      invariant w >= 1 ==> iteration == Start(n, w, i)
      invariant forall j :: 0 <= j < i ==> managers[j] == IOManagerFor(inputs, w, minPort, j)
    {
      var subset := Subset(n, w, i);
      RunningSumStep(n, w, i);
      var iServer := InputServer(inputs[iteration..iteration + subset], minPort + 2 * i, i);
      var oServer := OutputServer(subset, minPort + 2 * i + 1, i);
      managers := managers + [Manager(Some(iServer), Some(oServer), i)];
      iteration := iteration + subset;
    }
    return Success(managers);
  }

  /** The manager list of `run(OWorker, numIterations, numWorkers)`: no
      input servers, and worker `i`'s output server expects `subset_i`
      values on port `minPort + 2i + 1`. */
  method PlanOManagers<I>(n: int, w: int, minPort: int) returns (r: Result<seq<Manager<I>>, Exception>)
    ensures r.Failure? <==> w < 0
    ensures r.Failure? ==> r.error == IllegalArgument
    ensures r.Success? ==> |r.value| == w
    ensures r.Success? ==> forall i :: 0 <= i < w ==> r.value[i] == OManagerFor(n, w, minPort, i)
  {
    if w < 0 {
      return Failure(IllegalArgument);
    }
    var managers: seq<Manager<I>> := [];
    for i := 0 to w
      invariant |managers| == i
      invariant forall j :: 0 <= j < i ==> managers[j] == OManagerFor(n, w, minPort, j)
    {
      var subset := Subset(n, w, i);
      managers := managers + [Manager(None, Some(OutputServer(subset, minPort + 2 * i + 1, i)), i)];
    }
    return Success(managers);
  }

  /** The manager list of `run(IWorker, inputs, numWorkers)`: worker `i`'s
      input server sends `inputs[start_i .. start_i + subset_i)` on port
      `minPort + 2i`; there are no output servers. */
  method PlanIManagers<I>(inputs: seq<I>, w: int, minPort: int) returns (r: Result<seq<Manager<I>>, Exception>)
    ensures r.Failure? <==> w < 0
    ensures r.Failure? ==> r.error == IllegalArgument
    ensures r.Success? ==> |r.value| == w
    ensures r.Success? ==> forall i :: 0 <= i < w ==> r.value[i] == IManagerFor(inputs, w, minPort, i)
  {
    if w < 0 {
      return Failure(IllegalArgument);
    }
    var n := |inputs|;
    var managers: seq<Manager<I>> := [];
    var iteration := 0;
    for i := 0 to w
      invariant |managers| == i
      invariant w >= 1 ==> iteration == Start(n, w, i)
      invariant forall j :: 0 <= j < i ==> managers[j] == IManagerFor(inputs, w, minPort, j)
    {
      var subset := Subset(n, w, i);
      RunningSumStep(n, w, i);
      var iServer := InputServer(inputs[iteration..iteration + subset], minPort + 2 * i, i);
      managers := managers + [Manager(Some(iServer), None, i)];
      iteration := iteration + subset;
    }
    return Success(managers);
  }

  /** The input lists of the planned servers, in worker order. */
  function ServerInputs<I>(inputs: seq<I>, w: int, minPort: int): (parts: seq<seq<I>>)
    requires w >= 1
    ensures |parts| == w
    ensures forall i :: 0 <= i < w ==> parts[i] == InputServerFor(inputs, w, minPort, i).inputs
  {
    seq(w, i requires 0 <= i < w => InputServerFor(inputs, w, minPort, i).inputs)
  }

  /** The input servers hand out every input exactly once and in order:
      their lists, concatenated in worker order, are the inputs; and each
      output server expects as many values as its input server sends. */
  lemma InputServersPartition<I>(inputs: seq<I>, w: int, minPort: int)
    requires w >= 1
    ensures Concat(ServerInputs(inputs, w, minPort)) == inputs
    ensures forall i :: 0 <= i < w ==>
              OutputServerFor(|inputs|, w, minPort, i).batchSize == |InputServerFor(inputs, w, minPort, i).inputs|
  {
    assert ServerInputs(inputs, w, minPort) == Sublists(inputs, w);
    SublistsConcat(inputs, w);
  }

  /** The planned servers of different workers, and the two servers of one
      worker, never share a port. */
  lemma ServerPortsDistinct<I>(inputs: seq<I>, w: int, minPort: int, i: int, j: int)
    requires 0 <= i < w && 0 <= j < w
    ensures InputServerFor(inputs, w, minPort, i).port != OutputServerFor(|inputs|, w, minPort, j).port
    ensures i != j ==> OutputServerFor(|inputs|, w, minPort, i).port != OutputServerFor(|inputs|, w, minPort, j).port
    ensures i != j ==> InputServerFor(inputs, w, minPort, i).port != InputServerFor(inputs, w, minPort, j).port
  {
    PortsDistinct(minPort, w, i, j);
  }

  /** What worker `i` is launched with: the jar, the two class names, its
      input port, its first task index, its share and its index. */
  function LaunchArgs(workerJar: string, mainClass: string, workerClass: string,
                      n: int, w: int, minPort: int, i: int): WorkerArgs
    requires w >= 1 && 0 <= i < w
  {
    WorkerArgs(workerJar, mainClass, workerClass, InputPort(minPort, i), Start(n, w, i), Subset(n, w, i), i)
  }

  /** The launch loop of `runInternal`: `new Process[numWorkers]` rejects a
      negative count; otherwise worker `i` is launched with the running sum
      of the earlier shares as its first task index. */
  method PlanLaunches(workerJar: string, mainClass: string, workerClass: string,
                      n: int, w: int, minPort: int) returns (r: Result<seq<WorkerArgs>, Exception>)
    ensures r.Failure? <==> w < 0
    ensures r.Failure? ==> r.error == NegativeArraySize(w)
    ensures r.Success? ==> |r.value| == w
    ensures r.Success? ==> forall i :: 0 <= i < w ==>
              r.value[i] == LaunchArgs(workerJar, mainClass, workerClass, n, w, minPort, i)
  {
    if w < 0 {
      return Failure(NegativeArraySize(w));
    }
    var launches: seq<WorkerArgs> := [];
    var iteration := 0;
    for i := 0 to w
      invariant |launches| == i
      invariant w >= 1 ==> iteration == Start(n, w, i)
      invariant forall j :: 0 <= j < i ==>
                  launches[j] == LaunchArgs(workerJar, mainClass, workerClass, n, w, minPort, j)
    {
      var subset := Subset(n, w, i);
      launches := launches + [WorkerArgs(workerJar, mainClass, workerClass, minPort + 2 * i, iteration, subset, i)];
      iteration := iteration + subset;
    }
    return Success(launches);
  }

  /** `runInternal`: the main class must be in the jar before anything is
      launched. */
  method RunInternal(entries: seq<string>, workerJar: string, mainClass: string, workerClass: string,
                     n: int, w: int, minPort: int) returns (r: Result<seq<WorkerArgs>, Exception>)
    ensures !JarDeclares(entries, mainClass) ==> r == Failure(ClassNotFound(mainClass))
    ensures JarDeclares(entries, mainClass) ==>
              && (r.Failure? <==> w < 0)
              && (r.Failure? ==> r.error == NegativeArraySize(w))
              && (r.Success? ==> |r.value| == w && forall i :: 0 <= i < w ==>
                    r.value[i] == LaunchArgs(workerJar, mainClass, workerClass, n, w, minPort, i))
  {
    var found := CheckMainClass(entries, mainClass);
    if found.Fail? {
      return Failure(found.error);
    }
    r := PlanLaunches(workerJar, mainClass, workerClass, n, w, minPort);
  }

  /** The worker launched `i`-th is the one the `i`-th manager serves: it
      connects to the manager's input port and the port after it, and has
      exactly as many tasks as the manager's output server collects and
      as its input server sends. */
  lemma LaunchMatchesManager<I>(workerJar: string, mainClass: string, workerClass: string,
                                inputs: seq<I>, w: int, minPort: int, i: int)
    requires w >= 1 && 0 <= i < w
    ensures var a := LaunchArgs(workerJar, mainClass, workerClass, |inputs|, w, minPort, i);
            var m := IOManagerFor(inputs, w, minPort, i);
            && a.workerIndex == m.workerIndex == i
            && a.port == m.input.value.port
            && a.port + 1 == m.output.value.port
            && a.count == m.output.value.batchSize == |m.input.value.inputs|
            && m.input.value.inputs == inputs[a.startIndex..a.startIndex + a.count]
  {
    var a := LaunchArgs(workerJar, mainClass, workerClass, |inputs|, w, minPort, i);
    RunningSumStep(|inputs|, w, i);
    assert IOManagerFor(inputs, w, minPort, i).input.value.inputs == inputs[a.startIndex..a.startIndex + a.count];
  }

  /** Every task index `k` in `[0, n)` is run by exactly one launched
      worker: the one whose range `[startIndex, startIndex + count)` holds
      `k`. */
  lemma LaunchesCoverTasks(workerJar: string, mainClass: string, workerClass: string,
                           n: int, w: int, minPort: int, k: int, i: int)
    requires n >= 0 && w >= 1 && 0 <= k < n && 0 <= i < w
    ensures var a := LaunchArgs(workerJar, mainClass, workerClass, n, w, minPort, i);
            a.startIndex <= k < a.startIndex + a.count <==> i == Owner(n, w, k)
  {
    OwnerUnique(n, w, k, i);
  }
}
