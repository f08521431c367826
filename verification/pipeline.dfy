/**
 * Whole runs of the controller, with each worker's loop and each output
 * collector run one after the other instead of in parallel threads and
 * processes. Worker `i` runs with the fields it receives from its launch
 * string, its input server sends the encodings of its input list, and its
 * collector reads the bytes the worker wrote.
 */
module Pipeline {
  import opened Wrappers
  import opened Exceptions
  import opened JavaInt
  import opened DataStream
  import opened SenderContract
  import opened Seqs
  import opened Partition
  import opened Launch
  import opened Worker
  import opened Collector
  import opened Aggregate
  import opened Controller
  import opened Jobs

  const IO_WORKER_MAIN: string := "parspice.worker.IOWorker"
  const O_WORKER_MAIN: string := "parspice.worker.OWorker"
  const I_WORKER_MAIN: string := "parspice.worker.IWorker"
  const AUTO_WORKER_MAIN: string := "parspice.worker.AutoWorker"

  /** The four worker main classes are single words, have no `/`, and
      never have `.c`, so the launch string carries them intact and both
      class-name mappings agree on their entries. */
  lemma WorkerMainsArePlain()
    ensures forall c :: c in {IO_WORKER_MAIN, O_WORKER_MAIN, I_WORKER_MAIN, AUTO_WORKER_MAIN} ==>
              IsWord(c) && NoSlash(c) && NoDotC(c)
  {
  }

  /** A jar that stores a worker main class under its usual entry name
      passes `checkMainClass` for it. */
  lemma StoredWorkerMainDeclared(entries: seq<string>, mainClass: string)
    requires mainClass in {IO_WORKER_MAIN, O_WORKER_MAIN, I_WORKER_MAIN, AUTO_WORKER_MAIN}
    requires EntryName(mainClass) in entries
    ensures JarDeclares(entries, mainClass) && JarDeclaresIntended(entries, mainClass)
  {
    WorkerMainsArePlain();
    PlainEntryDeclares(mainClass);
  }

  /** A worker launched with one of the four main classes, a jar path and
      a worker class free of whitespace receives exactly the fields it was
      launched with. */
  lemma WorkerLaunched(a: WorkerArgs)
    requires a.mainClass in {IO_WORKER_MAIN, O_WORKER_MAIN, I_WORKER_MAIN, AUTO_WORKER_MAIN}
    requires IsWord(a.workerJar) && IsWord(a.workerClass)
    ensures LaunchedArgs(Tokenize(CommandLine(a))) == Some(a)
  {
    WorkerMainsArePlain();
    LaunchedArgsOfCommandLine(a);
  }

  /** Worker `i` of an output-only run and its collector. The worker is
      started from the launch string for `a`: one that did not start never
      connects; one that did computes and sends the results of the range
      it received, and when that share is the collector's batch size the
      collector receives all of them. A worker main class with a jar path
      and a worker class free of whitespace receives `a` itself. */
  method RunOutputWorker<O(!new)>(task: int -> O, read: Reader<O>, write: Writer<O>, fits: O -> bool,
                                  a: WorkerArgs, batchSize: int)
    returns (received: seq<O>)
    requires RoundTrips(read, write, fits)
    ensures LaunchedArgs(Tokenize(CommandLine(a))).None? ==> received == []
    ensures a.mainClass in {IO_WORKER_MAIN, O_WORKER_MAIN, I_WORKER_MAIN, AUTO_WORKER_MAIN}
            && IsWord(a.workerJar) && IsWord(a.workerClass) && batchSize == a.count
            && (forall t :: a.startIndex <= t < a.startIndex + a.count ==> fits(task(t)))
            ==> received == IndexOutputs(task, a.startIndex, a.count)
  {
    ghost var intact := a.mainClass in {IO_WORKER_MAIN, O_WORKER_MAIN, I_WORKER_MAIN, AUTO_WORKER_MAIN}
                        && IsWord(a.workerJar) && IsWord(a.workerClass);
    if intact {
      WorkerLaunched(a);
    }
    var launched := LaunchedArgs(Tokenize(CommandLine(a)));
    var status;
    if launched.None? {
      received, status := SendAndReceive(read, None, a.workerIndex, batchSize);
      return;
    }
    var b := launched.value;
    var stream := OutputTaskLoop(task, write, b.startIndex, b.count);
    if intact && batchSize == a.count && forall t :: a.startIndex <= t < a.startIndex + a.count ==> fits(task(t)) {
      DecodeEncodeAll(read, write, fits, IndexOutputs(task, a.startIndex, a.count), []);
      assert stream + [] == stream;
    }
    received, status := SendAndReceive(read, Some(stream), b.workerIndex, batchSize);
  }

  /** `run(OWorker, numIterations, numWorkers)` end to end. Worker `i` is
      started from its launch string. When the jar path and the worker
      class hold no whitespace and the task's results fit the output
      sender, the run returns the task applied to `0, 1, …,
      numIterations - 1`, in index order. */
  method RunOutputOnly<O(!new)>(entries: seq<string>, workerJar: string, workerClass: string,
                                task: int -> O, read: Reader<O>, write: Writer<O>, fits: O -> bool,
                                n: int, w: int, minPort: int) returns (r: Result<seq<O>, Exception>)
    requires RoundTrips(read, write, fits)
    requires forall k :: 0 <= k < n ==> fits(task(k))
    ensures w < 0 ==> r == Failure(IllegalArgument)
    ensures w >= 0 && !JarDeclares(entries, O_WORKER_MAIN) ==> r == Failure(ClassNotFound(O_WORKER_MAIN))
    ensures w == 0 && JarDeclares(entries, O_WORKER_MAIN) ==> r == Failure(IndexOutOfBounds(0))
    ensures w >= 1 && JarDeclares(entries, O_WORKER_MAIN) ==> r.Success?
    ensures w >= 1 && JarDeclares(entries, O_WORKER_MAIN) && IsWord(workerJar) && IsWord(workerClass) ==>
              r == Success(Map(task, Indices(Max0(n))))
  {
    var managers := PlanOManagers<()>(n, w, minPort);
    if managers.Failure? {
      return Failure(managers.error);
    }
    var launches := RunInternal(entries, workerJar, O_WORKER_MAIN, workerClass, n, w, minPort);
    if launches.Failure? {
      return Failure(launches.error);
    }
    ghost var words := IsWord(workerJar) && IsWord(workerClass);
    var outputs: seq<seq<O>> := [];
    for i := 0 to w
      invariant |outputs| == i
      invariant words ==> forall j :: 0 <= j < i ==> outputs[j] == WorkerResults(task, n, w, j)
    {
      var a := launches.value[i];
      if n >= 0 {
        RunningSumStep(n, w, i);
      } else {
        SubsetOfNegative(n, w, i);
      }
      var batchSize := managers.value[i].output.value.batchSize;
      if words {
        assert a == LaunchArgs(workerJar, O_WORKER_MAIN, workerClass, n, w, minPort, i);
        assert a.mainClass in {IO_WORKER_MAIN, O_WORKER_MAIN, I_WORKER_MAIN, AUTO_WORKER_MAIN};
        assert batchSize == a.count;
      }
      var received := RunOutputWorker(task, read, write, fits, a, batchSize);
      if words {
        assert received == WorkerResults(task, n, w, i);
      }
      outputs := outputs + [received];
    }
    r := AggregateOutputs(outputs);
    if words && w >= 1 {
      assert outputs == seq(w, i requires 0 <= i < w => WorkerResults(task, n, w, i));
      WorkerResultsConcat(task, n, w);
    }
  }

  /** Worker `i` of an input+output run and its collectors. The worker is
      started from the launch string for `a`: one that did not start never
      connects; one that did maps the task over what it reads from its
      input server. A worker main class with a jar path and a worker class
      free of whitespace receives `a` itself, and when its share is the
      number of inputs sent and the collector's batch size, the collector
      receives `task` of every input, in order. */
  method RunInputOutputWorker<I(!new), O(!new)>(task: I -> O,
                                                readIn: Reader<I>, writeIn: Writer<I>, fitsIn: I -> bool,
                                                readOut: Reader<O>, writeOut: Writer<O>, fitsOut: O -> bool,
                                                sent: seq<I>, a: WorkerArgs, batchSize: int)
    returns (received: seq<O>)
    requires RoundTrips(readIn, writeIn, fitsIn) && RoundTrips(readOut, writeOut, fitsOut)
    ensures LaunchedArgs(Tokenize(CommandLine(a))).None? ==> received == []
    ensures a.mainClass in {IO_WORKER_MAIN, O_WORKER_MAIN, I_WORKER_MAIN, AUTO_WORKER_MAIN}
            && IsWord(a.workerJar) && IsWord(a.workerClass) && a.count == batchSize == |sent|
            && (forall k :: 0 <= k < |sent| ==> fitsIn(sent[k]) && fitsOut(task(sent[k])))
            ==> received == Map(task, sent)
  {
    ghost var intact := a.mainClass in {IO_WORKER_MAIN, O_WORKER_MAIN, I_WORKER_MAIN, AUTO_WORKER_MAIN}
                        && IsWord(a.workerJar) && IsWord(a.workerClass);
    if intact {
      WorkerLaunched(a);
    }
    var launched := LaunchedArgs(Tokenize(CommandLine(a)));
    var status;
    if launched.None? {
      received, status := SendAndReceive(readOut, None, a.workerIndex, batchSize);
      return;
    }
    var b := launched.value;
    var input := EncodeAll(writeIn, sent);
    var inputsRead, stream, failure := InputOutputTaskLoop(task, readIn, writeOut, input, b.startIndex, b.count);
    if intact && a.count == batchSize == |sent| && forall k :: 0 <= k < |sent| ==> fitsIn(sent[k]) && fitsOut(task(sent[k])) {
      DecodeEncodeAll(readIn, writeIn, fitsIn, sent, []);
      assert input + [] == input;
      DecodeEncodeAll(readOut, writeOut, fitsOut, Map(task, sent), []);
      assert stream + [] == stream;
    }
    received, status := SendAndReceive(readOut, Some(stream), b.workerIndex, batchSize);
  }

  /** Worker `i` of an input+output run, served by its planned manager and
      started from its planned launch string: with a jar path and a worker
      class free of whitespace, its collector receives `task` of each
      input in the worker's share, in order. */
  method RunInputOutputShare<I(!new), O(!new)>(task: I -> O,
                                               readIn: Reader<I>, writeIn: Writer<I>, fitsIn: I -> bool,
                                               readOut: Reader<O>, writeOut: Writer<O>, fitsOut: O -> bool,
                                               inputs: seq<I>, w: int, minPort: int,
                                               workerJar: string, workerClass: string, i: int,
                                               m: Manager<I>, a: WorkerArgs)
    returns (received: seq<O>)
    requires RoundTrips(readIn, writeIn, fitsIn) && RoundTrips(readOut, writeOut, fitsOut)
    requires forall k :: 0 <= k < |inputs| ==> fitsIn(inputs[k]) && fitsOut(task(inputs[k]))
    requires w >= 1 && 0 <= i < w
    requires m == IOManagerFor(inputs, w, minPort, i)
    requires a == LaunchArgs(workerJar, IO_WORKER_MAIN, workerClass, |inputs|, w, minPort, i)
    ensures IsWord(workerJar) && IsWord(workerClass) ==> received == Map(task, Sublist(inputs, w, i))
  {
    var sent := m.input.value.inputs;
    SubsetBalanced(|inputs|, w, i);
    received := RunInputOutputWorker(task, readIn, writeIn, fitsIn, readOut, writeOut, fitsOut,
                                     sent, a, m.output.value.batchSize);
  }

  /** `run(IOWorker, inputs, numWorkers)` end to end. Worker `i` is started
      from its launch string. When the jar path and the worker class hold
      no whitespace, the inputs fit the input sender and the task's
      results fit the output sender, the run returns the task applied to
      each input, in input order. */
  method RunInputOutput<I(!new), O(!new)>(entries: seq<string>, workerJar: string, workerClass: string,
                                          task: I -> O,
                                          readIn: Reader<I>, writeIn: Writer<I>, fitsIn: I -> bool,
                                          readOut: Reader<O>, writeOut: Writer<O>, fitsOut: O -> bool,
                                          inputs: seq<I>, w: int, minPort: int) returns (r: Result<seq<O>, Exception>)
    requires RoundTrips(readIn, writeIn, fitsIn) && RoundTrips(readOut, writeOut, fitsOut)
    requires forall k :: 0 <= k < |inputs| ==> fitsIn(inputs[k]) && fitsOut(task(inputs[k]))
    ensures w < 0 ==> r == Failure(IllegalArgument)
    ensures w >= 0 && !JarDeclares(entries, IO_WORKER_MAIN) ==> r == Failure(ClassNotFound(IO_WORKER_MAIN))
    ensures w == 0 && JarDeclares(entries, IO_WORKER_MAIN) ==> r == Failure(IndexOutOfBounds(0))
    ensures w >= 1 && JarDeclares(entries, IO_WORKER_MAIN) ==> r.Success?
    ensures w >= 1 && JarDeclares(entries, IO_WORKER_MAIN) && IsWord(workerJar) && IsWord(workerClass) ==>
              r == Success(Map(task, inputs))
  {
    var managers := PlanIOManagers(inputs, w, minPort);
    if managers.Failure? {
      return Failure(managers.error);
    }
    var launches := RunInternal(entries, workerJar, IO_WORKER_MAIN, workerClass, |inputs|, w, minPort);
    if launches.Failure? {
      return Failure(launches.error);
    }
    ghost var words := IsWord(workerJar) && IsWord(workerClass);
    var outputs: seq<seq<O>> := [];
    for i := 0 to w
      invariant |outputs| == i
      invariant words ==> forall j :: 0 <= j < i ==> outputs[j] == Map(task, Sublist(inputs, w, j))
    {
      var received := RunInputOutputShare(task, readIn, writeIn, fitsIn, readOut, writeOut, fitsOut,
                                          inputs, w, minPort, workerJar, workerClass, i,
                                          managers.value[i], launches.value[i]);
      outputs := outputs + [received];
    }
    r := AggregateOutputs(outputs);
    if words && w >= 1 {
      var parts := Sublists(inputs, w);
      assert outputs == seq(|parts|, i requires 0 <= i < |parts| => Map(task, parts[i]));
      MapConcat(task, parts);
      SublistsConcat(inputs, w);
    }
  }

  /** `run(IWorker, inputs, numWorkers)`: nothing is returned; it fails
      for a negative worker count or a jar without the worker's main
      class, and otherwise plans one input server per worker. */
  method RunInputOnly<I>(entries: seq<string>, workerJar: string, workerClass: string,
                         inputs: seq<I>, w: int, minPort: int) returns (r: Outcome<Exception>)
    ensures w < 0 ==> r == Fail(IllegalArgument)
    ensures w >= 0 && !JarDeclares(entries, I_WORKER_MAIN) ==> r == Fail(ClassNotFound(I_WORKER_MAIN))
    ensures w >= 0 && JarDeclares(entries, I_WORKER_MAIN) ==> r == Pass
  {
    var managers := PlanIManagers(inputs, w, minPort);
    if managers.Failure? {
      return Fail(managers.error);
    }
    var launches := RunInternal(entries, workerJar, I_WORKER_MAIN, workerClass, |inputs|, w, minPort);
    if launches.Failure? {
      return Fail(launches.error);
    }
    return Pass;
  }

  /** `run(AutoWorker, numIterations, numWorkers)`: there are no managers,
      so the main class is checked first and a negative worker count only
      fails when the process array is created. */
  method RunAuto(entries: seq<string>, workerJar: string, workerClass: string,
                 n: int, w: int, minPort: int) returns (r: Outcome<Exception>)
    ensures !JarDeclares(entries, AUTO_WORKER_MAIN) ==> r == Fail(ClassNotFound(AUTO_WORKER_MAIN))
    ensures JarDeclares(entries, AUTO_WORKER_MAIN) && w < 0 ==> r == Fail(NegativeArraySize(w))
    ensures JarDeclares(entries, AUTO_WORKER_MAIN) && w >= 0 ==> r == Pass
  {
    var launches := RunInternal(entries, workerJar, AUTO_WORKER_MAIN, workerClass, n, w, minPort);
    if launches.Failure? {
      return Fail(launches.error);
    }
    return Pass;
  }
}
