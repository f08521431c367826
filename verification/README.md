# ParSPICE core in Dafny

ParSPICE runs one Java task many times in parallel. A controller splits
`numIterations` task indices, or a list of inputs, among `numWorkers`
worker processes. It launches each worker with its index range on the
command line. Inputs are sent over one socket per worker, and the results
come back over a second one. The controller collects the results and joins
them in worker order.

This project models the parts of that design that are pure logic:

- **Partition arithmetic.** The share formula `subset`, the running-sum
  start indices, the input sublists, the port pairs `minPort + 2i` /
  `minPort + 2i + 1`, and the argument tuple each worker is launched with.
- **Wire format.** The format of the two array senders (`CharArraySender`,
  `IntArraySender`), over the big-endian `writeInt`/`writeChar` encoding of
  `java.io.DataOutput`. This includes the dynamic mode, chosen by the
  sentinel length `-1`, which adds an `int` length prefix.
- **Worker loops.** The worker-side `taskWrapper` loops of the two job
  kinds, read as stream transformers.
- **Collection and aggregation.** The output collector
  (`NoInputSocketManager.sendAndReceive`): a bounded decode loop that keeps
  the prefix it read when the stream fails. Also both aggregation routines,
  which join the per-worker lists in worker order.
- **Launch checks.** The string checks before a launch: the `.jar` suffix
  test, and the mapping from jar entry names to class names. Also the
  launch command string and how `Runtime.exec(String)` splits it.
- **Whole runs.** Whole runs of the `ParSPICE.run` overloads and of the
  `job.OJob`/`job.IOJob` API. Workers and collectors run one after another
  instead of concurrently.

The headline theorems are `Pipeline.RunOutputOnly` and
`Pipeline.RunInputOutput`. Take a jar that declares the worker's main
class, a jar path and worker class with no whitespace, and task values
that fit the chosen senders. A run over `w >= 1` workers then returns one
of two results:

- `task(0), …, task(n - 1)` for an output-only run;
- `task` applied to every input, in input order, for an input+output run.

The modules:

| module | file | what it holds |
|---|---|---|
| `Wrappers`, `Exceptions` | wrappers.dfy | `Option`, `Result`, `Outcome`; the Java exceptions the core can raise |
| `JavaInt` | java_int.dfy | `int32`, `jchar`, `byte`; Java's truncating `/` and `%`; 32-bit wrap-around |
| `DataStream` | data_stream.dfy | `writeInt`/`readInt`, `writeChar`/`readChar` on byte sequences |
| `SenderContract` | sender_contract.dfy | what a `Sender` must satisfy; encoding and decoding several values in a row |
| `CharArraySender`, `IntArraySender` | char_array_sender.dfy, int_array_sender.dfy | the two array senders |
| `Seqs` | seqs.dfy | concatenation of a list of lists, and `map` |
| `Partition` | partition.dfy | `subset`, start indices, task ownership, input sublists, ports |
| `Worker` | worker.dfy | the two `taskWrapper` loops |
| `Collector` | collector.dfy | `sendAndReceive` |
| `Aggregate` | aggregate.dfy | `aggregateOutputs` and the aggregation in `worker.OJob.run` |
| `Launch` | launch.dfy | `checkJar`, `checkMainClass`, the worker command line |
| `Controller` | controller.dfy | the manager-planning loops of the `run` overloads and `runInternal` |
| `Jobs` | jobs.dfy | `job.OJob` and `job.IOJob`: `init`, `run`'s planning loop |
| `Pipeline` | pipeline.dfy | whole runs of the four `run` overloads |
| `Examples` | examples.dfy | the repository's own test and benchmark scenarios |

## Model

| member | source | states |
|---|---|---|
| JavaInt.JavaDiv | src/main/java/parspice/ParSPICE.java:265 | Java's `/` on `int`: it agrees with floor division for non-negative operands, and the quotient times the divisor plus the Java remainder gives back the dividend |
| JavaInt.JavaRem | src/main/java/parspice/ParSPICE.java:265 | Java's `%`: the remainder takes the sign of the dividend and is smaller in magnitude than the divisor |
| JavaInt.Wrap32 | src/test/java/parspiceTest/worker/TestIOWorker.java:26-28 | Java `int` arithmetic: the result is congruent to the exact value modulo 2^32 and equals it when the exact value is in range |
| DataStream.ReadInt | src/main/java/parspice/sender/IntArraySender.java:41-45 | `readInt` fails with end-of-stream exactly when fewer than four bytes remain, and otherwise consumes exactly four bytes |
| DataStream.ReadChar | src/main/java/parspice/sender/CharArraySender.java:47-49 | `readChar` fails with end-of-stream exactly when fewer than two bytes remain, and otherwise consumes exactly two bytes |
| DataStream.ReadWriteInt | src/main/java/parspice/sender/IntArraySender.java:38-57 | reading an `int` back after writing it yields the same value and leaves the rest of the stream untouched |
| DataStream.WriteReadInt | src/main/java/parspice/sender/IntArraySender.java:38-57 | any four bytes decode to an `int` whose encoding is those four bytes: the encoding is onto |
| DataStream.ReadWriteChar | src/main/java/parspice/sender/CharArraySender.java:41-61 | reading a `char` back after writing it yields the same value and leaves the rest untouched |
| DataStream.WriteReadChar | src/main/java/parspice/sender/CharArraySender.java:41-61 | any two bytes decode to a `char` whose encoding is those two bytes |
| SenderContract.DecodeEncodeAll | implementation/src/main/java/parspice/socketManager/NoInputSocketManager.java:33-35 | reading `k` values from a stream holding the encodings of `k` values in a row gives those values in order, with nothing consumed past them |
| SenderContract.DecodeTruncated | implementation/src/main/java/parspice/socketManager/NoInputSocketManager.java:33-40 | when the stream ends after fewer values than asked for, exactly the values before the break are returned, with the reader's error |
| SenderContract.DecodeManyPrefix | implementation/src/main/java/parspice/socketManager/NoInputSocketManager.java:33-35 | asking for more values never changes the ones already read: a shorter batch is a prefix of a longer one |
| SenderContract.DecodeMany | implementation/src/main/java/parspice/socketManager/NoInputSocketManager.java:33-35 | a batch never holds more than the number asked for, and it reports no failure exactly when it is full |
| CharArraySender.NewDynamic | src/main/java/parspice/sender/CharArraySender.java:27-29 | the no-argument constructor selects dynamic mode, in which every array can be sent |
| CharArraySender.NewFixed | src/main/java/parspice/sender/CharArraySender.java:36-38 | the one-argument constructor is dynamic exactly for `-1`; otherwise only arrays of the declared length round-trip |
| CharArraySender.Write | src/main/java/parspice/sender/CharArraySender.java:53-61 | the encoding takes two bytes per char, plus a four-byte length prefix in dynamic mode only |
| CharArraySender.ReadChars | src/main/java/parspice/sender/CharArraySender.java:46-50 | reading `k` chars fails exactly when fewer than `2k` bytes remain; otherwise it returns `k` chars whose encoding is exactly the bytes consumed |
| CharArraySender.ReadBody | src/main/java/parspice/sender/CharArraySender.java:46-50 | a negative length throws `NegativeArraySizeException`, which is not an `IOException`; a length `k >= 0` succeeds exactly when `2k` bytes remain, failing with end-of-stream otherwise, and returns `k` chars whose encoding is the bytes consumed |
| CharArraySender.Read | src/main/java/parspice/sender/CharArraySender.java:40-51 | fixed mode succeeds exactly when `2·length` bytes remain; dynamic mode fails on a short prefix; every successful read returns an array the sender fits, and the bytes consumed are exactly that array's encoding |
| CharArraySender.ReadWriteChars | src/main/java/parspice/sender/CharArraySender.java:47-49 | `k` chars written and read back come out unchanged, leaving the rest |
| CharArraySender.RoundTripDynamic | src/main/java/parspice/sender/CharArraySender.java:40-61 | in dynamic mode every array written and read back comes out unchanged, leaving the rest of the stream |
| CharArraySender.RoundTrip | src/main/java/parspice/sender/CharArraySender.java:13-15 | in either mode every array the sender fits (any array when dynamic; the declared length when fixed) round-trips |
| CharArraySender.ReadIff | src/main/java/parspice/sender/CharArraySender.java:40-61 | `read` returns `a` with leftover `rest` if and only if the stream is `write(a)` followed by `rest` and the sender fits `a` |
| CharArraySender.ReadTwice | src/main/java/parspice/sender/CharArraySender.java:40-61 | two arrays written back to back are read back in the same order |
| CharArraySender.IsSender | src/main/java/parspice/sender/CharArraySender.java:21 | the sender meets the `Sender` round-trip contract |
| IntArraySender.NewDynamic | src/main/java/parspice/sender/IntArraySender.java:24-26 | the no-argument constructor selects dynamic mode, in which every array can be sent |
| IntArraySender.NewFixed | src/main/java/parspice/sender/IntArraySender.java:33-35 | the one-argument constructor is dynamic exactly for `-1`; otherwise only arrays of the declared length round-trip |
| IntArraySender.Write | src/main/java/parspice/sender/IntArraySender.java:50-58 | the encoding takes four bytes per element, plus a four-byte length prefix in dynamic mode only |
| IntArraySender.ReadInts | src/main/java/parspice/sender/IntArraySender.java:43-47 | reading `k` ints fails exactly when fewer than `4k` bytes remain; otherwise it returns `k` ints whose encoding is exactly the bytes consumed |
| IntArraySender.ReadBody | src/main/java/parspice/sender/IntArraySender.java:43-47 | a negative length throws `NegativeArraySizeException`, which is not an `IOException`; a length `k >= 0` succeeds exactly when `4k` bytes remain, failing with end-of-stream otherwise, and returns `k` ints whose encoding is the bytes consumed |
| IntArraySender.Read | src/main/java/parspice/sender/IntArraySender.java:37-48 | fixed mode succeeds exactly when `4·length` bytes remain; dynamic mode fails on a short prefix; every successful read returns an array the sender fits, and the bytes consumed are exactly that array's encoding |
| IntArraySender.ReadWriteInts | src/main/java/parspice/sender/IntArraySender.java:44-46 | `k` ints written and read back come out unchanged, leaving the rest |
| IntArraySender.RoundTripDynamic | src/main/java/parspice/sender/IntArraySender.java:37-58 | in dynamic mode every array written and read back comes out unchanged, leaving the rest of the stream |
| IntArraySender.RoundTrip | src/main/java/parspice/sender/IntArraySender.java:10-12 | in either mode every array the sender fits round-trips |
| IntArraySender.ReadIff | src/main/java/parspice/sender/IntArraySender.java:37-58 | `read` returns `a` with leftover `rest` if and only if the stream is `write(a)` followed by `rest` and the sender fits `a` |
| IntArraySender.ReadTwice | src/main/java/parspice/sender/IntArraySender.java:37-58 | two arrays written back to back are read back in the same order |
| IntArraySender.IsSender | src/main/java/parspice/sender/IntArraySender.java:18 | the sender meets the `Sender` round-trip contract |
| Partition.StartClosedForm | src/main/java/parspice/ParSPICE.java:186-198 | the running `iteration` before worker `i` equals `i·(n/w) + min(i, n%w)` |
| Partition.SubsetBalanced | src/main/java/parspice/ParSPICE.java:252-266 | each share is `n/w` or `n/w + 1`, and it is `n/w + 1` exactly for the first `n%w` workers |
| Partition.SubsetOfNegative | src/main/java/parspice/ParSPICE.java:264-266 | a negative task count gives no worker a positive share |
| Partition.SubsetNonIncreasing | src/main/java/parspice/ParSPICE.java:255-257 | shares never grow with the worker index and differ by at most one |
| Partition.SharesSumToTotal | src/main/java/parspice/ParSPICE.java:252-266 | the shares of all workers add up to the number of tasks |
| Partition.StartMonotone | src/main/java/parspice/ParSPICE.java:186-198 | the first task index never decreases with the worker index |
| Partition.StartBounds | src/main/java/parspice/ParSPICE.java:186-198 | every first task index lies in `[0, n]` |
| Partition.RangesDisjoint | src/main/java/parspice/ParSPICE.java:186-198 | a worker's range ends at or before any later worker's range starts |
| Partition.OwnerFrom | src/main/java/parspice/ParSPICE.java:186-198 | every task at or past worker `i`'s start lies in the range of some worker `i` or later |
| Partition.Owner | src/main/java/parspice/ParSPICE.java:186-198 | every task in `[0, n)` lies in some worker's range |
| Partition.OwnerUnique | src/main/java/parspice/ParSPICE.java:186-198 | a task lies in worker `i`'s range if and only if `i` is its owner, so no task runs twice |
| Partition.Sublist | src/main/java/parspice/ParSPICE.java:78 | worker `i`'s input sublist has its share's length and holds the inputs starting at its first task index |
| Partition.SublistsPrefix | src/main/java/parspice/ParSPICE.java:73-83 | the sublists of the first `m` workers, joined, are the inputs before worker `m`'s first index |
| Partition.SublistsConcat | src/main/java/parspice/ParSPICE.java:73-83 | joining every worker's sublist in worker order gives back the inputs |
| Partition.WorkerIndicesAreSublist | src/main/java/parspice/ParSPICE.java:186-198 | a worker's index range is its slice of `[0, n)`, sliced exactly as the inputs are |
| Partition.IndicesConcat | src/main/java/parspice/ParSPICE.java:186-198 | the workers' index ranges, joined in worker order, are `0, …, n - 1` |
| Partition.PortsDistinct | src/main/java/parspice/ParSPICE.java:78-79 | all `2w` ports of a run are pairwise distinct and lie in `[minPort, minPort + 2w)` |
| Partition.PortsCover | src/main/java/parspice/ParSPICE.java:78-79 | every port in `[minPort, minPort + 2w)` is some worker's input or output port |
| Worker.OutputTaskLoop | src/main/java/parspice/job/OJob.java:124-129 | the output stream holds the encodings of `task(s), …, task(s + c - 1)` in index order, and nothing else |
| Worker.InputOutputTaskLoop | src/main/java/parspice/job/IOJob.java:107-112 | the loop reads at most `c` inputs; the `k`-th value written is `task` of the `k`-th input read; a failed read stops it with what was written so far |
| Collector.SendAndReceive | implementation/src/main/java/parspice/socketManager/NoInputSocketManager.java:30-41 | the outputs never exceed the batch size; they are exactly the values decodable in order; a completed run holds the full batch; an `IOException` is swallowed and reports the count read; other exceptions are not caught |
| Aggregate.ConcatSlice | src/main/java/parspice/ParSPICE.java:268-275 | each worker's list appears intact in the joined result, right after the lists of the workers before it |
| Aggregate.ConcatOrder | src/main/java/parspice/ParSPICE.java:268-275 | the joined result is the lists laid end to end in worker order |
| Aggregate.AggregateOutputs | src/main/java/parspice/ParSPICE.java:268-275 | with no managers `get(0)` throws; otherwise the result is the lists laid end to end in worker order |
| Aggregate.SharePrefixLength | src/main/java/parspice/ParSPICE.java:268-275 | when every list holds its worker's share, the first `m` lists hold exactly the tasks before worker `m` |
| Aggregate.AggregateLength | src/main/java/parspice/ParSPICE.java:268-275 | when every collector completed, the aggregate has `numIterations` values |
| Aggregate.CollectResults | src/main/java/parspice/worker/OJob.java:29-41 | no managers throws; a `null` first list returns `null`; a `null` later list throws; otherwise the lists are joined in manager order |
| Launch.CheckJar | src/main/java/parspice/ParSPICE.java:216-225 | the jar passes if and only if its name is at least four characters, ends in `.jar` and the file exists; each other case raises its own exception |
| Launch.CheckJarOfStem | src/main/java/parspice/ParSPICE.java:216-225 | every existing `stem.jar` passes, a missing one throws `FileNotFoundException`, and any name that passes is a stem followed by `.jar` |
| Launch.ClassNameOfEntry | src/main/java/parspice/ParSPICE.java:238-249 | the corrected mapping turns the entry name of any class back into that class's name |
| Launch.ClassNameAsWrittenDropsInnerClass | src/main/java/parspice/ParSPICE.java:241-243 | the mapping as written turns `a/classy/B.class` into `ay.B`, not `a.classy.B` |
| Launch.CheckMainClass | src/main/java/parspice/ParSPICE.java:235-250 | with the mapping as written, the check passes if and only if some `.class` entry of the jar maps to the main class; otherwise it throws `ClassNotFoundException` naming that class |
| Launch.CheckMainClassIntended | src/main/java/parspice/ParSPICE.java:235-250 | with only the `.class` suffix stripped, the check passes if and only if some `.class` entry names the main class, so a jar storing the class under its entry name always passes; otherwise it throws `ClassNotFoundException` |
| Launch.RemoveAllTrailing | src/main/java/parspice/ParSPICE.java:242 | when `.class` occurs nowhere before a final `.class`, removing every occurrence removes just that suffix |
| Launch.PlainEntryDeclares | src/main/java/parspice/ParSPICE.java:238-249 | for a class name without `/` and without `.c`, both mappings read its entry back, so both checks find the class in a jar that stores it |
| Launch.NatToStringValue | src/main/java/parspice/ParSPICE.java:189-196 | the decimal rendering of a natural number reads back as that number |
| Launch.IntToStringParses | src/main/java/parspice/ParSPICE.java:189-196 | every integer put on the command line parses back as the same integer |
| Launch.WordLength | src/main/java/parspice/ParSPICE.java:197 | the first token is the longest prefix free of whitespace |
| Launch.TokenizeJoin | src/main/java/parspice/ParSPICE.java:197 | splitting words joined by single spaces gives the words back when none holds whitespace |
| Launch.ArgvFields | src/main/java/parspice/ParSPICE.java:189-196 | the argument vector has ten entries, and the jar, main class, worker class, port, first index, share and worker index each sit at a fixed position and read back unchanged |
| Launch.CommandLineJoinsArgv | src/main/java/parspice/ParSPICE.java:189-197 | the command string is the argument vector joined by single spaces |
| Launch.CommandLineTokens | src/main/java/parspice/ParSPICE.java:189-197 | when the jar path and class names hold no whitespace, the command string splits back into exactly the argument vector |
| Launch.SpaceInJarPathShiftsArguments | src/main/java/parspice/ParSPICE.java:189-197 | a jar path with a space passes `checkJar` but splits into two arguments, so the worker receives eleven arguments and the wrong main class |
| Launch.LaunchedArgsOfCommandLine | src/main/java/parspice/ParSPICE.java:189-197 | when the jar path and class names hold no whitespace, a worker started from the command string receives exactly its planned fields |
| Launch.SpaceInJarPathNotLaunched | src/main/java/parspice/ParSPICE.java:189-197 | a jar path with one space leaves the worker started from the command string without a run |
| Launch.LaunchedArgsOfArgv | src/main/java/parspice/ParSPICE.java:189-196 | handing over the argument array itself delivers every worker its planned fields, whatever characters they hold |
| Controller.RunningSumStep | src/main/java/parspice/ParSPICE.java:74-83 | adding worker `i`'s share to the running sum gives worker `i + 1`'s start, and it stays within `[0, n]` |
| Controller.PlanIOManagers | src/main/java/parspice/ParSPICE.java:63-87 | a negative worker count throws; otherwise worker `i` gets its input sublist on port `minPort + 2i` and an output server for its share on the next port |
| Controller.PlanOManagers | src/main/java/parspice/ParSPICE.java:101-121 | a negative worker count throws; otherwise worker `i` gets no input server and an output server for its share on port `minPort + 2i + 1` |
| Controller.PlanIManagers | src/main/java/parspice/ParSPICE.java:132-153 | a negative worker count throws; otherwise worker `i` gets its input sublist on port `minPort + 2i` and no output server |
| Controller.InputServersPartition | src/main/java/parspice/ParSPICE.java:73-83 | the input servers' lists, joined in worker order, are the inputs, and each output server expects as many values as its input server sends |
| Controller.ServerPortsDistinct | src/main/java/parspice/ParSPICE.java:78-79 | no two servers of a run listen on the same port |
| Controller.PlanLaunches | src/main/java/parspice/ParSPICE.java:185-199 | a negative worker count fails creating the process array; otherwise worker `i` is launched with its port, the running-sum first index, its share and its index |
| Controller.RunInternal | src/main/java/parspice/ParSPICE.java:178-199 | nothing is launched unless some jar entry maps to the main class, by the mapping as written; otherwise a negative worker count fails and any other count gives the launches of the launch loop |
| Controller.LaunchMatchesManager | src/main/java/parspice/ParSPICE.java:63-87 | the `i`-th launched worker connects to the `i`-th manager's two ports, and its range holds exactly the inputs that manager sends and as many tasks as it collects |
| Controller.LaunchesCoverTasks | src/main/java/parspice/ParSPICE.java:185-199 | every task index is in the launch range of exactly one worker |
| Jobs.OJobManagers | src/main/java/parspice/job/OJob.java:87-103 | a negative worker count throws; otherwise worker `i` gets no input server and an output server for its share on port `minPort + 2i + 1` |
| Jobs.OJobCollectsAllTasks | src/main/java/parspice/job/OJob.java:71-98 | after `init(w, n)` the output servers of `run` expect `n` values between them, none a negative count |
| Jobs.EncodeAllConcat | src/main/java/parspice/job/OJob.java:124-129 | the workers' streams joined in order are the encoding of their joined values |
| Jobs.WorkerResultsConcat | src/main/java/parspice/job/OJob.java:93-98 | the workers' results, joined in worker order, are `task(0), …, task(n - 1)` |
| Jobs.OJobStreamsConcat | src/main/java/parspice/job/OJob.java:93-129 | the `taskWrapper` streams of all workers, joined in worker order, encode `task(0), …, task(n - 1)` |
| Jobs.InitIOJob | src/main/java/parspice/job/IOJob.java:48-56 | the worker count and the input list are recorded in every case; a `null` list then throws `NullPointerException`, and otherwise the call returns with the task count equal to the number of inputs |
| Jobs.InitNullThenRun | src/main/java/parspice/job/IOJob.java:48-68 | after `init` threw on a `null` list, `run` throws `IllegalStateException` before building any manager, whatever inputs the job held before |
| Jobs.IOJobManagers | src/main/java/parspice/job/IOJob.java:65-86 | a job without inputs throws `IllegalStateException` before any manager exists; a negative worker count throws; otherwise worker `i` gets its input slice on port `minPort + 2i` and an output server for as many values on the next port |
| Jobs.IOJobInitThenRun | src/main/java/parspice/job/IOJob.java:48-81 | after a successful `init`, the job's input servers match the controller's and hand out every input once, in order |
| Pipeline.StoredWorkerMainDeclared | src/main/java/parspice/ParSPICE.java:235-250 | a jar storing one of the four worker main classes under its entry name passes both the check as written and the corrected one |
| Pipeline.WorkerLaunched | src/main/java/parspice/ParSPICE.java:189-197 | a worker with one of the four main classes and a whitespace-free jar path and worker class receives exactly its planned fields |
| Pipeline.RunOutputWorker | src/main/java/parspice/job/OJob.java:124-129 | a worker that could not start leaves its collector empty; one started intact with the collector's batch size as its share delivers exactly the results of its index range |
| Pipeline.RunOutputOnly | src/main/java/parspice/ParSPICE.java:101-121 | a negative worker count, a missing main class and zero workers each raise their exception; otherwise the run returns, and with a whitespace-free jar path and worker class it returns `task(0), …, task(n - 1)` in index order |
| Pipeline.RunInputOutputWorker | src/main/java/parspice/job/IOJob.java:107-112 | a worker that could not start leaves its collector empty; one started intact whose share is both the number of inputs sent and the batch size delivers `task` of every input sent, in order |
| Pipeline.RunInputOutputShare | src/main/java/parspice/ParSPICE.java:63-87 | worker `i`, served by its planned manager and started from its planned launch, delivers `task` of its input sublist when the jar path and worker class hold no whitespace |
| Pipeline.RunInputOutput | src/main/java/parspice/ParSPICE.java:63-87 | a negative worker count, a missing main class and zero workers each raise their exception; otherwise the run returns, and with a whitespace-free jar path and worker class it returns `task` applied to every input, in input order |
| Pipeline.RunInputOnly | src/main/java/parspice/ParSPICE.java:132-153 | a negative worker count or a missing main class raise their exceptions; otherwise the run completes |
| Pipeline.RunAuto | src/main/java/parspice/ParSPICE.java:165-173 | a missing main class is reported first; then a negative worker count fails creating the process array; otherwise the run completes |
| Examples.TenTasksOverThreeWorkers | src/main/java/parspice/ParSPICE.java:264-266 | ten tasks over three workers give shares 4, 3, 3 starting at 0, 4, 7 |
| Examples.IntRoundTrips | src/test/java/parspiceTest/worker/TestIOWorker.java:22 | an `int` written and read back round-trips, so `Integer` values can be sent |
| Examples.DoublingJob | src/test/java/parspiceTest/worker/TestIOWorker.java:26-50 | doubling `0, 2, …, 18` over two workers returns `0, 4, …, 36` in order |
| Examples.LargeOutputWorkerFits | src/bench/kotlin/parspiceBench/workers/LargeOutputWorker.kt:6-24 | the benchmark's fixed sender of length 300 is not dynamic, satisfies the round-trip contract, and fits every array the task returns |
| Examples.LargeOutputRun | src/bench/kotlin/parspiceBench/workers/LargeOutputWorker.kt:8-24 | an output-only run of the benchmark task returns its arrays in index order |
| Examples.TenTasksTwoWorkers | src/test/java/parspiceTest/sender/TestBooleanArraySender.java:36-53 | an output-only job of ten tasks over two workers returns ten values, each the task's result for its index |
| Examples.ConnectionLostAfterThree | implementation/src/main/java/parspice/socketManager/NoInputSocketManager.java:33-40 | a collector expecting five ints whose stream ends after three keeps those three, in order, and reports the end of the stream |

## Left out

- Sockets, threads, processes: the `IOManager` threads, `Runtime.exec` and `waitFor`, and the connection set-up and tear-down of the jobs are operating-system effects. Workers and collectors run one after another, and a worker's output stream is handed to its collector as a byte sequence.
- `ObjectOutputStream`/`ObjectInputStream` block framing and serialisation headers are not modelled; the stream is the bare `DataOutput` encoding.
- File-system and jar access: `File.exists` becomes a boolean parameter of `Launch.CheckJar`, and the entry list of the jar is a given sequence of names. Failures to open the jar are not modelled.
- `Job`, `validate()`, `IServer`, `OServer`, `SocketManager`, `IntSender` and `BooleanArraySender` are not part of this model. Several assumptions stand in for them:
  - `taskSubset` uses the `subset` formula;
  - a collector's `outputs` list starts empty;
  - an input server writes its sublist as consecutive encodings;
  - `IntSender` writes one `int`;
  - `validate()` accepts any job.
- Worker `main` and its argument parsing are not part of this model. `Launch.LaunchedArgs` stands in for them: the JVM takes the class path and main class from tokens 3 and 4 of the split command, and the worker reads its class and four numbers from tokens 5 to 9. Any other token count, or a number that does not parse, is taken to leave the worker without a run.
- `DoubleMatrixSender`, `SquareWorker` and all floating-point work are not modelled.
- `close()` failures on streams and sockets are not modelled.
- User `task` and `setup` bodies are uninterpreted functions. Exceptions thrown by a user task are not modelled.
- Console logging and the benchmark harness are not modelled.
- Controller.PlanLaunches: ports `minPort + 2i` and the running `iteration` are unbounded integers; the 32-bit overflow Java would hit for ports or task counts near `2^31` is not modelled.
- Worker.OutputTaskLoop: the loop bound `getStartIndex() + getTaskSubset()` is computed without 32-bit overflow.
- Aggregate.AggregateOutputs: the Java result is manager 0's own list, extended in place; that aliasing is not modelled, only the returned contents.
- Collector.SendAndReceive: the `outputs` list is taken to be empty when the collector starts, since `SocketManager` is not part of this model.
- Jobs.OJobManagers: `taskSubset` from `Job` is taken to be the `subset` formula of the controller.
- Pipeline.RunInputOnly: input-only and automatic runs return nothing, so only their error cases are stated here. The servers and launches they plan are stated by `Controller.PlanIManagers` and `Controller.PlanLaunches`. What the workers do is not modelled.
- Pipeline.RunOutputOnly: a worker that cannot start, such as one launched with a jar path holding a space, is modelled as a collector whose connection fails with nothing read. What the Java collector does while waiting for a worker that never connects depends on `SocketManager`, which is not part of this model. The result is stated only for a jar path and worker class free of whitespace. Otherwise the run is only said to return.
- Pipeline.RunInputOutput: the same two limits as `Pipeline.RunOutputOnly` apply to workers that cannot start and to jar paths or worker classes holding whitespace.
- Launch.CheckJar: Java's `length()` and `substring` count UTF-16 code units, but a Dafny `string` is a sequence of Unicode scalar values. A name with characters outside the Basic Multilingual Plane therefore has a different length here. For example, a name made of two emoji is four units long in Java and two characters long here. Java takes the whole name as the extension and throws `IOException`, while the model throws `StringIndexOutOfBoundsException`. For names in the Basic Multilingual Plane the two agree.
- Jobs.InitIOJob: the job keeps the caller's `List` object in Java, so a caller that changes the list after `init` leaves `numTasks` stale against the list `run` slices. The model holds the inputs as a value, and its task count is always their size. After a `null` list Java also keeps the previous `numTasks`, while the model's count is 0. `run` rejects such a job before reading the count, so the difference cannot be observed.

## Findings

| source | as written | input that shows it | evidently intended | confidence | as-written member | corrected member |
|---|---|---|---|---|---|---|
| src/main/java/parspice/ParSPICE.java:241-243 | after `/` becomes `.`, every occurrence of `.class` is removed, anywhere in the name | main class `a.classy.B` stored as entry `a/classy/B.class` maps to `ay.B`, so `checkMainClass` throws `ClassNotFoundException` | strip only the trailing `.class` suffix | high; not executed | Launch.ClassNameAsWrittenDropsInnerClass | Launch.CheckMainClassIntended |
| src/main/java/parspice/ParSPICE.java:189-197 | the launch arguments are joined into one string for `Runtime.exec(String)`, which splits it at whitespace | jar path `my jobs/w.jar` passes `checkJar`, but the worker gets eleven arguments with `jobs/w.jar` as its main class | pass each field as one argument, as `exec(String[])` would | medium; not executed | Launch.SpaceInJarPathNotLaunched | Launch.LaunchedArgsOfArgv |
