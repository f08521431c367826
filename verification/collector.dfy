/**
 * The controller-side output collector of one worker
 * (NoInputSocketManager.sendAndReceive): it reads up to `batchSize` values
 * from the worker's connection and appends each, in arrival order, to its
 * output list, which starts empty. An IOException stops the loop, is logged
 * with the number of values collected so far and is not propagated; the
 * values read before it stay in the list.
 */
module Collector {
  import opened Wrappers
  import opened Exceptions
  import opened JavaInt
  import opened DataStream
  import opened SenderContract

  /** How the collector's run ended. */
  datatype Status =
    | Completed
      /** The IOException was caught and logged as "Socket Manager
          `workerIndex` failed after `collected`". */
    | FailedAfter(workerIndex: int, collected: nat, cause: Exception)
      /** A non-IO exception (a negative array length read off the wire)
          escapes the catch block and ends the thread. */
    | Crashed(cause: Exception)

  /** `sendAndReceive()`. `connection` is the bytes the worker's connection
      delivers before it closes, or `None` when `getInputStream()` itself
      threw an IOException. */
  method SendAndReceive<O>(read: Reader<O>, connection: Option<seq<byte>>,
                           workerIndex: int, batchSize: int)
    returns (outputs: seq<O>, status: Status)
    ensures |outputs| <= Max0(batchSize)
    ensures status.Completed? ==> |outputs| == Max0(batchSize)
    ensures status.FailedAfter? ==> status.collected == |outputs|
    ensures status.FailedAfter? && connection.Some? ==> |outputs| < batchSize
    ensures status.FailedAfter? ==> status.workerIndex == workerIndex && status.cause.IsIOException()
    ensures connection.None? ==> outputs == [] && status == FailedAfter(workerIndex, 0, ConnectionFailed)
    ensures connection.Some? ==>
              var b := DecodeMany(read, connection.value, Max0(batchSize));
              && outputs == b.values
              && (status.Completed? <==> b.failure.None?)
              && ((b.failure.Some? && b.failure.value.IsIOException()) ==>
                    status == FailedAfter(workerIndex, |outputs|, b.failure.value))
              && ((b.failure.Some? && !b.failure.value.IsIOException()) ==>
                    status == Crashed(b.failure.value))
  {
    outputs := [];
    if connection.None? {
      status := FailedAfter(workerIndex, 0, ConnectionFailed);
      return;
    }
    var s := connection.value;
    var i := 0;
    while i < batchSize
      invariant 0 <= i <= Max0(batchSize)
      invariant |outputs| == i
      invariant DecodeMany(read, connection.value, Max0(batchSize))
                == Prepend(outputs, DecodeMany(read, s, Max0(batchSize) - i))
    {
      var r := read(s);
      if r.Failure? {
        assert outputs + [] == outputs;
        if r.error.IsIOException() {
          status := FailedAfter(workerIndex, |outputs|, r.error);
        } else {
          status := Crashed(r.error);
        }
        return;
      }
      DecodeManyStep(read, outputs, s, Max0(batchSize) - i);
      outputs := outputs + [r.value.value];
      s := r.value.rest;
      i := i + 1;
    }
    assert outputs + [] == outputs;
    status := Completed;
  }
}
