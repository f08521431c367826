/**
 * The Sender contract: a sender is a pair of a writer, which appends the
 * encoding of one value to a stream, and a reader, which decodes one value
 * from the front of a stream. There is no type tag and no envelope, so a
 * sequence of values is sent as the bare concatenation of their encodings.
 */
module SenderContract {
  import opened Wrappers
  import opened Exceptions
  import opened JavaInt
  import opened DataStream

  type Reader<!T> = seq<byte> -> ReadResult<T>
  type Writer<!T> = T -> seq<byte>

  /** The sender round-trips every value `fits` admits, whatever follows it
      on the stream. `fits` is the out-of-band agreement both ends rely on
      (for a fixed-length array sender: the array has the declared length). */
  ghost predicate RoundTrips<T(!new)>(read: Reader<T>, write: Writer<T>, fits: T -> bool)
  {
    forall v, rest :: fits(v) ==> read(write(v) + rest) == Success(Decoded(v, rest))
  }

  /** The stream a writer produces for the values `vs`, in order. */
  function EncodeAll<T>(write: Writer<T>, vs: seq<T>): seq<byte>
  {
    if |vs| == 0 then [] else write(vs[0]) + EncodeAll(write, vs[1..])
  }

  /** Appending one more value appends its encoding. */
  lemma {:induction false} EncodeAllSnoc<T>(write: Writer<T>, vs: seq<T>, v: T)
    ensures EncodeAll(write, vs + [v]) == EncodeAll(write, vs) + write(v)
  {
    if |vs| == 0 {
      assert vs + [v] == [v];
      assert EncodeAll(write, [v]) == write(v) + EncodeAll(write, []);
    } else {
      assert (vs + [v])[1..] == vs[1..] + [v];
      EncodeAllSnoc(write, vs[1..], v);
    }
  }

  /** Encoding a concatenation is the concatenation of the encodings. */
  lemma {:induction false} EncodeAllAppend<T>(write: Writer<T>, vs: seq<T>, ws: seq<T>)
    ensures EncodeAll(write, vs + ws) == EncodeAll(write, vs) + EncodeAll(write, ws)
  {
    if |vs| == 0 {
      assert vs + ws == ws;
    } else {
      assert (vs + ws)[1..] == vs[1..] + ws;
      EncodeAllAppend(write, vs[1..], ws);
    }
  }

  /** What a loop of at most `k` reads produced: the values decoded in
      arrival order, the unread bytes, and the exception that stopped it
      early, if any. */
  datatype Batch<T> = Batch(values: seq<T>, rest: seq<byte>, failure: Option<Exception>)

  /** `k` successive reads from `s`, stopping at the first one that throws.
      It never yields more than `k` values and yields exactly `k` unless a
      read failed. */
  function DecodeMany<T>(read: Reader<T>, s: seq<byte>, k: nat): (b: Batch<T>)
    ensures |b.values| <= k
    ensures b.failure.None? <==> |b.values| == k
    decreases k
  {
    if k == 0 then Batch([], s, None)
    else
      match read(s)
      case Failure(e) => Batch([], s, Some(e))
      case Success(d) =>
        var b := DecodeMany(read, d.rest, k - 1);
        Batch([d.value] + b.values, b.rest, b.failure)
  }

  /** The batch `b` with `vs` read before it. */
  function Prepend<T>(vs: seq<T>, b: Batch<T>): Batch<T>
  {
    Batch(vs + b.values, b.rest, b.failure)
  }

  /** One successful read moves its value from the remaining reads to the
      values already read. */
  lemma DecodeManyStep<T>(read: Reader<T>, vs: seq<T>, s: seq<byte>, k: nat)
    requires k > 0 && read(s).Success?
    ensures Prepend(vs, DecodeMany(read, s, k))
            == Prepend(vs + [read(s).value.value], DecodeMany(read, read(s).value.rest, k - 1))
  {
    var d := read(s).value;
    var b := DecodeMany(read, d.rest, k - 1);
    assert vs + ([d.value] + b.values) == (vs + [d.value]) + b.values;
  }

  /** Reading back `|vs|` values from the encoding of `vs` recovers `vs`
      and leaves whatever followed. */
  lemma {:induction false} DecodeEncodeAll<T(!new)>(read: Reader<T>, write: Writer<T>, fits: T -> bool,
                                               vs: seq<T>, rest: seq<byte>)
    requires RoundTrips(read, write, fits)
    requires forall i :: 0 <= i < |vs| ==> fits(vs[i])
    ensures DecodeMany(read, EncodeAll(write, vs) + rest, |vs|) == Batch(vs, rest, None)
  {
    if |vs| > 0 {
      var tail := EncodeAll(write, vs[1..]) + rest;
      assert EncodeAll(write, vs) + rest == write(vs[0]) + tail;
      assert read(write(vs[0]) + tail) == Success(Decoded(vs[0], tail));
      DecodeEncodeAll(read, write, fits, vs[1..], rest);
      assert [vs[0]] + vs[1..] == vs;
    }
  }

  /** A stream that breaks off after the encodings of `vs`, at a point where
      the next read throws, yields exactly `vs` and that read's exception,
      when more than `|vs|` values were expected. */
  lemma {:induction false} DecodeTruncated<T(!new)>(read: Reader<T>, write: Writer<T>, fits: T -> bool,
                                              vs: seq<T>, tail: seq<byte>, k: nat)
    requires RoundTrips(read, write, fits)
    requires forall i :: 0 <= i < |vs| ==> fits(vs[i])
    requires read(tail).Failure?
    requires |vs| < k
    ensures DecodeMany(read, EncodeAll(write, vs) + tail, k) == Batch(vs, tail, Some(read(tail).error))
  {
    if |vs| > 0 {
      var next := EncodeAll(write, vs[1..]) + tail;
      assert EncodeAll(write, vs) + tail == write(vs[0]) + next;
      assert read(write(vs[0]) + next) == Success(Decoded(vs[0], next));
      DecodeTruncated(read, write, fits, vs[1..], tail, k - 1);
      assert [vs[0]] + vs[1..] == vs;
    } else {
      assert EncodeAll(write, vs) + tail == tail;
    }
  }

  /** Asking for fewer values yields a prefix of what asking for more yields:
      reads happen in arrival order and nothing is dropped from the front. */
  lemma {:induction false} DecodeManyPrefix<T>(read: Reader<T>, s: seq<byte>, k: nat, k': nat)
    requires k <= k'
    ensures DecodeMany(read, s, k).values <= DecodeMany(read, s, k').values
    decreases k
  {
    if k > 0 {
      match read(s)
      case Failure(e) =>
      case Success(d) =>
        DecodeManyPrefix(read, d.rest, k - 1, k' - 1);
    }
  }
}
