/**
 * CharArraySender: sends `char[]` values either with a length agreed at
 * construction (fixed mode, no prefix on the wire) or with each array
 * preceded by its length as an int (dynamic mode, selected by the
 * sentinel length -1).
 */
module CharArraySender {
  import opened Wrappers
  import opened Exceptions
  import opened JavaInt
  import opened DataStream
  import opened SenderContract

  /** A Java `char[]`: at most Integer.MAX_VALUE elements. */
  type CharArray = a: seq<jchar> | |a| <= 0x7FFF_FFFF

  datatype CharArraySender = CharArraySender(length: int32)
  {
    /** The sentinel -1 selects dynamic mode. */
    predicate IsDynamic() {
      length == -1
    }

    /** The arrays this sender is meant to carry: any array in dynamic
        mode, arrays of exactly the declared length in fixed mode. Sending
        any other array is the undefined behaviour the class documents. */
    predicate Fits(a: CharArray) {
      IsDynamic() || |a| == length as int
    }
  }

  /** `new CharArraySender()`. */
  function NewDynamic(): (snd: CharArraySender)
    ensures snd.IsDynamic()
    ensures forall a: CharArray {:trigger snd.Fits(a)} :: snd.Fits(a)
  {
    CharArraySender(-1)
  }

  /** `new CharArraySender(length)`. */
  function NewFixed(length: int32): (snd: CharArraySender)
    ensures snd.IsDynamic() <==> length == -1
    ensures length != -1 ==> forall a: CharArray {:trigger snd.Fits(a)} :: snd.Fits(a) <==> |a| == length as int
  {
    CharArraySender(length)
  }

  /** The element bytes: each char in order, two bytes apiece. */
  function WriteChars(a: seq<jchar>): (bs: seq<byte>)
    ensures |bs| == 2 * |a|
  {
    if |a| == 0 then [] else WriteChar(a[0]) + WriteChars(a[1..])
  }

  /** `write(out, oos)`. */
  function Write(snd: CharArraySender, a: CharArray): (bs: seq<byte>)
    ensures |bs| == 2 * |a| + (if snd.IsDynamic() then 4 else 0)
  {
    (if snd.IsDynamic() then WriteInt(|a| as int32) else []) + WriteChars(a)
  }

  /** The element loop of `read`: `k` successive `readChar` calls. */
  function ReadChars(s: seq<byte>, k: nat): (r: ReadResult<CharArray>)
    requires k <= 0x7FFF_FFFF
    ensures r.Failure? <==> |s| < 2 * k
    ensures r.Failure? ==> r.error == EndOfStream
    ensures r.Success? ==> |r.value.value| == k && s == WriteChars(r.value.value) + r.value.rest
  {
    if k == 0 then Success(Decoded([], s))
    else
      match ReadChar(s)
      case Failure(e) => Failure(e)
      case Success(c) =>
        match ReadChars(c.rest, k - 1)
        case Failure(e) => Failure(e)
        case Success(cs) =>
          WriteReadChar(s);
          assert ([c.value] + cs.value)[1..] == cs.value;
          Success(Decoded([c.value] + cs.value, cs.rest))
  }

  /** `new char[k]` followed by the element loop. */
  function ReadBody(k: int32, s: seq<byte>): (r: ReadResult<CharArray>)
    ensures k < 0 ==> r.Failure? && r.error == NegativeArraySize(k as int) && !r.error.IsIOException()
    ensures k >= 0 ==> (r.Success? <==> |s| >= 2 * k as int)
    ensures k >= 0 && r.Failure? ==> r.error == EndOfStream
    ensures r.Success? ==> |r.value.value| == k as int && s == WriteChars(r.value.value) + r.value.rest
  {
    if k < 0 then Failure(NegativeArraySize(k as int)) else ReadChars(s, k as nat)
  }

  /** `read(ois)`. A successful read consumed exactly the encoding of the
      array it returns, and the array fits the sender's mode. */
  function Read(snd: CharArraySender, s: seq<byte>): (r: ReadResult<CharArray>)
    ensures snd.length < -1 ==> r == Failure(NegativeArraySize(snd.length as int))
    ensures snd.length >= 0 ==> (r.Success? <==> |s| >= 2 * snd.length as int)
    ensures snd.IsDynamic() && |s| < 4 ==> r == Failure(EndOfStream)
    ensures r.Success? ==> snd.Fits(r.value.value) && s == Write(snd, r.value.value) + r.value.rest
  {
    if snd.IsDynamic() then
      match ReadInt(s)
      case Failure(e) => Failure(e)
      case Success(n) =>
        var r := ReadBody(n.value, n.rest);
        WriteReadInt(s);
        assert s == s[..4] + n.rest;
        r
    else ReadBody(snd.length, s)
  }

  /** Reading `|a|` chars back from their bytes recovers them. */
  lemma {:induction false} ReadWriteChars(a: CharArray, rest: seq<byte>)
    ensures ReadChars(WriteChars(a) + rest, |a|) == Success(Decoded(a, rest))
  {
    if |a| > 0 {
      var tail := WriteChars(a[1..]) + rest;
      assert WriteChars(a) + rest == WriteChar(a[0]) + tail;
      ReadWriteChar(a[0], tail);
      ReadWriteChars(a[1..], rest);
      assert [a[0]] + a[1..] == a;
    } else {
      assert WriteChars(a) + rest == rest;
    }
  }

  /** Dynamic mode: the length prefix is read back first, then the chars. */
  lemma RoundTripDynamic(snd: CharArraySender, a: CharArray, rest: seq<byte>)
    requires snd.IsDynamic()
    ensures Read(snd, Write(snd, a) + rest) == Success(Decoded(a, rest))
  {
    var body := WriteChars(a) + rest;
    var n := |a| as int32;
    ReadWriteChars(a, rest);
    ReadWriteInt(n, body);
    assert Write(snd, a) + rest == WriteInt(n) + body;
  }

  /** Round trip: in dynamic mode for every array, in fixed mode for arrays
      of the declared length. */
  lemma RoundTrip(snd: CharArraySender, a: CharArray, rest: seq<byte>)
    requires snd.Fits(a)
    ensures Read(snd, Write(snd, a) + rest) == Success(Decoded(a, rest))
  {
    if snd.IsDynamic() {
      RoundTripDynamic(snd, a, rest);
    } else {
      var s := Write(snd, a) + rest;
      assert s == WriteChars(a) + rest;
      ReadWriteChars(a, rest);
      assert Read(snd, s) == ReadBody(snd.length, s);
    }
  }

  /** A read yields `a` and leaves `rest` exactly when the stream is the
      encoding of `a` followed by `rest` and `a` fits the sender's mode. */
  lemma ReadIff(snd: CharArraySender, s: seq<byte>, a: CharArray, rest: seq<byte>)
    ensures Read(snd, s) == Success(Decoded(a, rest)) <==> snd.Fits(a) && s == Write(snd, a) + rest
  {
    if snd.Fits(a) && s == Write(snd, a) + rest {
      RoundTrip(snd, a, rest);
    }
  }

  /** Two arrays written back to back are read back in order. */
  lemma ReadTwice(snd: CharArraySender, a: CharArray, b: CharArray, rest: seq<byte>)
    requires snd.Fits(a) && snd.Fits(b)
    ensures Read(snd, Write(snd, a) + Write(snd, b) + rest) == Success(Decoded(a, Write(snd, b) + rest))
    ensures Read(snd, Write(snd, b) + rest) == Success(Decoded(b, rest))
  {
    assert Write(snd, a) + Write(snd, b) + rest == Write(snd, a) + (Write(snd, b) + rest);
    RoundTrip(snd, a, Write(snd, b) + rest);
    RoundTrip(snd, b, rest);
  }

  /** The sender satisfies the Sender contract for the arrays that fit it. */
  lemma IsSender(snd: CharArraySender)
    ensures RoundTrips((s: seq<byte>) => Read(snd, s), (a: CharArray) => Write(snd, a),
                       (a: CharArray) => snd.Fits(a))
  {
    forall a: CharArray, rest: seq<byte> | snd.Fits(a)
      ensures Read(snd, Write(snd, a) + rest) == Success(Decoded(a, rest))
    {
      RoundTrip(snd, a, rest);
    }
  }
}
