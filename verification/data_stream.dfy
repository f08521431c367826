/**
 * The primitive reads and writes of java.io.DataOutput / DataInput that the
 * array senders use: `writeInt` emits four big-endian bytes, `writeChar` two,
 * and the matching reads throw EOFException when the stream holds fewer.
 * The block-data framing ObjectOutputStream adds around them is not modelled.
 */
module DataStream {
  import opened Wrappers
  import opened Exceptions
  import opened JavaInt

  /** A successful read: the decoded value and the bytes left after it. */
  datatype Decoded<+T> = Decoded(value: T, rest: seq<byte>)

  type ReadResult<+T> = Result<Decoded<T>, Exception>

  /** The 32-bit two's-complement bit pattern of `x`, as an unsigned number. */
  function Unsigned(x: int32): (u: int)
    ensures 0 <= u < TWO_32
    ensures u % TWO_32 == (x as int) % TWO_32
  {
    if x < 0 then x as int + TWO_32 else x as int
  }

  /** `writeInt(x)`: most significant byte first. */
  function WriteInt(x: int32): (bs: seq<byte>)
    ensures |bs| == 4
  {
    var u := Unsigned(x);
    var u1 := u / TWO_8;
    var u2 := u1 / TWO_8;
    [(u2 / TWO_8) as byte, (u2 % TWO_8) as byte, (u1 % TWO_8) as byte, (u % TWO_8) as byte]
  }

  /** `writeChar(c)`: high byte first. */
  function WriteChar(c: jchar): (bs: seq<byte>)
    ensures |bs| == 2
  {
    [(c as int / TWO_8) as byte, (c as int % TWO_8) as byte]
  }

  /** `readInt()`: fails with EOF on fewer than four bytes, else reassembles
      the big-endian two's-complement value. */
  function ReadInt(s: seq<byte>): (r: ReadResult<int32>)
    ensures r.Failure? <==> |s| < 4
    ensures r.Failure? ==> r.error == EndOfStream
    ensures r.Success? ==> r.value.rest == s[4..]
  {
    if |s| < 4 then Failure(EndOfStream)
    else
      var u := ((s[0] as int * TWO_8 + s[1] as int) * TWO_8 + s[2] as int) * TWO_8 + s[3] as int;
      Success(Decoded((if u >= TWO_31 then u - TWO_32 else u) as int32, s[4..]))
  }

  /** `readChar()`: fails with EOF on fewer than two bytes. */
  function ReadChar(s: seq<byte>): (r: ReadResult<jchar>)
    ensures r.Failure? <==> |s| < 2
    ensures r.Failure? ==> r.error == EndOfStream
    ensures r.Success? ==> r.value.rest == s[2..]
  {
    if |s| < 2 then Failure(EndOfStream)
    else Success(Decoded((s[0] as int * TWO_8 + s[1] as int) as jchar, s[2..]))
  }

  /** Reading back what `writeInt` wrote returns the value and leaves the
      bytes after it untouched. */
  lemma ReadWriteInt(x: int32, rest: seq<byte>)
    ensures ReadInt(WriteInt(x) + rest) == Success(Decoded(x, rest))
  {
    var s := WriteInt(x) + rest;
    assert s[4..] == rest;
    var u := Unsigned(x);
    var u1 := u / TWO_8;
    var u2 := u1 / TWO_8;
    assert u == u1 * TWO_8 + u % TWO_8;
    assert u1 == u2 * TWO_8 + u1 % TWO_8;
    assert u2 == (u2 / TWO_8) * TWO_8 + u2 % TWO_8;
  }

  /** Every four bytes are the encoding of the int `readInt` makes of them:
      a successful `readInt` consumed exactly `writeInt` of its result. */
  lemma WriteReadInt(s: seq<byte>)
    requires |s| >= 4
    ensures ReadInt(s).Success?
    ensures WriteInt(ReadInt(s).value.value) == s[..4]
  {
    var u := ((s[0] as int * TWO_8 + s[1] as int) * TWO_8 + s[2] as int) * TWO_8 + s[3] as int;
    var x := ReadInt(s).value.value;
    assert Unsigned(x) == u;
    var u1 := u / TWO_8;
    var u2 := u1 / TWO_8;
    assert u1 == (s[0] as int * TWO_8 + s[1] as int) * TWO_8 + s[2] as int;
    assert u2 == s[0] as int * TWO_8 + s[1] as int;
  }

  /** Reading back what `writeChar` wrote returns the char. */
  lemma ReadWriteChar(c: jchar, rest: seq<byte>)
    ensures ReadChar(WriteChar(c) + rest) == Success(Decoded(c, rest))
  {
    assert (WriteChar(c) + rest)[2..] == rest;
  }

  /** Every two bytes are the encoding of the char `readChar` makes of them. */
  lemma WriteReadChar(s: seq<byte>)
    requires |s| >= 2
    ensures ReadChar(s).Success?
    ensures WriteChar(ReadChar(s).value.value) == s[..2]
  {
  }
}
