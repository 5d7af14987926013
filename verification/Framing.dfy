/** Length-prefixed framing (src/alpn/framing.py): a 4-byte big-endian length, then that many bytes. */
module Framing {
  import opened Common

  type Byte = x: int | 0 <= x < 256
  type Bytes = seq<Byte>

  const SHELL_TAG_DATA: Byte := 0
  const SHELL_TAG_RESIZE: Byte := 1
  const SHELL_TAG_CLOSE: Byte := 2
  const SHELL_TAG_EXIT: Byte := 3
  const SHELL_FRAME_MAX := 1_048_576

  /** What `struct.pack(">I", n)` accepts. */
  const U32_LIMIT := 0x1_0000_0000

  function Be32(n: nat): (b: Bytes)
    requires n < U32_LIMIT
    ensures |b| == 4
  {
    [n / 0x100_0000, n / 0x1_0000 % 256, n / 0x100 % 256, n % 256]
  }

  function FromBe32(b: Bytes): nat
    requires |b| == 4
  {
    (((b[0] as int) * 256 + b[1]) * 256 + b[2]) * 256 + b[3]
  }

  lemma Be32RoundTrip(n: nat)
    requires n < U32_LIMIT
    ensures FromBe32(Be32(n)) == n
  {
    var a, b, c := n / 0x100, n / 0x1_0000, n / 0x100_0000;
    assert n == a * 256 + n % 256;
    assert b == a / 256 && a == b * 256 + a % 256;
    assert c == b / 256 && b == c * 256 + b % 256;
  }

  /** The most significant byte comes first. */
  lemma Be32Bytes(n: nat)
    requires n < U32_LIMIT
    ensures var b := Be32(n);
      n == (b[0] as int) * 0x100_0000 + (b[1] as int) * 0x1_0000 + (b[2] as int) * 0x100 + b[3]
  {
    Be32RoundTrip(n);
  }

  function Frame(payload: Bytes): Bytes
    requires |payload| < U32_LIMIT
  {
    Be32(|payload|) + payload
  }

  datatype ReadResult = Got(payload: Bytes, rest: Bytes) | TooLarge(length: nat) | EndOfStream

  /** One `_read_framed` on what is left of a stream. */
  function ReadFrame(stream: Bytes, maxSize: nat): (r: ReadResult)
    ensures r.Got? ==> |r.rest| + 4 <= |stream|
  {
    if |stream| < 4 then EndOfStream else
      var length := FromBe32(stream[..4]);
      if length > maxSize then TooLarge(length)
      else if length == 0 then Got([], stream[4..])
      else if |stream| - 4 < length then EndOfStream
      else Got(stream[4..4 + length], stream[4 + length..])
  }

  lemma ReadBack(payload: Bytes, tail: Bytes, maxSize: nat)
    requires |payload| <= maxSize < U32_LIMIT
    ensures ReadFrame(Frame(payload) + tail, maxSize) == Got(payload, tail)
  {
    Be32RoundTrip(|payload|);
    var stream := Frame(payload) + tail;
    assert stream[..4] == Be32(|payload|);
    assert stream[4..] == payload + tail;
    assert stream[4..4 + |payload|] == payload;
    assert stream[4 + |payload|..] == tail;
  }

  /** On the wire a frame is its length, most significant byte first, and then the payload. */
  lemma FrameOnWire(payload: Bytes)
    requires |payload| < U32_LIMIT
    ensures var f := Frame(payload);
      && |f| == 4 + |payload| && f[4..] == payload
      && |payload| == (f[0] as int) * 0x100_0000 + (f[1] as int) * 0x1_0000 + (f[2] as int) * 0x100 + f[3]
  {
    Be32Bytes(|payload|);
  }

  ghost predicate AllWithin(frames: seq<Bytes>, maxSize: nat) {
    forall i :: 0 <= i < |frames| ==> |frames[i]| <= maxSize
  }

  /** The bytes a sequence of `_write_framed` calls puts on the stream. */
  function Encode(frames: seq<Bytes>): Bytes
    requires AllWithin(frames, U32_LIMIT - 1)
  {
    if frames == [] then [] else Frame(frames[0]) + Encode(frames[1..])
  }

  /** The frames that repeated `_read_framed` calls deliver before the first failure. */
  function Decode(stream: Bytes, maxSize: nat): seq<Bytes>
    decreases |stream|
  {
    var r := ReadFrame(stream, maxSize);
    if r.Got? then [r.payload] + Decode(r.rest, maxSize) else []
  }

  lemma {:induction false} EncodeSnoc(frames: seq<Bytes>, last: Bytes)
    requires AllWithin(frames, U32_LIMIT - 1) && |last| < U32_LIMIT
    ensures AllWithin(frames + [last], U32_LIMIT - 1)
    ensures Encode(frames + [last]) == Encode(frames) + Frame(last)
  {
    if frames == [] {
      assert [last][1..] == [];
      assert frames + [last] == [last];
    } else {
      EncodeSnoc(frames[1..], last);
      assert (frames + [last])[1..] == frames[1..] + [last];
    }
  }

  lemma DecodeStep(payload: Bytes, tail: Bytes, maxSize: nat)
    requires |payload| <= maxSize < U32_LIMIT
    ensures Decode(Frame(payload) + tail, maxSize) == [payload] + Decode(tail, maxSize)
  {
    ReadBack(payload, tail, maxSize);
  }

  /** Framing loses nothing: whatever follows on the stream, the frames come back first, as they were written. */
  lemma {:induction false} DecodeEncode(frames: seq<Bytes>, tail: Bytes, maxSize: nat)
    requires maxSize < U32_LIMIT && AllWithin(frames, maxSize)
    ensures Decode(Encode(frames) + tail, maxSize) == frames + Decode(tail, maxSize)
  {
    if frames == [] {
      assert Encode(frames) + tail == tail;
      assert frames + Decode(tail, maxSize) == Decode(tail, maxSize);
    } else {
      var more := Encode(frames[1..]) + tail;
      DecodeEncode(frames[1..], tail, maxSize);
      DecodeStep(frames[0], more, maxSize);
      ConcatAssoc(Frame(frames[0]), Encode(frames[1..]), tail);
      ConcatAssoc([frames[0]], frames[1..], Decode(tail, maxSize));
      assert [frames[0]] + frames[1..] == frames;
    }
  }

  // ---------------------------------------------------------------- streams

  class SendStream {
    var written: Bytes

    constructor ()
      ensures written == []
    {
      written := [];
    }
  }

  class RecvStream {
    var rest: Bytes

    constructor (bytes: Bytes)
      ensures rest == bytes
    {
      rest := bytes;
    }

    /** None when the stream ends first. */
    method ReadExact(n: nat) returns (bytes: Option<Bytes>)
      modifies this
      ensures bytes.Some? <==> n <= |old(rest)|
      ensures bytes.Some? ==> bytes.value == old(rest)[..n] && rest == old(rest)[n..]
      ensures bytes.None? ==> rest == old(rest)
    {
      if |rest| < n {
        return None;
      }
      bytes := Some(rest[..n]);
      rest := rest[n..];
    }
  }

  /** `_write_framed`. */
  method WriteFramed(send: SendStream, payload: Bytes)
    requires |payload| < U32_LIMIT
    modifies send
    ensures send.written == old(send.written) + Frame(payload)
  {
    var prefix := Be32(|payload|);
    send.written := send.written + (prefix + payload);
  }

  /** `_read_framed`; None stands for either exception. */
  method ReadFramed(recv: RecvStream, maxSize: nat) returns (payload: Option<Bytes>)
    modifies recv
    ensures var r := ReadFrame(old(recv.rest), maxSize);
      payload == (if r.Got? then Some(r.payload) else None) && (r.Got? ==> recv.rest == r.rest)
  {
    ghost var stream := recv.rest;
    var header := recv.ReadExact(4);
    if header.None? {
      return None;
    }
    var length := FromBe32(header.value);
    if length > maxSize {
      return None;
    }
    if length == 0 {
      return Some([]);
    }
    payload := recv.ReadExact(length);
    assert payload.Some? ==>
      stream[4..][..length] == stream[4..4 + length] && stream[4..][length..] == stream[4 + length..];
  }
}
