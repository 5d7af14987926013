/** The input half of a remote shell (src/alpn/shell.py): framed client messages become pty input. */
module ShellInput {
  import opened Common
  import opened Framing

  /** What the kernel answers to one `os.write`; a short write takes at least one byte. */
  datatype WriteOutcome = Took(n: nat) | WouldBlock | Broken

  /** The non-blocking pty master. Call number i is answered by `script(i)`; `patience` bounds the run of
      EAGAINs that may start at each call. */
  class Pty {
    const script: nat -> WriteOutcome
    ghost const patience: nat -> nat
    var calls: nat
    var received: Bytes
    var sizes: seq<(int, int)>

    ghost predicate Valid() {
      forall i: nat :: script(i).WouldBlock? ==> patience(i + 1) < patience(i)
    }

    /** No call so far from number `since` on failed for good. */
    ghost predicate Unbroken(since: nat)
      reads this
    {
      forall i: nat :: since <= i < calls ==> !script(i).Broken?
    }

    /** `os.write`. */
    method Write(data: Bytes) returns (r: WriteOutcome)
      requires data != []
      modifies this`calls, this`received
      ensures calls == old(calls) + 1
      ensures r.WouldBlock? <==> script(old(calls)).WouldBlock?
      ensures r.Broken? <==> script(old(calls)).Broken?
      ensures r.Took? ==> 1 <= r.n <= |data| && received == old(received) + data[..r.n]
      ensures !r.Took? ==> received == old(received)
    {
      r := script(calls);
      calls := calls + 1;
      if r.Took? {
        var n := if r.n < 1 then 1 else if r.n > |data| then |data| else r.n;
        received := received + data[..n];
        r := Took(n);
      }
    }
  }

  /** `_pty_write_all`: terminates however the writes are cut up, and drops bytes only when the pty is gone. */
  method PtyWriteAll(pty: Pty, data: Bytes)
    requires pty.Valid()
    modifies pty`calls, pty`received
    ensures old(pty.calls) <= pty.calls
    ensures pty.Unbroken(old(pty.calls)) ==> pty.received == old(pty.received) + data
    ensures exists k :: 0 <= k <= |data| && pty.received == old(pty.received) + data[..k]
    ensures !pty.Unbroken(old(pty.calls)) ==> pty.calls > 0 && pty.script(pty.calls - 1).Broken?
  {
    var mv := data;
    ghost var sent := 0;
    while mv != []
      invariant old(pty.calls) <= pty.calls && pty.Unbroken(old(pty.calls))
      invariant 0 <= sent <= |data| && mv == data[sent..]
      invariant pty.received == old(pty.received) + data[..sent]
      decreases |mv|, pty.patience(pty.calls)
    {
      var r := pty.Write(mv);
      match r
      case Took(n) =>
        assert data[..sent] + data[sent..][..n] == data[..sent + n];
        mv := mv[n..];
        sent := sent + n;
      case WouldBlock =>
      case Broken =>
        assert pty.script(pty.calls - 1).Broken?;
        break;
    }
    assert data[..|data|] == data;
  }

  // ----------------------------------------------------------- what a stream means

  predicate IsClose(frame: Bytes) { frame != [] && frame[0] == SHELL_TAG_CLOSE }

  /** The frames before the first CLOSE. */
  function UntilClose(frames: seq<Bytes>): seq<Bytes> {
    if frames == [] || IsClose(frames[0]) then [] else [frames[0]] + UntilClose(frames[1..])
  }

  /** The concatenated DATA bodies. */
  function Typed(frames: seq<Bytes>): Bytes {
    if frames == [] then [] else TypedBy(frames[0]) + Typed(frames[1..])
  }

  function Be16(hi: Byte, lo: Byte): int { hi * 256 + lo }

  /** The window sizes that well-formed RESIZE frames ask for. */
  function Resizes(frames: seq<Bytes>): seq<(int, int)> {
    if frames == [] then [] else ResizedBy(frames[0]) + Resizes(frames[1..])
  }

  function TypedBy(frame: Bytes): Bytes {
    if frame != [] && frame[0] == SHELL_TAG_DATA then frame[1..] else []
  }

  function ResizedBy(frame: Bytes): seq<(int, int)> {
    if |frame| >= 5 && frame[0] == SHELL_TAG_RESIZE then [(Be16(frame[1], frame[2]), Be16(frame[3], frame[4]))] else []
  }

  /** What each kind of frame is for: of a RESIZE frame the first 16-bit word, high byte first, is the rows and the
      second the columns, whatever follows; the body of a DATA frame is typed as it is. */
  lemma FramesMean(rows: nat, cols: nat, extra: Bytes, body: Bytes)
    requires rows < 0x1_0000 && cols < 0x1_0000
    ensures var resize := [SHELL_TAG_RESIZE, rows / 256, rows % 256, cols / 256, cols % 256] + extra;
      ResizedBy(resize) == [(rows, cols)] && TypedBy(resize) == [] && !IsClose(resize)
    ensures var data := [SHELL_TAG_DATA] + body;
      TypedBy(data) == body && ResizedBy(data) == [] && !IsClose(data)
  {
    assert rows == rows / 256 * 256 + rows % 256 && cols == cols / 256 * 256 + cols % 256;
  }

  /** The body of the pump's loop, for a frame that was read. */
  method HandleFrame(frame: Bytes, pty: Pty) returns (closed: bool)
    requires pty.Valid()
    modifies pty
    ensures old(pty.calls) <= pty.calls
    ensures closed <==> IsClose(frame)
    ensures pty.Unbroken(old(pty.calls)) ==> pty.received == old(pty.received) + TypedBy(frame)
    ensures pty.sizes == old(pty.sizes) + ResizedBy(frame)
    ensures closed ==> pty.received == old(pty.received) && pty.sizes == old(pty.sizes)
  {
    if frame == [] {
      return false;
    }
    var tag, body := frame[0], frame[1..];
    if tag == SHELL_TAG_DATA {
      PtyWriteAll(pty, body);
    } else if tag == SHELL_TAG_RESIZE && |body| >= 4 {
      pty.sizes := pty.sizes + [(Be16(body[0], body[1]), Be16(body[2], body[3]))];
    } else if tag == SHELL_TAG_CLOSE {
      return true;
    }
    closed := false;
  }

  /** `_shell_stream_to_pty`: a client stream is consumed up to its CLOSE, its end or the first bad frame. */
  method ShellStreamToPty(recv: RecvStream, pty: Pty)
    requires pty.Valid()
    modifies recv, pty
    ensures old(pty.calls) <= pty.calls
    ensures pty.Unbroken(old(pty.calls)) ==>
      pty.received == old(pty.received) + Typed(UntilClose(Decode(old(recv.rest), SHELL_FRAME_MAX)))
    ensures pty.sizes == old(pty.sizes) + Resizes(UntilClose(Decode(old(recv.rest), SHELL_FRAME_MAX)))
  {
    ghost var all := UntilClose(Decode(recv.rest, SHELL_FRAME_MAX));
    ghost var done: seq<Bytes> := [];
    while true
      invariant Progress(all, done, recv.rest)
      invariant old(pty.calls) <= pty.calls
      invariant pty.Unbroken(old(pty.calls)) ==> pty.received == old(pty.received) + Typed(done)
      invariant pty.sizes == old(pty.sizes) + Resizes(done)
      decreases |recv.rest|
    {
      ghost var before := recv.rest;
      var frame := ReadFramed(recv, SHELL_FRAME_MAX);
      ProgressStep(all, done, before);
      if frame.None? {
        return;
      }
      var closed := HandleFrame(frame.value, pty);
      if closed {
        return;
      }
      OneMoreFrame(old(pty.received), old(pty.sizes), done, frame.value);
      done := done + [frame.value];
    }
  }

  /** Of the frames in `all`, those in `done` have been handled and the rest is still on the stream. */
  ghost predicate Progress(all: seq<Bytes>, done: seq<Bytes>, stream: Bytes) {
    all == done + UntilClose(Decode(stream, SHELL_FRAME_MAX))
  }

  lemma ProgressStep(all: seq<Bytes>, done: seq<Bytes>, stream: Bytes)
    requires Progress(all, done, stream)
    ensures var r := ReadFrame(stream, SHELL_FRAME_MAX);
      if r.Got? && !IsClose(r.payload) then Progress(all, done + [r.payload], r.rest) else all == done
  {
    var r := ReadFrame(stream, SHELL_FRAME_MAX);
    if r.Got? {
      var after := Decode(r.rest, SHELL_FRAME_MAX);
      assert ([r.payload] + after)[1..] == after;
      ConcatAssoc(done, [r.payload], UntilClose(after));
    }
  }

  lemma {:induction false} TypedSnoc(frames: seq<Bytes>, last: Bytes)
    ensures Typed(frames + [last]) == Typed(frames) + TypedBy(last)
  {
    if frames == [] {
      assert frames + [last] == [last] && [last][1..] == [];
    } else {
      TypedSnoc(frames[1..], last);
      assert (frames + [last])[1..] == frames[1..] + [last];
      ConcatAssoc(TypedBy(frames[0]), Typed(frames[1..]), TypedBy(last));
    }
  }

  lemma {:induction false} ResizesSnoc(frames: seq<Bytes>, last: Bytes)
    ensures Resizes(frames + [last]) == Resizes(frames) + ResizedBy(last)
  {
    if frames == [] {
      assert frames + [last] == [last] && [last][1..] == [];
    } else {
      ResizesSnoc(frames[1..], last);
      assert (frames + [last])[1..] == frames[1..] + [last];
      ConcatAssoc(ResizedBy(frames[0]), Resizes(frames[1..]), ResizedBy(last));
    }
  }

  /** What one more frame adds to what the pty had before the stream. */
  lemma OneMoreFrame(received: Bytes, sizes: seq<(int, int)>, done: seq<Bytes>, frame: Bytes)
    ensures received + Typed(done + [frame]) == received + Typed(done) + TypedBy(frame)
    ensures sizes + Resizes(done + [frame]) == sizes + Resizes(done) + ResizedBy(frame)
  {
    TypedSnoc(done, frame);
    ResizesSnoc(done, frame);
    ConcatAssoc(received, Typed(done), TypedBy(frame));
    ConcatAssoc(sizes, Resizes(done), ResizedBy(frame));
  }

  lemma {:induction false} UntilCloseStops(frames: seq<Bytes>, close: Bytes, rest: seq<Bytes>)
    requires forall i :: 0 <= i < |frames| ==> !IsClose(frames[i])
    requires IsClose(close)
    ensures UntilClose(frames + [close] + rest) == frames
  {
    var all := frames + [close] + rest;
    if frames != [] {
      UntilCloseStops(frames[1..], close, rest);
      assert all[1..] == frames[1..] + [close] + rest;
    }
  }

  /** Whatever the client wrote as frames within the limit and then closed is what the pty gets: the DATA bodies in
      order, the window sizes in order, empty priming frames and anything after the CLOSE ignored. */
  lemma InputIsLossless(frames: seq<Bytes>, rest: Bytes)
    requires AllWithin(frames, SHELL_FRAME_MAX)
    requires forall i :: 0 <= i < |frames| ==> !IsClose(frames[i])
    ensures var stream := Encode(frames + [[SHELL_TAG_CLOSE]]) + rest;
      && Typed(UntilClose(Decode(stream, SHELL_FRAME_MAX))) == Typed(frames)
      && Resizes(UntilClose(Decode(stream, SHELL_FRAME_MAX))) == Resizes(frames)
  {
    var close := [SHELL_TAG_CLOSE];
    DecodeEncode(frames + [close], rest, SHELL_FRAME_MAX);
    UntilCloseStops(frames, close, Decode(rest, SHELL_FRAME_MAX));
  }

  /** The client, the stream and the host together. */
  method TypeThrough(frames: seq<Bytes>, pty: Pty)
    requires AllWithin(frames, SHELL_FRAME_MAX)
    requires forall i :: 0 <= i < |frames| ==> !IsClose(frames[i])
    requires pty.Valid()
    modifies pty
    ensures pty.Unbroken(old(pty.calls)) ==> pty.received == old(pty.received) + Typed(frames)
    ensures pty.sizes == old(pty.sizes) + Resizes(frames)
  {
    var send := new SendStream();
    for i := 0 to |frames|
      invariant send.written == Encode(frames[..i])
      invariant unchanged(pty)
    {
      EncodeSnoc(frames[..i], frames[i]);
      assert frames[..i + 1] == frames[..i] + [frames[i]];
      WriteFramed(send, frames[i]);
    }
    assert frames[..|frames|] == frames;
    EncodeSnoc(frames, [SHELL_TAG_CLOSE]);
    WriteFramed(send, [SHELL_TAG_CLOSE]);
    var recv := new RecvStream(send.written);
    assert send.written + [] == send.written;
    InputIsLossless(frames, []);
    ShellStreamToPty(recv, pty);
  }
}
