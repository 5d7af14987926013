/** The output half of a remote shell (src/alpn/shell.py): a synchronous reader callback fills a queue, an
    async drainer empties it onto the client stream, and the reader is unregistered while the queue is full. */
module ShellOutput {
  import opened Common
  import opened Framing
  import opened ShellInput

  const HIGH_WATER := 64
  const LOW_WATER := 16
  const READ_SIZE := 65536

  datatype Item = Data(bytes: Bytes) | Sentinel

  /** Where the drainer is between two of its awaits. */
  datatype Drainer =
    | AtGet                   // waiting on the queue
    | Sending(chunk: Bytes)   // a DATA frame is being written
    | Exiting                 // the EXIT frame is being written
    | Finished(clean: bool)

  /** What `os.read` answers. */
  datatype ReadOutcome = Chunk(data: Bytes) | Again | Eof

  /** `sent` lists the frames written to the client; `output` is everything read from the pty, `eof` whether
      it has ended. */
  datatype Pump = Pump(queue: seq<Item>, armed: bool, drainer: Drainer, sent: seq<Bytes>, output: Bytes, eof: bool)

  const Start := Pump([], true, AtGet, [], [], false)

  datatype Step =
    | Readable(outcome: ReadOutcome)
    | Get
    | SendReturns(ok: bool)
    | ExitReturns(rc: int, ok: bool)

  /** The callback runs only while registered; a pty that reported its end goes on doing so. */
  ghost predicate Enabled(p: Pump, s: Step) {
    match s
    case Readable(outcome) =>
      p.armed && (outcome.Chunk? ==> !p.eof && 0 < |outcome.data| <= READ_SIZE)
    case Get => p.drainer.AtGet? && p.queue != []
    case SendReturns(_) => p.drainer.Sending?
    case ExitReturns(rc, _) => p.drainer.Exiting? && -0x8000_0000 <= rc < 0x8000_0000
  }

  function ExitFrame(rc: int): (f: Bytes)
    requires -0x8000_0000 <= rc < 0x8000_0000
    ensures |f| == 5
  {
    [SHELL_TAG_EXIT] + Be32(if rc < 0 then rc + U32_LIMIT else rc)
  }

  /** The signed big-endian code an EXIT frame carries. */
  function ExitCode(frame: Bytes): int
    requires |frame| == 5
  {
    var n := FromBe32(frame[1..]);
    if n < 0x8000_0000 then n else n - U32_LIMIT
  }

  lemma ExitCodeRoundTrip(rc: int)
    requires -0x8000_0000 <= rc < 0x8000_0000
    ensures ExitCode(ExitFrame(rc)) == rc
  {
    var n := if rc < 0 then rc + U32_LIMIT else rc;
    Be32RoundTrip(n);
    assert ExitFrame(rc)[1..] == Be32(n);
  }

  /** On the wire the code is in two's complement, most significant byte first. */
  lemma ExitFrameOnWire(rc: int)
    requires -0x8000_0000 <= rc < 0x8000_0000
    ensures var f := ExitFrame(rc);
      && f[0] == SHELL_TAG_EXIT
      && (f[1] as int) * 0x100_0000 + (f[2] as int) * 0x1_0000 + (f[3] as int) * 0x100 + f[4] ==
           (if rc < 0 then rc + 0x1_0000_0000 else rc)
  {
    Be32Bytes(if rc < 0 then rc + U32_LIMIT else rc);
  }

  function DataFrame(chunk: Bytes): Bytes { [SHELL_TAG_DATA] + chunk }

  ghost function Apply(p: Pump, s: Step): Pump
    requires Enabled(p, s)
  {
    match s
    case Readable(Again) => p
    case Readable(Eof) => p.(armed := false, queue := p.queue + [Sentinel], eof := true)
    case Readable(Chunk(data)) =>
      p.(queue := p.queue + [Data(data)], output := p.output + data, armed := |p.queue| + 1 < HIGH_WATER)
    case Get =>
      p.(queue := p.queue[1..], drainer := if p.queue[0].Sentinel? then Exiting else Sending(p.queue[0].bytes))
    case SendReturns(ok) =>
      if ok then p.(sent := p.sent + [DataFrame(p.drainer.chunk)], drainer := AtGet,
                    armed := p.armed || |p.queue| <= LOW_WATER)
      else p.(drainer := Finished(false), armed := false)
    case ExitReturns(rc, ok) =>
      p.(sent := if ok then p.sent + [ExitFrame(rc)] else p.sent, drainer := Finished(ok), armed := false)
  }

  ghost predicate RunsTo(p: Pump, steps: seq<Step>, q: Pump)
    decreases |steps|
  {
    if steps == [] then p == q else Enabled(p, steps[0]) && RunsTo(Apply(p, steps[0]), steps[1..], q)
  }

  ghost predicate Reachable(p: Pump, steps: seq<Step>) { RunsTo(Start, steps, p) }

  // -------------------------------------------------------------- invariant

  function Bodies(queue: seq<Item>): Bytes {
    if queue == [] then [] else (if queue[0].Data? then queue[0].bytes else []) + Bodies(queue[1..])
  }

  /** Data items come before sentinels. */
  ghost predicate Shaped(queue: seq<Item>) {
    forall i, j :: 0 <= i < j < |queue| && queue[i].Sentinel? ==> queue[j].Sentinel?
  }

  ghost predicate Flow(p: Pump) {
    && |p.queue| <= HIGH_WATER
    && (p.armed ==> |p.queue| < HIGH_WATER)
    && (p.drainer.AtGet? && !p.armed && !p.eof ==> |p.queue| > LOW_WATER)
    && (p.drainer.Finished? ==> !p.armed)
  }

  ghost predicate Ends(p: Pump) {
    && Shaped(p.queue)
    && (!p.eof ==> forall i :: 0 <= i < |p.queue| ==> p.queue[i].Data?)
    && (p.eof && (p.drainer.AtGet? || p.drainer.Sending?) ==> p.queue != [] && p.queue[|p.queue| - 1].Sentinel?)
    && (p.drainer.Exiting? || p.drainer == Finished(true) ==> p.eof && forall i :: 0 <= i < |p.queue| ==>
        p.queue[i].Sentinel?)
    && (forall i :: 0 <= i < |p.queue| && p.queue[i].Data? ==> 0 < |p.queue[i].bytes| <= READ_SIZE)
    && (p.drainer.Sending? ==> 0 < |p.drainer.chunk| <= READ_SIZE)
  }

  /** The chunk in the drainer's hands. */
  function InHand(d: Drainer): Bytes { if d.Sending? then d.chunk else [] }

  ghost predicate Bytewise(p: Pump) {
    if p.drainer == Finished(false) then Typed(p.sent) <= p.output
    else p.output == Typed(p.sent) + InHand(p.drainer) + Bodies(p.queue)
  }

  ghost predicate IsData(f: Bytes) { 1 < |f| <= READ_SIZE + 1 && f[0] == SHELL_TAG_DATA }
  ghost predicate IsExit(f: Bytes) { |f| == 5 && f[0] == SHELL_TAG_EXIT }

  /** DATA frames, followed by one EXIT frame exactly when the drainer finished cleanly. */
  ghost predicate Framed(p: Pump) {
    var datas := if p.drainer == Finished(true) then |p.sent| - 1 else |p.sent|;
    && datas >= 0
    && (forall i :: 0 <= i < datas ==> IsData(p.sent[i]))
    && (p.drainer == Finished(true) ==> IsExit(p.sent[datas]))
  }

  ghost predicate Inv(p: Pump) { Flow(p) && Ends(p) && Bytewise(p) && Framed(p) }

  lemma {:induction false} BodiesSnoc(queue: seq<Item>, x: Item)
    ensures Bodies(queue + [x]) == Bodies(queue) + (if x.Data? then x.bytes else [])
  {
    if queue == [] {
      assert queue + [x] == [x] && [x][1..] == [];
    } else {
      BodiesSnoc(queue[1..], x);
      assert (queue + [x])[1..] == queue[1..] + [x];
      ConcatAssoc(if queue[0].Data? then queue[0].bytes else [], Bodies(queue[1..]), if x.Data? then x.bytes else []);
    }
  }

  lemma {:induction false} OnlySentinels(queue: seq<Item>)
    requires forall i :: 0 <= i < |queue| ==> queue[i].Sentinel?
    ensures Bodies(queue) == []
  {
    if queue != [] {
      OnlySentinels(queue[1..]);
    }
  }

  lemma FlowKeeps(p: Pump, s: Step)
    requires Inv(p) && Enabled(p, s)
    ensures Flow(Apply(p, s))
  {
  }

  lemma ReadKeepsEnds(p: Pump, r: ReadOutcome)
    requires Inv(p) && Enabled(p, Readable(r))
    ensures Ends(Apply(p, Readable(r)))
  {
  }

  lemma GetKeepsEnds(p: Pump)
    requires Inv(p) && Enabled(p, Get)
    ensures Ends(Apply(p, Get))
  {
    if p.queue[0].Sentinel? {
      assert forall j :: 0 < j < |p.queue| ==> p.queue[j].Sentinel?;
    }
  }

  lemma EndsKeeps(p: Pump, s: Step)
    requires Inv(p) && Enabled(p, s)
    ensures Ends(Apply(p, s))
  {
    match s
    case Readable(r) => ReadKeepsEnds(p, r);
    case Get => GetKeepsEnds(p);
    case SendReturns(_) =>
    case ExitReturns(_, _) =>
  }

  lemma FramedKeeps(p: Pump, s: Step)
    requires Inv(p) && Enabled(p, s)
    ensures Framed(Apply(p, s))
  {
  }

  lemma ReadKeepsBytes(p: Pump, data: Bytes)
    requires Inv(p) && Enabled(p, Readable(Chunk(data)))
    ensures Bytewise(Apply(p, Readable(Chunk(data))))
  {
    BodiesSnoc(p.queue, Data(data));
    ConcatAssoc(Typed(p.sent) + InHand(p.drainer), Bodies(p.queue), data);
  }

  lemma SendKeepsBytes(p: Pump, ok: bool)
    requires Inv(p) && Enabled(p, SendReturns(ok))
    ensures Bytewise(Apply(p, SendReturns(ok)))
  {
    var frame := DataFrame(p.drainer.chunk);
    TypedSnoc(p.sent, frame);
    assert frame[1..] == p.drainer.chunk;
    ConcatAssoc(Typed(p.sent), p.drainer.chunk, Bodies(p.queue));
    assert Typed(p.sent + [frame]) + [] == Typed(p.sent + [frame]);
  }

  lemma GetKeepsBytes(p: Pump)
    requires Inv(p) && Enabled(p, Get)
    ensures Bytewise(Apply(p, Get))
  {
    assert p.output == Typed(p.sent) + [] + Bodies(p.queue);
    assert Typed(p.sent) + [] == Typed(p.sent);
    var first := p.queue[0];
    ConcatAssoc(Typed(p.sent), if first.Data? then first.bytes else [], Bodies(p.queue[1..]));
  }

  lemma ExitKeepsBytes(p: Pump, rc: int, ok: bool)
    requires Inv(p) && Enabled(p, ExitReturns(rc, ok))
    ensures Bytewise(Apply(p, ExitReturns(rc, ok)))
  {
    OnlySentinels(p.queue);
    TypedSnoc(p.sent, ExitFrame(rc));
    assert Typed(p.sent) + [] + [] == Typed(p.sent);
  }

  lemma BytewiseKeeps(p: Pump, s: Step)
    requires Inv(p) && Enabled(p, s)
    ensures Bytewise(Apply(p, s))
  {
    match s
    case Readable(Again) =>
    case Readable(Eof) => BodiesSnoc(p.queue, Sentinel);
    case Readable(Chunk(data)) => ReadKeepsBytes(p, data);
    case Get => GetKeepsBytes(p);
    case SendReturns(ok) => SendKeepsBytes(p, ok);
    case ExitReturns(rc, ok) => ExitKeepsBytes(p, rc, ok);
  }

  lemma {:induction false} RunKeeps(p: Pump, steps: seq<Step>, q: Pump)
    requires Inv(p) && RunsTo(p, steps, q)
    ensures Inv(q)
    decreases |steps|
  {
    if steps != [] {
      FlowKeeps(p, steps[0]);
      EndsKeeps(p, steps[0]);
      FramedKeeps(p, steps[0]);
      BytewiseKeeps(p, steps[0]);
      RunKeeps(Apply(p, steps[0]), steps[1..], q);
    }
  }

  lemma ReachableInv(p: Pump, steps: seq<Step>)
    requires Reachable(p, steps)
    ensures Inv(p)
  {
    assert Typed([]) + [] + Bodies([]) == [];
    RunKeeps(Start, steps, p);
  }

  // ------------------------------------------------------------------ results

  /** Under every interleaving of callback and drainer: the queue never exceeds HIGH_WATER; before EOF a running
      pump has its reader registered unless more than LOW_WATER items wait or a chunk is being sent; and it
      is never stuck, because either the drainer can step or the reader is registered. */
  lemma Backpressure(p: Pump, steps: seq<Step>)
    requires Reachable(p, steps)
    ensures |p.queue| <= HIGH_WATER
    ensures !p.eof && !p.armed && !p.drainer.Finished? ==> |p.queue| > LOW_WATER || p.drainer.Sending?
    ensures p.drainer.AtGet? && p.queue == [] ==> p.armed
  {
    ReachableInv(p, steps);
  }

  /** A clean finish: the pty has ended, the DATA bodies are exactly its output in order, and one EXIT frame
      follows them, although the reader may have been registered again after the end. */
  lemma CleanFinish(p: Pump, steps: seq<Step>)
    requires Reachable(p, steps) && p.drainer == Finished(true)
    ensures p.eof && Typed(p.sent) == p.output
    ensures p.sent != [] && IsExit(p.sent[|p.sent| - 1])
    ensures forall i :: 0 <= i < |p.sent| - 1 ==> IsData(p.sent[i])
  {
    ReachableInv(p, steps);
    OnlySentinels(p.queue);
    assert Typed(p.sent) + [] + [] == Typed(p.sent);
  }

  /** However the pump ends, and at every moment before, what was sent is a prefix of what was read. */
  lemma SentIsPrefix(p: Pump, steps: seq<Step>)
    requires Reachable(p, steps)
    ensures Typed(p.sent) <= p.output
  {
    ReachableInv(p, steps);
    if p.drainer != Finished(false) {
      ConcatAssoc(Typed(p.sent), InHand(p.drainer), Bodies(p.queue));
    }
  }

  /** The client reads the very frames the pump sent: each fits SHELL_FRAME_MAX. */
  lemma ClientSeesFrames(p: Pump, steps: seq<Step>)
    requires Reachable(p, steps)
    ensures AllWithin(p.sent, SHELL_FRAME_MAX)
    ensures Decode(Encode(p.sent), SHELL_FRAME_MAX) == p.sent
  {
    ReachableInv(p, steps);
    forall i | 0 <= i < |p.sent| ensures |p.sent[i]| <= SHELL_FRAME_MAX {
      assert IsData(p.sent[i]) || IsExit(p.sent[i]);
    }
    DecodeEncode(p.sent, [], SHELL_FRAME_MAX);
    assert Encode(p.sent) + [] == Encode(p.sent);
    assert p.sent + [] == p.sent;
  }

  /** How many data items stand before the first sentinel. */
  function Pending(queue: seq<Item>): nat {
    if queue == [] || queue[0].Sentinel? then 0 else 1 + Pending(queue[1..])
  }

  lemma {:induction false} PendingSnoc(queue: seq<Item>, x: Item)
    requires Shaped(queue) && queue != [] && queue[|queue| - 1].Sentinel?
    ensures Pending(queue + [x]) == Pending(queue)
  {
    if queue[0].Data? {
      PendingSnoc(queue[1..], x);
      assert (queue + [x])[1..] == queue[1..] + [x];
    }
  }

  /** Drainer steps left once the pty has ended. */
  function StepsLeft(p: Pump): nat {
    match p.drainer
    case AtGet => 2 * Pending(p.queue) + 2
    case Sending(_) => 2 * Pending(p.queue) + 3
    case Exiting => 1
    case Finished(_) => 0
  }

  /** After the end every drainer step brings the finish nearer and no callback puts it off. */
  lemma FinishGetsNearer(p: Pump, steps: seq<Step>, s: Step)
    requires Reachable(p, steps) && p.eof && Enabled(p, s)
    ensures if s.Readable? then StepsLeft(Apply(p, s)) == StepsLeft(p) else StepsLeft(Apply(p, s)) < StepsLeft(p)
  {
    ReachableInv(p, steps);
    if s == Readable(Eof) && (p.drainer.AtGet? || p.drainer.Sending?) {
      PendingSnoc(p.queue, Sentinel);
    }
  }

  // ------------------------------------------------------------ the callbacks

  /** The code itself, cut at its awaits. */
  class OutputPump {
    var queue: seq<Item>
    var armed: bool
    var drainer: Drainer
    var sent: seq<Bytes>
    ghost var output: Bytes
    ghost var eof: bool

    ghost function View(): Pump
      reads this
    {
      Pump(queue, armed, drainer, sent, output, eof)
    }

    constructor ()
      ensures View() == Start
    {
      queue, armed, drainer, sent, output, eof := [], true, AtGet, [], [], false;
    }

    /** `_on_readable`. */
    method OnReadable(outcome: ReadOutcome)
      requires Enabled(View(), Readable(outcome))
      modifies this
      ensures View() == Apply(old(View()), Readable(outcome))
    {
      match outcome
      case Again => return;
      case Eof =>
        armed := false;
        queue := queue + [Sentinel];
        eof := true;
      case Chunk(data) =>
        queue := queue + [Data(data)];
        output := output + data;
        if |queue| >= HIGH_WATER {
          armed := false;
        }
    }

    /** From `queue.get()` to the next await. */
    method Resume()
      requires Enabled(View(), Get)
      modifies this
      ensures View() == Apply(old(View()), Get)
    {
      var chunk := queue[0];
      queue := queue[1..];
      drainer := if chunk.Sentinel? then Exiting else Sending(chunk.bytes);
    }

    /** After the write of a DATA frame. */
    method AfterSend(ok: bool)
      requires Enabled(View(), SendReturns(ok))
      modifies this
      ensures View() == Apply(old(View()), SendReturns(ok))
    {
      if ok {
        sent := sent + [DataFrame(drainer.chunk)];
        drainer := AtGet;
        if |queue| <= LOW_WATER {
          armed := true;
        }
      } else {
        drainer := Finished(false);
        armed := false;
      }
    }

    /** After the sentinel: the EXIT frame, the finish of the stream and the `finally` block. */
    method AfterExit(rc: int, ok: bool)
      requires Enabled(View(), ExitReturns(rc, ok))
      modifies this
      ensures View() == Apply(old(View()), ExitReturns(rc, ok))
      ensures ok ==> sent != [] && |sent[|sent| - 1]| == 5 && ExitCode(sent[|sent| - 1]) == rc
    {
      ExitCodeRoundTrip(rc);
      if ok {
        sent := sent + [ExitFrame(rc)];
      }
      drainer := Finished(ok);
      armed := false;
    }
  }
}
