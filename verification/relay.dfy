/** The two relay loops of a session (wsproxy/handle.go: `frontend`,
    `backend` and `release`), taken as trace machines: the outcomes of the
    reads and writes each loop performs are given as sequences, and a loop
    runs until a read fails, a write is judged fatal, or the trace runs out
    (the loop is then still waiting in its next call). */
module Relay {
  import opened Wrappers
  import opened Frames
  import opened Sessions
  import opened LogRecord

  type Byte = b: int | 0 <= b < 256
  type Bytes = seq<Byte>

  /** Why ws.ReadMessage failed: a close error carries the close code of the
      peer (section 7.4.1 of RFC 6455; an abrupt end of the connection is
      reported as 1006), anything else is a plain error. */
  datatype WsReadError = CloseError(code: int) | OtherError

  /** Why a read of the backend socket failed: io.EOF or any other error. */
  datatype SockReadError = EndOfStream | SockError

  /** One read: a chunk of data, or an error of type E. */
  datatype Read<E> = Data(bytes: Bytes) | Failed(error: E)

  /** One write: the count it reports and whether it returned an error. */
  datatype Write = Write(n: nat, failed: bool)

  /** When a loop gives up after a write: `backend` (ws.WriteMessage) looks
      at the error alone, `frontend` (writer.Write) also at a short count. */
  datatype WritePolicy = ErrorOnly | ShortWriteFatal

  predicate Fatal(policy: WritePolicy, data: Bytes, w: Write) {
    w.failed || (policy == ShortWriteFatal && w.n < |data|)
  }

  /** How a run of the loop ended. */
  datatype Stop<E> = Blocked | ReadStop(error: E) | WriteStop(data: Bytes, result: Write)

  /** The chunks written on, in order, and how the run ended. */
  datatype Pumped<E> = Pumped(forwarded: seq<Bytes>, stop: Stop<E>)

  /** `p` is a run of the loop over the given trace: the i-th chunk written
      is the i-th chunk read and every write before the stop was accepted;
      the run stops at a failed read, or at a fatal write of the chunk just
      read, or it is blocked because the trace of reads or of writes ran out. */
  predicate Runs<E(==)>(input: seq<Read<E>>, acks: seq<Write>, policy: WritePolicy, p: Pumped<E>) {
    && |p.forwarded| <= |input| && |p.forwarded| <= |acks|
    && (forall i :: 0 <= i < |p.forwarded| ==>
          input[i] == Data(p.forwarded[i]) && !Fatal(policy, p.forwarded[i], acks[i]))
    && (p.stop.ReadStop? ==>
          |p.forwarded| < |input| && input[|p.forwarded|] == Failed(p.stop.error))
    && (p.stop.WriteStop? ==>
          && |p.forwarded| < |input| && |p.forwarded| < |acks|
          && input[|p.forwarded|] == Data(p.stop.data)
          && acks[|p.forwarded|] == p.stop.result
          && Fatal(policy, p.stop.data, p.stop.result))
    && (p.stop.Blocked? ==>
          |p.forwarded| == |input| || (|p.forwarded| == |acks| && input[|p.forwarded|].Data?))
  }

  /** The `for` loop shared by both directions: read, stop on a read error,
      write what was read, stop on a fatal write. */
  function Pump<E(==)>(input: seq<Read<E>>, acks: seq<Write>, policy: WritePolicy): (p: Pumped<E>)
    ensures Runs(input, acks, policy, p)
    decreases |input|
  {
    if |input| == 0 then Pumped([], Blocked)
    else match input[0]
      case Failed(e) => Pumped([], ReadStop(e))
      case Data(d) =>
        if |acks| == 0 then Pumped([], Blocked)
        else if Fatal(policy, d, acks[0]) then Pumped([], WriteStop(d, acks[0]))
        else
          var rest := Pump(input[1..], acks[1..], policy);
          Pumped([d] + rest.forwarded, rest.stop)
  }

  /** Pump is the only run over a trace: Runs, which speaks of positions in
      the trace and not of recursion, pins the result down. Two runs that
      differed would disagree at the first position one of them stopped at,
      where the other one still forwarded a chunk. */
  lemma PumpUnique<E>(input: seq<Read<E>>, acks: seq<Write>, policy: WritePolicy, p: Pumped<E>)
    requires Runs(input, acks, policy, p)
    ensures p == Pump(input, acks, policy)
  {
  }

  /** Longer traces only extend a run: what was written stays written, and a
      run that already stopped does not change. */
  lemma {:induction false} PumpExtend<E>(input: seq<Read<E>>, acks: seq<Write>,
                                          moreInput: seq<Read<E>>, moreAcks: seq<Write>,
                                          policy: WritePolicy)
    ensures var p := Pump(input, acks, policy);
            var q := Pump(input + moreInput, acks + moreAcks, policy);
            && p.forwarded <= q.forwarded
            && (!p.stop.Blocked? ==> q == p)
    decreases |input|
  {
    if |input| > 0 && input[0].Data? && |acks| > 0 && !Fatal(policy, input[0].bytes, acks[0]) {
      var d := input[0].bytes;
      assert (input + moreInput)[0] == Data(d) && (acks + moreAcks)[0] == acks[0];
      assert (input + moreInput)[1..] == input[1..] + moreInput;
      assert (acks + moreAcks)[1..] == acks[1..] + moreAcks;
      PumpExtend(input[1..], acks[1..], moreInput, moreAcks, policy);
      var rest := Pump(input[1..], acks[1..], policy);
      var restLonger := Pump(input[1..] + moreInput, acks[1..] + moreAcks, policy);
      assert Pump(input, acks, policy) == Pumped([d] + rest.forwarded, rest.stop);
      assert Pump(input + moreInput, acks + moreAcks, policy) == Pumped([d] + restLonger.forwarded, restLonger.stop);
    } else if |input| > 0 {
      assert (input + moreInput)[0] == input[0];
      assert |acks| > 0 ==> (acks + moreAcks)[0] == acks[0];
    }
  }

  // ---------------------------------------------------------------------
  // The two loops of a p_worker.

  const CloseNormalClosure: int := 1000
  const CloseGoingAway: int := 1001
  const CloseNoStatusReceived: int := 1005

  /** websocket.IsUnexpectedCloseError(err, 1000, 1001, 1005): a close error
      whose code is none of the three. A plain error is not a close error,
      so it is never unexpected. */
  predicate UnexpectedClose(e: WsReadError)
    ensures e == CloseError(1006) ==> UnexpectedClose(e)
    ensures e.OtherError? ==> !UnexpectedClose(e)
  {
    e.CloseError? && e.code != CloseNormalClosure && e.code != CloseGoingAway
    && e.code != CloseNoStatusReceived
  }

  /** A WebSocket message as the backend loop sends it. */
  datatype Frame = Frame(kind: MessageType, payload: Bytes)

  /** What a loop leaves behind: what it sent on, the level of the line it
      logged when it stopped (if any), the status of the request record it
      emitted on stopping (if any), and whether it closed both endpoints. */
  datatype LoopEnd<T> = LoopEnd(sent: seq<T>, log: Option<Level>, status: Option<int>, closed: bool)

  function AsFrames(kind: MessageType, chunks: seq<Bytes>): (fs: seq<Frame>)
    ensures |fs| == |chunks|
    ensures forall i :: 0 <= i < |chunks| ==> fs[i] == Frame(kind, chunks[i])
  {
    seq(|chunks|, i requires 0 <= i < |chunks| => Frame(kind, chunks[i]))
  }

  /** `frontend`: client messages go to the backend socket. An unexpected
      close is logged as an error, any other read error as a notice, a
      failed or short write as a warning; whatever stops the loop, it
      releases the worker. */
  function Frontend(input: seq<Read<WsReadError>>, acks: seq<Write>): (r: LoopEnd<Bytes>)
    ensures r.sent == Pump(input, acks, ShortWriteFatal).forwarded
    ensures r.closed <==> !Pump(input, acks, ShortWriteFatal).stop.Blocked?
    ensures r.log == Some(Error) <==>
              |r.sent| < |input| && input[|r.sent|].Failed? && UnexpectedClose(input[|r.sent|].error)
    ensures r.log == Some(Notice) <==>
              |r.sent| < |input| && input[|r.sent|].Failed? && !UnexpectedClose(input[|r.sent|].error)
    ensures r.log == Some(Warning) <==> Pump(input, acks, ShortWriteFatal).stop.WriteStop?
    ensures r.closed <==> r.log.Some?
    ensures r.status.None?
  {
    var p := Pump(input, acks, ShortWriteFatal);
    match p.stop
    case Blocked => LoopEnd(p.forwarded, None, None, false)
    case ReadStop(e) => LoopEnd(p.forwarded, Some(if UnexpectedClose(e) then Error else Notice), None, true)
    case WriteStop(_, _) => LoopEnd(p.forwarded, Some(Warning), None, true)
  }

  /** `backend`: socket data goes to the client as messages of the worker's
      format. io.EOF is logged as a notice and any other read error not at
      all; a failed message write is logged as an error; whatever stops the
      loop, it releases the worker. */
  function Backend(input: seq<Read<SockReadError>>, acks: seq<Write>, format: MessageType): (r: LoopEnd<Frame>)
    ensures r.sent == AsFrames(format, Pump(input, acks, ErrorOnly).forwarded)
    ensures r.closed <==> !Pump(input, acks, ErrorOnly).stop.Blocked?
    ensures r.log == Some(Notice) <==> Pump(input, acks, ErrorOnly).stop == ReadStop(EndOfStream)
    ensures r.log == Some(Error) <==> Pump(input, acks, ErrorOnly).stop.WriteStop?
    ensures r.log.None? <==> !r.closed || Pump(input, acks, ErrorOnly).stop == ReadStop(SockError)
    ensures r.log != Some(Warning)
    ensures r.status.None?
  {
    var p := Pump(input, acks, ErrorOnly);
    var sent := AsFrames(format, p.forwarded);
    match p.stop
    case Blocked => LoopEnd(sent, None, None, false)
    case ReadStop(e) => LoopEnd(sent, if e == EndOfStream then Some(Notice) else None, None, true)
    case WriteStop(_, _) => LoopEnd(sent, Some(Error), None, true)
  }

  /** Every frame the backend sends carries the worker's format and the
      chunk read at the same position. */
  lemma BackendSendsReads(input: seq<Read<SockReadError>>, acks: seq<Write>, format: MessageType)
    ensures var r := Backend(input, acks, format);
            forall i :: 0 <= i < |r.sent| ==>
              r.sent[i].kind == format && input[i] == Data(r.sent[i].payload)
  {
  }

  /** A frontend whose first read is a close frame logs a notice for the
      normal, going-away and no-status codes, and an error for any other. */
  lemma CloseCodeLevel(code: int)
    ensures Frontend([Failed(CloseError(code))], []).log ==
              Some(if code == 1000 || code == 1001 || code == 1005 then Notice else Error)
  {
  }

  /** The frontend forwards a chunk of data only when the socket took all
      of it. */
  lemma FrontendWritesWhole(input: seq<Read<WsReadError>>, acks: seq<Write>)
    ensures var r := Frontend(input, acks);
            forall i :: 0 <= i < |r.sent| ==> !acks[i].failed && acks[i].n >= |r.sent[i]|
  {
  }

  // ---------------------------------------------------------------------
  // release

  /** The registry after the two loops of `w`: each loop that stopped called
      `release`, which deletes the worker's key. */
  function AfterLoops(reg: Registry, w: Worker, frontClosed: bool, backClosed: bool): (r: Registry)
    ensures !frontClosed && !backClosed ==> r == reg
    ensures frontClosed || backClosed ==> r == Release(reg, w.key)
  {
    var once := if frontClosed then Release(reg, w.key) else reg;
    ReleaseTwice(reg, w.key);
    if backClosed then Release(once, w.key) else once
  }

  /** Once either loop of a worker stopped, its key is gone from the pool,
      the other sessions are untouched, and the pool shrank by one when the
      key was there. */
  lemma LoopEndReleases(reg: Registry, w: Worker,
                        fr: seq<Read<WsReadError>>, fw: seq<Write>,
                        br: seq<Read<SockReadError>>, bw: seq<Write>)
    requires Frontend(fr, fw).closed || Backend(br, bw, w.format).closed
    ensures var r := AfterLoops(reg, w, Frontend(fr, fw).closed, Backend(br, bw, w.format).closed);
            && w.key !in r.pool
            && (forall k :: k != w.key && k in reg.pool ==> k in r.pool && r.pool[k] == reg.pool[k])
            && |r.pool| == (if w.key in reg.pool then |reg.pool| - 1 else |reg.pool|)
  {
  }
}
