/**
 The handlers of `WebsocketTransport` as functions on its state.  The state also
 holds what the I/O library owes the transport (posted tasks and outstanding
 operations) and the history that the properties speak about.  Which outstanding
 operation completes next, and how, is the environment's choice.
 */
module TransportModel {
  /** What the transport tells its user, if the callbacks are set: `connect_callback_()` or `msg_callback_(text)`. */
  datatype Callback = Connected | Message(text: string)

  /** A completed `async_read`: the bytes it left in the buffer, and whether it succeeded. */
  datatype ReadResult = ReadResult(ok: bool, data: string)

  datatype Wire<M> = Wire(
    connected: bool,
    queue: seq<M>,          // send_msg_queue_
    buffer: string,         // buffer_
    posted: seq<M>,         // SendDataInner tasks on the strand, in FIFO order
    writing: seq<M>,        // outstanding async_write operations, by their buffers
    resolving: nat,         // outstanding operations of the connect and read chain
    connecting: nat,
    shaking: nat,
    reading: nat,
    accepted: seq<M>,       // history: messages SendMsg did not drop
    started: nat,           //   writes ever started
    written: seq<M>,        //   buffers of successful writes
    failed: bool,           //   some write failed
    chains: nat,            //   Connect calls that started a chain
    broken: nat,            //   chains that ended before the handshake
    results: seq<ReadResult>,
    calls: seq<Callback>)

  /** A transport as constructed, with nothing outstanding and no history. */
  ghost predicate IsInitial<M>(w: Wire<M>) {
    && !w.connected && w.queue == [] && w.buffer == ""
    && w.posted == [] && w.writing == []
    && w.resolving == w.connecting == w.shaking == w.reading == 0
    && w.accepted == [] && w.started == 0 && w.written == [] && !w.failed
    && w.chains == 0 && w.broken == 0 && w.results == [] && w.calls == []
  }

  datatype Step<M> =
    | Send(m: M)
    | RunPosted
    | Connect
    | Resolve(ok: bool)
    | TcpConnect(ok: bool)
    | Handshake(ok: bool, sends: seq<M>)             // sends: what the connect callback sends
    | Read(ok: bool, data: string, sends: seq<M>)    // sends: what the message callback sends
    | Write(i: nat, ok: bool)                        // the i-th outstanding write completes
    | Close(ok: bool)

  // ---------- Sending

  function SendMsg<M>(w: Wire<M>, m: M): Wire<M> {
    if !w.connected then w else w.(posted := w.posted + [m], accepted := w.accepted + [m])
  }

  function SendAll<M>(w: Wire<M>, ms: seq<M>): Wire<M> {
    if ms == [] then w else SendMsg(SendAll(w, ms[..|ms| - 1]), ms[|ms| - 1])
  }

  function StartWrite<M>(w: Wire<M>): Wire<M>
    requires w.queue != []
  {
    w.(writing := w.writing + [w.queue[0]], started := w.started + 1)
  }

  function SendDataInner<M>(w: Wire<M>, m: M): Wire<M> {
    var w1 := w.(queue := w.queue + [m]);
    if |w1.queue| > 1 then w1 else StartWrite(w1)
  }

  function OnWrite<M>(w: Wire<M>, i: nat, ok: bool): Wire<M>
    requires i < |w.writing| && w.queue != []
  {
    var w1 := w.(writing := w.writing[..i] + w.writing[i + 1..]);
    if !ok then w1.(connected := false, failed := true) else
      var w2 := w1.(queue := w1.queue[1..], written := w1.written + [w.writing[i]]);
      if w2.queue == [] then w2 else StartWrite(w2)
  }

  // ---------- Connecting and reading

  function ConnectCall<M>(w: Wire<M>): Wire<M> {
    if w.connected then w else w.(resolving := w.resolving + 1, chains := w.chains + 1)
  }

  function OnResolve<M>(w: Wire<M>, ok: bool): Wire<M>
    requires w.resolving > 0
  {
    var w1 := w.(resolving := w.resolving - 1);
    if !ok then w1.(broken := w1.broken + 1) else w1.(connecting := w1.connecting + 1)
  }

  function OnConnect<M>(w: Wire<M>, ok: bool): Wire<M>
    requires w.connecting > 0
  {
    var w1 := w.(connecting := w.connecting - 1);
    if !ok then w1.(broken := w1.broken + 1) else w1.(shaking := w1.shaking + 1)
  }

  function DoRead<M>(w: Wire<M>): Wire<M> {
    w.(reading := w.reading + 1)
  }

  function OnHandshake<M>(w: Wire<M>, ok: bool, sends: seq<M>): Wire<M>
    requires w.shaking > 0
  {
    var w1 := w.(shaking := w.shaking - 1);
    if !ok then w1.(broken := w1.broken + 1) else
      DoRead(SendAll(w1.(connected := true, calls := w1.calls + [Connected]), sends))
  }

  function OnRead<M>(w: Wire<M>, ok: bool, data: string, sends: seq<M>): Wire<M>
    requires w.reading > 0
  {
    var w1 := w.(reading := w.reading - 1, buffer := w.buffer + data, results := w.results + [ReadResult(ok, data)]);
    if !ok then w1.(connected := false) else
      var w2 := SendAll(w1.(calls := w1.calls + [Message(w1.buffer)]), sends);
      DoRead(w2.(buffer := ""))
  }

  function OnClose<M>(w: Wire<M>, ok: bool): Wire<M> {
    if !ok then w else w.(connected := false)
  }

  // ---------- Runs

  /** The environment completes only what is outstanding.  `OnWrite` also needs a non-empty queue to erase from. */
  predicate Enabled<M>(w: Wire<M>, s: Step<M>) {
    match s
    case RunPosted => w.posted != []
    case Resolve(_) => w.resolving > 0
    case TcpConnect(_) => w.connecting > 0
    case Handshake(_, _) => w.shaking > 0
    case Read(_, _, _) => w.reading > 0
    case Write(i, _) => i < |w.writing|
    case _ => true
  }

  function Apply<M>(w: Wire<M>, s: Step<M>): Wire<M>
    requires Enabled(w, s) && (s.Write? ==> w.queue != [])
  {
    match s
    case Send(m) => SendMsg(w, m)
    case RunPosted => SendDataInner(w.(posted := w.posted[1..]), w.posted[0])
    case Connect => ConnectCall(w)
    case Resolve(ok) => OnResolve(w, ok)
    case TcpConnect(ok) => OnConnect(w, ok)
    case Handshake(ok, sends) => OnHandshake(w, ok, sends)
    case Read(ok, data, sends) => OnRead(w, ok, data, sends)
    case Write(i, ok) => OnWrite(w, i, ok)
    case Close(ok) => OnClose(w, ok)
  }

  /** `w'` is reached from `w` by these steps, each enabled when taken and none undefined. */
  ghost predicate Runs<M>(w: Wire<M>, steps: seq<Step<M>>, w': Wire<M>)
    decreases steps
  {
    if steps == [] then w' == w else
      && Enabled(w, steps[0])
      && (steps[0].Write? ==> w.queue != [])
      && Runs(Apply(w, steps[0]), steps[1..], w')
  }
}
