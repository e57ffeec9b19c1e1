/**
 The state of a transport read off the steps of its run alone: which steps put it online and offline,
 what was sent while it was online, and how many operations of each kind completed and how.
 */
module TransportHistory {
  import opened TransportModel
  import opened TransportTheorems

  // ---------- Reading the steps

  /** A handshake puts the transport online; a failed read, a failed write or a close takes it offline. */
  function Online<M>(steps: seq<Step<M>>): bool {
    if steps == [] then false else
      var before := Online(steps[..|steps| - 1]);
      match steps[|steps| - 1]
      case Handshake(ok, _) => ok || before
      case Read(ok, _, _) => ok && before
      case Write(_, ok) => ok && before
      case Close(ok) => !ok && before
      case _ => before
  }

  /** What was sent while online: by the user, by the connect callback, and by the message callbacks. */
  function Sent<M>(steps: seq<Step<M>>): seq<M> {
    if steps == [] then [] else
      var before := Online(steps[..|steps| - 1]);
      Sent(steps[..|steps| - 1]) +
      match steps[|steps| - 1]
      case Send(m) => if before then [m] else []
      case Handshake(ok, sends) => if ok then sends else []
      case Read(ok, _, sends) => if ok && before then sends else []
      case _ => []
  }

  datatype Operation = Posting | Writing | Resolving | Connecting | Shaking | Reading

  predicate Completes<M>(s: Step<M>, op: Operation, ok: bool) {
    match op
    case Posting => s.RunPosted? && ok
    case Writing => s.Write? && s.ok == ok
    case Resolving => s.Resolve? && s.ok == ok
    case Connecting => s.TcpConnect? && s.ok == ok
    case Shaking => s.Handshake? && s.ok == ok
    case Reading => s.Read? && s.ok == ok
  }

  /** How many operations of a kind have completed so. */
  function Count<M>(steps: seq<Step<M>>, op: Operation, ok: bool): nat {
    if steps == [] then 0 else
      Count(steps[..|steps| - 1], op, ok) + if Completes(steps[|steps| - 1], op, ok) then 1 else 0
  }

  function Completed<M>(steps: seq<Step<M>>, op: Operation): nat {
    Count(steps, op, true) + Count(steps, op, false)
  }

  /** The Connect calls made while offline. */
  function Started<M>(steps: seq<Step<M>>): nat {
    if steps == [] then 0 else
      var init := steps[..|steps| - 1];
      Started(init) + if steps[|steps| - 1].Connect? && !Online(init) then 1 else 0
  }

  /** What the reads that completed brought. */
  function ReadsOf<M>(steps: seq<Step<M>>): seq<ReadResult> {
    if steps == [] then [] else
      var last := steps[|steps| - 1];
      ReadsOf(steps[..|steps| - 1]) + if last.Read? then [ReadResult(last.ok, last.data)] else []
  }

  /** One connect callback for each handshake, and one message callback for each message, after what was left over. */
  function CallbacksOf<M>(steps: seq<Step<M>>): seq<Callback> {
    if steps == [] then [] else
      var init := steps[..|steps| - 1];
      CallbacksOf(init) +
      match steps[|steps| - 1]
      case Handshake(ok, _) => if ok then [Connected] else []
      case Read(ok, data, _) => if ok then [Message(Leftover(ReadsOf(init)) + data)] else []
      case _ => []
  }

  // ---------- The state agrees

  ghost predicate LineAgrees<M>(steps: seq<Step<M>>, w: Wire<M>) {
    && w.connected == Online(steps)
    && w.accepted == Sent(steps)
    && w.chains == Started(steps)
    && w.results == ReadsOf(steps)
    && w.calls == CallbacksOf(steps)
  }

  ghost predicate ChainAgrees<M>(steps: seq<Step<M>>, w: Wire<M>) {
    && w.resolving + Completed(steps, Resolving) == w.chains
    && w.connecting + Completed(steps, Connecting) == Count(steps, Resolving, true)
    && w.shaking + Completed(steps, Shaking) == Count(steps, Connecting, true)
    && w.reading + Completed(steps, Reading) == Count(steps, Shaking, true) + Count(steps, Reading, true)
    && w.broken == Count(steps, Resolving, false) + Count(steps, Connecting, false) + Count(steps, Shaking, false)
  }

  ghost predicate QueueAgrees<M>(steps: seq<Step<M>>, w: Wire<M>) {
    && |w.posted| + Count(steps, Posting, true) == |w.accepted|
    && |w.written| == Count(steps, Writing, true)
    && |w.writing| + Completed(steps, Writing) == w.started
    && (w.failed <==> Count(steps, Writing, false) > 0)
  }

  ghost predicate Agrees<M>(steps: seq<Step<M>>, w: Wire<M>) {
    SendInv(w) && ChainInv(w) && LineAgrees(steps, w) && ChainAgrees(steps, w) && QueueAgrees(steps, w)
  }

  lemma HandshakeEffect<M>(w: Wire<M>, sends: seq<M>)
    requires w.shaking > 0
    ensures OnHandshake(w, true, sends) ==
            w.(shaking := w.shaking - 1, connected := true, calls := w.calls + [Connected], reading := w.reading + 1,
               posted := w.posted + sends, accepted := w.accepted + sends)
  {
    SendAllKeeps(w.(shaking := w.shaking - 1, connected := true, calls := w.calls + [Connected]), sends);
  }

  lemma ReadEffect<M>(w: Wire<M>, data: string, sends: seq<M>)
    requires w.reading > 0
    ensures var sent := if w.connected then sends else [];
            OnRead(w, true, data, sends) ==
            w.(buffer := "", results := w.results + [ReadResult(true, data)],
               calls := w.calls + [Message(w.buffer + data)],
               posted := w.posted + sent, accepted := w.accepted + sent)
  {
    var b := w.buffer + data;
    SendAllKeeps(w.(reading := w.reading - 1, buffer := b, results := w.results + [ReadResult(true, data)],
        calls := w.calls + [Message(b)]), sends);
    assert w.posted + [] == w.posted && w.accepted + [] == w.accepted;
  }

  lemma LineStep<M>(steps: seq<Step<M>>, w: Wire<M>, s: Step<M>)
    requires LineAgrees(steps, w) && ChainInv(w) && Enabled(w, s) && (s.Write? ==> w.queue != [])
    ensures LineAgrees(steps + [s], Apply(w, s))
  {
    hide LineAgrees;
    match s
    case Handshake(ok, sends) => LineHandshake(steps, w, ok, sends);
    case Read(ok, data, sends) => LineRead(steps, w, ok, data, sends);
    case Write(i, ok) => LineWrite(steps, w, i, ok);
    case RunPosted => LinePosted(steps, w);
    case _ => LineOther(steps, w, s);
  }

  lemma LineOther<M>(steps: seq<Step<M>>, w: Wire<M>, s: Step<M>)
    requires LineAgrees(steps, w) && Enabled(w, s)
    requires s.Send? || s.Connect? || s.Resolve? || s.TcpConnect? || s.Close?
    ensures LineAgrees(steps + [s], Apply(w, s))
  {
    hide OnWrite, OnRead, OnHandshake, SendDataInner, Leftover;
    assert (steps + [s])[..|steps|] == steps;
  }

  lemma LinePosted<M>(steps: seq<Step<M>>, w: Wire<M>)
    requires LineAgrees(steps, w) && w.posted != []
    ensures LineAgrees(steps + [RunPosted], SendDataInner(w.(posted := w.posted[1..]), w.posted[0]))
  {
    hide Leftover;
    assert (steps + [RunPosted])[..|steps|] == steps;
  }

  lemma LineHandshake<M>(steps: seq<Step<M>>, w: Wire<M>, ok: bool, sends: seq<M>)
    requires LineAgrees(steps, w) && w.shaking > 0
    ensures LineAgrees(steps + [Handshake(ok, sends)], OnHandshake(w, ok, sends))
  {
    hide Leftover, SendAll;
    assert (steps + [Handshake(ok, sends)])[..|steps|] == steps;
    if ok { HandshakeEffect(w, sends); }
  }

  lemma LineRead<M>(steps: seq<Step<M>>, w: Wire<M>, ok: bool, data: string, sends: seq<M>)
    requires LineAgrees(steps, w) && w.reading > 0 && w.buffer == Leftover(w.results)
    ensures LineAgrees(steps + [Read(ok, data, sends)], OnRead(w, ok, data, sends))
  {
    hide Leftover, SendAll;
    assert (steps + [Read(ok, data, sends)])[..|steps|] == steps;
    if ok { ReadEffect(w, data, sends); }
  }

  lemma LineWrite<M>(steps: seq<Step<M>>, w: Wire<M>, i: nat, ok: bool)
    requires LineAgrees(steps, w) && i < |w.writing| && w.queue != []
    ensures LineAgrees(steps + [Write(i, ok)], OnWrite(w, i, ok))
  {
    assert (steps + [Write(i, ok)])[..|steps|] == steps;
  }

  lemma CountGrows<M>(steps: seq<Step<M>>, s: Step<M>)
    ensures forall op, ok :: Count(steps + [s], op, ok) == Count(steps, op, ok) + if Completes(s, op, ok) then 1 else 0
  {
    assert (steps + [s])[..|steps|] == steps;
  }

  lemma ChainStep<M>(steps: seq<Step<M>>, w: Wire<M>, s: Step<M>)
    requires ChainAgrees(steps, w) && Enabled(w, s) && (s.Write? ==> w.queue != [])
    ensures ChainAgrees(steps + [s], Apply(w, s))
  {
    hide Count, SendAll;
    CountGrows(steps, s);
    match s
    case Handshake(ok, sends) => if ok { HandshakeEffect(w, sends); }
    case Read(ok, data, sends) => if ok { ReadEffect(w, data, sends); }
    case Write(i, ok) => WriteLeavesChain(w, i, ok);
    case RunPosted => PostedLeavesChain(w.(posted := w.posted[1..]), w.posted[0]);
    case _ =>
  }

  lemma QueueStep<M>(steps: seq<Step<M>>, w: Wire<M>, s: Step<M>)
    requires SendInv(w) && QueueAgrees(steps, w) && Enabled(w, s) && (s.Write? ==> w.queue != [])
    ensures QueueAgrees(steps + [s], Apply(w, s))
  {
    hide Count, SendAll;
    CountGrows(steps, s);
    match s
    case Handshake(ok, sends) => if ok { HandshakeEffect(w, sends); }
    case Read(ok, data, sends) => if ok { ReadEffect(w, data, sends); }
    case _ =>
  }

  /** Every run leaves the state that its steps say, whatever came before. */
  lemma {:induction false} RunAgrees<M>(done: seq<Step<M>>, w: Wire<M>, steps: seq<Step<M>>, w': Wire<M>)
    requires Agrees(done, w) && Runs(w, steps, w')
    ensures Agrees(done + steps, w')
    decreases steps
  {
    hide SendInv, ChainInv, LineAgrees, ChainAgrees, QueueAgrees, Enabled, Apply;
    if steps == [] {
      assert done + steps == done;
    } else {
      var s := steps[0];
      ApplySendInv(w, s);
      ApplyChainInv(w, s);
      LineStep(done, w, s);
      ChainStep(done, w, s);
      QueueStep(done, w, s);
      assert done + steps == done + [s] + steps[1..];
      RunAgrees(done + [s], Apply(w, s), steps[1..], w');
    }
  }

  lemma StartAgrees<M>(none: seq<Step<M>>, w: Wire<M>)
    requires none == [] && IsInitial(w)
    ensures Agrees(none, w)
  {
    hide SendInv, ChainInv;
    InitialInv(w);
  }

  lemma RunFromStart<M>(w0: Wire<M>, steps: seq<Step<M>>, w: Wire<M>)
    requires IsInitial(w0) && Runs(w0, steps, w)
    ensures Agrees(steps, w)
  {
    hide Agrees, IsInitial;
    var none: seq<Step<M>> := [];
    StartAgrees(none, w0);
    RunAgrees(none, w0, steps, w);
    assert none + steps == steps;
  }

  // ---------- The theorems

  /** The transport is online, and has accepted messages, exactly as the steps say. */
  lemma OnlineIsRead<M>(w0: Wire<M>, steps: seq<Step<M>>, w: Wire<M>)
    requires IsInitial(w0) && Runs(w0, steps, w)
    ensures w.connected <==> Online(steps)
    ensures w.accepted == Sent(steps)
  {
    RunFromStart(w0, steps, w);
  }

  /**
   The stages of the connect chain in order: each operation was started by the success of the one before it, a
   chain ends with its first failure, and each read but a failed one is followed by another.
   */
  lemma StagesFollow<M>(w0: Wire<M>, steps: seq<Step<M>>, w: Wire<M>)
    requires IsInitial(w0) && Runs(w0, steps, w)
    ensures w.resolving + Completed(steps, Resolving) == Started(steps)
    ensures w.connecting + Completed(steps, Connecting) == Count(steps, Resolving, true)
    ensures w.shaking + Completed(steps, Shaking) == Count(steps, Connecting, true)
    ensures w.reading + Completed(steps, Reading) == Count(steps, Shaking, true) + Count(steps, Reading, true)
    ensures w.broken == Count(steps, Resolving, false) + Count(steps, Connecting, false) + Count(steps, Shaking, false)
    ensures Connects(w.calls) == Count(steps, Shaking, true)
    ensures w.calls == CallbacksOf(steps) && w.results == ReadsOf(steps)
  {
    hide Count, Online, Started, ReadsOf, CallbacksOf, IsInitial, Runs;
    RunFromStart(w0, steps, w);
    ConnectsCount(steps);
  }

  lemma {:induction false} ConnectsCount<M>(steps: seq<Step<M>>)
    ensures Connects(CallbacksOf(steps)) == Count(steps, Shaking, true)
  {
    hide Leftover, ReadsOf, Online;
    if steps != [] {
      var init := steps[..|steps| - 1];
      ConnectsCount(init);
      var calls := CallbacksOf(init);
      assert calls + [] == calls;
      match steps[|steps| - 1]
      case Handshake(ok, _) => CallsGrow(calls, Connected);
      case Read(ok, data, _) => CallsGrow(calls, Message(Leftover(ReadsOf(init)) + data));
      case _ =>
    }
  }

  /**
   The accepted messages are cut by two counts: as many as writes succeeded are written, as many as posted tasks
   have run are past the strand, and what lies between is the queue.  Each started write has completed or is the
   one outstanding.
   */
  lemma QueueIsRead<M>(w0: Wire<M>, steps: seq<Step<M>>, w: Wire<M>)
    requires IsInitial(w0) && Runs(w0, steps, w)
    ensures var k, p := Count(steps, Writing, true), Count(steps, Posting, true);
            && k <= p <= |Sent(steps)|
            && w.written == Sent(steps)[..k] && w.queue == Sent(steps)[k..p] && w.posted == Sent(steps)[p..]
            && (w.failed <==> Count(steps, Writing, false) > 0)
            && w.writing == (if w.failed || k == p then [] else [Sent(steps)[k]])
            && w.started == Completed(steps, Writing) + |w.writing|
  {
    RunFromStart(w0, steps, w);
  }
}
