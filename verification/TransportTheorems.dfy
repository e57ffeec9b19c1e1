/** What holds of every run of the transport, whoever its user is and however the network behaves. */
module TransportTheorems {
  import opened TransportModel

  // ---------- The send queue

  ghost predicate SendInv<M>(w: Wire<M>) {
    && w.written + w.queue + w.posted == w.accepted
    && |w.writing| <= 1
    && (w.writing != [] ==> w.queue != [] && w.writing[0] == w.queue[0])
    && (!w.failed ==> (w.queue != [] <==> w.writing != []))
    && (w.failed ==> w.queue != [] && w.writing == [])
  }

  lemma {:induction false} SendAllKeeps<M>(w: Wire<M>, ms: seq<M>)
    ensures var w' := SendAll(w, ms);
            && w' == w.(posted := w'.posted, accepted := w'.accepted)
            && (w.connected ==> w'.posted == w.posted + ms && w'.accepted == w.accepted + ms)
            && (!w.connected ==> w' == w)
  {
    if ms != [] { SendAllKeeps(w, ms[..|ms| - 1]); }
  }

  lemma SendAllInv<M>(w: Wire<M>, ms: seq<M>)
    requires SendInv(w)
    ensures SendInv(SendAll(w, ms))
  {
    SendAllKeeps(w, ms);
    assert w.written + w.queue + (w.posted + ms) == (w.written + w.queue + w.posted) + ms;
  }

  lemma WriteInv<M>(w: Wire<M>, i: nat, ok: bool)
    requires SendInv(w) && i < |w.writing|
    ensures w.queue != [] && SendInv(OnWrite(w, i, ok))
  {
    var rest := w.writing[..i] + w.writing[i + 1..];
    assert rest == [];
    assert w.written + [w.queue[0]] + w.queue[1..] + w.posted == w.written + w.queue + w.posted by {
      assert [w.queue[0]] + w.queue[1..] == w.queue;
    }
  }

  lemma SendDataInv<M>(w: Wire<M>)
    requires SendInv(w) && w.posted != []
    ensures SendInv(SendDataInner(w.(posted := w.posted[1..]), w.posted[0]))
  {
    assert w.written + (w.queue + [w.posted[0]]) + w.posted[1..] == w.written + w.queue + w.posted;
  }

  lemma ApplySendInv<M>(w: Wire<M>, s: Step<M>)
    requires SendInv(w) && Enabled(w, s)
    ensures (s.Write? ==> w.queue != []) && SendInv(Apply(w, s))
  {
    match s
    case Send(m) => assert w.written + w.queue + (w.posted + [m]) == (w.written + w.queue + w.posted) + [m];
    case RunPosted => SendDataInv(w);
    case Write(i, ok) => WriteInv(w, i, ok);
    case Handshake(ok, sends) =>
      if ok { SendAllInv(w.(shaking := w.shaking - 1, connected := true, calls := w.calls + [Connected]), sends); }
    case Read(ok, data, sends) =>
      var b := w.buffer + data;
      if ok {
        SendAllInv(w.(reading := w.reading - 1, buffer := b, results := w.results + [ReadResult(ok, data)],
            calls := w.calls + [Message(b)]), sends);
      }
    case _ =>
  }

  /**
   Conservation: the messages written, then the queue, then the posted tasks are the accepted messages
   in order.  At most one write is outstanding and it is for the queue's front, so `OnWrite` never
   erases from an empty queue; and until a write fails the queue is non-empty exactly while one is.
   */
  lemma {:induction false} Conservation<M>(steps: seq<Step<M>>, w: Wire<M>, w': Wire<M>)
    requires SendInv(w) && Runs(w, steps, w')
    ensures SendInv(w') && forall i: nat, ok :: Enabled(w', Write(i, ok)) ==> i == 0 && w'.queue != []
  {
    if steps != [] {
      ApplySendInv(w, steps[0]);
      Conservation(steps[1..], Apply(w, steps[0]), w');
    }
  }

  ghost predicate Stalled<M>(w: Wire<M>, w': Wire<M>) {
    && w'.failed && w'.started == w.started && w'.written == w.written
    && w.queue <= w'.queue && w.accepted <= w'.accepted
  }

  lemma FailedStep<M>(w: Wire<M>, s: Step<M>)
    requires SendInv(w) && w.failed && Enabled(w, s) && (s.Write? ==> w.queue != [])
    ensures Stalled(w, Apply(w, s))
  {
    match s
    case Handshake(ok, sends) =>
      SendAllKeeps(w.(shaking := w.shaking - 1, connected := true, calls := w.calls + [Connected]), sends);
    case Read(ok, data, sends) =>
      var b := w.buffer + data;
      SendAllKeeps(w.(reading := w.reading - 1, buffer := b, results := w.results + [ReadResult(ok, data)],
          calls := w.calls + [Message(b)]), sends);
    case _ =>
  }

  /**
   One failed write stops sending for good: whatever happens later, a new Connect and handshake included,
   no write is started again, the queue only grows, and what was written stays what it was.
   */
  lemma {:induction false} FailedWriteStalls<M>(steps: seq<Step<M>>, w: Wire<M>, w': Wire<M>)
    requires SendInv(w) && w.failed && Runs(w, steps, w')
    ensures Stalled(w, w')
  {
    if steps != [] {
      FailedStep(w, steps[0]);
      ApplySendInv(w, steps[0]);
      FailedWriteStalls(steps[1..], Apply(w, steps[0]), w');
    }
  }

  // ---------- The connect and read chain

  function Connects(calls: seq<Callback>): nat {
    if calls == [] then 0 else Connects(calls[..|calls| - 1]) + if calls[|calls| - 1].Connected? then 1 else 0
  }

  function FailedReads(rs: seq<ReadResult>): nat {
    if rs == [] then 0 else FailedReads(rs[..|rs| - 1]) + if rs[|rs| - 1].ok then 0 else 1
  }

  /** The bytes that failed reads have left in the buffer since the last successful one. */
  function Leftover(rs: seq<ReadResult>): string {
    if rs == [] || rs[|rs| - 1].ok then "" else Leftover(rs[..|rs| - 1]) + rs[|rs| - 1].data
  }

  /** The texts handed to the message callback: each message, after whatever failed reads left before it. */
  function Texts(rs: seq<ReadResult>): seq<string> {
    if rs == [] then [] else
      var last := rs[|rs| - 1];
      Texts(rs[..|rs| - 1]) + if last.ok then [Leftover(rs[..|rs| - 1]) + last.data] else []
  }

  /** The messages received. */
  function Received(rs: seq<ReadResult>): seq<string> {
    if rs == [] then [] else
      Received(rs[..|rs| - 1]) + if rs[|rs| - 1].ok then [rs[|rs| - 1].data] else []
  }

  function Messages(calls: seq<Callback>): seq<string> {
    if calls == [] then [] else
      Messages(calls[..|calls| - 1]) + match calls[|calls| - 1] case Connected => [] case Message(text) => [text]
  }

  /** Every chain has one operation outstanding, or has ended; its one handshake made one connect callback. */
  ghost predicate ChainInv<M>(w: Wire<M>) {
    && w.resolving + w.connecting + w.shaking + w.broken + Connects(w.calls) == w.chains
    && w.reading + FailedReads(w.results) == Connects(w.calls)
    && w.buffer == Leftover(w.results)
    && Messages(w.calls) == Texts(w.results)
    && (w.calls != [] ==> w.calls[0] == Connected)
  }

  lemma CallsGrow(calls: seq<Callback>, c: Callback)
    ensures Connects(calls + [c]) == Connects(calls) + if c.Connected? then 1 else 0
    ensures Messages(calls + [c]) == Messages(calls) + match c case Connected => [] case Message(text) => [text]
  {
    assert (calls + [c])[..|calls|] == calls;
  }

  lemma ResultsGrow(rs: seq<ReadResult>, r: ReadResult)
    ensures FailedReads(rs + [r]) == FailedReads(rs) + if r.ok then 0 else 1
    ensures Leftover(rs + [r]) == if r.ok then "" else Leftover(rs) + r.data
    ensures Texts(rs + [r]) == Texts(rs) + if r.ok then [Leftover(rs) + r.data] else []
    ensures Received(rs + [r]) == Received(rs) + if r.ok then [r.data] else []
  {
    assert (rs + [r])[..|rs|] == rs;
  }

  lemma ReadChain<M>(w: Wire<M>, ok: bool, data: string, sends: seq<M>)
    requires ChainInv(w) && w.reading > 0
    ensures ChainInv(OnRead(w, ok, data, sends))
  {
    var b := w.buffer + data;
    ResultsGrow(w.results, ReadResult(ok, data));
    if ok {
      CallsGrow(w.calls, Message(b));
      OnReadDelivers(w, data, sends);
      assert OnRead(w, ok, data, sends).calls == w.calls + [Message(b)];
    }
  }

  /** What a successful read changes besides sending. */
  lemma OnReadDelivers<M>(w: Wire<M>, data: string, sends: seq<M>)
    requires w.reading > 0
    ensures var w' := OnRead(w, true, data, sends);
            w' == w.(buffer := "", results := w.results + [ReadResult(true, data)],
                calls := w.calls + [Message(w.buffer + data)],
                     posted := w'.posted, accepted := w'.accepted)
  {
    var b := w.buffer + data;
    SendAllKeeps(w.(reading := w.reading - 1, buffer := b, results := w.results + [ReadResult(true, data)],
        calls := w.calls + [Message(b)]), sends);
  }

  lemma HandshakeChain<M>(w: Wire<M>, ok: bool, sends: seq<M>)
    requires ChainInv(w) && w.shaking > 0
    ensures ChainInv(OnHandshake(w, ok, sends))
  {
    if ok {
      hide ChainInv;
      CallsGrow(w.calls, Connected);
      assert Messages(w.calls) + [] == Messages(w.calls);
      var w1 := w.(shaking := w.shaking - 1, connected := true, calls := w.calls + [Connected]);
      SendAllKeeps(w1, sends);
      var w2 := SendAll(w1, sends);
      assert OnHandshake(w, ok, sends) == w2.(reading := w2.reading + 1);
      HandshakeCounts(w, OnHandshake(w, ok, sends));
    }
  }

  lemma HandshakeCounts<M>(w: Wire<M>, w': Wire<M>)
    requires ChainInv(w) && w.shaking > 0 && Connects(w.calls + [Connected]) == Connects(w.calls) + 1
    requires Messages(w.calls + [Connected]) == Messages(w.calls)
    requires w'.shaking == w.shaking - 1 && w'.reading == w.reading + 1 && w'.calls == w.calls + [Connected]
    requires w'.resolving == w.resolving && w'.connecting == w.connecting && w'.broken == w.broken
    requires w'.chains == w.chains && w'.results == w.results && w'.buffer == w.buffer
    ensures ChainInv(w')
  {
  }

  lemma ApplyChainInv<M>(w: Wire<M>, s: Step<M>)
    requires ChainInv(w) && Enabled(w, s) && (s.Write? ==> w.queue != [])
    ensures ChainInv(Apply(w, s))
  {
    if s.Handshake? {
      HandshakeChain(w, s.ok, s.sends);
    } else if s.Read? {
      ReadChain(w, s.ok, s.data, s.sends);
    } else {
      OtherStepChain(w, s);
    }
  }

  lemma OtherStepChain<M>(w: Wire<M>, s: Step<M>)
    requires Enabled(w, s) && (s.Write? ==> w.queue != []) && !s.Handshake? && !s.Read?
    ensures var w' := Apply(w, s);
            && w'.calls == w.calls && w'.results == w.results && w'.buffer == w.buffer && w'.reading == w.reading
            && w'.resolving + w'.connecting + w'.shaking + w'.broken - w'.chains
               == w.resolving + w.connecting + w.shaking + w.broken - w.chains
  {
    match s
    case Write(i, ok) => WriteLeavesChain(w, i, ok);
    case RunPosted => PostedLeavesChain(w.(posted := w.posted[1..]), w.posted[0]);
    case _ =>
      hide OnWrite, SendDataInner, SendAll, OnRead, OnHandshake;
  }

  /** Nothing of the chain differs. */
  predicate SameChain<M>(w: Wire<M>, w': Wire<M>) {
    && w'.calls == w.calls && w'.results == w.results && w'.buffer == w.buffer
    && w'.resolving == w.resolving && w'.connecting == w.connecting && w'.shaking == w.shaking
    && w'.reading == w.reading && w'.broken == w.broken && w'.chains == w.chains
  }

  lemma WriteLeavesChain<M>(w: Wire<M>, i: nat, ok: bool)
    requires i < |w.writing| && w.queue != []
    ensures SameChain(w, OnWrite(w, i, ok))
  {
  }

  lemma PostedLeavesChain<M>(w: Wire<M>, m: M)
    ensures SameChain(w, SendDataInner(w, m))
  {
  }

  function ConnectCalls<M>(steps: seq<Step<M>>): nat {
    if steps == [] then 0 else (if steps[0].Connect? then 1 else 0) + ConnectCalls(steps[1..])
  }

  lemma ChainsCount<M>(w: Wire<M>, s: Step<M>)
    requires Enabled(w, s) && (s.Write? ==> w.queue != [])
    ensures Apply(w, s).chains == w.chains + if s.Connect? && !w.connected then 1 else 0
  {
    match s
    case Handshake(ok, sends) =>
      SendAllKeeps(w.(shaking := w.shaking - 1, connected := true, calls := w.calls + [Connected]), sends);
    case Read(ok, data, sends) =>
      var b := w.buffer + data;
      SendAllKeeps(w.(reading := w.reading - 1, buffer := b, results := w.results + [ReadResult(ok, data)],
          calls := w.calls + [Message(b)]), sends);
    case _ =>
  }

  lemma {:induction false} ReachableChainInv<M>(steps: seq<Step<M>>, w: Wire<M>, w': Wire<M>)
    requires ChainInv(w) && Runs(w, steps, w')
    ensures ChainInv(w') && w'.chains <= w.chains + ConnectCalls(steps)
  {
    if steps != [] {
      ApplyChainInv(w, steps[0]);
      ChainsCount(w, steps[0]);
      ReachableChainInv(steps[1..], Apply(w, steps[0]), w');
    }
  }

  lemma InitialInv<M>(w: Wire<M>)
    requires IsInitial(w)
    ensures SendInv(w) && ChainInv(w) && FailsLast(w.results)
  {
  }

  // ---------- One Connect call

  /** Only the last read can have failed. */
  ghost predicate FailsLast(rs: seq<ReadResult>) {
    forall i :: 0 <= i < |rs| - 1 ==> rs[i].ok
  }

  lemma {:induction false} NoFailures(rs: seq<ReadResult>)
    requires FailedReads(rs) == 0
    ensures (forall i :: 0 <= i < |rs| ==> rs[i].ok) && Leftover(rs) == ""
  {
    if rs != [] { NoFailures(rs[..|rs| - 1]); }
  }

  lemma {:induction false} OneChainResults<M>(steps: seq<Step<M>>, w: Wire<M>, w': Wire<M>)
    requires ChainInv(w) && FailsLast(w.results) && Runs(w, steps, w') && w.chains + ConnectCalls(steps) <= 1
    ensures FailsLast(w'.results)
  {
    if steps != [] {
      ApplyChainInv(w, steps[0]);
      ChainsCount(w, steps[0]);
      ResultsStep(w, steps[0]);
      if steps[0].Read? { NoFailures(w.results); }
      OneChainResults(steps[1..], Apply(w, steps[0]), w');
    }
  }

  lemma ResultsStep<M>(w: Wire<M>, s: Step<M>)
    requires Enabled(w, s) && (s.Write? ==> w.queue != [])
    ensures Apply(w, s).results == w.results + if s.Read? then [ReadResult(s.ok, s.data)] else []
  {
    match s
    case Handshake(ok, sends) =>
      SendAllKeeps(w.(shaking := w.shaking - 1, connected := true, calls := w.calls + [Connected]), sends);
    case Read(ok, data, sends) =>
      var b := w.buffer + data;
      SendAllKeeps(w.(reading := w.reading - 1, buffer := b, results := w.results + [ReadResult(ok, data)],
          calls := w.calls + [Message(b)]), sends);
    case _ =>
  }

  /**
   With one Connect call at most one of resolve, connect, handshake and read is ever outstanding.  The
   connect callback runs at most once and before any message callback, and the buffer is empty
   whenever a read is outstanding.
   */
  lemma OneChain<M>(w0: Wire<M>, steps: seq<Step<M>>, w: Wire<M>)
    requires IsInitial(w0) && Runs(w0, steps, w) && ConnectCalls(steps) <= 1
    ensures w.resolving + w.connecting + w.shaking + w.reading <= 1
    ensures Connects(w.calls) <= 1 && (w.calls != [] ==> w.calls[0] == Connected)
    ensures w.reading > 0 ==> w.buffer == ""
  {
    InitialInv(w0);
    OneChainFrom(steps, w0, w);
    OneChainFacts(w);
  }

  /** With one Connect call the i-th message callback receives exactly the i-th message. */
  lemma OneChainDelivers<M>(w0: Wire<M>, steps: seq<Step<M>>, w: Wire<M>)
    requires IsInitial(w0) && Runs(w0, steps, w) && ConnectCalls(steps) <= 1
    ensures Messages(w.calls) == Received(w.results)
  {
    InitialInv(w0);
    OneChainFrom(steps, w0, w);
    OneChainFacts(w);
  }

  lemma OneChainFrom<M>(steps: seq<Step<M>>, w: Wire<M>, w': Wire<M>)
    requires Runs(w, steps, w') && ChainInv(w) && FailsLast(w.results) && w.chains + ConnectCalls(steps) <= 1
    ensures ChainInv(w') && FailsLast(w'.results) && w'.chains <= 1
  {
    ReachableChainInv(steps, w, w');
    OneChainResults(steps, w, w');
  }

  lemma OneChainFacts<M>(w: Wire<M>)
    requires ChainInv(w) && FailsLast(w.results) && w.chains <= 1
    ensures w.resolving + w.connecting + w.shaking + w.reading <= 1
    ensures Connects(w.calls) <= 1
    ensures w.reading > 0 ==> w.buffer == ""
    ensures Messages(w.calls) == Received(w.results)
  {
    FailsLastIsClean(w.results);
    ChainFacts(w);
    if w.reading > 0 { NoFailures(w.results); }
  }

  lemma FailsLastIsClean(rs: seq<ReadResult>)
    requires FailsLast(rs)
    ensures Clean(rs)
  {
    forall j | 0 <= j < |rs| && rs[j].ok ensures !Spilled(rs[..j]) {
      forall i | 0 <= i < j ensures rs[..j][i].ok { assert rs[i].ok; }
    }
  }

  // ---------- Any number of Connect calls

  /** The reads end in failed ones that left bytes in the buffer. */
  ghost predicate Spilled(rs: seq<ReadResult>) {
    exists i :: 0 <= i < |rs| && rs[i].data != "" && FailFrom(rs, i)
  }

  ghost predicate FailFrom(rs: seq<ReadResult>, i: nat) {
    forall k :: i <= k < |rs| ==> !rs[k].ok
  }

  /** No message is read right after failed reads that left bytes. */
  ghost predicate Clean(rs: seq<ReadResult>) {
    forall j :: 0 <= j < |rs| && rs[j].ok ==> !Spilled(rs[..j])
  }

  lemma {:induction false} LeftoverIffSpilled(rs: seq<ReadResult>)
    ensures Leftover(rs) != "" <==> Spilled(rs)
  {
    if rs != [] && !rs[|rs| - 1].ok {
      var n := |rs| - 1;
      var init := rs[..n];
      LeftoverIffSpilled(init);
      if rs[n].data != "" { assert FailFrom(rs, n); }
      if Spilled(init) {
        var i :| 0 <= i < |init| && init[i].data != "" && FailFrom(init, i);
        forall k | i <= k < |rs| ensures !rs[k].ok {
          if k < n {
            assert rs[k] == init[k];
          }
        }
        assert FailFrom(rs, i);
        assert rs[i].data != "";
      }
      if Spilled(rs) && rs[n].data == "" {
        var i :| 0 <= i < |rs| && rs[i].data != "" && FailFrom(rs, i);
        forall k | i <= k < n ensures !init[k].ok {
          assert rs[k] == init[k];
        }
        assert init[i].data != "" && FailFrom(init, i);
      }
    }
  }

  lemma {:induction false} ExactTexts(rs: seq<ReadResult>)
    ensures |Texts(rs)| == |Received(rs)|
    ensures Texts(rs) == Received(rs) <==> Clean(rs)
  {
    if rs != [] {
      var n := |rs| - 1;
      var init, last := rs[..n], rs[n];
      ExactTexts(init);
      CleanGrows(init, last);
      assert rs == init + [last];
      if last.ok {
        LeftoverIffSpilled(init);
        LastTextExact(Texts(init), Received(init), Leftover(init), last.data);
      } else {
        assert Texts(rs) == Texts(init) && Received(rs) == Received(init);
      }
    }
  }

  lemma CleanGrows(rs: seq<ReadResult>, r: ReadResult)
    ensures Clean(rs + [r]) <==> Clean(rs) && (r.ok ==> !Spilled(rs))
  {
    var more := rs + [r];
    assert more[..|rs|] == rs && more[|rs|] == r;
    forall j | 0 <= j < |rs| ensures more[..j] == rs[..j] && more[j] == rs[j] { }
  }

  lemma LastTextExact(texts: seq<string>, received: seq<string>, leftover: string, data: string)
    requires |texts| == |received|
    ensures texts + [leftover + data] == received + [data] <==> texts == received && leftover == ""
  {
    var t, r := texts + [leftover + data], received + [data];
    if t == r {
      assert t[..|texts|] == texts && r[..|received|] == received;
      assert t[|texts|] == r[|received|];
      assert |leftover + data| == |data|;
    }
    if leftover == "" { assert leftover + data == data; }
  }

  /**
   However often Connect is called (and even if that makes two reads overlap, which the I/O library forbids
   and `Connect` does not prevent), every chain has exactly one operation outstanding or has ended, and the
   callbacks receive exactly the messages if and only if no message follows failed reads that left bytes.
   */
  lemma AnyChains<M>(w0: Wire<M>, steps: seq<Step<M>>, w: Wire<M>)
    requires IsInitial(w0) && Runs(w0, steps, w)
    ensures w.resolving + w.connecting + w.shaking + w.reading + w.broken + FailedReads(w.results) == w.chains
    ensures w.chains <= ConnectCalls(steps)
    ensures w.calls != [] ==> w.calls[0] == Connected
    ensures |Messages(w.calls)| == |Received(w.results)|
    ensures Messages(w.calls) == Received(w.results) <==> Clean(w.results)
  {
    InitialInv(w0);
    ReachableChainInv(steps, w0, w);
    ChainFacts(w);
  }

  lemma ChainFacts<M>(w: Wire<M>)
    requires ChainInv(w)
    ensures w.resolving + w.connecting + w.shaking + w.reading + w.broken + FailedReads(w.results) == w.chains
    ensures |Messages(w.calls)| == |Received(w.results)|
    ensures Messages(w.calls) == Received(w.results) <==> Clean(w.results)
  {
    hide Clean;
    ExactTexts(w.results);
  }

  /**
   Connect does not notice a chain under way: two calls in a row make two chains, two connect callbacks and two
   overlapping reads on one stream, which the I/O library forbids.
   */
  lemma TwoConnectsTwoChains()
    ensures exists w0: Wire<string>, steps, w ::
              && IsInitial(w0) && ConnectCalls(steps) == 2 && Runs(w0, steps, w)
              && Connects(w.calls) == 2 && w.reading == 2
  {
    var w0: Wire<string> := Wire(false, [], "", [], [], 0, 0, 0, 0, [], 0, [], false, 0, 0, [], []);
    var w1 := w0.(resolving := 2, chains := 2);
    var rest, w := TwoHandshakes(w1);
    TwoSteps(w0, Connect, Connect, rest, w);
    var steps := [Connect, Connect] + rest;
    assert steps[1..] == [Connect] + rest && steps[1..][1..] == rest;
    NoneConnect(rest);
    assert ConnectCalls(steps) == 2;
  }

  lemma TwoHandshakes(w1: Wire<string>) returns (rest: seq<Step<string>>, w4: Wire<string>)
    requires IsInitial(w1.(resolving := 0, chains := 0)) && w1.resolving == 2 && w1.chains == 2
    ensures Runs(w1, rest, w4) && Connects(w4.calls) == 2 && w4.reading == 2
    ensures forall i :: 0 <= i < |rest| ==> !rest[i].Connect?
  {
    var w2 := w1.(resolving := 0, connecting := 2);
    var w3 := w2.(connecting := 0, shaking := 2);
    w4 := w3.(shaking := 0, connected := true, calls := [Connected] + [Connected], reading := 2);
    CallsGrow([], Connected);
    CallsGrow([Connected], Connected);
    assert [] + [Connected] == [Connected];
    rest := [];
    TwoSteps(w3, Handshake(true, []), Handshake(true, []), rest, w4);
    rest := [Handshake(true, []), Handshake(true, [])] + rest;
    TwoSteps(w2, TcpConnect(true), TcpConnect(true), rest, w4);
    rest := [TcpConnect(true), TcpConnect(true)] + rest;
    TwoSteps(w1, Resolve(true), Resolve(true), rest, w4);
    rest := [Resolve(true), Resolve(true)] + rest;
  }

  lemma TwoSteps<M>(w: Wire<M>, a: Step<M>, b: Step<M>, rest: seq<Step<M>>, w': Wire<M>)
    requires Enabled(w, a) && !a.Write? && Enabled(Apply(w, a), b) && !b.Write? && Runs(Apply(Apply(w, a), b), rest, w')
    ensures Runs(w, [a, b] + rest, w')
  {
    assert ([a, b] + rest)[1..] == [b] + rest && ([b] + rest)[1..] == rest;
  }

  lemma {:induction false} NoneConnect<M>(steps: seq<Step<M>>)
    requires forall i :: 0 <= i < |steps| ==> !steps[i].Connect?
    ensures ConnectCalls(steps) == 0
  {
    if steps != [] { NoneConnect(steps[1..]); }
  }
}
