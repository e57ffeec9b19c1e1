/** Runs in which the transport fails its user, each of one connection at a time. */
module TransportFailures {
  import opened TransportModel
  import opened TransportTheorems

  /** Runs one more step. */
  lemma Then<M>(w0: Wire<M>, steps: seq<Step<M>>, w: Wire<M>, step: Step<M>) returns (more: seq<Step<M>>, w': Wire<M>)
    requires Runs(w0, steps, w) && Enabled(w, step) && (step.Write? ==> w.queue != [])
    ensures more == steps + [step] && w' == Apply(w, step) && Runs(w0, more, w')
  {
    more, w' := steps + [step], Apply(w, step);
    OneMore(w0, steps, w, step);
  }

  lemma {:induction false} OneMore<M>(w0: Wire<M>, steps: seq<Step<M>>, w: Wire<M>, step: Step<M>)
    requires Runs(w0, steps, w) && Enabled(w, step) && (step.Write? ==> w.queue != [])
    ensures Runs(w0, steps + [step], Apply(w, step))
    decreases steps
  {
    var more := steps + [step];
    if steps == [] {
      assert more[1..] == [];
    } else {
      OneMore(Apply(w0, steps[0]), steps[1..], w, step);
      assert more[0] == steps[0] && more[1..] == steps[1..] + [step];
    }
  }

  /** Connect is called and everything succeeds up to the first read. */
  lemma ConnectNow(w0: Wire<string>, steps: seq<Step<string>>, w: Wire<string>)
      returns (more: seq<Step<string>>, w': Wire<string>)
    requires Runs(w0, steps, w) && !w.connected && w.resolving == w.connecting == w.shaking == 0
    ensures Runs(w0, more, w')
    ensures w' ==
            w.(connected := true, chains := w.chains + 1, calls := w.calls + [Connected], reading := w.reading + 1)
  {
    var p1, w1 := Then(w0, steps, w, Connect);
    var p2, w2 := Then(w0, p1, w1, Resolve(true));
    var p3, w3 := Then(w0, p2, w2, TcpConnect(true));
    more, w' := Then(w0, p3, w3, Handshake(true, []));
  }

  lemma Fresh() returns (w: Wire<string>)
    ensures IsInitial(w)
  {
    w := Wire(false, [], "", [], [], 0, 0, 0, 0, [], 0, [], false, 0, 0, [], []);
  }

  /** A write and the read fail, and a new connection is made. */
  lemma ReconnectedAfterFailedWrite() returns (w0: Wire<string>, steps: seq<Step<string>>, w: Wire<string>)
    ensures IsInitial(w0) && Runs(w0, steps, w)
    ensures w.connected && w.failed && w.reading == 1 && w.started == 1
    ensures w.accepted == w.queue == ["a"] && w.posted == [] && w.written == [] && w.calls == [Connected, Connected]
  {
    w0 := Fresh();
    var p1, w1 := ConnectNow(w0, [], w0);
    var p2, w2 := Then(w0, p1, w1, Send("a"));
    var p3, w3 := Then(w0, p2, w2, RunPosted);
    var p4, w4 := Then(w0, p3, w3, Write(0, false));
    var p5, w5 := Then(w0, p4, w4, Read(false, "", []));
    steps, w := ConnectNow(w0, p5, w5);
  }

  /**
   Sending does stop for good: here a write fails, a new connection succeeds, another message is accepted and
   reaches the queue, and in no continuation is either message ever written.
   */
  lemma SendingStops()
    ensures exists w0: Wire<string>, steps, w ::
              && IsInitial(w0) && Runs(w0, steps, w)
              && w.connected && w.reading == 1 && w.calls == [Connected, Connected]
              && w.accepted == w.queue == ["a", "b"]
              && forall more, w' :: Runs(w, more, w') ==> w'.written == [] && w'.started == 1
  {
    var w0, p, w := ReconnectedAfterFailedWrite();
    var p1, w1 := Then(w0, p, w, Send("b"));
    var p2, w2 := Then(w0, p1, w1, RunPosted);
    InitialInv(w0);
    Conservation(p2, w0, w2);
    forall more, w' | Runs(w2, more, w') ensures w'.written == [] && w'.started == 1 {
      FailedWriteStalls(more, w2, w');
    }
    assert w2.accepted == w2.queue == ["a", "b"];
  }

  lemma StaleRun() returns (w0: Wire<string>, steps: seq<Step<string>>, w: Wire<string>)
    ensures IsInitial(w0) && Runs(w0, steps, w) && w.reading == 1
    ensures w.results == [ReadResult(false, "x"), ReadResult(true, "y")]
    ensures w.calls == [Connected, Connected, Message("x" + "y")]
  {
    w0 := Fresh();
    var p1, w1 := ConnectNow(w0, [], w0);
    var p2, w2 := Then(w0, p1, w1, Read(false, "x", []));
    var p3, w3 := ConnectNow(w0, p2, w2);
    steps, w := Then(w0, p3, w3, Read(true, "y", []));
    assert w2.buffer == "x" by { assert "" + "x" == "x"; }
  }

  lemma StaleTexts()
    ensures Received([ReadResult(false, "x"), ReadResult(true, "y")]) == ["y"]
    ensures Messages([Connected, Connected, Message("x" + "y")]) == ["x" + "y"]
  {
    var failed, next := ReadResult(false, "x"), ReadResult(true, "y");
    assert [] + [failed] == [failed] && [failed] + [next] == [failed, next];
    ResultsGrow([], failed);
    ResultsGrow([failed], next);
    var calls: seq<Callback> := [Connected];
    assert [] + [Connected] == calls && calls + [Connected] + [Message("x" + "y")] ==
        [Connected, Connected, Message("x" + "y")];
    CallsGrow([], Connected);
    CallsGrow(calls, Connected);
    CallsGrow(calls + [Connected], Message("x" + "y"));
  }

  /** A read fails and leaves a byte, and the next connection's first message is handed over with that byte in front. */
  lemma StaleBytesDelivered()
    ensures exists w0: Wire<string>, steps, w ::
              && IsInitial(w0) && Runs(w0, steps, w) && w.reading == 1
              && Received(w.results) == ["y"] && Messages(w.calls) == ["x" + "y"]
  {
    hide IsInitial;
    var w0, steps, w := StaleRun();
    StaleTexts();
  }

  /** In every run the buffer holds bytes exactly when the last reads failed and one of them left bytes. */
  lemma BufferIffSpilled<M>(w0: Wire<M>, steps: seq<Step<M>>, w: Wire<M>)
    requires IsInitial(w0) && Runs(w0, steps, w)
    ensures w.buffer != "" <==> Spilled(w.results)
  {
    InitialInv(w0);
    ReachableChainInv(steps, w0, w);
    LeftoverIffSpilled(w.results);
  }
}
