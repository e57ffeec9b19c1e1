/** When exactly the transport keeps to one chain at a time, and when exactly it can still send. */
module TransportConditions {
  import opened TransportModel
  import opened TransportTheorems

  // ---------- One chain at a time

  function Outstanding<M>(w: Wire<M>): nat {
    w.resolving + w.connecting + w.shaking + w.reading
  }

  /** In every state of the run at most one operation of the connect and read chain is outstanding. */
  ghost predicate AlwaysOne<M>(w: Wire<M>, steps: seq<Step<M>>)
    decreases steps
  {
    && Outstanding(w) <= 1
    && (steps != [] && Enabled(w, steps[0]) && (steps[0].Write? ==> w.queue != []) ==>
          AlwaysOne(Apply(w, steps[0]), steps[1..]))
  }

  /** Connect is only called while connected, when it does nothing, or with no operation outstanding. */
  ghost predicate ConnectsAlone<M>(w: Wire<M>, steps: seq<Step<M>>)
    decreases steps
  {
    steps != [] && Enabled(w, steps[0]) && (steps[0].Write? ==> w.queue != []) ==>
      && (steps[0].Connect? ==> w.connected || Outstanding(w) == 0)
      && ConnectsAlone(Apply(w, steps[0]), steps[1..])
  }

  /** Only a Connect that does something adds an operation. */
  lemma OutstandingStep<M>(w: Wire<M>, s: Step<M>)
    requires Enabled(w, s) && (s.Write? ==> w.queue != [])
    ensures if s.Connect? && !w.connected then Outstanding(Apply(w, s)) == Outstanding(w) + 1
            else Outstanding(Apply(w, s)) <= Outstanding(w)
  {
    match s
    case Handshake(ok, sends) =>
      SendAllKeeps(w.(shaking := w.shaking - 1, connected := true, calls := w.calls + [Connected]), sends);
    case Read(ok, data, sends) =>
      if ok {
        OneReadMore(w, data, sends);
      }
    case _ =>
  }

  lemma OneReadMore<M>(w: Wire<M>, data: string, sends: seq<M>)
    requires w.reading > 0
    ensures Outstanding(OnRead(w, true, data, sends)) == Outstanding(w)
  {
    OnReadDelivers(w, data, sends);
  }

  /** A run keeps to one operation at a time if and only if it calls Connect only when connected or idle. */
  lemma {:induction false} OneIffConnectsAlone<M>(w: Wire<M>, steps: seq<Step<M>>, w': Wire<M>)
    requires Outstanding(w) <= 1 && Runs(w, steps, w')
    ensures AlwaysOne(w, steps) <==> ConnectsAlone(w, steps)
    ensures AlwaysOne(w, steps) ==> Outstanding(w') <= 1
    decreases steps
  {
    if steps != [] {
      hide Enabled, Apply, Outstanding;
      var next := Apply(w, steps[0]);
      OutstandingStep(w, steps[0]);
      if Outstanding(next) <= 1 {
        OneIffConnectsAlone(next, steps[1..], w');
      }
    }
  }

  /**
   Connecting again only when connected or idle: at most one operation is ever outstanding, the first callback is
   the connect callback, and each message callback receives exactly its message if and only if no message follows
   failed reads that left bytes.
   */
  lemma ReconnectingDelivers<M>(w0: Wire<M>, steps: seq<Step<M>>, w: Wire<M>)
    requires IsInitial(w0) && Runs(w0, steps, w) && ConnectsAlone(w0, steps)
    ensures AlwaysOne(w0, steps) && Outstanding(w) <= 1
    ensures w.calls != [] ==> w.calls[0] == Connected
    ensures Messages(w.calls) == Received(w.results) <==> Clean(w.results)
    ensures w.buffer == "" <==> !Spilled(w.results)
  {
    hide Clean, Spilled;
    OneIffConnectsAlone(w0, steps, w);
    AnyChains(w0, steps, w);
    InitialInv(w0);
    ReachableChainInv(steps, w0, w);
    LeftoverIffSpilled(w.results);
  }

  // ---------- Sending

  /** What is left to send is sent if the strand runs its tasks and every write succeeds. */
  lemma {:induction false} Drain<M>(w: Wire<M>) returns (steps: seq<Step<M>>, w': Wire<M>)
    requires SendInv(w) && !w.failed
    ensures Runs(w, steps, w') && w'.written == w'.accepted == w.accepted
    decreases 2 * |w.posted| + |w.queue|
  {
    if w.posted == [] && w.queue == [] {
      steps, w' := [], w;
      assert w.written + [] + [] == w.written;
    } else {
      hide SendInv, Runs;
      var step := if w.posted != [] then RunPosted else Write(0, true);
      DrainStep(w, step);
      var rest;
      rest, w' := Drain(Apply(w, step));
      steps := [step] + rest;
      RunsFrom(w, step, rest, w');
    }
  }

  lemma DrainStep<M>(w: Wire<M>, step: Step<M>)
    requires SendInv(w) && !w.failed && (w.posted != [] || w.queue != [])
    requires step == if w.posted != [] then RunPosted else Write(0, true)
    ensures Enabled(w, step) && (step.Write? ==> w.queue != [])
    ensures var w1 := Apply(w, step);
            && SendInv(w1) && !w1.failed && w1.accepted == w.accepted
            && 2 * |w1.posted| + |w1.queue| < 2 * |w.posted| + |w.queue|
  {
    ApplySendInv(w, step);
  }

  lemma RunsFrom<M>(w: Wire<M>, step: Step<M>, rest: seq<Step<M>>, w': Wire<M>)
    requires Enabled(w, step) && (step.Write? ==> w.queue != []) && Runs(Apply(w, step), rest, w')
    ensures Runs(w, [step] + rest, w')
  {
    assert ([step] + rest)[1..] == rest;
  }

  /** Everything accepted can still be written if and only if no write has failed. */
  lemma CanSendIffNoneFailed<M(!new)>(w: Wire<M>)
    requires SendInv(w)
    ensures (exists steps, w' :: Runs(w, steps, w') && w'.written == w'.accepted) <==> !w.failed
  {
    if !w.failed {
      var steps, w' := Drain(w);
    } else if steps, w' :| Runs(w, steps, w') && w'.written == w'.accepted {
      FailedWriteStalls(steps, w, w');
      Conservation(steps, w, w');
      FailedLeavesSome(w');
    }
  }

  lemma FailedLeavesSome<M>(w: Wire<M>)
    requires SendInv(w) && w.failed
    ensures w.written != w.accepted
  {
    assert |w.accepted| == |w.written| + |w.queue| + |w.posted|;
  }
}
