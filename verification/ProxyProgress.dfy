/**
 Deadlock freedom and termination of the call protocol, when every call to another
 thread goes to a thread of higher rank (signaling, worker, network).
 */
module ProxyProgress {
  import opened Wrappers
  import opened ProxyMachine
  import opened ProxySafety
  import opened ProxyHistory

  type Rank = Tid -> nat

  /** Calls made on thread `t`, and everything they call in turn, stay or go to a thread of higher rank. */
  predicate Ordered(calls: seq<Call>, t: Tid, rank: Rank) {
    forall i :: 0 <= i < |calls| ==>
      && (calls[i].target == t || rank(t) < rank(calls[i].target))
      && Ordered(calls[i].body, calls[i].target, rank)
  }

  ghost predicate OrderedSteps(steps: seq<Step>, rank: Rank) {
    forall i :: 0 <= i < |steps| && steps[i].External? ==> Ordered(steps[i].todo, steps[i].t, rank)
  }

  ghost predicate OrderedCall(s: State, c: Cid, rank: Rank)
    requires c < |s.calls|
  {
    var o := s.calls[c];
    && Ordered(o.body, o.target, rank)
    && (o.parent.Some? && o.parent.value < |s.calls| ==>
          var p := s.calls[o.parent.value]; p.target == o.target || rank(p.target) < rank(o.target))
  }

  ghost predicate OrderedState(s: State, rank: Rank) {
    && (forall t, i :: 0 <= t < |s.threads| && 0 <= i < |s.threads[t].stack| ==>
        Ordered(s.threads[t].stack[i].todo, t, rank))
    && (forall c :: 0 <= c < |s.calls| ==> OrderedCall(s, c, rank))
  }

  lemma FrameKeepsOrdered(s: State, step: Step, rank: Rank, t: Tid, i: nat)
    requires Inv(s) && OrderedState(s, rank) && Enabled(s, step)
    requires t < |s.threads| && i < |Threads(s, step)[t].stack|
    ensures Ordered(Threads(s, step)[t].stack[i].todo, t, rank)
  {
    if step.Dispatch? { assert QueueOk(s, step.t) && OrderedCall(s, s.threads[step.t].queue[0], rank); }
    if i < |s.threads[t].stack| { assert Ordered(s.threads[t].stack[i].todo, t, rank); }
  }

  lemma NewCallOrdered(s: State, step: Step, rank: Rank)
    requires Inv(s) && OrderedState(s, rank) && Enabled(s, step) && Marshals(step)
    ensures OrderedCall(Apply(s, step), |s.calls|, rank)
  {
    var th := s.threads[step.t];
    TopOk(s, step.t);
    assert Ordered(th.stack[|th.stack| - 1].todo, step.t, rank);
    assert Calls(s, step)[|s.calls|].parent == Some(Top(th).call) && Calls(s, step)[Top(th).call].target == step.t;
  }

  lemma CallKeepsOrdered(s: State, step: Step, rank: Rank, c: Cid)
    requires Inv(s) && OrderedState(s, rank) && Enabled(s, step) && c < |Calls(s, step)|
    requires step.External? ==> Ordered(step.todo, step.t, rank)
    ensures OrderedCall(Apply(s, step), c, rank)
  {
    if c < |s.calls| {
      assert OrderedCall(s, c, rank) && CallOk(s, c);
      if s.calls[c].parent.Some? { OldCallSame(s, step, s.calls[c].parent.value); }
      OldCallSame(s, step, c);
    } else if Marshals(step) {
      NewCallOrdered(s, step, rank);
    }
  }

  lemma OldCallSame(s: State, step: Step, c: Cid)
    requires Enabled(s, step) && c < |s.calls|
    ensures |s.calls| <= |Calls(s, step)|
    ensures var o, o' := s.calls[c], Calls(s, step)[c];
            o'.target == o.target && o'.parent == o.parent && o'.body == o.body && o'.kind == o.kind
  {
  }

  lemma ApplyKeepsOrdered(s: State, step: Step, rank: Rank)
    requires Inv(s) && OrderedState(s, rank) && Enabled(s, step)
    requires step.External? ==> Ordered(step.todo, step.t, rank)
    ensures OrderedState(Apply(s, step), rank)
  {
    var s' := Apply(s, step);
    forall t, i | 0 <= t < |s'.threads| && 0 <= i < |s'.threads[t].stack|
      ensures Ordered(s'.threads[t].stack[i].todo, t, rank)
    {
      FrameKeepsOrdered(s, step, rank, t, i);
    }
    forall c | 0 <= c < |s'.calls| ensures OrderedCall(s', c, rank) { CallKeepsOrdered(s, step, rank, c); }
  }

  lemma {:induction false} ReachableOrdered(n: nat, steps: seq<Step>, rank: Rank)
    requires Exec(n, steps).Some? && OrderedSteps(steps, rank)
    ensures OrderedState(Exec(n, steps).value, rank)
  {
    if steps != [] {
      var before := steps[..|steps| - 1];
      ReachableOrdered(n, before, rank);
      ReachableInv(n, before);
      ApplyKeepsOrdered(Exec(n, before).value, steps[|steps| - 1], rank);
    }
  }

  // ---------- Some step is always enabled

  predicate HasWork(th: Thread) {
    th.stack != [] || th.queue != []
  }

  function MaxRank(rank: Rank, n: nat): (m: nat)
    ensures forall t :: 0 <= t < n ==> rank(t) <= m
  {
    if n == 0 then 0 else
      var m := MaxRank(rank, n - 1);
      if rank(n - 1) > m then rank(n - 1) else m
  }

  /** Thread `t` is blocked on a call that thread `u` has not finished. */
  predicate WaitsFor(s: State, t: Tid, u: Tid) {
    && Busy(s, t)
    && Top(s.threads[t]).phase.Blocked?
    && var d := Top(s.threads[t]).phase.callee;
       d < |s.calls| && s.calls[d].target == u && !s.calls[d].signalled
  }

  /** Whatever thread `t` waits for leads to a thread that can take a step. */
  lemma {:induction false} SomeoneRuns(s: State, rank: Rank, t: Tid) returns (step: Step, chain: seq<Tid>)
    requires Inv(s) && OrderedState(s, rank) && t < |s.threads| && HasWork(s.threads[t])
    ensures Enabled(s, step) && !step.External?
    ensures chain != [] && chain[0] == t && chain[|chain| - 1] == step.t
    ensures forall i :: 0 < i < |chain| ==> WaitsFor(s, chain[i - 1], chain[i])
    decreases MaxRank(rank, |s.threads|) - rank(t)
  {
    chain := [t];
    var th := s.threads[t];
    if th.stack == [] {
      assert QueueOk(s, t);
      step := Dispatch(t);
      return;
    }
    assert FrameOk(s, t, |th.stack| - 1);
    TopOk(s, t);
    var f := Top(th);
    match f.phase
    case Running =>
      if f.todo != [] {
        step := if f.todo[0].target == t then MarshalInline(t) else MarshalPost(t);
      } else {
        match s.calls[f.call].kind
        case Inline => step := ReturnInline(t, 0);
        case Posted => step := FinishInvoke(t, 0);
        case Plain => step := FinishRun(t);
      }
    case Invoked => step := SetEvent(t);
    case Ran(_) => step := FinishRun(t);
    case Blocked(d) =>
      if s.calls[d].signalled {
        step := Wake(t);
      } else {
        assert CallOk(s, d) && Pending(s, d) && OrderedCall(s, d, rank);
        var rest;
        step, rest := SomeoneRuns(s, rank, s.calls[d].target);
        chain := [t] + rest;
      }
  }

  /** In every reachable state with an unfinished task, some step is enabled. */
  lemma NoDeadlock(n: nat, steps: seq<Step>, rank: Rank)
    requires Exec(n, steps).Some? && OrderedSteps(steps, rank)
    requires exists t :: 0 <= t < n && t < |Exec(n, steps).value.threads| && HasWork(Exec(n, steps).value.threads[t])
    ensures exists step :: Enabled(Exec(n, steps).value, step) && !step.External?
  {
    var s := Exec(n, steps).value;
    ReachableInv(n, steps);
    ReachableOrdered(n, steps, rank);
    var t :| 0 <= t < n && t < |s.threads| && HasWork(s.threads[t]);
    var step, chain := SomeoneRuns(s, rank, t);
  }

  // ---------- Every run between two external posts is finite

  /** The number of steps a list of calls takes, all their own calls included. */
  function Cost(calls: seq<Call>): nat {
    if calls == [] then 0 else 6 + Cost(calls[0].body) + Cost(calls[1..])
  }

  function FrameCost(f: Frame): nat {
    Cost(f.todo) +
    match f.phase
    case Running => 3
    case Blocked(_) => 4
    case Invoked => 2
    case Ran(_) => 1
  }

  function StackCost(stack: seq<Frame>): nat {
    if stack == [] then 0 else StackCost(stack[..|stack| - 1]) + FrameCost(stack[|stack| - 1])
  }

  function QueueCost(queue: seq<Cid>, calls: seq<CallObject>): nat {
    if queue == [] then 0 else
      var last := queue[|queue| - 1];
      QueueCost(queue[..|queue| - 1], calls) + 4 + if last < |calls| then Cost(calls[last].body) else 0
  }

  function ThreadCost(th: Thread, calls: seq<CallObject>): nat {
    StackCost(th.stack) + QueueCost(th.queue, calls)
  }

  function TotalCost(threads: seq<Thread>, calls: seq<CallObject>): nat {
    if threads == [] then 0 else
      TotalCost(threads[..|threads| - 1], calls) + ThreadCost(threads[|threads| - 1], calls)
  }

  lemma StackPushed(stack: seq<Frame>, f: Frame)
    ensures StackCost(stack + [f]) == StackCost(stack) + FrameCost(f)
  {
    assert (stack + [f])[..|stack|] == stack;
  }

  lemma QueuePushed(queue: seq<Cid>, c: Cid, calls: seq<CallObject>)
    ensures QueueCost(queue + [c], calls) ==
            QueueCost(queue, calls) + 4 + if c < |calls| then Cost(calls[c].body) else 0
  {
    assert (queue + [c])[..|queue|] == queue;
  }

  lemma {:induction false} QueuePopped(queue: seq<Cid>, calls: seq<CallObject>)
    requires queue != [] && queue[0] < |calls|
    ensures QueueCost(queue, calls) == QueueCost(queue[1..], calls) + 4 + Cost(calls[queue[0]].body)
  {
    if |queue| == 1 {
      assert queue[..0] == [] && queue[1..] == [];
    } else {
      QueuePopped(queue[..|queue| - 1], calls);
      assert queue[1..][..|queue| - 2] == queue[..|queue| - 1][1..];
    }
  }

  /** Costs depend on the bodies of the calls only. */
  ghost predicate SameBodies(a: seq<CallObject>, b: seq<CallObject>) {
    |a| <= |b| && forall c :: 0 <= c < |a| ==> a[c].body == b[c].body
  }

  lemma {:induction false} QueueCostStable(queue: seq<Cid>, a: seq<CallObject>, b: seq<CallObject>)
    requires SameBodies(a, b) && forall i :: 0 <= i < |queue| ==> queue[i] < |a|
    ensures QueueCost(queue, a) == QueueCost(queue, b)
  {
    if queue != [] { QueueCostStable(queue[..|queue| - 1], a, b); }
  }

  lemma {:induction false} TotalCostStable(threads: seq<Thread>, a: seq<CallObject>, b: seq<CallObject>)
    requires SameBodies(a, b)
    requires forall t, i :: 0 <= t < |threads| && 0 <= i < |threads[t].queue| ==> threads[t].queue[i] < |a|
    ensures TotalCost(threads, a) == TotalCost(threads, b)
  {
    if threads != [] {
      QueueCostStable(threads[|threads| - 1].queue, a, b);
      TotalCostStable(threads[..|threads| - 1], a, b);
    }
  }

  lemma {:induction false} TotalCostUpdated(threads: seq<Thread>, t: Tid, th: Thread, calls: seq<CallObject>)
    requires t < |threads|
    ensures TotalCost(threads[t := th], calls) + ThreadCost(threads[t], calls) ==
            TotalCost(threads, calls) + ThreadCost(th, calls)
  {
    var n := |threads| - 1;
    if t < n {
      TotalCostUpdated(threads[..n], t, th, calls);
      assert threads[t := th][..n] == threads[..n][t := th];
    } else {
      assert threads[t := th][..n] == threads[..n];
    }
  }

  function StateCost(s: State): nat {
    TotalCost(s.threads, s.calls)
  }

  /** A step lowers the cost of its own thread by more than what it adds to the queue it posts to. */
  ghost predicate CostsLess(s: State, step: Step)
    requires Enabled(s, step) && !step.External?
  {
    var s' := Apply(s, step);
    var posted := if step.MarshalPost? then 4 + Cost(s'.calls[|s.calls|].body) else 0;
    && SameBodies(s.calls, s'.calls)
    && ThreadCost(s'.threads[step.t], s'.calls) + posted < ThreadCost(s.threads[step.t], s'.calls)
  }

  lemma StepCost(s: State, step: Step)
    requires Inv(s) && Enabled(s, step) && !step.External?
    ensures CostsLess(s, step)
  {
    match step
    case Dispatch(_) => DispatchCost(s, step);
    case MarshalInline(_) => InlineCost(s, step);
    case MarshalPost(_) => PostCost(s, step);
    case ReturnInline(_, v) => PopCost(s, step);
    case FinishRun(_) => PopCost(s, step);
    case FinishInvoke(_, v) => InvokedCost(s, step);
    case SetEvent(_) => SignalledCost(s, step);
    case Wake(_) => WakeCost(s, step);
  }

  lemma DispatchCost(s: State, step: Step)
    requires Inv(s) && Enabled(s, step) && step.Dispatch?
    ensures CostsLess(s, step)
  {
    assert QueueOk(s, step.t);
    var queue := s.threads[step.t].queue;
    QueuePopped(queue, Apply(s, step).calls);
    StackPushed([], Frame(queue[0], s.calls[queue[0]].body, Running));
  }

  lemma InlineCost(s: State, step: Step)
    requires Enabled(s, step) && step.MarshalInline?
    ensures CostsLess(s, step)
  {
    var th := s.threads[step.t];
    var caller := Top(th).(todo := Top(th).todo[1..]);
    StackPushed(Below(th), caller);
    StackPushed(Below(th) + [caller], Frame(|s.calls|, Top(th).todo[0].body, Running));
  }

  lemma PostCost(s: State, step: Step)
    requires Enabled(s, step) && step.MarshalPost?
    ensures CostsLess(s, step)
  {
    var th := s.threads[step.t];
    StackPushed(Below(th), Top(th).(todo := Top(th).todo[1..], phase := Blocked(|s.calls|)));
  }

  lemma PopCost(s: State, step: Step)
    requires Inv(s) && Enabled(s, step) && (step.ReturnInline? || step.FinishRun?)
    ensures CostsLess(s, step)
  {
    var th := s.threads[step.t];
    assert StackCost(th.stack) == StackCost(Below(th)) + FrameCost(Top(th));
    assert Threads(s, step)[step.t] == th.(stack := Below(th));
  }

  lemma CheaperTop(th: Thread, f: Frame)
    requires th.stack != [] && FrameCost(f) < FrameCost(Top(th))
    ensures StackCost(SetTop(th, f).stack) < StackCost(th.stack)
  {
    StackPushed(Below(th), f);
  }

  lemma InvokedCost(s: State, step: Step)
    requires Enabled(s, step) && step.FinishInvoke?
    ensures CostsLess(s, step)
  {
    CheaperTop(s.threads[step.t], Top(s.threads[step.t]).(phase := Invoked));
  }

  lemma SignalledCost(s: State, step: Step)
    requires Enabled(s, step) && step.SetEvent?
    ensures CostsLess(s, step)
  {
    CheaperTop(s.threads[step.t], Top(s.threads[step.t]).(phase := Ran(false)));
  }

  lemma WakeCost(s: State, step: Step)
    requires Enabled(s, step) && step.Wake?
    ensures CostsLess(s, step)
  {
    CheaperTop(s.threads[step.t], Top(s.threads[step.t]).(phase := Running));
  }

  lemma StepDecreases(s: State, step: Step)
    requires Inv(s) && Enabled(s, step) && !step.External?
    ensures StateCost(Apply(s, step)) < StateCost(s)
  {
    var s' := Apply(s, step);
    StepCost(s, step);
    forall t, i | 0 <= t < |s.threads| && 0 <= i < |s.threads[t].queue| ensures s.threads[t].queue[i] < |s.calls| {
      assert QueueOk(s, t);
    }
    TotalCostStable(s.threads, s.calls, s'.calls);
    TotalCostUpdated(s.threads, step.t, s'.threads[step.t], s'.calls);
    if step.MarshalPost? {
      var u := Top(s.threads[step.t]).todo[0].target;
      TotalCostUpdated(s.threads[step.t := s'.threads[step.t]], u, s'.threads[u], s'.calls);
      QueuePushed(s.threads[u].queue, |s.calls|, s'.calls);
    }
  }

  /** Without further external posts, a run from `s` takes at most `StateCost(s)` steps. */
  lemma {:induction false} RunsAreFinite(n: nat, steps: seq<Step>, more: seq<Step>)
    requires Exec(n, steps).Some? && Exec(n, steps + more).Some?
    requires forall i :: 0 <= i < |more| ==> !more[i].External?
    ensures StateCost(Exec(n, steps + more).value) + |more| <= StateCost(Exec(n, steps).value)
  {
    hide Apply, Enabled, StateCost, Inv;
    if more == [] {
      assert steps + more == steps;
    } else {
      var init, last := more[..|more| - 1], more[|more| - 1];
      assert (steps + more)[..|steps + more| - 1] == steps + init;
      RunsAreFinite(n, steps, init);
      ReachableInv(n, steps + init);
      StepDecreases(Exec(n, steps + init).value, last);
    }
  }

  /** When no step but an external post is enabled, every task has run and every call has returned. */
  lemma AllDone(n: nat, steps: seq<Step>, rank: Rank)
    requires Exec(n, steps).Some? && OrderedSteps(steps, rank)
    requires forall step :: Enabled(Exec(n, steps).value, step) ==> step.External?
    ensures var s := Exec(n, steps).value;
            && (forall t :: 0 <= t < |s.threads| ==> !HasWork(s.threads[t]))
            && (forall c :: 0 <= c < |s.calls| ==> Finished(s.calls[c]))
  {
    var s := Exec(n, steps).value;
    ReachableLogOk(n, steps);
    ReachableOrdered(n, steps, rank);
    forall t | 0 <= t < |s.threads| ensures !HasWork(s.threads[t]) {
      if HasWork(s.threads[t]) { var step, chain := SomeoneRuns(s, rank, t); }
    }
    forall c | 0 <= c < |s.calls| ensures Finished(s.calls[c]) { IdleMeansFinished(s, c); }
  }

  predicate Finished(o: CallObject) {
    if o.kind == Plain then o.stage.Ended? else o.stage.Returned?
  }

  lemma IdleMeansFinished(s: State, c: Cid)
    requires Inv(s) && LogOk(s) && c < |s.calls|
    requires forall t :: 0 <= t < |s.threads| ==> !HasWork(s.threads[t])
    ensures Finished(s.calls[c])
  {
    assert CallOk(s, c);
    assert CallerOk(s, c);
    assert !HasWork(s.threads[s.calls[c].target]);
    if s.calls[c].parent.Some? {
      assert CallOk(s, s.calls[c].parent.value);
      assert !HasWork(s.threads[s.calls[s.calls[c].parent.value].target]);
    }
  }
}
