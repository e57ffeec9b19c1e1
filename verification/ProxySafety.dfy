/**
 The invariant of the call protocol, and what it says about call objects: nothing
 touches a dead one, no queue deletes one, and each is freed by its own caller.
 */
module ProxySafety {
  import opened Wrappers
  import opened ProxyMachine

  /** Frame `i` of thread `t` agrees with its call object and with the frames around it. */
  ghost predicate FrameOk(s: State, t: Tid, i: nat)
    requires t < |s.threads| && i < |s.threads[t].stack|
  {
    var f := s.threads[t].stack[i];
    f.call < |s.calls| &&
    var c := s.calls[f.call];
    && c.target == t
    && (i == 0 <==> c.kind != Inline)
    && (i > 0 ==> c.parent == Some(s.threads[t].stack[i - 1].call))
    && (i < |s.threads[t].stack| - 1 ==> f.phase == Running)
    && InRange(f.todo, |s.threads|)
    && match f.phase
       case Running => c.live && c.stage == Begun(t)
       case Blocked(d) =>
         && c.live && c.stage == Begun(t)
         && d < |s.calls| && s.calls[d].kind == Posted && s.calls[d].parent == Some(f.call)
         && s.calls[d].live && s.calls[d].target != t
       case Invoked => i == 0 && c.kind == Posted && c.live && c.stage.Ended? && !c.signalled && f.todo == []
       case Ran(result) => i == 0 && c.kind == Posted && c.signalled && !result
  }

  ghost predicate QueueOk(s: State, t: Tid)
    requires t < |s.threads|
  {
    var q := s.threads[t].queue;
    && (forall i :: 0 <= i < |q| ==>
          && q[i] < |s.calls| && s.calls[q[i]].target == t && s.calls[q[i]].kind != Inline
          && s.calls[q[i]].stage == Fresh && s.calls[q[i]].live)
    && (forall i, j :: 0 <= i < j < |q| ==> q[i] < q[j])
  }

  /** Where a task is until it has run. */
  ghost predicate Pending(s: State, c: Cid)
    requires c < |s.calls| && s.calls[c].target < |s.threads|
  {
    var th := s.threads[s.calls[c].target];
    if s.calls[c].stage == Fresh then c in th.queue else th.stack != [] && th.stack[0].call == c
  }

  ghost predicate CallOk(s: State, c: Cid)
    requires c < |s.calls|
  {
    var o := s.calls[c];
    && o.target < |s.threads|
    && InRange(o.body, |s.threads|)
    && (o.kind == Plain <==> o.parent == None)
    && (o.parent.Some? ==> o.parent.value < c)
    && (o.kind == Inline ==> o.stage != Fresh)
    && (o.signalled ==> o.kind == Posted && (o.stage.Ended? || o.stage.Returned?))
    && (!o.stage.Fresh? ==> o.stage.t == o.target)
    && (o.kind != Plain && (o.stage.Ended? || o.stage.Returned?) ==> o.result == Some(o.stage.v))
    && (o.stage.Returned? ==> !o.live && o.kind != Plain)
    && (o.kind != Plain && !o.live ==> o.stage.Returned?)
    && (o.kind == Plain ==> (o.live <==> !o.stage.Ended?))
    && (o.kind == Posted && o.stage.Returned? ==> o.signalled)
    && (o.kind == Inline ==> !o.stage.Ended?)
    && (o.kind != Inline && o.live && !o.signalled ==> Pending(s, c))
  }

  ghost predicate Inv(s: State) {
    && (forall t :: 0 <= t < |s.threads| ==> QueueOk(s, t))
    && (forall t, i :: 0 <= t < |s.threads| && 0 <= i < |s.threads[t].stack| ==> FrameOk(s, t, i))
    && (forall c :: 0 <= c < |s.calls| ==> CallOk(s, c))
  }

  lemma ApplyKeepsInv(s: State, step: Step)
    requires Inv(s) && Enabled(s, step)
    ensures Inv(Apply(s, step))
  {
    match step
    case External(t, todo) => ExternalKeepsInv(s, step);
    case Dispatch(t) => DispatchKeepsInv(s, step);
    case MarshalInline(t) => MarshalInlineKeepsInv(s, step);
    case MarshalPost(t) => MarshalPostKeepsInv(s, step);
    case ReturnInline(t, v) => ReturnInlineKeepsInv(s, step);
    case FinishInvoke(t, v) => FinishInvokeKeepsInv(s, step);
    case SetEvent(t) => SetEventKeepsInv(s, step);
    case FinishRun(t) => FinishRunKeepsInv(s, step);
    case Wake(t) => WakeKeepsInv(s, step);
  }

  lemma ExternalKeepsInv(s: State, step: Step)
    requires Inv(s) && step.External? && Enabled(s, step)
    ensures Inv(Apply(s, step))
  {
    hide Events;
    var s' := Apply(s, step);
    forall t | 0 <= t < |s'.threads| ensures QueueOk(s', t) { assert QueueOk(s, t); }
    forall t, i | 0 <= t < |s'.threads| && 0 <= i < |s'.threads[t].stack| ensures FrameOk(s', t, i) {
      assert FrameOk(s, t, i);
    }
    forall c | 0 <= c < |s'.calls| ensures CallOk(s', c) { if c < |s.calls| { assert CallOk(s, c); } }
  }

  lemma DispatchKeepsInv(s: State, step: Step)
    requires Inv(s) && step.Dispatch? && Enabled(s, step)
    ensures Inv(Apply(s, step))
  {
    hide Events;
    var s' := Apply(s, step);
    assert QueueOk(s, step.t) && CallOk(s, s.threads[step.t].queue[0]);
    forall t | 0 <= t < |s'.threads| ensures QueueOk(s', t) { assert QueueOk(s, t); }
    forall t, i | 0 <= t < |s'.threads| && 0 <= i < |s'.threads[t].stack| ensures FrameOk(s', t, i) {
      if t != step.t { assert FrameOk(s, t, i); }
    }
    forall c | 0 <= c < |s'.calls| ensures CallOk(s', c) { assert CallOk(s, c); }
  }

  lemma MarshalInlineKeepsInv(s: State, step: Step)
    requires Inv(s) && step.MarshalInline? && Enabled(s, step)
    ensures Inv(Apply(s, step))
  {
    hide Events;
    var s' := Apply(s, step);
    assert FrameOk(s, step.t, |s.threads[step.t].stack| - 1);
    forall t | 0 <= t < |s'.threads| ensures QueueOk(s', t) { assert QueueOk(s, t); }
    forall t, i | 0 <= t < |s'.threads| && 0 <= i < |s'.threads[t].stack| ensures FrameOk(s', t, i) {
      if t != step.t || i < |s.threads[t].stack| { assert FrameOk(s, t, i); }
    }
    forall c | 0 <= c < |s'.calls| ensures CallOk(s', c) { if c < |s.calls| { assert CallOk(s, c); } }
  }

  lemma MarshalPostKeepsInv(s: State, step: Step)
    requires Inv(s) && step.MarshalPost? && Enabled(s, step)
    ensures Inv(Apply(s, step))
  {
    hide Events;
    var s' := Apply(s, step);
    assert FrameOk(s, step.t, |s.threads[step.t].stack| - 1);
    forall t | 0 <= t < |s'.threads| ensures QueueOk(s', t) { assert QueueOk(s, t); }
    forall t, i | 0 <= t < |s'.threads| && 0 <= i < |s'.threads[t].stack| ensures FrameOk(s', t, i) {
      assert FrameOk(s, t, i);
    }
    forall c | 0 <= c < |s'.calls| ensures CallOk(s', c) { if c < |s.calls| { assert CallOk(s, c); } }
  }

  lemma ReturnInlineKeepsInv(s: State, step: Step)
    requires Inv(s) && step.ReturnInline? && Enabled(s, step)
    ensures Inv(Apply(s, step))
  {
    hide Events;
    var s' := Apply(s, step);
    assert FrameOk(s, step.t, |s.threads[step.t].stack| - 1);
    FramesAreDistinct(s);
    forall t | 0 <= t < |s'.threads| ensures QueueOk(s', t) { assert QueueOk(s, t); }
    forall t, i | 0 <= t < |s'.threads| && 0 <= i < |s'.threads[t].stack| ensures FrameOk(s', t, i) {
      assert FrameOk(s, t, i);
    }
    forall c | 0 <= c < |s'.calls| ensures CallOk(s', c) { assert CallOk(s, c); }
  }

  lemma FinishInvokeKeepsInv(s: State, step: Step)
    requires Inv(s) && step.FinishInvoke? && Enabled(s, step)
    ensures Inv(Apply(s, step))
  {
    hide Events;
    var s' := Apply(s, step);
    assert FrameOk(s, step.t, |s.threads[step.t].stack| - 1) && CallOk(s, Top(s.threads[step.t]).call);
    FramesAreDistinct(s);
    forall t | 0 <= t < |s'.threads| ensures QueueOk(s', t) { assert QueueOk(s, t); }
    forall t, i | 0 <= t < |s'.threads| && 0 <= i < |s'.threads[t].stack| ensures FrameOk(s', t, i) {
      assert FrameOk(s, t, i);
    }
    forall c | 0 <= c < |s'.calls| ensures CallOk(s', c) { assert CallOk(s, c); }
  }

  lemma SetEventKeepsInv(s: State, step: Step)
    requires Inv(s) && step.SetEvent? && Enabled(s, step)
    ensures Inv(Apply(s, step))
  {
    hide Events;
    var s' := Apply(s, step);
    assert FrameOk(s, step.t, |s.threads[step.t].stack| - 1);
    FramesAreDistinct(s);
    forall t | 0 <= t < |s'.threads| ensures QueueOk(s', t) { assert QueueOk(s, t); }
    forall t, i | 0 <= t < |s'.threads| && 0 <= i < |s'.threads[t].stack| ensures FrameOk(s', t, i) {
      assert FrameOk(s, t, i);
    }
    forall c | 0 <= c < |s'.calls| ensures CallOk(s', c) { assert CallOk(s, c); }
  }

  lemma FinishRunKeepsInv(s: State, step: Step)
    requires Inv(s) && step.FinishRun? && Enabled(s, step)
    ensures Inv(Apply(s, step))
  {
    hide Events;
    var s' := Apply(s, step);
    assert FrameOk(s, step.t, |s.threads[step.t].stack| - 1);
    FramesAreDistinct(s);
    forall t | 0 <= t < |s'.threads| ensures QueueOk(s', t) { assert QueueOk(s, t); }
    forall t, i | 0 <= t < |s'.threads| && 0 <= i < |s'.threads[t].stack| ensures FrameOk(s', t, i) {
      assert FrameOk(s, t, i);
    }
    forall c | 0 <= c < |s'.calls| ensures CallOk(s', c) { assert CallOk(s, c); }
  }

  lemma WakeKeepsInv(s: State, step: Step)
    requires Inv(s) && step.Wake? && Enabled(s, step)
    ensures Inv(Apply(s, step))
  {
    hide Events;
    var s' := Apply(s, step);
    assert FrameOk(s, step.t, |s.threads[step.t].stack| - 1) && CallOk(s, Top(s.threads[step.t]).phase.callee);
    FramesAreDistinct(s);
    forall t | 0 <= t < |s'.threads| ensures QueueOk(s', t) { assert QueueOk(s, t); }
    forall t, i | 0 <= t < |s'.threads| && 0 <= i < |s'.threads[t].stack| ensures FrameOk(s', t, i) {
      assert FrameOk(s, t, i);
    }
    forall c | 0 <= c < |s'.calls| ensures CallOk(s', c) { assert CallOk(s, c); }
  }

  /** No call has two frames. */
  lemma FramesAreDistinct(s: State)
    requires Inv(s)
    ensures forall t, u, i, j ::
              (0 <= t < |s.threads| && 0 <= u < |s.threads| && 0 <= i < |s.threads[t].stack|
                  && 0 <= j < |s.threads[u].stack|
               && s.threads[t].stack[i].call == s.threads[u].stack[j].call) ==> t == u && i == j
  {
    forall t, u, i, j |
      0 <= t < |s.threads| && 0 <= u < |s.threads| && 0 <= i < |s.threads[t].stack| && 0 <= j < |s.threads[u].stack|
      && s.threads[t].stack[i].call == s.threads[u].stack[j].call
      ensures t == u && i == j
    {
      assert FrameOk(s, t, i) && FrameOk(s, u, j);
      if i < j { StackAscends(s, t, i, j); }
      if j < i { StackAscends(s, t, j, i); }
    }
  }

  lemma {:induction false} StackAscends(s: State, t: Tid, i: nat, j: nat)
    requires Inv(s) && t < |s.threads| && i < j < |s.threads[t].stack|
    ensures s.threads[t].stack[i].call < s.threads[t].stack[j].call
  {
    assert FrameOk(s, t, j) && FrameOk(s, t, j - 1) && CallOk(s, s.threads[t].stack[j].call);
    if i < j - 1 { StackAscends(s, t, i, j - 1); }
  }

  /** Every reachable state satisfies the invariant. */
  lemma {:induction false} ReachableInv(n: nat, steps: seq<Step>)
    requires Exec(n, steps).Some?
    ensures Inv(Exec(n, steps).value) && |Exec(n, steps).value.threads| == n
  {
    if steps != [] {
      var before := steps[..|steps| - 1];
      ReachableInv(n, before);
      ApplyKeepsInv(Exec(n, before).value, steps[|steps| - 1]);
    }
  }

  // ---------- The life of a call object

  /** Two states that may differ in call objects outside `cs` only. */
  ghost predicate AgreeOn(s: State, u: State, cs: iset<Cid>) {
    && s.threads == u.threads && s.log == u.log && |s.calls| == |u.calls|
    && forall c :: 0 <= c < |s.calls| && c in cs ==> s.calls[c] == u.calls[c]
  }

  /** A step writes no call object outside `Touched`. */
  lemma WritesOnlyTouched(s: State, step: Step, c: Cid)
    requires Enabled(s, step) && c < |s.calls| && c !in Touched(s, step)
    ensures c < |Apply(s, step).calls| && Apply(s, step).calls[c] == s.calls[c]
  {
  }

  lemma ReadsSameToStart(s: State, u: State, step: Step)
    requires Enabled(s, step) && AgreeOn(s, u, iset c | c in Touched(s, step))
    ensures Enabled(u, step) && Touched(u, step) == Touched(s, step)
    ensures forall c :: c in Touched(s, step) && c < |s.calls| ==> s.calls[c] == u.calls[c]
  {
    assert forall c :: c in Touched(s, step) && c < |s.calls| ==> s.calls[c] == u.calls[c];
  }

  lemma ReadsSameForThreads(s: State, u: State, step: Step)
    requires Enabled(s, step) && Enabled(u, step) && s.threads == u.threads && |s.calls| == |u.calls|
    requires forall c :: c in Touched(s, step) && c < |s.calls| ==> s.calls[c] == u.calls[c]
    ensures Threads(s, step) == Threads(u, step)
  {
  }

  lemma ReadsSameForEvents(s: State, u: State, step: Step)
    requires Enabled(s, step) && Enabled(u, step) && s.threads == u.threads && |s.calls| == |u.calls|
    requires forall c :: c in Touched(s, step) && c < |s.calls| ==> s.calls[c] == u.calls[c]
    ensures Events(s, step) == Events(u, step)
  {
  }

  lemma ReadsSameForCalls(s: State, u: State, step: Step)
    requires Enabled(s, step) && Enabled(u, step) && s.threads == u.threads && |s.calls| == |u.calls|
    requires forall c :: c in Touched(s, step) && c < |s.calls| ==> s.calls[c] == u.calls[c]
    ensures |Calls(s, step)| == |Calls(u, step)|
    ensures forall c :: 0 <= c < |Calls(s, step)| && (c in Touched(s, step) || c >= |s.calls|) ==>
              Calls(s, step)[c] == Calls(u, step)[c]
  {
  }

  /** A step reads no call object outside `Touched`: whatever these hold, it is enabled and does the same. */
  lemma ReadsOnlyTouched(s: State, u: State, step: Step)
    requires Enabled(s, step) && AgreeOn(s, u, iset c | c in Touched(s, step))
    ensures Enabled(u, step) && Touched(u, step) == Touched(s, step)
    ensures AgreeOn(Apply(s, step), Apply(u, step), iset c | c in Touched(s, step) || c >= |s.calls|)
  {
    hide Enabled, Touched, Threads, Events, Calls;
    ReadsSameToStart(s, u, step);
    ReadsSameForThreads(s, u, step);
    ReadsSameForEvents(s, u, step);
    ReadsSameForCalls(s, u, step);
  }

  /** The call objects that are alive, and those still to be created. */
  ghost function Living(s: State): iset<Cid> {
    iset c: Cid | c >= |s.calls| || s.calls[c].live
  }

  lemma TouchesLive(s: State, u: State, step: Step)
    requires Inv(s) && Enabled(u, step) && AgreeOn(s, u, Living(s))
    ensures forall c :: c in Touched(u, step) ==> c < |s.calls| && s.calls[c].live && s.calls[c] == u.calls[c]
  {
    if step.Dispatch? {
      assert QueueOk(s, step.t);
      assert s.threads[step.t].queue[0] in Living(s);
    } else if !step.External? {
      assert FrameOk(s, step.t, |s.threads[step.t].stack| - 1);
      assert forall c :: c in Touched(u, step) ==> c in Living(s);
    }
  }

  /**
   No step of any run reads, writes or deletes a call object that is already dead: the dead ones may hold
   anything, and still the same steps are enabled, do the same, and leave the dead ones as they are.
   */
  lemma TouchesOnlyLive(n: nat, steps: seq<Step>, step: Step, u: State)
    requires Exec(n, steps).Some? && AgreeOn(Exec(n, steps).value, u, Living(Exec(n, steps).value))
    ensures var s := Exec(n, steps).value;
            && (Enabled(s, step) <==> Enabled(u, step))
            && (Enabled(s, step) ==>
                  && (forall c :: c in Touched(s, step) ==> c < |s.calls| && s.calls[c].live)
                  && AgreeOn(Apply(s, step), Apply(u, step), Living(s))
                  && forall c :: 0 <= c < |u.calls| && c !in Living(s) ==> Apply(u, step).calls[c] == u.calls[c])
  {
    var s := Exec(n, steps).value;
    ReachableInv(n, steps);
    if Enabled(u, step) {
      TouchesLive(s, u, step);
      ReadsOnlyTouched(u, s, step);
    }
    if Enabled(s, step) {
      TouchesLive(s, s, step);
      ReadsOnlyTouched(s, u, step);
      forall c | 0 <= c < |s.calls| && c !in Touched(s, step)
        ensures Apply(s, step).calls[c] == s.calls[c] && Apply(u, step).calls[c] == u.calls[c]
      {
        WritesOnlyTouched(s, step, c);
        WritesOnlyTouched(u, step, c);
      }
    }
  }

  /**
   A call object dies exactly once.  A posted one is freed by `Wake` on its caller's thread and
   an inline one by its own return; the queue deletes only ordinary tasks.
   */
  lemma FreedByCaller(n: nat, steps: seq<Step>, step: Step, c: Cid)
    requires Exec(n, steps).Some? && Enabled(Exec(n, steps).value, step) && c < |Exec(n, steps).value.calls|
    ensures var s := Exec(n, steps).value; var s' := Apply(s, step);
            && (!s.calls[c].live ==> !s'.calls[c].live)
            && (s.calls[c].live && !s'.calls[c].live ==>
                  match s.calls[c].kind
                  case Posted => step.Wake? && s.calls[c].parent == Some(Top(s.threads[step.t]).call)
                  case Inline => step.ReturnInline? && Top(s.threads[step.t]).call == c
                  case Plain => step.FinishRun? && Top(s.threads[step.t]).call == c)
  {
    var s := Exec(n, steps).value;
    ReachableInv(n, steps);
    if !step.External? && !step.Dispatch? {
      assert FrameOk(s, step.t, |s.threads[step.t].stack| - 1);
    }
  }

  /**
   Once a posted call has returned it is dead and in no queue.  Its target thread may not have
   left `Run` yet, but then it has set the event and all it can still do is to drop the pointer.
   */
  lemma ReturnedIsGone(n: nat, steps: seq<Step>, c: Cid)
    requires Exec(n, steps).Some? && c < |Exec(n, steps).value.calls|
    requires Exec(n, steps).value.calls[c].kind == Posted && Exec(n, steps).value.calls[c].stage.Returned?
    ensures var s := Exec(n, steps).value;
            && !s.calls[c].live
            && (forall t :: 0 <= t < |s.threads| ==> c !in s.threads[t].queue)
            && (forall t, i ::
                  0 <= t < |s.threads| && 0 <= i < |s.threads[t].stack| && s.threads[t].stack[i].call == c ==>
                  && i == |s.threads[t].stack| - 1 && s.threads[t].stack[i].phase == Ran(false)
                  && (forall step :: Enabled(s, step) && step.t == t && !step.External? ==>
                        step.FinishRun? && Touched(s, step) == {}))
  {
    var s := Exec(n, steps).value;
    ReachableInv(n, steps);
    assert CallOk(s, c);
    forall t | 0 <= t < |s.threads| ensures c !in s.threads[t].queue { assert QueueOk(s, t); }
    hide Enabled, Touched, Exec;
    forall t, i | 0 <= t < |s.threads| && 0 <= i < |s.threads[t].stack| && s.threads[t].stack[i].call == c
      ensures i == |s.threads[t].stack| - 1 && s.threads[t].stack[i].phase == Ran(false)
      ensures forall step :: Enabled(s, step) && step.t == t && !step.External? ==>
                step.FinishRun? && Touched(s, step) == {}
    {
      assert FrameOk(s, t, i);
      forall step | Enabled(s, step) && step.t == t && !step.External?
        ensures step.FinishRun? && Touched(s, step) == {}
      {
        SignalledOnlyFinishes(s, step);
      }
    }
  }

  lemma SignalledOnlyFinishes(s: State, step: Step)
    requires Enabled(s, step) && !step.External? && s.threads[step.t].stack != []
    requires Top(s.threads[step.t]).phase == Ran(false)
    requires Top(s.threads[step.t]).call < |s.calls| && s.calls[Top(s.threads[step.t]).call].kind == Posted
    ensures step.FinishRun? && Touched(s, step) == {}
  {
  }

  /** Runs one more step. */
  lemma Then(n: nat, steps: seq<Step>, s: State, step: Step) returns (more: seq<Step>, s': State)
    requires Exec(n, steps) == Some(s) && Enabled(s, step)
    ensures more == steps + [step] && s' == Apply(s, step) && Exec(n, more) == Some(s')
  {
    more, s' := steps + [step], Apply(s, step);
    assert more[..|more| - 1] == steps;
  }

  lemma SingleFrame(th: Thread, f: Frame, g: Frame)
    requires th.stack == [f]
    ensures Top(th) == f && Below(th) == [] && SetTop(th, g) == Thread([g], th.queue)
  {
  }

  /** A run with one task on thread 0 that is about to call thread 1. */
  lemma TaskRunning() returns (p: seq<Step>, s: State)
    ensures Exec(2, p) == Some(s)
    ensures s.threads == [Thread([Frame(0, [Call(1, [])], Running)], []), Thread([], [])]
    ensures s.calls == [CallObject(Plain, None, 0, [Call(1, [])], None, false, true, Begun(0))]
  {
    assert Empty(2).threads == [Thread([], []), Thread([], [])];
    p, s := Then(2, [], Empty(2), External(0, [Call(1, [])]));
    assert s.threads[0].queue == [0] && s.threads[1] == Thread([], []);
    p, s := Then(2, p, s, Dispatch(0));
    assert s.threads[0].queue == [];
  }

  /** The task waits for the call it posted. */
  lemma CallerWaits() returns (p: seq<Step>, s: State)
    ensures Exec(2, p) == Some(s)
    ensures s.threads == [Thread([Frame(0, [], Blocked(1))], []), Thread([], [1])]
    ensures s.calls == [CallObject(Plain, None, 0, [Call(1, [])], None, false, true, Begun(0)),
                        CallObject(Posted, Some(0), 1, [], None, false, true, Fresh)]
  {
    var calls := [Call(1, [])];
    assert calls[1..] == [];
    p, s := TaskRunning();
    SingleFrame(s.threads[0], Frame(0, calls, Running), Frame(0, [], Blocked(1)));
    p, s := Then(2, p, s, MarshalPost(0));
    assert s.threads[1].queue == [1];
  }

  ghost predicate CalleeAt(s: State, phase: Phase) {
    && s.threads == [Thread([Frame(0, [], Blocked(1))], []), Thread([Frame(1, [], phase)], [])]
    && |s.calls| == 2 && s.calls[1].kind == Posted && s.calls[1].target == 1
  }

  lemma CalleeBegins() returns (p: seq<Step>, s: State)
    ensures Exec(2, p) == Some(s) && CalleeAt(s, Running)
  {
    p, s := CallerWaits();
    p, s := Then(2, p, s, Dispatch(1));
    assert s.threads[1].queue == [];
  }

  lemma CalleeEnds() returns (p: seq<Step>, s: State)
    ensures Exec(2, p) == Some(s) && CalleeAt(s, Invoked) && s.calls[1].result == Some(7)
  {
    p, s := CalleeBegins();
    SingleFrame(s.threads[1], Frame(1, [], Running), Frame(1, [], Invoked));
    p, s := Then(2, p, s, FinishInvoke(1, 7));
  }

  lemma CalleeSignals() returns (p: seq<Step>, s: State)
    ensures Exec(2, p) == Some(s) && CalleeAt(s, Ran(false)) && s.calls[1].result == Some(7) && s.calls[1].signalled
  {
    p, s := CalleeEnds();
    SingleFrame(s.threads[1], Frame(1, [], Invoked), Frame(1, [], Ran(false)));
    p, s := Then(2, p, s, SetEvent(1));
  }

  /** The window is real: here `Marshal` has returned and the target thread still holds the dangling pointer. */
  lemma DanglingUntilRunReturns()
    ensures exists steps ::
              && Exec(2, steps).Some?
              && var s := Exec(2, steps).value;
                 && |s.calls| == 2 && s.calls[1].stage == Returned(1, 7)
                 && |s.threads| == 2 && s.threads[1].stack == [Frame(1, [], Ran(false))]
  {
    var p, s := CalleeSignals();
    SingleFrame(s.threads[0], Frame(0, [], Blocked(1)), Frame(0, [], Running));
    p, s := Then(2, p, s, Wake(0));
  }
}
