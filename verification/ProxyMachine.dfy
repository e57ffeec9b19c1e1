/**
 The cross-thread call protocol of `MethodCall` and `ConstMethodCall`, as a
 state machine over its atomic steps.

 Every thread owns a FIFO task queue and a stack of running frames.  A frame is
 either a task that the thread's message loop took from the queue, or a method
 that `Marshal` invoked inline because it was already on the right thread.  A
 call object is created by `Marshal`'s caller and dies when `Marshal` returns.
 */
module ProxyMachine {
  import opened Wrappers

  type Tid = nat
  type Cid = nat

  /** A proxied call: the thread it must run on, and the calls its method makes in turn. */
  datatype Call = Call(target: Tid, body: seq<Call>)

  /** How a task came to run: an ordinary task, an inline `Marshal`, or a posted `Marshal`. */
  datatype Kind = Plain | Inline | Posted

  /** How far an invocation has come. */
  datatype Stage = Fresh | Begun(t: Tid) | Ended(t: Tid, v: int) | Returned(t: Tid, v: int)

  datatype CallObject = CallObject(
    kind: Kind,
    parent: Option<Cid>,
    target: Tid,
    body: seq<Call>,
    result: Option<int>,  // r_
    signalled: bool,      // event_
    live: bool,
    stage: Stage)

  /**
   What a frame does next: run its method, wait on an event, set its own event, or hand back to the
   queue what `Run` returned.
   */
  datatype Phase = Running | Blocked(callee: Cid) | Invoked | Ran(result: bool)

  datatype Frame = Frame(call: Cid, todo: seq<Call>, phase: Phase)

  datatype Thread = Thread(stack: seq<Frame>, queue: seq<Cid>)

  /** The observable history of a run. */
  datatype Event =
    | Post(c: Cid, t: Tid)
    | Marshal(c: Cid, caller: Cid)
    | Begin(c: Cid, t: Tid, within: Option<Cid>)
    | End(c: Cid, t: Tid, v: int)
    | Return(c: Cid, v: int)

  datatype State = State(threads: seq<Thread>, calls: seq<CallObject>, log: seq<Event>)

  datatype Step =
    | External(t: Tid, todo: seq<Call>)  // somebody posts an ordinary task
    | Dispatch(t: Tid)                   // the message loop takes the next task
    | MarshalInline(t: Tid)              // Marshal on the current thread: Invoke
    | MarshalPost(t: Tid)                // Marshal on another thread: PostTask, then Wait
    | ReturnInline(t: Tid, v: int)       // the inline method returns v through Marshal
    | FinishInvoke(t: Tid, v: int)       // Run: the method returned v into r_
    | SetEvent(t: Tid)                   // Run: event_.Set(), and then return false
    | FinishRun(t: Tid)                  // Run returned; the queue deletes what it still owns
    | Wake(t: Tid)                       // Wait returns, Marshal returns r_, the call object dies

  /** The queue deletes the task unless its `Run` returned false; an ordinary task returns true. */
  predicate Deletes(f: Frame) {
    f.phase != Ran(false)
  }

  predicate Idle(s: State, t: Tid) {
    t < |s.threads| && s.threads[t].stack == []
  }

  predicate Busy(s: State, t: Tid) {
    t < |s.threads| && s.threads[t].stack != [] && Top(s.threads[t]).call < |s.calls|
  }

  function Top(th: Thread): Frame
    requires th.stack != []
  {
    th.stack[|th.stack| - 1]
  }

  function Below(th: Thread): seq<Frame>
    requires th.stack != []
  {
    th.stack[..|th.stack| - 1]
  }

  predicate InRange(calls: seq<Call>, n: nat) {
    forall i :: 0 <= i < |calls| ==> calls[i].target < n && InRange(calls[i].body, n)
  }

  /** The top frame is running its method and has no call left to make. */
  predicate BodyDone(s: State, t: Tid) {
    Busy(s, t) && Top(s.threads[t]).phase == Running && Top(s.threads[t]).todo == []
  }

  predicate NextCall(s: State, t: Tid) {
    Busy(s, t) && Top(s.threads[t]).phase == Running && Top(s.threads[t]).todo != []
  }

  predicate Enabled(s: State, step: Step) {
    match step
    case External(t, todo) => t < |s.threads| && InRange(todo, |s.threads|)
    case Dispatch(t) => Idle(s, t) && s.threads[t].queue != [] && s.threads[t].queue[0] < |s.calls|
    case MarshalInline(t) => NextCall(s, t) && Top(s.threads[t]).todo[0].target == t
    case MarshalPost(t) =>
      NextCall(s, t) && Top(s.threads[t]).todo[0].target != t && Top(s.threads[t]).todo[0].target < |s.threads|
    case ReturnInline(t, v) => BodyDone(s, t) && s.calls[Top(s.threads[t]).call].kind == Inline
    case FinishInvoke(t, v) => BodyDone(s, t) && s.calls[Top(s.threads[t]).call].kind == Posted
    case SetEvent(t) => Busy(s, t) && Top(s.threads[t]).phase == Invoked
    case FinishRun(t) =>
      Busy(s, t) && (
        || Top(s.threads[t]).phase.Ran?
        || (BodyDone(s, t) && s.calls[Top(s.threads[t]).call].kind == Plain))
    case Wake(t) =>
      Busy(s, t) && Top(s.threads[t]).phase.Blocked? &&
      var d := Top(s.threads[t]).phase.callee;
      d < |s.calls| && s.calls[d].signalled && s.calls[d].result.Some?
  }

  function SetTop(th: Thread, f: Frame): Thread
    requires th.stack != []
  {
    th.(stack := Below(th) + [f])
  }

  /** What a step adds to the history. */
  function Events(s: State, step: Step): seq<Event>
    requires Enabled(s, step)
  {
    match step
    case External(t, todo) => [Post(|s.calls|, t)]
    case Dispatch(t) => [Begin(s.threads[t].queue[0], t, None)]
    case MarshalInline(t) =>
      var f := Top(s.threads[t]);
      [Marshal(|s.calls|, f.call), Begin(|s.calls|, t, Some(f.call))]
    case MarshalPost(t) =>
      var f := Top(s.threads[t]);
      [Marshal(|s.calls|, f.call), Post(|s.calls|, f.todo[0].target)]
    case ReturnInline(t, v) => [End(Top(s.threads[t]).call, t, v), Return(Top(s.threads[t]).call, v)]
    case FinishInvoke(t, v) => [End(Top(s.threads[t]).call, t, v)]
    case SetEvent(t) => []
    case FinishRun(t) =>
      var f := Top(s.threads[t]);
      if Deletes(f) then [End(f.call, t, 0)] else []
    case Wake(t) =>
      var d := Top(s.threads[t]).phase.callee;
      [Return(d, s.calls[d].result.value)]
  }

  function Threads(s: State, step: Step): (threads: seq<Thread>)
    requires Enabled(s, step)
    ensures |threads| == |s.threads|
  {
    var th := s.threads[step.t];
    match step
    case External(t, todo) => s.threads[t := th.(queue := th.queue + [|s.calls|])]
    case Dispatch(t) => s.threads[t := Thread([Frame(th.queue[0], s.calls[th.queue[0]].body, Running)], th.queue[1..])]
    case MarshalInline(t) =>
      var f := Top(th);
      var caller := SetTop(th, f.(todo := f.todo[1..]));
      s.threads[t := caller.(stack := caller.stack + [Frame(|s.calls|, f.todo[0].body, Running)])]
    case MarshalPost(t) =>
      var f := Top(th);
      var u := f.todo[0].target;
      var caller := SetTop(th, f.(todo := f.todo[1..], phase := Blocked(|s.calls|)));
      s.threads[t := caller][u := s.threads[u].(queue := s.threads[u].queue + [|s.calls|])]
    case ReturnInline(t, v) => s.threads[t := th.(stack := Below(th))]
    case FinishInvoke(t, v) => s.threads[t := SetTop(th, Top(th).(phase := Invoked))]
    case SetEvent(t) => s.threads[t := SetTop(th, Top(th).(phase := Ran(false)))]
    case FinishRun(t) => s.threads[t := th.(stack := Below(th))]
    case Wake(t) => s.threads[t := SetTop(th, Top(th).(phase := Running))]
  }

  function Calls(s: State, step: Step): seq<CallObject>
    requires Enabled(s, step)
  {
    match step
    case External(t, todo) => s.calls + [CallObject(Plain, None, t, todo, None, false, true, Fresh)]
    case Dispatch(t) =>
      var c := s.threads[t].queue[0];
      s.calls[c := s.calls[c].(stage := Begun(t))]
    case MarshalInline(t) =>
      var f := Top(s.threads[t]);
      s.calls + [CallObject(Inline, Some(f.call), t, f.todo[0].body, None, false, true, Begun(t))]
    case MarshalPost(t) =>
      var f := Top(s.threads[t]);
      s.calls + [CallObject(Posted, Some(f.call), f.todo[0].target, f.todo[0].body, None, false, true, Fresh)]
    case ReturnInline(t, v) =>
      var c := Top(s.threads[t]).call;
      s.calls[c := s.calls[c].(result := Some(v), live := false, stage := Returned(t, v))]
    case FinishInvoke(t, v) =>
      var c := Top(s.threads[t]).call;
      s.calls[c := s.calls[c].(result := Some(v), stage := Ended(t, v))]
    case SetEvent(t) =>
      var c := Top(s.threads[t]).call;
      s.calls[c := s.calls[c].(signalled := true)]
    case FinishRun(t) =>
      var f := Top(s.threads[t]);
      if Deletes(f) then s.calls[f.call := s.calls[f.call].(live := false, stage := Ended(t, 0))] else s.calls
    case Wake(t) =>
      var d := Top(s.threads[t]).phase.callee;
      s.calls[d := s.calls[d].(live := false, stage := Returned(s.calls[d].target, s.calls[d].result.value))]
  }

  function Apply(s: State, step: Step): State
    requires Enabled(s, step)
  {
    State(Threads(s, step), Calls(s, step), s.log + Events(s, step))
  }

  /** The call objects whose members a step reads, writes or deletes. */
  function Touched(s: State, step: Step): set<Cid>
    requires Enabled(s, step)
  {
    match step
    case External(t, todo) => {}
    case Dispatch(t) => {s.threads[t].queue[0]}
    case FinishRun(t) => if Deletes(Top(s.threads[t])) then {Top(s.threads[t]).call} else {}
    case Wake(t) => {Top(s.threads[t]).phase.callee}
    case _ => {Top(s.threads[step.t]).call}
  }

  function Empty(n: nat): State {
    State(seq(n, i => Thread([], [])), [], [])
  }

  /** The state after running the given steps from `n` idle threads, if every one of them was enabled. */
  function Exec(n: nat, steps: seq<Step>): Option<State> {
    if steps == [] then Some(Empty(n)) else
      var before := Exec(n, steps[..|steps| - 1]);
      var step := steps[|steps| - 1];
      if before.Some? && Enabled(before.value, step) then Some(Apply(before.value, step)) else None
  }
}
