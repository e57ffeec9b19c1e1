/**
 What the history of a run says: each call runs exactly once and hands back its
 own result, the invocations on one thread never interleave, tasks start in the
 order they were posted, and a caller has one call in flight at a time.

 Each property is an automaton over the history.  The automaton rejects
 (`None`) a history that breaks the property, and the run lemmas show that on
 every reachable state it accepts with exactly the value found in the state.
 */
module ProxyHistory {
  import opened Wrappers
  import opened ProxyMachine
  import opened ProxySafety

  // ---------- Automata over histories

  type Automaton<!A> = (A, Event) -> Option<A>

  /** The automaton's state after the history, or None if it rejected some event. */
  function Accept<A>(f: Automaton<A>, start: A, log: seq<Event>): Option<A> {
    if log == [] then Some(start) else
      var a := Accept(f, start, log[..|log| - 1]);
      if a == None then None else f(a.value, log[|log| - 1])
  }

  lemma AcceptOne<A>(f: Automaton<A>, start: A, log: seq<Event>, e: Event)
    requires Accept(f, start, log).Some?
    ensures Accept(f, start, log + [e]) == f(Accept(f, start, log).value, e)
  {
    assert (log + [e])[..|log|] == log;
  }

  lemma AcceptTwo<A>(f: Automaton<A>, start: A, log: seq<Event>, d: Event, e: Event)
    requires Accept(f, start, log).Some? && f(Accept(f, start, log).value, d).Some?
    ensures Accept(f, start, log + [d, e]) == f(f(Accept(f, start, log).value, d).value, e)
  {
    AcceptOne(f, start, log, d);
    AcceptOne(f, start, log + [d], e);
    assert log + [d, e] == (log + [d]) + [e];
  }

  /** The stages of call `c`: Begin, then End on the same thread, then Return with the same value. */
  function StageAfter(g: Stage, e: Event, c: Cid): Option<Stage> {
    match e
    case Begin(d, t, _) => if d != c then Some(g) else if g == Fresh then Some(Begun(t)) else None
    case End(d, t, v) => if d != c then Some(g) else if g == Begun(t) then Some(Ended(t, v)) else None
    case Return(d, v) =>
      if d != c then Some(g) else if g.Ended? && g.v == v then Some(Returned(g.t, v)) else None
    case _ => Some(g)
  }

  function StageBook(c: Cid): Automaton<Stage> {
    (g: Stage, e: Event) => StageAfter(g, e, c)
  }

  function StageOf(log: seq<Event>, c: Cid): Option<Stage> {
    Accept(StageBook(c), Fresh, log)
  }

  /** The invocations open on thread `t`: they close in reverse order, and only the innermost may open another. */
  function OpenAfter(open: seq<Cid>, e: Event, t: Tid): Option<seq<Cid>> {
    match e
    case Begin(c, u, within) =>
      if u != t then Some(open)
      else if within == (if open == [] then None else Some(open[|open| - 1])) then Some(open + [c])
      else None
    case End(c, u, v) =>
      if u != t then Some(open)
      else if open != [] && open[|open| - 1] == c then Some(open[..|open| - 1])
      else None
    case _ => Some(open)
  }

  function OpenBook(t: Tid): Automaton<seq<Cid>> {
    (open: seq<Cid>, e: Event) => OpenAfter(open, e, t)
  }

  function OpenOn(log: seq<Event>, t: Tid): Option<seq<Cid>> {
    Accept(OpenBook(t), [], log)
  }

  /** The call that `p` is making: the next one may be marshalled only after it returned. */
  function InFlightAfter(k: Option<Cid>, e: Event, p: Cid): Option<Option<Cid>> {
    match e
    case Marshal(c, q) => if q != p then Some(k) else if k == None then Some(Some(c)) else None
    case Return(c, v) => Some(if k == Some(c) then None else k)
    case _ => Some(k)
  }

  function InFlightBook(p: Cid): Automaton<Option<Cid>> {
    (k: Option<Cid>, e: Event) => InFlightAfter(k, e, p)
  }

  function InFlight(log: seq<Event>, p: Cid): Option<Option<Cid>> {
    Accept(InFlightBook(p), None, log)
  }

  /** Thread `t`'s tasks that were posted but not yet started, if they start in the order they were posted. */
  function WaitingAfter(q: seq<Cid>, e: Event, t: Tid): Option<seq<Cid>> {
    match e
    case Post(c, u) => if u != t then Some(q) else Some(q + [c])
    case Begin(c, u, within) =>
      if u != t || within.Some? then Some(q) else if q != [] && q[0] == c then Some(q[1..]) else None
    case _ => Some(q)
  }

  function WaitingBook(t: Tid): Automaton<seq<Cid>> {
    (q: seq<Cid>, e: Event) => WaitingAfter(q, e, t)
  }

  function Waiting(log: seq<Event>, t: Tid): Option<seq<Cid>> {
    Accept(WaitingBook(t), [], log)
  }

  // ---------- What the automata show in the state

  function StageIn(s: State, c: Cid): Stage {
    if c < |s.calls| then s.calls[c].stage else Fresh
  }

  predicate IsOpen(f: Frame) {
    f.phase.Running? || f.phase.Blocked?
  }

  function OpenCalls(stack: seq<Frame>): seq<Cid> {
    if stack == [] then [] else
      var f := stack[|stack| - 1];
      OpenCalls(stack[..|stack| - 1]) + if IsOpen(f) then [f.call] else []
  }

  /** Frame `i` belongs to `p`, which waits for `c`: blocked, or because `c` runs inline above it. */
  ghost predicate WaitsIn(stack: seq<Frame>, p: Cid, c: Cid, i: nat) {
    && i < |stack|
    && stack[i].call == p
    && (stack[i].phase == Blocked(c) || (i + 1 < |stack| && stack[i + 1].call == c))
  }

  /** The caller of `c` waits for it on its own thread. */
  ghost predicate Awaited(s: State, c: Cid)
    requires Inv(s) && c < |s.calls| && s.calls[c].parent.Some?
  {
    assert CallOk(s, c) && CallOk(s, s.calls[c].parent.value);
    exists i: nat :: WaitsIn(s.threads[s.calls[s.calls[c].parent.value].target].stack, s.calls[c].parent.value, c, i)
  }

  ghost predicate CallerOk(s: State, c: Cid)
    requires Inv(s) && c < |s.calls|
  {
    s.calls[c].parent.Some? ==>
      var p := s.calls[c].parent.value;
      && (s.calls[c].live ==> Awaited(s, c))
      && (s.calls[c].live <==> InFlight(s.log, p) == Some(Some(c)))
  }

  ghost predicate InFlightOk(s: State, p: Cid) {
    InFlight(s.log, p).Some? &&
    (InFlight(s.log, p).value.Some? ==>
       var c := InFlight(s.log, p).value.value;
       c < |s.calls| && s.calls[c].parent == Some(p) && s.calls[c].live)
  }

  ghost predicate LogOk(s: State)
    requires Inv(s)
  {
    && (forall c: Cid :: StageOf(s.log, c) == Some(StageIn(s, c)))
    && (forall t :: 0 <= t < |s.threads| ==> OpenOn(s.log, t) == Some(OpenCalls(s.threads[t].stack)))
    && (forall t :: 0 <= t < |s.threads| ==> Waiting(s.log, t) == Some(s.threads[t].queue))
    && (forall p: Cid :: InFlightOk(s, p))
    && (forall c :: 0 <= c < |s.calls| ==> CallerOk(s, c))
  }

  // ---------- Preservation, one automaton at a time

  /** What an automaton does with those events. */
  function Feed<A>(f: Automaton<A>, a: A, es: seq<Event>): Option<A>
  {
    if |es| == 0 then Some(a)
    else if |es| == 1 then f(a, es[0])
    else var b := f(a, es[0]); if b == None then None else f(b.value, es[1])
  }

  lemma AcceptStep<A>(f: Automaton<A>, start: A, s: State, step: Step)
    requires Enabled(s, step) && Accept(f, start, s.log).Some?
    requires Feed(f, Accept(f, start, s.log).value, Events(s, step)).Some?
    ensures Accept(f, start, Apply(s, step).log) == Feed(f, Accept(f, start, s.log).value, Events(s, step))
  {
    var es := Events(s, step);
    if |es| == 0 {
      assert s.log + es == s.log;
    } else if |es| == 1 {
      assert es == [es[0]];
      AcceptOne(f, start, s.log, es[0]);
    } else {
      assert es == [es[0], es[1]];
      AcceptTwo(f, start, s.log, es[0], es[1]);
    }
  }

  lemma TopOk(s: State, t: Tid)
    requires Inv(s) && Busy(s, t)
    ensures FrameOk(s, t, |s.threads[t].stack| - 1) && CallOk(s, Top(s.threads[t]).call)
    ensures Top(s.threads[t]).phase.Blocked? ==>
              Top(s.threads[t]).phase.callee < |s.calls| && CallOk(s, Top(s.threads[t]).phase.callee)
  {
    assert FrameOk(s, t, |s.threads[t].stack| - 1);
  }

  lemma QueuesOk(s: State, t: Tid)
    requires Inv(s) && t < |s.threads|
    ensures QueueOk(s, t)
  {
  }

  lemma StageStep(s: State, step: Step, c: Cid)
    requires Inv(s) && Enabled(s, step)
    ensures Feed(StageBook(c), StageIn(s, c), Events(s, step)) == Some(StageIn(Apply(s, step), c))
  {
    hide Inv, Threads;
    if step.Dispatch? {
      QueuesOk(s, step.t);
    } else if !step.External? {
      TopOk(s, step.t);
    }
  }

  lemma WaitingStep(s: State, step: Step, t: Tid)
    requires Inv(s) && Enabled(s, step) && t < |s.threads|
    ensures Feed(WaitingBook(t), s.threads[t].queue, Events(s, step)) == Some(Apply(s, step).threads[t].queue)
  {
    if !step.External? && !step.Dispatch? { TopOk(s, step.t); }
  }

  lemma OpenPushed(stack: seq<Frame>, f: Frame)
    ensures OpenCalls(stack + [f]) == OpenCalls(stack) + if IsOpen(f) then [f.call] else []
  {
    assert (stack + [f])[..|stack|] == stack;
  }

  lemma OpenPopped(th: Thread)
    requires th.stack != []
    ensures !IsOpen(Top(th)) ==> OpenCalls(th.stack) == OpenCalls(Below(th))
    ensures IsOpen(Top(th)) ==>
              var open := OpenCalls(th.stack);
              open != [] && open[|open| - 1] == Top(th).call && open[..|open| - 1] == OpenCalls(Below(th))
  {
    var open := OpenCalls(Below(th));
    assert (open + [Top(th).call])[..|open|] == open;
  }

  /** Replacing the top frame by one that is equally open changes nothing. */
  lemma OpenReplaced(th: Thread, f: Frame)
    requires th.stack != [] && f.call == Top(th).call
    requires IsOpen(f) == IsOpen(Top(th))
    ensures OpenCalls(SetTop(th, f).stack) == OpenCalls(th.stack)
  {
    OpenPushed(Below(th), f);
  }

  /** Fed the events of a step, the automaton still agrees with the stack of thread `t`. */
  ghost predicate OpenAgrees(s: State, step: Step, t: Tid)
    requires Enabled(s, step) && t < |s.threads|
  {
    Feed(OpenBook(t), OpenCalls(s.threads[t].stack), Events(s, step)) ==
        Some(OpenCalls(Apply(s, step).threads[t].stack))
  }

  lemma OpenStep(s: State, step: Step, t: Tid)
    requires Inv(s) && Enabled(s, step) && t < |s.threads|
    ensures OpenAgrees(s, step, t)
  {
    if t != step.t {
      OpenStepElsewhere(s, step, t);
    } else {
      match step
      case External(_, todo) => OpenStepExternal(s, step);
      case Dispatch(_) => OpenStepDispatch(s, step);
      case MarshalInline(_) => OpenStepInline(s, step);
      case MarshalPost(_) => OpenStepPost(s, step);
      case ReturnInline(_, v) => OpenStepReturn(s, step);
      case FinishInvoke(_, v) => OpenStepInvoked(s, step);
      case SetEvent(_) => OpenStepSet(s, step);
      case FinishRun(_) => OpenStepFinish(s, step);
      case Wake(_) => OpenStepWake(s, step);
    }
  }

  lemma OpenStepElsewhere(s: State, step: Step, t: Tid)
    requires Inv(s) && Enabled(s, step) && t < |s.threads| && t != step.t
    ensures OpenAgrees(s, step, t)
  {
    assert Apply(s, step).threads[t].stack == s.threads[t].stack;
  }

  lemma OpenStepExternal(s: State, step: Step)
    requires Enabled(s, step) && step.External?
    ensures OpenAgrees(s, step, step.t)
  {
  }

  lemma OpenStepDispatch(s: State, step: Step)
    requires Enabled(s, step) && step.Dispatch?
    ensures OpenAgrees(s, step, step.t)
  {
    var c := s.threads[step.t].queue[0];
    OpenPushed([], Frame(c, s.calls[c].body, Running));
  }

  lemma OpenStepInline(s: State, step: Step)
    requires Enabled(s, step) && step.MarshalInline?
    ensures OpenAgrees(s, step, step.t)
  {
    hide Calls;
    var th, id := s.threads[step.t], |s.calls|;
    var caller := Top(th).(todo := Top(th).todo[1..]);
    var callee := Frame(id, Top(th).todo[0].body, Running);
    OpenReplaced(th, caller);
    OpenPushed(Below(th) + [caller], callee);
    var open := OpenCalls(th.stack);
    assert Threads(s, step)[step.t].stack == Below(th) + [caller] + [callee];
    assert Events(s, step) == [Marshal(id, caller.call), Begin(id, step.t, Some(caller.call))];
    assert open == OpenCalls(Below(th)) + [caller.call];
    assert OpenBook(step.t)(open, Begin(id, step.t, Some(caller.call))) == Some(open + [id]);
  }

  lemma OpenStepPost(s: State, step: Step)
    requires Enabled(s, step) && step.MarshalPost?
    ensures OpenAgrees(s, step, step.t)
  {
    hide Calls;
    var th := s.threads[step.t];
    var f := Top(th).(todo := Top(th).todo[1..], phase := Blocked(|s.calls|));
    OpenReplaced(th, f);
    var id, u, open := |s.calls|, Top(th).todo[0].target, OpenCalls(th.stack);
    assert Events(s, step) == [Marshal(id, f.call), Post(id, u)];
    assert Threads(s, step)[step.t].stack == SetTop(th, f).stack;
    assert OpenBook(step.t)(open, Marshal(id, f.call)) == Some(open);
    assert OpenBook(step.t)(open, Post(id, u)) == Some(open);
  }

  /** Events of which the first ends the invocation on top. */
  lemma OpenStepEnds(th: Thread, t: Tid, v: int, es: seq<Event>)
    requires th.stack != [] && IsOpen(Top(th))
    requires es == [End(Top(th).call, t, v)] || es == [End(Top(th).call, t, v), Return(Top(th).call, v)]
    ensures Feed(OpenBook(t), OpenCalls(th.stack), es) == Some(OpenCalls(Below(th)))
  {
    hide Feed, OpenBook;
    OpenPopped(th);
    FeedEnd(t, OpenCalls(th.stack), OpenCalls(Below(th)), Top(th).call, v, es);
  }

  lemma FeedEnd(t: Tid, open: seq<Cid>, rest: seq<Cid>, c: Cid, v: int, es: seq<Event>)
    requires es == [End(c, t, v)] || es == [End(c, t, v), Return(c, v)]
    requires open != [] && open[|open| - 1] == c && open[..|open| - 1] == rest
    ensures Feed(OpenBook(t), open, es) == Some(rest)
  {
    assert OpenBook(t)(open, End(c, t, v)) == Some(rest) && OpenBook(t)(rest, Return(c, v)) == Some(rest);
  }

  lemma OpenStepReturn(s: State, step: Step)
    requires Enabled(s, step) && step.ReturnInline?
    ensures OpenAgrees(s, step, step.t)
  {
    hide Calls, Feed, OpenBook;
    var th := s.threads[step.t];
    assert Events(s, step) == [End(Top(th).call, step.t, step.v), Return(Top(th).call, step.v)];
    assert Threads(s, step)[step.t].stack == Below(th);
    OpenStepEnds(th, step.t, step.v, Events(s, step));
  }

  lemma OpenStepInvoked(s: State, step: Step)
    requires Enabled(s, step) && step.FinishInvoke?
    ensures OpenAgrees(s, step, step.t)
  {
    hide Calls, Feed, OpenBook;
    var th := s.threads[step.t];
    var f := Top(th).(phase := Invoked);
    assert Events(s, step) == [End(Top(th).call, step.t, step.v)];
    assert Threads(s, step)[step.t].stack == Below(th) + [f];
    OpenPushed(Below(th), f);
    assert OpenCalls(Below(th) + [f]) == OpenCalls(Below(th));
    OpenStepEnds(th, step.t, step.v, Events(s, step));
  }

  lemma OpenStepSet(s: State, step: Step)
    requires Enabled(s, step) && step.SetEvent?
    ensures OpenAgrees(s, step, step.t)
  {
    OpenReplaced(s.threads[step.t], Top(s.threads[step.t]).(phase := Ran(false)));
  }

  lemma OpenStepFinish(s: State, step: Step)
    requires Inv(s) && Enabled(s, step) && step.FinishRun?
    ensures OpenAgrees(s, step, step.t)
  {
    TopOk(s, step.t);
    if Top(s.threads[step.t]).phase.Ran? {
      OpenStepReleased(s, step);
    } else {
      OpenStepDeleted(s, step);
    }
  }

  lemma OpenStepReleased(s: State, step: Step)
    requires Enabled(s, step) && step.FinishRun? && Top(s.threads[step.t]).phase == Ran(false)
    ensures OpenAgrees(s, step, step.t)
  {
    hide Calls;
    var th := s.threads[step.t];
    OpenPopped(th);
    assert Events(s, step) == [] && Threads(s, step)[step.t].stack == Below(th);
    assert OpenCalls(th.stack) == OpenCalls(Below(th));
  }

  lemma OpenStepDeleted(s: State, step: Step)
    requires Enabled(s, step) && step.FinishRun? && Top(s.threads[step.t]).phase == Running
    ensures OpenAgrees(s, step, step.t)
  {
    hide Calls, Feed, OpenBook;
    var th := s.threads[step.t];
    assert Events(s, step) == [End(Top(th).call, step.t, 0)] && Threads(s, step)[step.t].stack == Below(th);
    OpenStepEnds(th, step.t, 0, Events(s, step));
  }

  lemma OpenStepWake(s: State, step: Step)
    requires Enabled(s, step) && step.Wake?
    ensures OpenAgrees(s, step, step.t)
  {
    OpenReplaced(s.threads[step.t], Top(s.threads[step.t]).(phase := Running));
  }

  /** A frame that runs at the top of its stack has no call in flight. */
  lemma RunningHasNoneInFlight(s: State, t: Tid)
    requires Inv(s) && Busy(s, t) && Top(s.threads[t]).phase == Running
    requires InFlightOk(s, Top(s.threads[t]).call)
    requires InFlight(s.log, Top(s.threads[t]).call).value.Some? ==>
               CallerOk(s, InFlight(s.log, Top(s.threads[t]).call).value.value)
    ensures InFlight(s.log, Top(s.threads[t]).call) == Some(None)
  {
    var p := Top(s.threads[t]).call;
    if InFlight(s.log, p).value.Some? {
      var c := InFlight(s.log, p).value.value;
      TopOk(s, t);
      assert Awaited(s, c);
      var i: nat :| WaitsIn(s.threads[t].stack, p, c, i);
      FramesAreDistinct(s);
      assert false;
    }
  }

  predicate Marshals(step: Step) {
    step.MarshalInline? || step.MarshalPost?
  }

  /** The proxied call that a step returns from. */
  function Returning(s: State, step: Step): Option<Cid>
    requires Enabled(s, step)
  {
    match step
    case ReturnInline(t, v) => Some(Top(s.threads[t]).call)
    case Wake(t) => Some(Top(s.threads[t]).phase.callee)
    case _ => None
  }

  /** The call of `p` in flight after a step. */
  function InFlightNext(s: State, step: Step, k: Option<Cid>, p: Cid): Option<Cid>
    requires Enabled(s, step)
  {
    if Marshals(step) && Top(s.threads[step.t]).call == p then Some(|s.calls|)
    else if k.Some? && Returning(s, step) == k then None
    else k
  }

  lemma InFlightFed(s: State, step: Step, k: Option<Cid>, p: Cid)
    requires Enabled(s, step) && (Marshals(step) && p == Top(s.threads[step.t]).call ==> k == None)
    ensures Feed(InFlightBook(p), k, Events(s, step)) == Some(InFlightNext(s, step, k, p))
  {
  }

  lemma InFlightStep(s: State, step: Step, p: Cid)
    requires Enabled(s, step) && InFlight(s.log, p).Some?
    requires Marshals(step) && p == Top(s.threads[step.t]).call ==> InFlight(s.log, p).value == None
    ensures InFlight(Apply(s, step).log, p) == Some(InFlightNext(s, step, InFlight(s.log, p).value, p))
  {
    InFlightFed(s, step, InFlight(s.log, p).value, p);
    AcceptStep(InFlightBook(p), None, s, step);
  }

  /** A step of thread `t` keeps the calls of all frames but the top one, and of the top one unless it pops it. */
  lemma StackStep(s: State, step: Step)
    requires Inv(s) && Enabled(s, step) && !step.External? && !step.Dispatch?
    ensures var before := s.threads[step.t].stack; var after := Apply(s, step).threads[step.t].stack;
            && |after| >= |before| - 1
            && (forall i :: 0 <= i < |before| - 1 ==> after[i] == before[i])
            && (|after| >= |before| ==> after[|before| - 1].call == before[|before| - 1].call)
            && (|after| < |before| ==> step.ReturnInline? || step.FinishRun?)
  {
  }

  /** The parent of a live child keeps waiting for it until the child returns. */
  lemma WaitsStep(s: State, step: Step, t: Tid, p: Cid, c: Cid, i: nat)
    requires Inv(s) && Enabled(s, step) && t < |s.threads| && c < |s.calls| && WaitsIn(s.threads[t].stack, p, c, i)
    requires Apply(s, step).calls[c].live
    ensures WaitsIn(Apply(s, step).threads[t].stack, p, c, i)
  {
    var before, after := s.threads[t].stack, Apply(s, step).threads[t].stack;
    if t != step.t || step.External? {
      assert after == before;
    } else {
      assert FrameOk(s, t, i);
      assert !step.Dispatch?;
      TopOk(s, t);
      StackStep(s, step);
      if i == |before| - 1 {
        assert false;  // only Wake could run, and it ends the child
      } else if i + 1 == |before| - 1 && |after| < |before| {
        assert false;  // only the child's return pops it
      }
    }
  }

  lemma AwaitedNew(s: State, step: Step)
    requires Inv(s) && Enabled(s, step) && Marshals(step)
    ensures WaitsIn(Threads(s, step)[step.t].stack, Top(s.threads[step.t]).call, |s.calls|,
        |s.threads[step.t].stack| - 1)
    ensures Calls(s, step)[|s.calls|].parent == Some(Top(s.threads[step.t]).call)
    ensures s.calls[Top(s.threads[step.t]).call].target == step.t
  {
    TopOk(s, step.t);
  }

  lemma AwaitedOld(s: State, step: Step, c: Cid)
    requires Inv(s) && Enabled(s, step) && Inv(Apply(s, step)) && c < |s.calls| && CallerOk(s, c)
    requires s.calls[c].parent.Some? && Calls(s, step)[c].live
    ensures Calls(s, step)[c].parent == s.calls[c].parent
    ensures Awaited(Apply(s, step), c)
  {
    assert CallOk(s, c) && CallOk(s, s.calls[c].parent.value);
    var p := s.calls[c].parent.value;
    var t := s.calls[p].target;
    assert s.calls[c].live && Awaited(s, c);
    var i: nat :| WaitsIn(s.threads[t].stack, p, c, i);
    WaitsStep(s, step, t, p, c, i);
    assert Calls(s, step)[p].target == t && Calls(s, step)[c].parent == Some(p);
  }

  lemma LiveAfter(s: State, step: Step, c: Cid)
    requires Inv(s) && Enabled(s, step) && c < |s.calls| && s.calls[c].parent.Some?
    ensures Calls(s, step)[c].parent == s.calls[c].parent
    ensures Calls(s, step)[c].live <==> s.calls[c].live && Returning(s, step) != Some(c)
  {
    assert CallOk(s, c);
    if step.FinishRun? { TopOk(s, step.t); }
  }

  /** Whether a call is alive and whether it is its caller's call in flight change together. */
  lemma LiveOld(s: State, step: Step, c: Cid)
    requires Inv(s) && Enabled(s, step) && c < |s.calls| && s.calls[c].parent.Some?
    requires CallerOk(s, c) && InFlight(s.log, s.calls[c].parent.value).Some?
    requires Marshals(step) && s.calls[c].parent.value == Top(s.threads[step.t]).call ==>
               InFlight(s.log, s.calls[c].parent.value).value == None
    ensures Calls(s, step)[c].parent == s.calls[c].parent
    ensures Calls(s, step)[c].live <==> InFlight(Apply(s, step).log, s.calls[c].parent.value) == Some(Some(c))
  {
    InFlightStep(s, step, s.calls[c].parent.value);
    LiveAfter(s, step, c);
  }

  lemma CallerOkStep(s: State, step: Step, c: Cid)
    requires Inv(s) && LogOk(s) && Enabled(s, step) && Inv(Apply(s, step)) && c < |Calls(s, step)|
    ensures CallerOk(Apply(s, step), c)
  {
    if Marshals(step) {
      assert InFlightOk(s, Top(s.threads[step.t]).call);
      RunningHasNoneInFlight(s, step.t);
    }
    if c == |s.calls| {
      if Marshals(step) {
        AwaitedNew(s, step);
        InFlightStep(s, step, Top(s.threads[step.t]).call);
      }
    } else if s.calls[c].parent.Some? {
      assert CallerOk(s, c) && InFlightOk(s, s.calls[c].parent.value);
      LiveOld(s, step, c);
      if Calls(s, step)[c].live { AwaitedOld(s, step, c); }
    } else {
      assert Calls(s, step)[c].parent == None;
    }
  }

  lemma InFlightOkStep(s: State, step: Step, p: Cid)
    requires Inv(s) && LogOk(s) && Enabled(s, step)
    ensures InFlightOk(Apply(s, step), p)
  {
    assert InFlightOk(s, p);
    if Marshals(step) && Top(s.threads[step.t]).call == p {
      RunningHasNoneInFlight(s, step.t);
      InFlightStep(s, step, p);
    } else {
      InFlightStep(s, step, p);
      if InFlight(s.log, p).value.Some? { LiveAfter(s, step, InFlight(s.log, p).value.value); }
    }
  }

  lemma ApplyKeepsLogOk(s: State, step: Step)
    requires Inv(s) && LogOk(s) && Enabled(s, step)
    ensures Inv(Apply(s, step)) && LogOk(Apply(s, step))
  {
    var s' := Apply(s, step);
    ApplyKeepsInv(s, step);
    forall c: Cid ensures StageOf(s'.log, c) == Some(StageIn(s', c)) {
      StageStep(s, step, c);
      AcceptStep(StageBook(c), Fresh, s, step);
    }
    forall t | 0 <= t < |s'.threads| ensures OpenOn(s'.log, t) == Some(OpenCalls(s'.threads[t].stack)) {
      OpenStep(s, step, t);
      AcceptStep(OpenBook(t), [], s, step);
    }
    forall t | 0 <= t < |s'.threads| ensures Waiting(s'.log, t) == Some(s'.threads[t].queue) {
      WaitingStep(s, step, t);
      AcceptStep(WaitingBook(t), [], s, step);
    }
    forall p: Cid ensures InFlightOk(s', p) { InFlightOkStep(s, step, p); }
    forall c | 0 <= c < |s'.calls| ensures CallerOk(s', c) { CallerOkStep(s, step, c); }
  }

  /** On every reachable state the four automata accept the history and agree with the state. */
  lemma {:induction false} ReachableLogOk(n: nat, steps: seq<Step>)
    requires Exec(n, steps).Some?
    ensures Inv(Exec(n, steps).value) && LogOk(Exec(n, steps).value)
  {
    ReachableInv(n, steps);
    if steps != [] {
      var before := steps[..|steps| - 1];
      ReachableLogOk(n, before);
      ApplyKeepsLogOk(Exec(n, before).value, steps[|steps| - 1]);
    }
  }
}
