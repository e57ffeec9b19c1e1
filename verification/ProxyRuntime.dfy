/**
 The call objects and threads of `ProxyMachine` as objects that are updated in place.
 `Marshal` and `Run` are cut where another thread can act in between: each method here
 is one atomic piece of them, proved equal to a step of the state machine.
 */
module ProxyRuntime {
  import opened Wrappers
  import opened ProxyMachine

  class MethodCall {
    const kind: Kind
    const parent: Option<Cid>
    const target: Tid
    const body: seq<Call>
    var r: Option<int>
    var event: bool
    ghost var live: bool
    ghost var stage: Stage

    constructor (kind: Kind, parent: Option<Cid>, target: Tid, body: seq<Call>)
      ensures Value() ==
              CallObject(kind, parent, target, body, None, false, true, if kind == Inline then Begun(target) else Fresh)
    {
      this.kind, this.parent, this.target, this.body := kind, parent, target, body;
      r, event, live, stage := None, false, true, if kind == Inline then Begun(target) else Fresh;
    }

    ghost function Value(): CallObject
      reads this
    {
      CallObject(kind, parent, target, body, r, event, live, stage)
    }
  }

  class CallRuntime {
    var threads: seq<Thread>
    var calls: seq<MethodCall>
    ghost var log: seq<Event>

    ghost predicate Valid()
      reads this
    {
      forall i, j :: 0 <= i < j < |calls| ==> calls[i] != calls[j]
    }

    ghost function View(): State
      reads this, calls
    {
      State(threads, seq(|calls|, i requires 0 <= i < |calls| reads this, calls => calls[i].Value()), log)
    }

    constructor (n: nat)
      ensures Valid() && View() == Empty(n)
    {
      threads, calls, log := seq(n, i => Thread([], [])), [], [];
      new;
      assert View().calls == [];
    }

    method PostTask(t: Tid, c: Cid)
      requires t < |threads|
      modifies this`threads
      ensures threads == old(threads)[t := old(threads)[t].(queue := old(threads)[t].queue + [c])]
    {
      threads := threads[t := threads[t].(queue := threads[t].queue + [c])];
    }

    /** Replaces the frame on top of a thread's stack. */
    method SetFrame(t: Tid, f: Frame)
      requires t < |threads| && threads[t].stack != []
      modifies this`threads
      ensures threads == old(threads)[t := SetTop(old(threads)[t], f)]
    {
      threads := threads[t := SetTop(threads[t], f)];
    }

    method Push(t: Tid, f: Frame)
      requires t < |threads|
      modifies this`threads
      ensures threads == old(threads)[t := old(threads)[t].(stack := old(threads)[t].stack + [f])]
    {
      threads := threads[t := threads[t].(stack := threads[t].stack + [f])];
    }

    method Pop(t: Tid)
      requires t < |threads| && threads[t].stack != []
      modifies this`threads
      ensures threads == old(threads)[t := old(threads)[t].(stack := Below(old(threads)[t]))]
    {
      threads := threads[t := threads[t].(stack := Below(threads[t]))];
    }

    /** A task that is not a proxied call. */
    method PostPlain(t: Tid, todo: seq<Call>)
      requires Valid() && Enabled(View(), External(t, todo))
      modifies this
      ensures Valid() && View() == Apply(old(View()), External(t, todo))
    {
      ghost var before := View();
      var c := new MethodCall(Plain, None, t, todo);
      PostTask(t, |calls|);
      calls := calls + [c];
      log := log + Events(before, External(t, todo));
      assert View().calls == Calls(before, External(t, todo));
    }

    /** The message loop of an idle thread takes the next task and begins to run it. */
    method Dispatch(t: Tid)
      requires Valid() && Enabled(View(), ProxyMachine.Dispatch(t))
      modifies this, calls
      ensures Valid() && View() == Apply(old(View()), ProxyMachine.Dispatch(t))
    {
      ghost var before, step := View(), ProxyMachine.Dispatch(t);
      var c := threads[t].queue[0];
      threads := threads[t := Thread([Frame(c, calls[c].body, Running)], threads[t].queue[1..])];
      calls[c].stage := Begun(t);
      log := log + Events(before, step);
      assert View().calls == Calls(before, step);
    }

    /** Marshal: on the current thread invoke at once, on another post the call and wait. */
    method Marshal(t: Tid)
      requires Valid() && (Enabled(View(), MarshalInline(t)) || Enabled(View(), MarshalPost(t)))
      modifies this
      ensures Valid()
      ensures var inline := old(Top(threads[t]).todo[0].target) == t;
              View() == Apply(old(View()), if inline then MarshalInline(t) else MarshalPost(t))
    {
      var f := Top(threads[t]);
      var call, id := f.todo[0], |calls|;
      ghost var before, step := View(), if call.target == t then MarshalInline(t) else MarshalPost(t);
      var kind := if call.target == t then Inline else Posted;
      var c := new MethodCall(kind, Some(f.call), call.target, call.body);
      if call.target == t {
        SetFrame(t, f.(todo := f.todo[1..]));
        Push(t, Frame(id, call.body, Running));
      } else {
        SetFrame(t, f.(todo := f.todo[1..], phase := Blocked(id)));
        PostTask(call.target, id);
      }
      calls := calls + [c];
      log := log + Events(before, step);
      assert View().calls == Calls(before, step);
    }

    /** The method that Marshal invoked inline returns `v`, and so does Marshal. */
    method ReturnInline(t: Tid, v: int) returns (result: int)
      requires Valid() && Enabled(View(), ProxyMachine.ReturnInline(t, v))
      modifies this, calls
      ensures Valid() && View() == Apply(old(View()), ProxyMachine.ReturnInline(t, v)) && result == v
    {
      ghost var before, step := View(), ProxyMachine.ReturnInline(t, v);
      var c := Top(threads[t]).call;
      calls[c].r := Some(v);
      result := calls[c].r.value;
      calls[c].live, calls[c].stage := false, Returned(t, v);
      Pop(t);
      log := log + Events(before, step);
      assert View().calls == Calls(before, step);
    }

    /** Run, first piece: the method returns `v`, which Invoke stores. */
    method RunInvoke(t: Tid, v: int)
      requires Valid() && Enabled(View(), FinishInvoke(t, v))
      modifies this, calls
      ensures Valid() && View() == Apply(old(View()), FinishInvoke(t, v))
    {
      ghost var before, step := View(), FinishInvoke(t, v);
      var c := Top(threads[t]).call;
      calls[c].r := Some(v);
      calls[c].stage := Ended(t, v);
      SetFrame(t, Top(threads[t]).(phase := Invoked));
      log := log + Events(before, step);
      assert View().calls == Calls(before, step);
    }

    /** Run, second piece: the event is set, and then Run returns false. */
    method RunSet(t: Tid)
      requires Valid() && Enabled(View(), SetEvent(t))
      modifies this, calls
      ensures Valid() && View() == Apply(old(View()), SetEvent(t))
    {
      ghost var before := View();
      calls[Top(threads[t]).call].event := true;
      SetFrame(t, Top(threads[t]).(phase := Ran(false)));
      assert View().calls == Calls(before, SetEvent(t));
    }

    /** The queue has the value that Run returned, and touches the task only if that says it still owns it. */
    method RunReturn(t: Tid)
      requires Valid() && Enabled(View(), FinishRun(t))
      modifies this, calls
      ensures Valid() && View() == Apply(old(View()), FinishRun(t))
    {
      ghost var before, step := View(), FinishRun(t);
      var f := Top(threads[t]);
      if Deletes(f) {
        calls[f.call].live, calls[f.call].stage := false, Ended(t, 0);
      }
      Pop(t);
      log := log + Events(before, step);
      assert View().calls == Calls(before, step);
    }

    /** Wait returns, and Marshal returns the stored result. */
    method MarshalReturn(t: Tid) returns (result: int)
      requires Valid() && Enabled(View(), Wake(t))
      modifies this, calls
      ensures Valid() && View() == Apply(old(View()), Wake(t))
      ensures log == old(log) + [Return(old(Top(threads[t]).phase.callee), result)]
    {
      ghost var before, step := View(), Wake(t);
      var d := Top(threads[t]).phase.callee;
      result := calls[d].r.value;
      calls[d].live, calls[d].stage := false, Returned(calls[d].target, result);
      SetFrame(t, Top(threads[t]).(phase := Running));
      log := log + Events(before, step);
      assert View().calls == Calls(before, step);
    }
  }
}
