/**
 Every invocation runs its own method.

 What each call has to do is read off the tasks that the run's `External` steps post and the order
 of the `Marshal` events alone: a task's program is what was posted, and the k-th call that `p`
 marshals is the k-th entry of `p`'s program.  The run lemmas show that the calls made from every
 invocation are those of its program, in order, and all of them by the time it ends.
 */
module ProxyPrograms {
  import opened Wrappers
  import opened ProxyMachine
  import opened ProxySafety
  import opened ProxyHistory
  import opened ProxyTheorems
  import ProxyProgress
  import ProxySerial

  // ---------- Reading the programs off a run

  /** The tasks that a run posts from outside, in order. */
  function Tasks(steps: seq<Step>): seq<Call> {
    if steps == [] then [] else
      var last := steps[|steps| - 1];
      Tasks(steps[..|steps| - 1]) + if last.External? then [Call(last.t, last.todo)] else []
  }

  /** How many calls `p` has marshalled. */
  function Made(log: seq<Event>, p: Cid): nat {
    if log == [] then 0 else
      var e := log[|log| - 1];
      Made(log[..|log| - 1], p) + if e.Marshal? && e.caller == p then 1 else 0
  }

  ghost predicate Marshalled(log: seq<Event>, c: Cid) {
    exists p: Cid :: Marshal(c, p) in log
  }

  /** How many of the posted tasks nobody marshalled. */
  ghost function Outside(log: seq<Event>): nat {
    if log == [] then 0 else
      var init, e := log[..|log| - 1], log[|log| - 1];
      Outside(init) + if e.Post? && !Marshalled(init, e.c) then 1 else 0
  }

  /** What each call is to do: on which thread, and which calls its method makes in turn. */
  ghost function Programs(tasks: seq<Call>, log: seq<Event>): map<Cid, Call> {
    if log == [] then map[] else
      var init, e := log[..|log| - 1], log[|log| - 1];
      var known := Programs(tasks, init);
      match e
      case Marshal(c, p) =>
        var k := Made(init, p);
        if p in known && k < |known[p].body| then known[c := known[p].body[k]] else known
      case Post(c, _) =>
        if !Marshalled(init, c) && Outside(init) < |tasks| then known[c := tasks[Outside(init)]] else known
      case _ => known
  }

  /**
   The threads that the calls of `p` go to, in order: an inline call begins within `p`, the others
   are posted after `p` marshalled them.
   */
  function Targets(log: seq<Event>, p: Cid): seq<Tid> {
    if log == [] then [] else
      var init, e := log[..|log| - 1], log[|log| - 1];
      Targets(init, p) +
      if (e.Begin? && e.within == Some(p)) || (e.Post? && Marshal(e.c, p) in init) then [e.t] else []
  }

  function TargetsOf(body: seq<Call>): seq<Tid> {
    seq(|body|, i requires 0 <= i < |body| => body[i].target)
  }

  // ---------- What the state knows of the programs

  /** Who marshalled call `c`, and the only thread it is posted to or begins on. */
  ghost predicate Sited(log: seq<Event>, c: Cid, o: CallObject) {
    && (forall p: Cid :: Marshal(c, p) in log <==> o.parent == Some(p))
    && (forall k :: 0 <= k < |log| && (log[k].Post? || log[k].Begin?) && log[k].c == c ==> log[k].t == o.target)
  }

  /** The calls made from `c` so far are the first ones of its body: none before it begins, all once it has ended. */
  ghost predicate Advanced(log: seq<Event>, c: Cid, o: CallObject) {
    && Made(log, c) <= |o.body|
    && (o.stage.Fresh? ==> Made(log, c) == 0)
    && (o.stage.Ended? || o.stage.Returned? ==> Made(log, c) == |o.body|)
    && Targets(log, c) == TargetsOf(o.body[..Made(log, c)])
  }

  ghost predicate Unheard(log: seq<Event>, c: Cid) {
    Made(log, c) == 0 && Targets(log, c) == [] && forall k :: 0 <= k < |log| ==> log[k].c != c
  }

  /** What is left to do in a frame is the rest of its call's body. */
  ghost predicate FrameFollows(s: State, f: Frame) {
    && f.call < |s.calls|
    && Made(s.log, f.call) <= |s.calls[f.call].body|
    && f.todo == s.calls[f.call].body[Made(s.log, f.call)..]
  }

  ghost predicate FramesFollow(s: State) {
    forall t, i :: 0 <= t < |s.threads| && 0 <= i < |s.threads[t].stack| ==> FrameFollows(s, s.threads[t].stack[i])
  }

  ghost predicate CallsFollow(log: seq<Event>, calls: seq<CallObject>) {
    && (forall c :: 0 <= c < |calls| ==> Sited(log, c, calls[c]) && Advanced(log, c, calls[c]))
    && (forall c: Cid :: c >= |calls| ==> Unheard(log, c))
  }

  /** The calls have exactly these programs. */
  ghost predicate Assigned(calls: seq<CallObject>, programs: map<Cid, Call>) {
    && (forall c: Cid :: c in programs <==> c < |calls|)
    && (forall c: Cid :: c < |calls| ==> programs[c] == Call(calls[c].target, calls[c].body))
  }

  ghost predicate Follows(s: State, tasks: seq<Call>) {
    && Outside(s.log) == |tasks|
    && Assigned(s.calls, Programs(tasks, s.log))
    && CallsFollow(s.log, s.calls)
    && FramesFollow(s)
  }

  // ---------- Preservation, by what a step adds to the history

  /** An event that neither marshals nor posts, and does not begin within another invocation. */
  predicate Quiet(e: Event) {
    !e.Marshal? && !e.Post? && (e.Begin? ==> e.within == None)
  }

  lemma {:induction false} QuietEvents(tasks: seq<Call>, log: seq<Event>, es: seq<Event>)
    requires forall k :: 0 <= k < |es| ==> Quiet(es[k])
    ensures Outside(log + es) == Outside(log) && Programs(tasks, log + es) == Programs(tasks, log)
    ensures forall c: Cid :: Made(log + es, c) == Made(log, c) && Targets(log + es, c) == Targets(log, c)
  {
    if es == [] {
      assert log + es == log;
    } else {
      var init := es[..|es| - 1];
      QuietEvents(tasks, log, init);
      assert (log + es)[..|log + es| - 1] == log + init;
    }
  }

  /** Tasks posted later change nothing about the calls known already. */
  lemma {:induction false} LaterTasks(tasks: seq<Call>, task: Call, log: seq<Event>)
    requires Outside(log) <= |tasks|
    ensures Programs(tasks + [task], log) == Programs(tasks, log)
  {
    if log != [] { LaterTasks(tasks, task, log[..|log| - 1]); }
  }

  lemma PostedOutside(tasks: seq<Call>, task: Call, log: seq<Event>, c: Cid, t: Tid)
    requires Outside(log) == |tasks| && Unheard(log, c)
    ensures Outside(log + [Post(c, t)]) == |tasks| + 1
    ensures Programs(tasks + [task], log + [Post(c, t)]) == Programs(tasks, log)[c := task]
    ensures forall d: Cid :: Made(log + [Post(c, t)], d) == Made(log, d)
    ensures forall d: Cid :: Targets(log + [Post(c, t)], d) == Targets(log, d)
  {
    assert (log + [Post(c, t)])[..|log|] == log;
    LaterTasks(tasks, task, log);
  }

  /** The events of a `Marshal` call: `p` marshals `c`, which is posted to a thread or begins there within `p`. */
  lemma MarshalledInside(tasks: seq<Call>, log: seq<Event>, c: Cid, p: Cid, e: Event)
    requires Unheard(log, c) && p != c
    requires p in Programs(tasks, log) && Made(log, p) < |Programs(tasks, log)[p].body|
    requires e.c == c && (e.Post? || (e.Begin? && e.within == Some(p)))
    ensures var es := log + [Marshal(c, p), e];
            && Outside(es) == Outside(log)
            && Programs(tasks, es) == Programs(tasks, log)[c := Programs(tasks, log)[p].body[Made(log, p)]]
            && (forall d: Cid :: Made(es, d) == Made(log, d) + if d == p then 1 else 0)
            && (forall d: Cid :: Targets(es, d) == Targets(log, d) + if d == p then [e.t] else [])
  {
    var es, mid := log + [Marshal(c, p), e], log + [Marshal(c, p)];
    assert es[..|es| - 1] == mid && mid[..|log|] == log && mid[|log|] == Marshal(c, p);
    assert Marshalled(mid, c);
    forall d: Cid ensures Marshal(c, d) in mid <==> d == p { }
  }

  // ---------- Preservation, by step

  /** A call that no new event posts, marshals or begins elsewhere stays where it was. */
  lemma StaysSited(log: seq<Event>, es: seq<Event>, c: Cid, o: CallObject, o': CallObject)
    requires Sited(log, c, o) && o'.parent == o.parent && o'.target == o.target
    requires forall k :: 0 <= k < |es| ==>
               (es[k].Marshal? ==> es[k].c != c)
               && ((es[k].Post? || es[k].Begin?) && es[k].c == c ==> es[k].t == o.target)
    ensures Sited(log + es, c, o')
  {
    forall p: Cid ensures Marshal(c, p) in log + es <==> o'.parent == Some(p) {
      assert Marshal(c, p) in log <==> o.parent == Some(p);
      assert Marshal(c, p) !in es;
    }
    forall k | 0 <= k < |log + es| && ((log + es)[k].Post? || (log + es)[k].Begin?) && (log + es)[k].c == c
      ensures (log + es)[k].t == o'.target
    {
      if k >= |log| { assert (log + es)[k] == es[k - |log|]; }
    }
  }

  lemma StaysUnheard(log: seq<Event>, es: seq<Event>, c: Cid)
    requires Unheard(log, c) && Made(log + es, c) == Made(log, c) && Targets(log + es, c) == Targets(log, c)
    requires forall k :: 0 <= k < |es| ==> es[k].c != c
    ensures Unheard(log + es, c)
  {
    forall k | 0 <= k < |log + es| ensures (log + es)[k].c != c {
      if k >= |log| { assert (log + es)[k] == es[k - |log|]; }
    }
  }

  /** The first events that name a call. */
  lemma BecomesSited(log: seq<Event>, es: seq<Event>, c: Cid, o: CallObject)
    requires Unheard(log, c)
    requires forall p: Cid :: Marshal(c, p) in es <==> o.parent == Some(p)
    requires forall k :: 0 <= k < |es| && (es[k].Post? || es[k].Begin?) && es[k].c == c ==> es[k].t == o.target
    ensures Sited(log + es, c, o)
  {
    forall p: Cid ensures Marshal(c, p) in log + es <==> o.parent == Some(p) {
      assert Marshal(c, p) !in log;
    }
    forall k | 0 <= k < |log + es| && ((log + es)[k].Post? || (log + es)[k].Begin?) && (log + es)[k].c == c
      ensures (log + es)[k].t == o.target
    {
      if k >= |log| { assert (log + es)[k] == es[k - |log|]; }
    }
  }

  lemma StartFollows(n: nat)
    ensures Follows(Empty(n), [])
  {
  }

  lemma {:induction false} ReachableFollows(n: nat, steps: seq<Step>)
    requires Exec(n, steps).Some?
    ensures Follows(Exec(n, steps).value, Tasks(steps))
  {
    hide Enabled, Apply, Follows, Inv, Empty;
    if steps == [] {
      StartFollows(n);
    } else {
      var init, last := steps[..|steps| - 1], steps[|steps| - 1];
      ReachableFollows(n, init);
      ReachableInv(n, init);
      StepFollows(Exec(n, init).value, Tasks(init), last);
    }
  }

  lemma StepFollows(s: State, tasks: seq<Call>, step: Step)
    requires Inv(s) && Follows(s, tasks) && Enabled(s, step)
    ensures Follows(Apply(s, step), tasks + if step.External? then [Call(step.t, step.todo)] else [])
  {
    hide Enabled, Apply, Follows, Inv;
    if step.External? {
      ExternalFollows(s, tasks, step);
    } else {
      assert tasks + [] == tasks;
      if step.MarshalInline? || step.MarshalPost? {
        MarshalFollows(s, tasks, step);
      } else {
        QuietFollows(s, tasks, step);
      }
    }
  }

  /** A call is created, from outside or as the next one of its caller's body. */
  lemma CallAdded(log: seq<Event>, es: seq<Event>, calls: seq<CallObject>, o: CallObject)
    requires CallsFollow(log, calls) && (o.stage.Fresh? || o.stage.Begun?)
    requires forall k :: 0 <= k < |es| ==> es[k].c == |calls| && (es[k].Post? || es[k].Begin? ==> es[k].t == o.target)
    requires forall p: Cid :: Marshal(|calls|, p) in es <==> o.parent == Some(p)
    requires forall d: Cid ::
               && Made(log + es, d) == Made(log, d) + (if o.parent == Some(d) then 1 else 0)
               && Targets(log + es, d) == Targets(log, d) + (if o.parent == Some(d) then [o.target] else [])
    requires o.parent.Some? ==>
               && o.parent.value < |calls| && calls[o.parent.value].stage.Begun?
               && var p := o.parent.value;
                  Made(log, p) < |calls[p].body| && calls[p].body[Made(log, p)].target == o.target
    ensures CallsFollow(log + es, calls + [o])
  {
    hide Made, Targets, Sited, Unheard;
    UnheardIsFresh(log, |calls|);
    var calls' := calls + [o];
    forall c | 0 <= c < |calls'| ensures Sited(log + es, c, calls'[c]) && Advanced(log + es, c, calls'[c]) {
      if c == |calls| {
        BecomesSited(log, es, c, o);
      } else {
        StaysSited(log, es, c, calls[c], calls[c]);
        if o.parent == Some(c) { NextTarget(calls[c].body, Made(log, c)); }
      }
    }
    forall c: Cid | c >= |calls'| ensures Unheard(log + es, c) { StaysUnheard(log, es, c); }
  }

  lemma ExternalFollows(s: State, tasks: seq<Call>, step: Step)
    requires Inv(s) && Follows(s, tasks) && Enabled(s, step) && step.External?
    ensures Follows(Apply(s, step), tasks + [Call(step.t, step.todo)])
  {
    hide Programs, Made, Targets, Outside, Sited, Advanced, Unheard, Inv;
    var s', id, es := Apply(s, step), |s.calls|, [Post(|s.calls|, step.t)];
    PostedOutside(tasks, Call(step.t, step.todo), s.log, id, step.t);
    CallAdded(s.log, es, s.calls, s'.calls[id]);
    forall t, i | 0 <= t < |s'.threads| && 0 <= i < |s'.threads[t].stack|
      ensures FrameFollows(s', s'.threads[t].stack[i])
    {
      assert FrameFollows(s, s.threads[t].stack[i]);
    }
  }

  lemma UnheardIsFresh(log: seq<Event>, c: Cid)
    requires Unheard(log, c)
    ensures Made(log, c) == 0 && Targets(log, c) == []
  {
  }

  /** What a step other than a post or a `Marshal` does to a call object. */
  lemma QuietCall(s: State, step: Step, c: Cid)
    requires Inv(s) && Enabled(s, step) && c < |s.calls|
    requires !step.External? && !step.MarshalInline? && !step.MarshalPost?
    ensures c < |Calls(s, step)|
    ensures var o, o' := s.calls[c], Calls(s, step)[c];
            && o'.target == o.target && o'.body == o.body && o'.parent == o.parent
            && (o'.stage.Fresh? ==> o.stage.Fresh?)
            && (o'.stage != o.stage && !o'.stage.Begun? && !(o.stage.Ended? || o.stage.Returned?) ==>
                  BodyDone(s, step.t) && Top(s.threads[step.t]).call == c)
  {
    if !step.Dispatch? { TopOk(s, step.t); }
  }

  lemma QuietCreatesNone(s: State, step: Step)
    requires Enabled(s, step) && !step.External? && !step.MarshalInline? && !step.MarshalPost?
    ensures |Calls(s, step)| == |s.calls|
  {
  }

  lemma QuietNews(s: State, step: Step)
    requires Inv(s) && Enabled(s, step)
    requires !step.External? && !step.MarshalInline? && !step.MarshalPost?
    ensures forall k :: 0 <= k < |Events(s, step)| ==>
              var e := Events(s, step)[k];
              Quiet(e) && e.c < |s.calls| && (e.Begin? ==> e.t == s.calls[e.c].target)
  {
    hide Calls, Threads;
    if step.Dispatch? { QueuesOk(s, step.t); } else { TopOk(s, step.t); }
  }

  lemma TopFollows(s: State, t: Tid)
    requires FramesFollow(s) && Busy(s, t)
    ensures FrameFollows(s, Top(s.threads[t]))
    ensures Top(s.threads[t]).todo == [] ==>
              Made(s.log, Top(s.threads[t]).call) == |s.calls[Top(s.threads[t]).call].body|
  {
    assert FrameFollows(s, s.threads[t].stack[|s.threads[t].stack| - 1]);
  }

  lemma QuietFollows(s: State, tasks: seq<Call>, step: Step)
    requires Inv(s) && Follows(s, tasks) && Enabled(s, step)
    requires !step.External? && !step.MarshalInline? && !step.MarshalPost?
    ensures Follows(Apply(s, step), tasks)
  {
    hide Programs, Made, Targets, Outside, Sited, Unheard, Inv, Threads, Calls, Events, Enabled, FrameFollows, BodyDone;
    var s', es := Apply(s, step), Events(s, step);
    QuietNews(s, step);
    QuietEvents(tasks, s.log, es);
    QuietCreatesNone(s, step);
    forall c | 0 <= c < |s.calls| ensures s'.calls[c].target == s.calls[c].target && s'.calls[c].body == s.calls[c].body
    {
      QuietCall(s, step, c);
    }
    forall c | 0 <= c < |s.calls| ensures Sited(s'.log, c, s'.calls[c]) && Advanced(s'.log, c, s'.calls[c]) {
      QuietCall(s, step, c);
      StaysSited(s.log, es, c, s.calls[c], s'.calls[c]);
      if BodyDone(s, step.t) { DoneFollows(s, step.t); }
    }
    forall c: Cid | c >= |s'.calls| ensures Unheard(s'.log, c) { StaysUnheard(s.log, es, c); }
    QuietFrames(s, step);
  }

  lemma DoneFollows(s: State, t: Tid)
    requires FramesFollow(s) && BodyDone(s, t)
    ensures Made(s.log, Top(s.threads[t]).call) == |s.calls[Top(s.threads[t]).call].body|
  {
    TopFollows(s, t);
  }

  lemma QuietFrames(s: State, step: Step)
    requires Inv(s) && FramesFollow(s) && CallsFollow(s.log, s.calls) && Enabled(s, step)
    requires !step.External? && !step.MarshalInline? && !step.MarshalPost?
    requires forall c: Cid :: Made(Apply(s, step).log, c) == Made(s.log, c)
    requires forall c :: 0 <= c < |s.calls| ==> c < |Calls(s, step)| && Calls(s, step)[c].body == s.calls[c].body
    ensures FramesFollow(Apply(s, step))
  {
    hide Made, Targets, Sited, Unheard, Events, Calls;
    var s' := Apply(s, step);
    forall t, i | 0 <= t < |s'.threads| && 0 <= i < |s'.threads[t].stack|
      ensures FrameFollows(s', s'.threads[t].stack[i])
    {
      if t == step.t && step.Dispatch? {
        QueuesOk(s, t);
      } else {
        assert FrameFollows(s, s.threads[t].stack[i]);
      }
    }
  }

  /** The new call object of a `Marshal`, and the events that announce it. */
  lemma MarshalNews(s: State, step: Step) returns (o: CallObject, e: Event)
    requires Enabled(s, step) && (step.MarshalInline? || step.MarshalPost?)
    ensures var f := Top(s.threads[step.t]);
            && Busy(s, step.t) && f.phase == Running && f.todo != []
            && Calls(s, step) == s.calls + [o] && Events(s, step) == [Marshal(|s.calls|, f.call), e]
            && o.parent == Some(f.call) && Call(o.target, o.body) == f.todo[0] && (o.stage.Fresh? || o.stage.Begun?)
            && e.c == |s.calls| && (e.Post? || (e.Begin? && e.within == Some(f.call))) && e.t == o.target
  {
    hide Threads;
    o, e := Calls(s, step)[|s.calls|], Events(s, step)[1];
  }

  lemma MarshalFollows(s: State, tasks: seq<Call>, step: Step)
    requires Inv(s) && Follows(s, tasks) && Enabled(s, step) && (step.MarshalInline? || step.MarshalPost?)
    ensures Follows(Apply(s, step), tasks)
  {
    hide Programs, Made, Targets, Outside, Sited, Advanced, Unheard, Inv, Enabled, Events, Calls, Threads, FramesFollow;
    var s', id := Apply(s, step), |s.calls|;
    var o, e := MarshalNews(s, step);
    var p := Top(s.threads[step.t]).call;
    TopOk(s, step.t);
    TopFollows(s, step.t);
    MarshalledInside(tasks, s.log, id, p, e);
    UnheardIsFresh(s.log, id);
    CallAdded(s.log, [Marshal(id, p), e], s.calls, o);
    MarshalFrames(s, step);
  }

  lemma NextTarget(body: seq<Call>, k: nat)
    requires k < |body|
    ensures TargetsOf(body[..k + 1]) == TargetsOf(body[..k]) + [body[k].target]
  {
  }

  lemma MarshalFrames(s: State, step: Step)
    requires Inv(s) && FramesFollow(s) && Enabled(s, step) && (step.MarshalInline? || step.MarshalPost?)
    requires var p := Top(s.threads[step.t]).call;
             && Made(s.log, |s.calls|) == 0
             && forall c: Cid :: Made(Apply(s, step).log, c) == Made(s.log, c) + if c == p then 1 else 0
    ensures FramesFollow(Apply(s, step))
  {
    hide Made, Events;
    var s' := Apply(s, step);
    TopOk(s, step.t);
    TopFollows(s, step.t);
    FramesAreDistinct(s);
    forall t, i | 0 <= t < |s'.threads| && 0 <= i < |s'.threads[t].stack|
      ensures FrameFollows(s', s'.threads[t].stack[i])
    {
      if t != step.t || i < |s.threads[t].stack| { assert FrameFollows(s, s.threads[t].stack[i]); }
    }
  }

  // ---------- The theorems

  /** Every call does, on its thread, what the tasks and the order of the `Marshal` events say. */
  lemma CallsHaveTheirPrograms(n: nat, steps: seq<Step>)
    requires Exec(n, steps).Some?
    ensures var s := Exec(n, steps).value;
            var programs := Programs(Tasks(steps), s.log);
            && (forall c: Cid :: c in programs <==> c < |s.calls|)
            && (forall c: Cid :: c < |s.calls| ==> programs[c] == Call(s.calls[c].target, s.calls[c].body))
  {
    ReachableFollows(n, steps);
  }

  /**
   An invocation runs on its program's thread, the calls made from it go where its program says, in
   that order, and it has made all of them when it ends.
   */
  lemma InvocationsRunTheirPrograms(n: nat, steps: seq<Step>, c: Cid)
    requires Exec(n, steps).Some? && c in Programs(Tasks(steps), Exec(n, steps).value.log)
    ensures var log := Exec(n, steps).value.log;
            var program := Programs(Tasks(steps), log)[c];
            && Targets(log, c) <= TargetsOf(program.body)
            && (forall t: Tid, w: Option<Cid> :: Begin(c, t, w) in log ==> t == program.target)
            && (forall t: Tid, v: int :: End(c, t, v) in log ==> Targets(log, c) == TargetsOf(program.body))
  {
    var s := Exec(n, steps).value;
    ReachableFollows(n, steps);
    assert Advanced(s.log, c, s.calls[c]) && Sited(s.log, c, s.calls[c]);
    forall t: Tid, v: int | End(c, t, v) in s.log ensures Targets(s.log, c) == TargetsOf(s.calls[c].body) {
      ReachableLogOk(n, steps);
      var e :| 0 <= e < |s.log| && s.log[e] == End(c, t, v);
      assert StageOf(s.log, c) == Some(StageIn(s, c));
      ProxySerial.StaysEnded(s.log, c, e, |s.log|);
      assert s.log[..|s.log|] == s.log && s.calls[c].body[..|s.calls[c].body|] == s.calls[c].body;
    }
  }

  /** When no step but an external post is enabled, every program has been carried out to its last nested call. */
  lemma AllProgramsRun(n: nat, steps: seq<Step>, rank: ProxyProgress.Rank)
    requires Exec(n, steps).Some? && ProxyProgress.OrderedSteps(steps, rank)
    requires forall step :: Enabled(Exec(n, steps).value, step) ==> step.External?
    ensures var log := Exec(n, steps).value.log;
            var programs := Programs(Tasks(steps), log);
            forall c :: c in programs ==>
              && Targets(log, c) == TargetsOf(programs[c].body)
              && CallEvents(log, c) != [] && BeginsOn(CallEvents(log, c)[0], c, programs[c].target)
  {
    hide Enabled, Inv, LogOk;
    var s := Exec(n, steps).value;
    ProxyProgress.AllDone(n, steps, rank);
    ReachableFollows(n, steps);
    forall c: Cid | c < |s.calls|
      ensures Targets(s.log, c) == TargetsOf(s.calls[c].body)
      ensures CallEvents(s.log, c) != [] && BeginsOn(CallEvents(s.log, c)[0], c, s.calls[c].target)
    {
      assert Advanced(s.log, c, s.calls[c]) && ProxyProgress.Finished(s.calls[c]);
      assert s.calls[c].body[..|s.calls[c].body|] == s.calls[c].body;
      FinishedBegan(n, steps, c);
    }
  }

  lemma FinishedBegan(n: nat, steps: seq<Step>, c: Cid)
    requires Exec(n, steps).Some?
    requires c < |Exec(n, steps).value.calls| && ProxyProgress.Finished(Exec(n, steps).value.calls[c])
    ensures var s := Exec(n, steps).value;
            CallEvents(s.log, c) != [] && BeginsOn(CallEvents(s.log, c)[0], c, s.calls[c].target)
  {
    var s := Exec(n, steps).value;
    ReachableLogOk(n, steps);
    assert CallOk(s, c) && StageOf(s.log, c) == Some(StageIn(s, c));
    StageTellsLife(s.log, c);
  }
}
