/**
 When exactly the call protocol can deadlock.  Given which threads may call which, no
 run gets stuck if and only if the threads can be ranked so that calls go upwards;
 otherwise some threads may call each other in a circle, and a run blocks them all.
 */
module ProxyDeadlock {
  import opened Wrappers
  import opened ProxyMachine
  import opened ProxySafety
  import opened ProxyProgress

  /** The pairs of threads of which the first may call the second. */
  type Permits = set<(Tid, Tid)>

  predicate Edge(permits: Permits, t: Tid, u: Tid) {
    t != u && (t, u) in permits
  }

  /** Calls made on thread `t`, and everything they call in turn, stay or go where they may. */
  predicate Permitted(calls: seq<Call>, t: Tid, permits: Permits) {
    forall i :: 0 <= i < |calls| ==>
      && (calls[i].target == t || Edge(permits, t, calls[i].target))
      && Permitted(calls[i].body, calls[i].target, permits)
  }

  ghost predicate PermittedSteps(steps: seq<Step>, permits: Permits) {
    forall i :: 0 <= i < |steps| && steps[i].External? ==> Permitted(steps[i].todo, steps[i].t, permits)
  }

  ghost predicate Ranks(permits: Permits, rank: Rank) {
    forall t, u :: Edge(permits, t, u) ==> rank(t) < rank(u)
  }

  /** Work is left, and nothing happens any more unless somebody posts another task. */
  ghost predicate Stuck(s: State) {
    && (exists t :: 0 <= t < |s.threads| && HasWork(s.threads[t]))
    && forall step :: Enabled(s, step) ==> step.External?
  }

  // ---------- A rank or a circle

  ghost predicate Distinct(path: seq<Tid>) {
    forall i, j :: 0 <= i < j < |path| ==> path[i] != path[j]
  }

  ghost predicate Within(path: seq<Tid>, vs: set<Tid>) {
    forall i :: 0 <= i < |path| ==> path[i] in vs
  }

  predicate MayCallNext(permits: Permits, circle: seq<Tid>, i: nat)
    requires i < |circle|
  {
    Edge(permits, circle[i], Next(circle, i))
  }

  /** Distinct threads each of which may call the next, and the last the first. */
  ghost predicate IsCircle(permits: Permits, circle: seq<Tid>) {
    |circle| > 1 && Distinct(circle) && forall i :: 0 <= i < |circle| ==> MayCallNext(permits, circle, i)
  }

  function Next(circle: seq<Tid>, i: nat): Tid
    requires i < |circle|
  {
    if i + 1 < |circle| then circle[i + 1] else circle[0]
  }

  /** Distinct threads each of which may call the next. */
  ghost predicate IsPath(permits: Permits, path: seq<Tid>) {
    path != [] && Distinct(path) && forall i :: 0 <= i < |path| - 1 ==> MayCallNext(permits, path, i)
  }

  lemma {:induction false} DistinctFit(path: seq<Tid>, vs: set<Tid>)
    requires Within(path, vs) && Distinct(path)
    ensures |path| <= |vs|
  {
    if path != [] {
      var n := |path| - 1;
      DistinctFit(path[..n], vs - {path[n]});
    }
  }

  /** A path whose end may call one of its threads closes there. */
  lemma Closes(permits: Permits, path: seq<Tid>, i: nat)
    requires IsPath(permits, path) && i < |path| && Edge(permits, path[|path| - 1], path[i])
    ensures IsCircle(permits, path[i..])
  {
    var circle := path[i..];
    forall k | 0 <= k < |circle| ensures MayCallNext(permits, circle, k) {
      if k + 1 < |circle| {
        assert MayCallNext(permits, path, i + k);
      }
    }
  }

  lemma Continues(permits: Permits, path: seq<Tid>, u: Tid)
    requires IsPath(permits, path) && Edge(permits, path[|path| - 1], u) && u !in path
    ensures IsPath(permits, path + [u])
  {
    var longer := path + [u];
    forall k | 0 <= k < |longer| - 1 ensures MayCallNext(permits, longer, k) {
      if k < |path| - 1 {
        assert MayCallNext(permits, path, k);
      }
    }
  }

  /** Thread `t` may call another of these threads. */
  ghost predicate MayCall(permits: Permits, vs: set<Tid>, t: Tid) {
    exists u :: u in vs && Edge(permits, t, u)
  }

  lemma CallOne(permits: Permits, vs: set<Tid>, t: Tid) returns (u: Tid)
    requires MayCall(permits, vs, t)
    ensures u in vs && Edge(permits, t, u)
  {
    u :| u in vs && Edge(permits, t, u);
  }

  /** Following calls from thread to thread comes back to where it has been. */
  lemma {:induction false} Walk(permits: Permits, vs: set<Tid>, path: seq<Tid>) returns (circle: seq<Tid>)
    requires forall t :: t in vs ==> MayCall(permits, vs, t)
    requires IsPath(permits, path) && Within(path, vs)
    ensures IsCircle(permits, circle) && Within(circle, vs)
    decreases |vs| - |path|
  {
    hide IsCircle, IsPath, MayCall, Edge;
    PathStarts(permits, path);
    var u := CallOne(permits, vs, path[|path| - 1]);
    if u in path {
      var i :| 0 <= i < |path| && path[i] == u;
      circle := path[i..];
      Closes(permits, path, i);
    } else {
      Continues(permits, path, u);
      PathStarts(permits, path + [u]);
      DistinctFit(path + [u], vs);
      circle := Walk(permits, vs, path + [u]);
    }
  }

  lemma PathStarts(permits: Permits, path: seq<Tid>)
    requires IsPath(permits, path)
    ensures path != [] && Distinct(path)
  {
  }

  ghost predicate RanksOn(permits: Permits, vs: set<Tid>, rank: map<Tid, nat>) {
    && rank.Keys == vs
    && (forall t :: t in vs ==> rank[t] < |vs|)
    && forall t, u :: t in vs && u in vs && Edge(permits, t, u) ==> rank[t] < rank[u]
  }

  lemma RankLast(permits: Permits, vs: set<Tid>, x: Tid, rank: map<Tid, nat>)
    requires x in vs && !MayCall(permits, vs, x) && RanksOn(permits, vs - {x}, rank)
    ensures RanksOn(permits, vs, rank[x := |vs| - 1])
  {
  }

  /** Either the threads can be ranked, or some of them may call each other in a circle. */
  lemma {:induction false} RankOrCircle(permits: Permits, vs: set<Tid>) returns (rank: map<Tid, nat>, circle: seq<Tid>)
    ensures if circle == [] then RanksOn(permits, vs, rank) else IsCircle(permits, circle) && Within(circle, vs)
    decreases |vs|
  {
    rank, circle := map[], [];
    assert vs == {} ==> RanksOn(permits, vs, rank);
    if vs != {} {
      hide IsCircle, MayCall, Edge, RanksOn;
      if forall t :: t in vs ==> MayCall(permits, vs, t) {
        var x :| x in vs;
        circle := Walk(permits, vs, [x]);
        CircleStarts(permits, circle);
      } else {
        var x :| x in vs && !MayCall(permits, vs, x);
        rank, circle := RankOrCircle(permits, vs - {x});
        if circle == [] {
          RankLast(permits, vs, x, rank);
          rank := rank[x := |vs| - 1];
        }
      }
    }
  }

  lemma CircleStarts(permits: Permits, circle: seq<Tid>)
    requires IsCircle(permits, circle)
    ensures |circle| > 1 && Distinct(circle)
  {
  }

  // ---------- A circle blocks

  function Task(circle: seq<Tid>, j: nat): seq<Call>
    requires j < |circle|
  {
    [Call(Next(circle, j), [])]
  }

  /** Thread `j` of the circle runs a task that is about to call the next thread. */
  ghost predicate About(circle: seq<Tid>, j: nat, s: State)
    requires j < |circle|
  {
    circle[j] < |s.threads| && s.threads[circle[j]].stack == [Frame(j, Task(circle, j), Running)]
  }

  /** Thread `j` of the circle waits for the next. */
  ghost predicate Waits(circle: seq<Tid>, j: nat, s: State)
    requires j < |circle|
  {
    && circle[j] < |s.threads| && |circle| + j < |s.calls|
    && s.threads[circle[j]].stack == [Frame(j, [], Blocked(|circle| + j))]
    && !s.calls[|circle| + j].signalled && s.calls[|circle| + j].target == Next(circle, j)
  }

  /** The first `i` threads of the circle run their tasks; nothing else has happened. */
  ghost predicate Launched(n: nat, circle: seq<Tid>, i: nat, s: State) {
    && i <= |circle| && |s.threads| == n && |s.calls| == i
    && (forall j :: 0 <= j < i ==> About(circle, j, s))
    && forall t :: 0 <= t < n && t !in circle[..i] ==> s.threads[t] == Thread([], [])
  }

  ghost predicate Fits(permits: Permits, circle: seq<Tid>, n: nat) {
    IsCircle(permits, circle) && forall i :: 0 <= i < |circle| ==> circle[i] < n
  }

  lemma {:induction false} Launch(n: nat, permits: Permits, circle: seq<Tid>, i: nat) returns (p: seq<Step>, s: State)
    requires Fits(permits, circle, n) && i <= |circle|
    ensures Exec(n, p) == Some(s) && Launched(n, circle, i, s) && PermittedSteps(p, permits)
  {
    if i == 0 {
      p, s := [], Empty(n);
    } else {
      hide Enabled, Apply, Exec, Launched, Fits, PermittedSteps;
      var q, s0 := Launch(n, permits, circle, i - 1);
      var t, task := circle[i - 1], Task(circle, i - 1);
      NextFits(permits, circle, n, i - 1);
      IdleYet(n, circle, i - 1, s0);
      StartTask(s0, t, task);
      var q1, s1 := Then(n, q, s0, External(t, task));
      p, s := Then(n, q1, s1, Dispatch(t));
      OneMoreLaunched(n, circle, i - 1, s0, s);
      StartedPermitted(q, t, task, permits);
    }
  }

  lemma IdleYet(n: nat, circle: seq<Tid>, i: nat, s: State)
    requires i < |circle| && circle[i] < n && Launched(n, circle, i, s) && Distinct(circle)
    ensures |s.threads| == n && |s.calls| == i && s.threads[circle[i]] == Thread([], [])
  {
    NotYet(circle, i);
  }

  lemma OneMoreLaunched(n: nat, circle: seq<Tid>, i: nat, s: State, s': State)
    requires i < |circle| && circle[i] < n && Launched(n, circle, i, s) && Distinct(circle)
    requires s'.threads == s.threads[circle[i] := Thread([Frame(i, Task(circle, i), Running)], [])]
        && |s'.calls| == i + 1
    ensures Launched(n, circle, i + 1, s')
  {
    assert circle[..i + 1] == circle[..i] + [circle[i]];
    forall j | 0 <= j < i + 1 ensures About(circle, j, s') {
      if j < i {
        assert About(circle, j, s) && circle[j] != circle[i];
      }
    }
  }

  lemma NotYet(circle: seq<Tid>, i: nat)
    requires Distinct(circle) && i < |circle|
    ensures circle[i] !in circle[..i]
  {
  }

  lemma StartedPermitted(q: seq<Step>, t: Tid, task: seq<Call>, permits: Permits)
    requires PermittedSteps(q, permits) && |task| == 1 && Edge(permits, t, task[0].target) && task[0].body == []
    ensures PermittedSteps(q + [External(t, task)] + [Dispatch(t)], permits)
  {
  }

  /** An idle thread is given a task and starts it. */
  lemma StartTask(s: State, t: Tid, task: seq<Call>)
    requires t < |s.threads| && s.threads[t] == Thread([], []) && InRange(task, |s.threads|)
    ensures Enabled(s, External(t, task))
    ensures var s1 := Apply(s, External(t, task));
            && Enabled(s1, Dispatch(t))
            && var s2 := Apply(s1, Dispatch(t));
               && s2.threads == s.threads[t := Thread([Frame(|s.calls|, task, Running)], [])]
               && |s2.calls| == |s.calls| + 1
  {
    var s1 := Apply(s, External(t, task));
    assert s1.threads[t].queue == [|s.calls|] && s1.threads[t].queue[1..] == [];
  }

  /** All threads of the circle have their task, and the first `i` of them wait for the next. */
  ghost predicate Waiting(n: nat, circle: seq<Tid>, i: nat, s: State) {
    && i <= |circle| && |s.threads| == n && |s.calls| == |circle| + i
    && (forall j :: 0 <= j < i ==> Waits(circle, j, s))
    && (forall j :: i <= j < |circle| ==> About(circle, j, s))
    && forall t :: 0 <= t < n && t !in circle ==> s.threads[t] == Thread([], [])
  }

  lemma {:induction false} Wait(n: nat, permits: Permits, circle: seq<Tid>, i: nat) returns (p: seq<Step>, s: State)
    requires Fits(permits, circle, n) && i <= |circle|
    ensures Exec(n, p) == Some(s) && Waiting(n, circle, i, s) && PermittedSteps(p, permits)
  {
    hide Enabled, Apply, Exec, Waiting, Launched, Fits, PermittedSteps;
    if i == 0 {
      p, s := Launch(n, permits, circle, |circle|);
      AllLaunched(n, circle, s);
    } else {
      var q, s0 := Wait(n, permits, circle, i - 1);
      NextFits(permits, circle, n, i - 1);
      WaitingNow(n, circle, i - 1, s0);
      CallNext(s0, circle[i - 1], i - 1, Next(circle, i - 1));
      p, s := Then(n, q, s0, MarshalPost(circle[i - 1]));
      OneMoreWaits(n, circle, i - 1, s0, s);
      StillPermitted(q, circle[i - 1], permits);
    }
  }

  lemma AllLaunched(n: nat, circle: seq<Tid>, s: State)
    requires Launched(n, circle, |circle|, s)
    ensures Waiting(n, circle, 0, s)
  {
    assert circle[..|circle|] == circle;
  }

  lemma StillPermitted(q: seq<Step>, t: Tid, permits: Permits)
    requires PermittedSteps(q, permits)
    ensures PermittedSteps(q + [MarshalPost(t)], permits)
  {
  }

  lemma WaitingNow(n: nat, circle: seq<Tid>, i: nat, s: State)
    requires i < |circle| && Waiting(n, circle, i, s)
    ensures About(circle, i, s) && |s.threads| == n && |s.calls| == |circle| + i
  {
  }

  lemma OneMoreWaits(n: nat, circle: seq<Tid>, i: nat, s: State, s': State)
    requires i < |circle| && Waiting(n, circle, i, s) && Distinct(circle) && Next(circle, i) in circle
    requires |s'.threads| == n && circle[i] < n && |s'.calls| == |s.calls| + 1 && s'.calls[..|s.calls|] == s.calls
    requires forall v :: 0 <= v < n && v != circle[i] ==> s'.threads[v].stack == s.threads[v].stack
    requires forall v :: 0 <= v < n && v != circle[i] && v != Next(circle, i) ==> s'.threads[v] == s.threads[v]
    requires Waits(circle, i, s')
    ensures Waiting(n, circle, i + 1, s')
  {
    forall j | 0 <= j < i ensures Waits(circle, j, s') {
      assert Waits(circle, j, s) && circle[j] != circle[i];
      assert s'.calls[|circle| + j] == s'.calls[..|s.calls|][|circle| + j];
    }
    forall j | i < j < |circle| ensures About(circle, j, s') {
      assert About(circle, j, s) && circle[j] != circle[i];
    }
  }

  lemma NextFits(permits: Permits, circle: seq<Tid>, n: nat, i: nat)
    requires Fits(permits, circle, n) && i < |circle|
    ensures Next(circle, i) < n && Next(circle, i) in circle && circle[i] < n && circle[i] != Next(circle, i)
    ensures Distinct(circle) && Edge(permits, circle[i], Next(circle, i))
  {
    assert MayCallNext(permits, circle, i);
  }

  /** A task posts its one call to another thread and waits. */
  lemma CallNext(s: State, t: Tid, c: Cid, u: Tid)
    requires t < |s.threads| && u < |s.threads| && t != u && c < |s.calls|
    requires s.threads[t].stack == [Frame(c, [Call(u, [])], Running)]
    ensures Enabled(s, MarshalPost(t))
    ensures var s' := Apply(s, MarshalPost(t));
            && |s'.threads| == |s.threads| && s'.threads[t].stack == [Frame(c, [], Blocked(|s.calls|))]
            && (forall v :: 0 <= v < |s.threads| && v != t ==> s'.threads[v].stack == s.threads[v].stack)
            && (forall v :: 0 <= v < |s.threads| && v != t && v != u ==> s'.threads[v] == s.threads[v])
            && |s'.calls| == |s.calls| + 1 && s'.calls[..|s.calls|] == s.calls
            && !s'.calls[|s.calls|].signalled && s'.calls[|s.calls|].target == u
  {
    var task := [Call(u, [])];
    assert task[1..] == [];
    SingleFrame(s.threads[t], Frame(c, task, Running), Frame(c, [], Blocked(|s.calls|)));
  }

  lemma WaitingIsStuck(n: nat, circle: seq<Tid>, s: State)
    requires circle != [] && Waiting(n, circle, |circle|, s)
    ensures Stuck(s)
  {
    assert Waits(circle, 0, s) && HasWork(s.threads[circle[0]]);
    forall step | Enabled(s, step) ensures step.External? {
      if step.t in circle {
        var j :| 0 <= j < |circle| && circle[j] == step.t;
        assert Waits(circle, j, s);
      }
    }
  }

  ghost predicate WaitsForNext(s: State, circle: seq<Tid>, i: nat)
    requires i < |circle|
  {
    circle[i] < |s.threads| && WaitsFor(s, circle[i], Next(circle, i))
  }

  /** Threads that may call each other in a circle can all block for good, each waiting for the next. */
  lemma CircleDeadlocks(n: nat, permits: Permits, circle: seq<Tid>)
    requires Fits(permits, circle, n)
    ensures exists steps ::
              && Exec(n, steps).Some? && PermittedSteps(steps, permits) && Stuck(Exec(n, steps).value)
              && forall i :: 0 <= i < |circle| ==> WaitsForNext(Exec(n, steps).value, circle, i)
  {
    hide Exec, Stuck;
    var p, s := Wait(n, permits, circle, |circle|);
    WaitingIsStuck(n, circle, s);
    forall i | 0 <= i < |circle| ensures WaitsForNext(s, circle, i) {
      assert Waits(circle, i, s);
    }
  }

  /** Two threads that may call each other can deadlock. */
  lemma MutualCallsDeadlock()
    ensures exists steps :: Exec(2, steps).Some? && Stuck(Exec(2, steps).value)
  {
    var permits, circle := {(0, 1), (1, 0)}, [0, 1];
    assert MayCallNext(permits, circle, 0) && MayCallNext(permits, circle, 1);
    CircleDeadlocks(2, permits, circle);
  }

  // ---------- The exact condition

  lemma {:induction false} PermittedIsOrdered(calls: seq<Call>, t: Tid, permits: Permits, rank: Rank)
    requires Permitted(calls, t, permits) && Ranks(permits, rank)
    ensures Ordered(calls, t, rank)
  {
    forall i | 0 <= i < |calls| ensures Ordered(calls[i].body, calls[i].target, rank) {
      PermittedIsOrdered(calls[i].body, calls[i].target, permits, rank);
    }
  }

  lemma RankedIsNotStuck(n: nat, steps: seq<Step>, permits: Permits, rank: Rank)
    requires Exec(n, steps).Some? && PermittedSteps(steps, permits) && Ranks(permits, rank)
    ensures !Stuck(Exec(n, steps).value)
  {
    var s := Exec(n, steps).value;
    forall i | 0 <= i < |steps| && steps[i].External? ensures Ordered(steps[i].todo, steps[i].t, rank) {
      PermittedIsOrdered(steps[i].todo, steps[i].t, permits, rank);
    }
    ReachableInv(n, steps);
    if t :| 0 <= t < |s.threads| && HasWork(s.threads[t]) {
      NoDeadlock(n, steps, rank);
    }
  }

  lemma RankIsFound(permits: Permits, vs: set<Tid>, rank: map<Tid, nat>) returns (f: Rank)
    requires RanksOn(permits, vs, rank) && forall p :: p in permits ==> p.0 in vs && p.1 in vs
    ensures Ranks(permits, f)
  {
    f := t => if t in rank then rank[t] else 0;
    forall t: Tid, u: Tid | Edge(permits, t, u) ensures f(t) < f(u) {
      assert (t, u) in permits && (t, u).0 in vs && (t, u).1 in vs;
    }
  }

  function ThreadIds(n: nat): (vs: set<Tid>)
    ensures forall t: Tid :: t in vs <==> t < n
  {
    if n == 0 then {} else ThreadIds(n - 1) + {n - 1}
  }

  /**
   No run that makes only permitted calls gets stuck if and only if the threads can be ranked so that every
   permitted call to another thread goes upwards.
   */
  lemma DeadlockFreeIffRanked(n: nat, permits: Permits)
    requires forall p :: p in permits ==> p.0 < n && p.1 < n
    ensures (forall steps :: Exec(n, steps).Some? && PermittedSteps(steps, permits) ==> !Stuck(Exec(n, steps).value))
            <==> exists rank :: Ranks(permits, rank)
  {
    if rank :| Ranks(permits, rank) {
      forall steps | Exec(n, steps).Some? && PermittedSteps(steps, permits) ensures !Stuck(Exec(n, steps).value) {
        RankedIsNotStuck(n, steps, permits, rank);
      }
    } else {
      var vs := ThreadIds(n);
      var rank, circle := RankOrCircle(permits, vs);
      if circle == [] {
        var f := RankIsFound(permits, vs, rank);
        assert false;
      }
      CircleDeadlocks(n, permits, circle);
    }
  }
}
