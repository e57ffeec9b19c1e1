/**
 The composed serialisation theorem: what each thread runs is a list of nested
 invocation trees and one open branch, in an order that extends program order and
 real time.
 */
module ProxySerial {
  import opened Wrappers
  import opened ProxyMachine
  import opened ProxySafety
  import opened ProxyHistory
  import opened ProxyTheorems

  /** The Begin and End events on thread `t`. */
  function Local(log: seq<Event>, t: Tid): seq<Event> {
    if log == [] then [] else
      var e := log[|log| - 1];
      Local(log[..|log| - 1], t) + if (e.Begin? || e.End?) && e.t == t then [e] else []
  }

  /** A finished invocation, and those it made inline, in order. */
  datatype Tree = Node(c: Cid, v: int, inner: seq<Tree>)

  /** An unfinished invocation, and the finished ones it made inline. */
  datatype Level = Level(c: Cid, inner: seq<Tree>)

  /** The events of finished invocations made one after the other from within `caller`. */
  function Flat(t: Tid, caller: Option<Cid>, trees: seq<Tree>): seq<Event>
    decreases trees
  {
    if trees == [] then [] else
      var last := trees[|trees| - 1];
      Flat(t, caller, trees[..|trees| - 1])
      + [Begin(last.c, t, caller)] + Flat(t, Some(last.c), last.inner) + [End(last.c, t, last.v)]
  }

  function Innermost(branch: seq<Level>): Option<Cid> {
    if branch == [] then None else Some(branch[|branch| - 1].c)
  }

  /** The events of unfinished invocations, each made inline from within the one before it. */
  function FlatBranch(t: Tid, branch: seq<Level>): seq<Event> {
    if branch == [] then [] else
      var outer, last := branch[..|branch| - 1], branch[|branch| - 1];
      FlatBranch(t, outer) + [Begin(last.c, t, Innermost(outer))] + Flat(t, Some(last.c), last.inner)
  }

  function Ids(branch: seq<Level>): seq<Cid> {
    seq(|branch|, i requires 0 <= i < |branch| => branch[i].c)
  }

  lemma LocalGrows(log: seq<Event>, e: Event, t: Tid)
    ensures Local(log + [e], t) == Local(log, t) + if (e.Begin? || e.End?) && e.t == t then [e] else []
  {
    assert (log + [e])[..|log|] == log;
  }

  lemma FlatGrows(t: Tid, caller: Option<Cid>, trees: seq<Tree>, tree: Tree)
    ensures Flat(t, caller, trees + [tree]) ==
            Flat(t, caller, trees) + [Begin(tree.c, t, caller)] + Flat(t, Some(tree.c), tree.inner)
                + [End(tree.c, t, tree.v)]
  {
    assert (trees + [tree])[..|trees|] == trees;
  }

  lemma BranchGrows(t: Tid, branch: seq<Level>, level: Level)
    ensures FlatBranch(t, branch + [level]) ==
            FlatBranch(t, branch) + [Begin(level.c, t, Innermost(branch))] + Flat(t, Some(level.c), level.inner)
  {
    assert (branch + [level])[..|branch|] == branch;
  }

  /** An accepted history is trees and one open branch. */
  lemma {:induction false} Nested(log: seq<Event>, t: Tid) returns (top: seq<Tree>, branch: seq<Level>)
    requires OpenOn(log, t).Some?
    ensures Local(log, t) == Flat(t, None, top) + FlatBranch(t, branch) && Ids(branch) == OpenOn(log, t).value
  {
    if log == [] {
      return [], [];
    }
    var init, e := log[..|log| - 1], log[|log| - 1];
    assert log == init + [e];
    top, branch := Nested(init, t);
    hide Ids;
    LocalGrows(init, e, t);
    IdsEnd(branch);
    if e.Begin? && e.t == t {
      top, branch := Opened(t, top, branch, e);
    } else if e.End? && e.t == t {
      assert Ids(branch)[|branch| - 1] == e.c;
      top, branch := Closed(t, top, branch, e.v);
    }
  }

  lemma IdsEnd(branch: seq<Level>)
    ensures |Ids(branch)| == |branch|
    ensures branch != [] ==> Ids(branch)[|branch| - 1] == branch[|branch| - 1].c
  {
  }

  lemma Opened(t: Tid, top: seq<Tree>, branch: seq<Level>, e: Event) returns (top': seq<Tree>, branch': seq<Level>)
    requires e.Begin? && e.t == t && e.within == Innermost(branch)
    ensures Flat(t, None, top') + FlatBranch(t, branch') == Flat(t, None, top) + FlatBranch(t, branch) + [e]
    ensures Ids(branch') == Ids(branch) + [e.c]
  {
    BranchGrows(t, branch, Level(e.c, []));
    top', branch' := top, branch + [Level(e.c, [])];
    assert FlatBranch(t, branch') == FlatBranch(t, branch) + [e];
  }

  /** The innermost invocation ends and becomes the last tree of the one around it. */
  lemma Closed(t: Tid, top: seq<Tree>, branch: seq<Level>, v: int) returns (top': seq<Tree>, branch': seq<Level>)
    requires branch != []
    ensures Flat(t, None, top') + FlatBranch(t, branch') ==
            Flat(t, None, top) + FlatBranch(t, branch) + [End(branch[|branch| - 1].c, t, v)]
    ensures Ids(branch') == Ids(branch)[..|branch| - 1]
  {
    var outer, last := branch[..|branch| - 1], branch[|branch| - 1];
    assert branch == outer + [last];
    if outer == [] {
      top', branch' := top + [Node(last.c, v, last.inner)], [];
      ClosedTop(t, top, last, v);
    } else {
      var around, caller := outer[..|outer| - 1], outer[|outer| - 1];
      assert outer == around + [caller];
      top', branch' := top, around + [caller.(inner := caller.inner + [Node(last.c, v, last.inner)])];
      ClosedInside(t, around, caller, last, v);
      assert (Flat(t, None, top) + FlatBranch(t, branch)) + [End(last.c, t, v)] ==
             Flat(t, None, top) + (FlatBranch(t, branch) + [End(last.c, t, v)]);
    }
  }

  lemma ClosedTop(t: Tid, top: seq<Tree>, last: Level, v: int)
    ensures Flat(t, None, top + [Node(last.c, v, last.inner)]) ==
            Flat(t, None, top) + FlatBranch(t, [last]) + [End(last.c, t, v)]
    ensures FlatBranch(t, []) == []
  {
    FlatGrows(t, None, top, Node(last.c, v, last.inner));
    BranchGrows(t, [], last);
    assert [] + [last] == [last];
    assert FlatBranch(t, [last]) == [Begin(last.c, t, None)] + Flat(t, Some(last.c), last.inner);
  }

  lemma ClosedInside(t: Tid, around: seq<Level>, caller: Level, last: Level, v: int)
    ensures FlatBranch(t, around + [caller.(inner := caller.inner + [Node(last.c, v, last.inner)])]) ==
            FlatBranch(t, around + [caller] + [last]) + [End(last.c, t, v)]
  {
    var tree := Node(last.c, v, last.inner);
    var grown := caller.(inner := caller.inner + [tree]);
    FlatGrows(t, Some(caller.c), caller.inner, tree);
    BranchGrows(t, around, caller);
    BranchGrows(t, around + [caller], last);
    BranchGrows(t, around, grown);
    Regrouped(FlatBranch(t, around) + [Begin(caller.c, t, Innermost(around))], Flat(t, Some(caller.c), caller.inner),
              [Begin(last.c, t, Some(caller.c))], Flat(t, Some(last.c), last.inner), [End(last.c, t, v)]);
  }

  lemma Regrouped(a: seq<Event>, b: seq<Event>, c: seq<Event>, d: seq<Event>, e: seq<Event>)
    ensures a + (b + c + d + e) == a + b + c + d + e
  {
  }

  // ---------- Order

  /** Whatever `a` does in `es` comes before whatever `b` does. */
  ghost predicate Precedes(es: seq<Event>, a: Cid, b: Cid) {
    forall l, k :: 0 <= l < |es| && 0 <= k < |es| && es[l].c == a && es[k].c == b ==> l < k
  }

  lemma {:induction false} LocalSplit(log: seq<Event>, t: Tid, j: nat)
    requires j <= |log|
    ensures Local(log, t) == Local(log[..j], t) + Local(log[j..], t)
  {
    if j == |log| {
      assert log[..j] == log;
    } else {
      var init, e := log[..|log| - 1], log[|log| - 1];
      LocalSplit(init, t, j);
      assert init[..j] == log[..j] && log[j..] == init[j..] + [e] && log == init + [e];
      LocalGrows(init, e, t);
      LocalGrows(init[j..], e, t);
    }
  }

  lemma {:induction false} LocalIsLogged(log: seq<Event>, t: Tid, l: nat)
    requires l < |Local(log, t)|
    ensures Local(log, t)[l].Begin? || Local(log, t)[l].End?
    ensures Local(log, t)[l] in log
  {
    var init, e := log[..|log| - 1], log[|log| - 1];
    assert log == init + [e];
    LocalGrows(init, e, t);
    if l < |Local(init, t)| {
      LocalIsLogged(init, t, l);
    }
  }

  lemma {:induction false} LoggedCallsExist(n: nat, steps: seq<Step>, i: nat)
    requires Exec(n, steps).Some? && i < |Exec(n, steps).value.log|
    ensures Exec(n, steps).value.log[i].c < |Exec(n, steps).value.calls|
  {
    var before, step := steps[..|steps| - 1], steps[|steps| - 1];
    var s := Exec(n, before).value;
    ReachableInv(n, before);
    if i < |s.log| {
      LoggedCallsExist(n, before, i);
      OldCallsStay(s, step);
    } else {
      NewEventsName(s, step, i - |s.log|);
    }
  }

  lemma OldCallsStay(s: State, step: Step)
    requires Enabled(s, step)
    ensures |s.calls| <= |Apply(s, step).calls|
  {
  }

  lemma NewEventsName(s: State, step: Step, k: nat)
    requires Inv(s) && Enabled(s, step) && k < |Events(s, step)|
    ensures Events(s, step)[k].c < |Apply(s, step).calls|
    ensures Events(s, step)[k].Marshal? ==> Events(s, step)[k].c == |s.calls| && k == 0
  {
  }

  /** Marshalling a call is the first that is heard of it. */
  lemma {:induction false} MarshalComesFirst(n: nat, steps: seq<Step>, j: nat, k: nat)
    requires Exec(n, steps).Some?
    requires var log := Exec(n, steps).value.log;
             j < |log| && k < |log| && log[j].Marshal? && log[k].c == log[j].c && j != k
    ensures j < k
  {
    var before, step := steps[..|steps| - 1], steps[|steps| - 1];
    var s := Exec(n, before).value;
    ReachableInv(n, before);
    if j < |s.log| && k < |s.log| {
      MarshalComesFirst(n, before, j, k);
    } else if j >= |s.log| {
      NewEventsName(s, step, j - |s.log|);
      if k < |s.log| {
        LoggedCallsExist(n, before, k);
      }
    }
  }

  lemma {:induction false} StaysReturned(log: seq<Event>, c: Cid, i: nat, k: nat)
    requires StageOf(log, c).Some? && i < k <= |log| && log[i].Return? && log[i].c == c
    ensures StageOf(log[..k], c).Some? && StageOf(log[..k], c).value.Returned?
  {
    Prefix(StageBook(c), Fresh, log, k - 1);
    if i < k - 1 {
      StaysReturned(log, c, i, k - 1);
    }
  }

  /** A call that has returned does nothing any more. */
  lemma ReturnComesLast(log: seq<Event>, i: nat, k: nat)
    requires i < |log| && k < |log| && log[i].Return? && log[k].c == log[i].c && (log[k].Begin? || log[k].End?)
    requires StageOf(log, log[i].c).Some?
    ensures k < i
  {
    if i < k {
      StaysReturned(log, log[i].c, i, k);
      Prefix(StageBook(log[i].c), Fresh, log, k);
      assert false;
    }
  }

  lemma {:induction false} EndedHasEnd(log: seq<Event>, c: Cid)
    requires StageOf(log, c).Some? && (StageOf(log, c).value.Ended? || StageOf(log, c).value.Returned?)
    ensures exists l :: 0 <= l < |log| && log[l].End? && log[l].c == c
  {
    var init, e := log[..|log| - 1], log[|log| - 1];
    if e.End? && e.c == c {
      assert log[|log| - 1].End?;
    } else {
      EndedHasEnd(init, c);
      var l :| 0 <= l < |init| && init[l].End? && init[l].c == c;
      assert log[l].End?;
    }
  }

  /** A call that returned before another was made has ended before the other begins. */
  lemma RespectsRealTime(n: nat, steps: seq<Step>, i: nat, j: nat, k: nat)
    requires Exec(n, steps).Some?
    requires var log := Exec(n, steps).value.log;
             && i < j < |log| && k < |log| && log[i].Return? && log[j].Marshal?
             && log[k].Begin? && log[k].c == log[j].c
    ensures var log := Exec(n, steps).value.log;
            j < k && exists l :: 0 <= l < i && log[l].End? && log[l].c == log[i].c
  {
    var s := Exec(n, steps).value;
    MarshalComesFirst(n, steps, j, k);
    ReachableLogOk(n, steps);
    var c := s.log[i].c;
    assert StageOf(s.log, c) == Some(StageIn(s, c));
    Prefix(StageBook(c), Fresh, s.log, i);
    EndedHasEnd(s.log[..i], c);
    var l :| 0 <= l < |s.log[..i]| && s.log[..i][l].End? && s.log[..i][l].c == c;
    assert s.log[l].End?;
  }

  // ---------- A call and all it calls

  /** `chain` leads from call `a` to call `d`: each was marshalled by the one before it, the first by `a`. */
  ghost predicate Calls(log: seq<Event>, a: Cid, chain: seq<Cid>, d: Cid) {
    if chain == [] then a == d else
      var init := chain[..|chain| - 1];
      var caller := if init == [] then a else init[|init| - 1];
      && chain[|chain| - 1] == d
      && Marshal(d, caller) in log
      && Calls(log, a, init, caller)
  }

  lemma NewMarshal(s: State, step: Step, k: nat)
    requires Inv(s) && Enabled(s, step) && k < |Events(s, step)| && Events(s, step)[k].Marshal?
    ensures k == 0 && StageIn(s, Events(s, step)[k].caller).Begun?
  {
    TopOk(s, step.t);
  }

  /** A caller is running when it makes a call. */
  lemma {:induction false} CallerRuns(n: nat, steps: seq<Step>, m: nat)
    requires Exec(n, steps).Some? && m < |Exec(n, steps).value.log| && Exec(n, steps).value.log[m].Marshal?
    ensures var log := Exec(n, steps).value.log;
            StageOf(log[..m], log[m].caller).Some? && StageOf(log[..m], log[m].caller).value.Begun?
  {
    var before, step := steps[..|steps| - 1], steps[|steps| - 1];
    var s, log := Exec(n, before).value, Exec(n, steps).value.log;
    assert log == s.log + Events(s, step);
    ReachableInv(n, before);
    if m < |s.log| {
      CallerRuns(n, before, m);
      assert s.log[..m] == log[..m];
    } else {
      ReachableLogOk(n, before);
      NewMarshal(s, step, m - |s.log|);
      assert log[..m] == s.log;
      assert StageOf(s.log, log[m].caller) == Some(StageIn(s, log[m].caller));
    }
  }

  lemma NewEnd(s: State, step: Step, k: nat)
    requires Inv(s) && Enabled(s, step) && k < |Events(s, step)| && Events(s, step)[k].End?
    ensures k == 0 && Busy(s, step.t) && Top(s.threads[step.t]).phase == Running
    ensures Events(s, step)[k].c == Top(s.threads[step.t]).call
  {
    TopOk(s, step.t);
  }

  /** An invocation ends with no call in flight. */
  lemma {:induction false} EndsIdle(n: nat, steps: seq<Step>, e: nat)
    requires Exec(n, steps).Some? && e < |Exec(n, steps).value.log| && Exec(n, steps).value.log[e].End?
    ensures var log := Exec(n, steps).value.log; InFlight(log[..e], log[e].c) == Some(None)
  {
    var before, step := steps[..|steps| - 1], steps[|steps| - 1];
    var s, log := Exec(n, before).value, Exec(n, steps).value.log;
    assert log == s.log + Events(s, step);
    ReachableInv(n, before);
    if e < |s.log| {
      EndsIdle(n, before, e);
      assert s.log[..e] == log[..e];
    } else {
      ReachableLogOk(n, before);
      NewEnd(s, step, e - |s.log|);
      assert log[..e] == s.log;
      IdleWhenRunning(s, step.t);
    }
  }

  lemma IdleWhenRunning(s: State, t: Tid)
    requires Inv(s) && LogOk(s) && Busy(s, t) && Top(s.threads[t]).phase == Running
    ensures InFlight(s.log, Top(s.threads[t]).call) == Some(None)
  {
    assert InFlightOk(s, Top(s.threads[t]).call);
    RunningHasNoneInFlight(s, t);
  }

  lemma {:induction false} StaysEnded(log: seq<Event>, c: Cid, e: nat, k: nat)
    requires StageOf(log, c).Some? && e < k <= |log| && log[e].End? && log[e].c == c
    ensures StageOf(log[..k], c).Some? && (StageOf(log[..k], c).value.Ended? || StageOf(log[..k], c).value.Returned?)
  {
    Prefix(StageBook(c), Fresh, log, k - 1);
    if e < k - 1 {
      StaysEnded(log, c, e, k - 1);
    }
  }

  /** A call has returned before its caller ends. */
  lemma ReturnsBeforeCallerEnds(n: nat, steps: seq<Step>, m: nat, e: nat) returns (r: nat)
    requires Exec(n, steps).Some?
    requires var log := Exec(n, steps).value.log;
             m < |log| && e < |log| && log[m].Marshal? && log[e].End? && log[e].c == log[m].caller
    ensures var log := Exec(n, steps).value.log; m < r < e && log[r].Return? && log[r].c == log[m].c
  {
    var s := Exec(n, steps).value;
    hide Exec;
    ReachableLogOk(n, steps);
    assert StageOf(s.log, s.log[e].c) == Some(StageIn(s, s.log[e].c)) && InFlightOk(s, s.log[e].c);
    CallerRuns(n, steps, m);
    EndsIdle(n, steps, e);
    hide LogOk, InFlightOk, Inv;
    r := ReturnsBetween(s.log, m, e);
  }

  lemma ReturnsBetween(log: seq<Event>, m: nat, e: nat) returns (r: nat)
    requires m < |log| && e < |log| && log[m].Marshal? && log[e].End? && log[e].c == log[m].caller
    requires StageOf(log, log[e].c).Some? && InFlight(log, log[e].c).Some?
    requires StageOf(log[..m], log[e].c).Some? && StageOf(log[..m], log[e].c).value.Begun?
    requires InFlight(log[..e], log[e].c) == Some(None)
    ensures m < r < e && log[r].Return? && log[r].c == log[m].c
  {
    var c, d := log[e].c, log[m].c;
    if e < m {
      StaysEnded(log, c, e, m);
    }
    Prefix(InFlightBook(c), None, log, m);
    if forall l :: m < l < e ==> !(log[l].Return? && log[l].c == d) {
      StaysInFlight(log, c, d, m + 1, e);
    }
    r :| m < r < e && log[r].Return? && log[r].c == d;
  }

  lemma ReturnHasEnd(log: seq<Event>, r: nat) returns (x: nat)
    requires r < |log| && log[r].Return? && StageOf(log, log[r].c).Some?
    ensures x < r && log[x].End? && log[x].c == log[r].c
  {
    Prefix(StageBook(log[r].c), Fresh, log, r);
    EndedHasEnd(log[..r], log[r].c);
    x :| 0 <= x < |log[..r]| && log[..r][x].End? && log[..r][x].c == log[r].c;
  }

  /** All that an ended invocation called, directly or not, has ended before it and does nothing after it. */
  lemma {:induction false} CalleesEndBefore(n: nat, steps: seq<Step>, e: nat, chain: seq<Cid>, d: Cid) returns (x: nat)
    requires Exec(n, steps).Some? && e < |Exec(n, steps).value.log|
    requires var log := Exec(n, steps).value.log; log[e].End? && Calls(log, log[e].c, chain, d)
    ensures var log := Exec(n, steps).value.log; x <= e && log[x].End? && log[x].c == d
    ensures var log := Exec(n, steps).value.log;
            forall k :: 0 <= k < |log| && log[k].c == d && (log[k].Begin? || log[k].End?) ==> k <= e
    decreases |chain|
  {
    var s := Exec(n, steps).value;
    var log := s.log;
    ReachableLogOk(n, steps);
    assert StageOf(log, d) == Some(StageIn(s, d));
    if chain == [] {
      x := e;
      forall k | 0 <= k < |log| && log[k].c == d && (log[k].Begin? || log[k].End?) ensures k <= e {
        if e < k {
          StaysEnded(log, d, e, k);
          Prefix(StageBook(d), Fresh, log, k);
        }
      }
    } else {
      var init := chain[..|chain| - 1];
      var caller := if init == [] then log[e].c else init[|init| - 1];
      var y := CalleesEndBefore(n, steps, e, init, caller);
      var m :| 0 <= m < |log| && log[m] == Marshal(d, caller);
      var r := ReturnsBeforeCallerEnds(n, steps, m, y);
      x := ReturnHasEnd(log, r);
      forall k | 0 <= k < |log| && log[k].c == d && (log[k].Begin? || log[k].End?) ensures k <= e {
        ReturnComesLast(log, r, k);
      }
    }
  }

  lemma {:induction false} BegunHasBegin(log: seq<Event>, c: Cid) returns (x: nat)
    requires StageOf(log, c).Some? && StageOf(log, c).value.Begun?
    ensures x < |log| && log[x].Begin? && log[x].c == c
  {
    var init, e := log[..|log| - 1], log[|log| - 1];
    if e.Begin? && e.c == c {
      x := |log| - 1;
    } else {
      x := BegunHasBegin(init, c);
    }
  }

  /** All that a call does, and all it calls, directly or not, comes after it was made. */
  lemma {:induction false} CalleesComeAfter(n: nat, steps: seq<Step>, j: nat, chain: seq<Cid>, d: Cid, k: nat)
    requires Exec(n, steps).Some?
    requires var log := Exec(n, steps).value.log;
             j < |log| && k < |log| && log[j].Marshal? && Calls(log, log[j].c, chain, d) && log[k].c == d
    ensures j <= k
    decreases |chain|
  {
    var log := Exec(n, steps).value.log;
    if chain == [] {
      if j != k {
        MarshalComesFirst(n, steps, j, k);
      }
    } else {
      var init := chain[..|chain| - 1];
      var caller := if init == [] then log[j].c else init[|init| - 1];
      var m :| 0 <= m < |log| && log[m] == Marshal(d, caller);
      CallerRuns(n, steps, m);
      var x := BegunHasBegin(log[..m], caller);
      assert log[x] == log[..m][x];
      CalleesComeAfter(n, steps, j, init, caller, x);
      if k != m {
        MarshalComesFirst(n, steps, m, k);
      }
    }
  }

  /** Whatever `a` and all it called do in `es` comes before whatever `b` and all it called do. */
  ghost predicate FamilyPrecedes(log: seq<Event>, es: seq<Event>, a: Cid, b: Cid) {
    forall ca, cb, a', b' :: Calls(log, a, ca, a') && Calls(log, b, cb, b') ==> Precedes(es, a', b')
  }

  /**
   A call that returned before another is made precedes it on every thread, with all the calls that either made,
   directly or not.
   */
  lemma ReturnedPrecedes(n: nat, steps: seq<Step>, t: Tid, i: nat, j: nat)
    requires Exec(n, steps).Some?
    requires var log := Exec(n, steps).value.log; i < j < |log| && log[i].Return? && log[j].Marshal?
    ensures var log := Exec(n, steps).value.log; FamilyPrecedes(log, Local(log, t), log[i].c, log[j].c)
  {
    var s := Exec(n, steps).value;
    var log, a, b := s.log, s.log[i].c, s.log[j].c;
    ReachableLogOk(n, steps);
    assert StageOf(log, a) == Some(StageIn(s, a));
    var e := ReturnHasEnd(log, i);
    forall ca, cb, a', b' | Calls(log, a, ca, a') && Calls(log, b, cb, b') ensures Precedes(Local(log, t), a', b') {
      var x := CalleesEndBefore(n, steps, e, ca, a');
      forall k | 0 <= k < |log| && log[k].c == b' ensures j <= k {
        CalleesComeAfter(n, steps, j, cb, b', k);
      }
      SplitPrecedes(log, t, j, a', b');
    }
  }

  /** If all events of `a` come before position `j` and none of `b` does, `a` precedes `b`. */
  lemma SplitPrecedes(log: seq<Event>, t: Tid, j: nat, a: Cid, b: Cid)
    requires j <= |log|
    requires forall k :: 0 <= k < |log| && log[k].c == a && (log[k].Begin? || log[k].End?) ==> k < j
    requires forall k :: 0 <= k < |log| && log[k].c == b ==> j <= k
    ensures Precedes(Local(log, t), a, b)
  {
    LocalSplit(log, t, j);
    var first, second := Local(log[..j], t), Local(log[j..], t);
    forall k | 0 <= k < |first| ensures first[k].c != b {
      LocalIsLogged(log[..j], t, k);
      var m :| 0 <= m < j && log[..j][m] == first[k];
      assert log[m] == first[k];
    }
    forall l | 0 <= l < |second| ensures second[l].c != a {
      LocalIsLogged(log[j..], t, l);
      var m :| 0 <= m < |log| - j && log[j..][m] == second[l];
      assert log[j + m] == second[l];
    }
  }

  /** A caller's earlier call, with all it called, precedes its later one on every thread. */
  lemma CallerOrderPrecedes(n: nat, steps: seq<Step>, t: Tid, i: nat, j: nat)
    requires Exec(n, steps).Some?
    requires var log := Exec(n, steps).value.log;
             i < j < |log| && log[i].Marshal? && log[j].Marshal? && log[i].caller == log[j].caller
    ensures var log := Exec(n, steps).value.log; FamilyPrecedes(log, Local(log, t), log[i].c, log[j].c)
  {
    var log := Exec(n, steps).value.log;
    ProgramOrder(n, steps, log[i].caller, i, j);
    var l :| i < l < j && log[l].Return? && log[l].c == log[i].c;
    ReturnedPrecedes(n, steps, t, l, j);
  }

  /**
   Every run is serial on each thread: what a thread has run is a list of nested invocation trees and one
   open branch, and this order extends real time (a call that returned before another was made precedes
   it, with all the calls that either made on whatever thread) and every caller's program order.
   */
  lemma ThreadsAreSerial(n: nat, steps: seq<Step>, t: Tid)
    requires Exec(n, steps).Some? && t < n
    ensures var log := Exec(n, steps).value.log;
            && (exists top, branch :: Local(log, t) == Flat(t, None, top) + FlatBranch(t, branch))
            && (forall i, j :: 0 <= i < j < |log| && log[i].Return? && log[j].Marshal? ==>
                  FamilyPrecedes(log, Local(log, t), log[i].c, log[j].c))
            && (forall i, j ::
                  0 <= i < j < |log| && log[i].Marshal? && log[j].Marshal? && log[i].caller == log[j].caller ==>
                  FamilyPrecedes(log, Local(log, t), log[i].c, log[j].c))
  {
    hide FamilyPrecedes;
    var log := Exec(n, steps).value.log;
    ReachableLogOk(n, steps);
    ReachableInv(n, steps);
    assert OpenOn(log, t).Some?;
    var top, branch := Nested(log, t);
    forall i, j | 0 <= i < j < |log| && log[i].Return? && log[j].Marshal?
      ensures FamilyPrecedes(log, Local(log, t), log[i].c, log[j].c)
    {
      ReturnedPrecedes(n, steps, t, i, j);
    }
    forall i, j | 0 <= i < j < |log| && log[i].Marshal? && log[j].Marshal? && log[i].caller == log[j].caller
      ensures FamilyPrecedes(log, Local(log, t), log[i].c, log[j].c)
    {
      CallerOrderPrecedes(n, steps, t, i, j);
    }
  }
}
