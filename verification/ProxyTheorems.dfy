/** The history properties of `ProxyHistory`, restated on the events of a run. */
module ProxyTheorems {
  import opened Wrappers
  import opened ProxyMachine
  import opened ProxySafety
  import opened ProxyHistory

  // ---------- Exactly once

  /** The events of one call's life, in order. */
  function CallEvents(log: seq<Event>, c: Cid): seq<Event> {
    if log == [] then [] else
      var e := log[|log| - 1];
      CallEvents(log[..|log| - 1], c) + if (e.Begin? || e.End? || e.Return?) && e.c == c then [e] else []
  }

  ghost predicate Lived(es: seq<Event>, c: Cid, g: Stage) {
    match g
    case Fresh => es == []
    case Begun(t) => |es| == 1 && BeginsOn(es[0], c, t)
    case Ended(t, v) => |es| == 2 && BeginsOn(es[0], c, t) && es[1] == End(c, t, v)
    case Returned(t, v) => |es| == 3 && BeginsOn(es[0], c, t) && es[1] == End(c, t, v) && es[2] == Return(c, v)
  }

  predicate BeginsOn(e: Event, c: Cid, t: Tid) {
    e.Begin? && e.c == c && e.t == t
  }

  lemma {:induction false} StageTellsLife(log: seq<Event>, c: Cid)
    requires StageOf(log, c).Some?
    ensures Lived(CallEvents(log, c), c, StageOf(log, c).value)
  {
    if log != [] {
      var init := log[..|log| - 1];
      StageTellsLife(init, c);
    }
  }

  /**
   A call that has returned began once, on the thread it was proxied to, ended once there with
   some value, and returned once with that same value.
   */
  lemma ExactlyOnce(n: nat, steps: seq<Step>, c: Cid, v: int)
    requires Exec(n, steps).Some? && Return(c, v) in Exec(n, steps).value.log
    ensures var s := Exec(n, steps).value; var es := CallEvents(s.log, c);
            && c < |s.calls| && s.calls[c].kind != Plain
            && |es| == 3
            && es[0].Begin? && es[0].t == s.calls[c].target
            && es[1] == End(c, s.calls[c].target, v)
            && es[2] == Return(c, v)
  {
    var s := Exec(n, steps).value;
    ReachableLogOk(n, steps);
    assert StageOf(s.log, c) == Some(StageIn(s, c));
    StageTellsLife(s.log, c);
    ReturnIsCallEvent(s.log, c, v);
    LivedToReturn(CallEvents(s.log, c), c, StageIn(s, c), v);
    assert CallOk(s, c);
  }

  lemma LivedToReturn(es: seq<Event>, c: Cid, g: Stage, v: int)
    requires Lived(es, c, g) && Return(c, v) in es
    ensures g.Returned? && g.v == v
  {
  }

  lemma {:induction false} ReturnIsCallEvent(log: seq<Event>, c: Cid, v: int)
    requires Return(c, v) in log
    ensures Return(c, v) in CallEvents(log, c)
  {
    var init, e := log[..|log| - 1], log[|log| - 1];
    if e != Return(c, v) {
      assert log == init + [e];
      ReturnIsCallEvent(init, c, v);
    }
  }

  // ---------- Serialisation on one thread

  /** What the automaton knew before event `k`. */
  lemma {:induction false} Prefix<A>(f: Automaton<A>, start: A, log: seq<Event>, k: nat)
    requires k < |log| && Accept(f, start, log).Some?
    ensures Accept(f, start, log[..k]).Some?
    ensures Accept(f, start, log[..k + 1]) == f(Accept(f, start, log[..k]).value, log[k])
    ensures Accept(f, start, log[..k + 1]).Some?
  {
    var init := log[..|log| - 1];
    if k == |log| - 1 {
      assert log[..k + 1] == log;
    } else {
      Prefix(f, start, init, k);
      assert init[..k] == log[..k] && init[..k + 1] == log[..k + 1];
    }
  }

  /** As long as `b` has not ended, it and everything below it stay open on its thread. */
  lemma {:induction false} StaysOpen(log: seq<Event>, t: Tid, open: seq<Cid>, j: nat, m: nat)
    requires OpenOn(log, t).Some? && j <= m <= |log| && open != []
    requires OpenOn(log[..j], t) == Some(open)
    requires forall l :: j <= l < m ==> !(log[l].End? && log[l].t == t && log[l].c == open[|open| - 1])
    ensures OpenOn(log[..m], t).Some? && open <= OpenOn(log[..m], t).value
  {
    if j < m {
      StaysOpen(log, t, open, j, m - 1);
      Prefix(OpenBook(t), [], log, m - 1);
    }
  }

  /** The open invocations are distinct calls that began and have not ended. */
  lemma {:induction false} OpenAreDistinct(log: seq<Event>, t: Tid)
    requires OpenOn(log, t).Some? && forall c: Cid :: StageOf(log, c).Some?
    ensures var open := OpenOn(log, t).value;
            && (forall i :: 0 <= i < |open| ==> StageOf(log, open[i]) == Some(Begun(t)))
            && (forall i, j :: 0 <= i < j < |open| ==> open[i] != open[j])
  {
    if log != [] {
      var init, e := log[..|log| - 1], log[|log| - 1];
      forall c: Cid ensures StageOf(init, c).Some? { assert StageOf(log, c).Some?; }
      OpenAreDistinct(init, t);
      var before, after := OpenOn(init, t).value, OpenOn(log, t).value;
      forall i | 0 <= i < |after| ensures StageOf(log, after[i]) == Some(Begun(t)) {
        if i < |before| {
          assert after[i] == before[i] && StageOf(init, before[i]) == Some(Begun(t));
          assert StageOf(log, after[i]).Some?;
        }
        assert StageOf(log, e.c).Some?;
      }
      assert StageOf(log, e.c).Some?;
    }
  }

  lemma PrefixesAccepted(log: seq<Event>, m: nat)
    requires m <= |log| && forall c: Cid :: StageOf(log, c).Some?
    ensures forall c: Cid :: StageOf(log[..m], c).Some?
  {
    forall c: Cid ensures StageOf(log[..m], c).Some? {
      assert StageOf(log, c).Some?;
      if m < |log| { Prefix(StageBook(c), Fresh, log, m); } else { assert log[..m] == log; }
    }
  }

  /** Each open invocation but the first was invoked inline by the one below it. */
  lemma {:induction false} OpenAreLinked(log: seq<Event>, t: Tid, i: nat)
    requires OpenOn(log, t).Some? && 0 < i < |OpenOn(log, t).value|
    ensures var open := OpenOn(log, t).value; Begin(open[i], t, Some(open[i - 1])) in log
  {
    var init, e := log[..|log| - 1], log[|log| - 1];
    assert log == init + [e];
    var before := OpenOn(init, t).value;
    if i < |before| { OpenAreLinked(init, t, i); }
  }

  /** `chain` leads from its first call to its last through inline invocations on thread `t`. */
  ghost predicate InlineChain(log: seq<Event>, t: Tid, chain: seq<Cid>) {
    forall i :: 0 < i < |chain| ==> Begin(chain[i], t, Some(chain[i - 1])) in log
  }

  /** Event `i` begins an invocation on `t` that is still open there when event `j` begins another. */
  ghost predicate BeginsInside(log: seq<Event>, t: Tid, i: nat, j: nat) {
    && i < j < |log|
    && log[i].Begin? && log[i].t == t
    && log[j].Begin? && log[j].t == t
    && forall l :: i < l < j ==> !(log[l].End? && log[l].c == log[i].c)
  }

  /**
   Two invocations on one thread never interleave.  If `b` begins while `a` is open there, running or
   blocked, whether it ever ends or not, then `a` called `b` inline, through other inline calls on that
   thread; and if `a` ends, `b` has ended before.
   */
  lemma NoInterleaving(n: nat, steps: seq<Step>, t: Tid, i: nat, j: nat)
    requires Exec(n, steps).Some? && t < n && BeginsInside(Exec(n, steps).value.log, t, i, j)
    ensures var log := Exec(n, steps).value.log;
            && (exists chain ::
                  && |chain| > 1 && chain[0] == log[i].c && chain[|chain| - 1] == log[j].c
                  && InlineChain(log, t, chain))
            && (forall k :: j < k < |log| && log[k].End? && log[k].c == log[i].c ==>
                  exists l :: j < l < k && log[l].End? && log[l].t == t && log[l].c == log[j].c)
  {
    var s := Exec(n, steps).value;
    ReachableLogOk(n, steps);
    ReachableInv(n, steps);
    forall c: Cid ensures StageOf(s.log, c).Some? { assert StageOf(s.log, c) == Some(StageIn(s, c)); }
    assert OpenOn(s.log, t).Some?;
    CalledInline(s.log, t, i, j);
    forall k | j < k < |s.log| && s.log[k].End? && s.log[k].c == s.log[i].c
      ensures exists l :: j < l < k && s.log[l].End? && s.log[l].t == t && s.log[l].c == s.log[j].c
    {
      EndsWhereBegun(s.log, i, k);
      EndsInside(s.log, t, i, j, k);
    }
  }

  /** An invocation ends on the thread on which it began. */
  lemma EndsWhereBegun(log: seq<Event>, i: nat, k: nat)
    requires i < k < |log| && log[i].Begin? && log[k].End? && log[k].c == log[i].c && StageOf(log, log[i].c).Some?
    ensures log[k].t == log[i].t
  {
    var c := log[i].c;
    Prefix(StageBook(c), Fresh, log, i);
    Prefix(StageBook(c), Fresh, log, k);
    StageThreadStays(log, c, i + 1, k);
  }

  lemma {:induction false} StageThreadStays(log: seq<Event>, c: Cid, l: nat, k: nat)
    requires StageOf(log, c).Some? && l <= k <= |log|
    requires StageOf(log[..l], c).Some? && StageOf(log[..l], c).value != Fresh
    ensures StageOf(log[..k], c).Some? && StageOf(log[..k], c).value != Fresh
    ensures StageOf(log[..k], c).value.t == StageOf(log[..l], c).value.t
  {
    if l < k {
      StageThreadStays(log, c, l, k - 1);
      Prefix(StageBook(c), Fresh, log, k - 1);
    }
  }

  lemma OpenAtBegin(log: seq<Event>, t: Tid, i: nat)
    requires OpenOn(log, t).Some? && i < |log| && log[i].Begin? && log[i].t == t
    ensures OpenOn(log[..i], t).Some? && OpenOn(log[..i + 1], t) == Some(OpenOn(log[..i], t).value + [log[i].c])
  {
    Prefix(OpenBook(t), [], log, i);
  }

  lemma OuterStaysOpen(log: seq<Event>, t: Tid, i: nat, j: nat)
    requires OpenOn(log, t).Some? && BeginsInside(log, t, i, j)
    ensures OpenOn(log[..i], t).Some? && OpenOn(log[..j], t).Some?
    ensures OpenOn(log[..i], t).value + [log[i].c] <= OpenOn(log[..j], t).value
    ensures OpenOn(log[..j + 1], t) == Some(OpenOn(log[..j], t).value + [log[j].c])
  {
    OpenAtBegin(log, t, i);
    OpenAtBegin(log, t, j);
    StaysOpen(log, t, OpenOn(log[..i], t).value + [log[i].c], i + 1, j);
  }

  lemma DistinctLast(open: seq<Cid>, more: seq<Cid>, i: nat)
    requires open <= more && i < |open| - 1
    requires forall i, j :: 0 <= i < j < |more| ==> more[i] != more[j]
    ensures more[|more| - 1] != open[i]
  {
  }

  lemma EndsInside(log: seq<Event>, t: Tid, i: nat, j: nat, k: nat)
    requires OpenOn(log, t).Some? && (forall c: Cid :: StageOf(log, c).Some?) && BeginsInside(log, t, i, j)
    requires j < k < |log| && log[k].End? && log[k].t == t && log[k].c == log[i].c
    ensures exists l :: j < l < k && log[l].End? && log[l].t == t && log[l].c == log[j].c
  {
    OuterStaysOpen(log, t, i, j);
    var open := OpenOn(log[..j], t).value + [log[j].c];
    if forall l :: j < l < k ==> !(log[l].End? && log[l].t == t && log[l].c == log[j].c) {
      StaysOpen(log, t, open, j + 1, k);
      Prefix(OpenBook(t), [], log, k);
      var last := OpenOn(log[..k], t).value;
      PrefixesAccepted(log, k);
      OpenAreDistinct(log[..k], t);
      DistinctLast(open, last, |OpenOn(log[..i], t).value|);
      assert false;  // the outer invocation would have to be open twice
    }
  }

  lemma CalledInline(log: seq<Event>, t: Tid, i: nat, j: nat)
    requires OpenOn(log, t).Some? && BeginsInside(log, t, i, j)
    ensures exists chain ::
              |chain| > 1 && chain[0] == log[i].c && chain[|chain| - 1] == log[j].c && InlineChain(log, t, chain)
  {
    OuterStaysOpen(log, t, i, j);
    var open := OpenOn(log[..j], t).value + [log[j].c];
    var base := |OpenOn(log[..i], t).value|;
    var chain := open[base..];
    forall m | 0 < m < |chain| ensures Begin(chain[m], t, Some(chain[m - 1])) in log {
      OpenAreLinked(log[..j + 1], t, base + m);
      assert log[..j + 1] <= log;
    }
    assert InlineChain(log, t, chain);
  }

  // ---------- Arrival order and program order

  /** The tasks posted to thread `t`, in order. */
  function Arrivals(log: seq<Event>, t: Tid): seq<Cid> {
    if log == [] then [] else
      var e := log[|log| - 1];
      Arrivals(log[..|log| - 1], t) + if e.Post? && e.t == t then [e.c] else []
  }

  /** The tasks that thread `t`'s message loop started, in order. */
  function Started(log: seq<Event>, t: Tid): seq<Cid> {
    if log == [] then [] else
      var e := log[|log| - 1];
      Started(log[..|log| - 1], t) + if e.Begin? && e.t == t && e.within == None then [e.c] else []
  }

  lemma {:induction false} WaitingTellsOrder(log: seq<Event>, t: Tid)
    requires Waiting(log, t).Some?
    ensures Arrivals(log, t) == Started(log, t) + Waiting(log, t).value
  {
    if log != [] {
      WaitingTellsOrder(log[..|log| - 1], t);
    }
  }

  /** Each thread starts the tasks posted to it in the order they were posted, each once; the rest are queued. */
  lemma StartsInArrivalOrder(n: nat, steps: seq<Step>, t: Tid)
    requires Exec(n, steps).Some? && t < n
    ensures var s := Exec(n, steps).value;
            |s.threads| == n && Arrivals(s.log, t) == Started(s.log, t) + s.threads[t].queue
  {
    ReachableLogOk(n, steps);
    ReachableInv(n, steps);
    WaitingTellsOrder(Exec(n, steps).value.log, t);
  }

  lemma {:induction false} StaysInFlight(log: seq<Event>, p: Cid, c: Cid, i: nat, j: nat)
    requires InFlight(log, p).Some? && i <= j <= |log| && InFlight(log[..i], p) == Some(Some(c))
    requires forall l :: i <= l < j ==> !(log[l].Return? && log[l].c == c)
    ensures InFlight(log[..j], p) == Some(Some(c))
  {
    if i < j {
      StaysInFlight(log, p, c, i, j - 1);
      Prefix(InFlightBook(p), None, log, j - 1);
    }
  }

  /** A caller's calls follow its program order: the earlier one has returned before the later one is made. */
  lemma ProgramOrder(n: nat, steps: seq<Step>, p: Cid, i: nat, j: nat)
    requires Exec(n, steps).Some?
    requires var log := Exec(n, steps).value.log;
             i < j < |log| && log[i].Marshal? && log[j].Marshal? && log[i].caller == p && log[j].caller == p
    ensures var log := Exec(n, steps).value.log;
            exists l :: i < l < j && log[l].Return? && log[l].c == log[i].c
  {
    var s := Exec(n, steps).value;
    ReachableLogOk(n, steps);
    assert InFlightOk(s, p);
    Prefix(InFlightBook(p), None, s.log, i);
    Prefix(InFlightBook(p), None, s.log, j);
    if forall l :: i < l < j ==> !(s.log[l].Return? && s.log[l].c == s.log[i].c) {
      StaysInFlight(s.log, p, s.log[i].c, i + 1, j);
      assert false;
    }
  }
}
