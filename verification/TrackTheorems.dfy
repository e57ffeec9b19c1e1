/**
 What the notifications of every run look like.  `Checker` reads the record of a run
 against the script of actions, without knowing how the track works.  It rejects the
 record unless every action, the observers' own included, leaves exactly its own event
 in its own turn, the track fires exactly when a set_ function changed something, and
 each fire calls exactly the observers registered when it began, in order and with
 multiplicity, whatever they do.
 */
module TrackTheorems {
  import opened Wrappers
  import opened TrackModel

  /** An unfinished fire: whom it still calls, what they will do, and what is left to do after it. */
  datatype Fire = Fire(observers: seq<Observer>, replies: seq<Reply>, after: seq<Action>)

  datatype Checker = Checker(
    observers: seq<Observer>,
    enabled: bool,
    state: TrackState,
    script: seq<Action>,          // what is left to do for whoever acts now
    calling: seq<Fire>,           // the unfinished fires, innermost last
    due: Option<seq<Reply>>,      // a change was made and not yet announced: what its observers will do
    enabledChanges: nat,
    stateChanges: nat,
    fires: nat)

  function Read(c: Checker, e: Event): Option<Checker> {
    if c.due.Some? && e != Fired then None else
      match e
      case Registered(o) =>
        if c.script == [] || c.script[0] != Register(o) then None
        else Some(c.(observers := c.observers + [o], script := c.script[1..]))
      case Unregistered(o) =>
        if c.script == [] || c.script[0] != Unregister(o) then None
        else Some(c.(observers := RemoveFirst(c.observers, o), script := c.script[1..]))
      case Assigned(enabled, state) => ReadAssigned(c, enabled, state)
      case Fired =>
        if c.due == None then None else
          Some(c.(due := None, fires := c.fires + 1, script := [],
                  calling := c.calling + [Fire(c.observers, c.due.value, c.script)]))
      case Called(o) =>
        if c.calling == [] || c.script != [] then None else
          var n := |c.calling| - 1;
          var f := c.calling[n];
          if f.observers == [] || f.observers[0] != o then None else
            Some(c.(script := if f.replies == [] then [] else f.replies[0].actions,
                    calling := c.calling[n := AfterCall(f)]))
      case Done =>
        if c.calling == [] || c.script != [] then None else
          var n := |c.calling| - 1;
          if c.calling[n].observers != [] then None
          else Some(c.(script := c.calling[n].after, calling := c.calling[..n]))
  }

  function AfterCall(f: Fire): Fire
    requires f.observers != []
  {
    f.(observers := f.observers[1..], replies := if f.replies == [] then [] else f.replies[1..])
  }

  /** Whoever acts now is to set one field, and sets it to that and leaves the other. */
  function ReadAssigned(c: Checker, enabled: bool, state: TrackState): Option<Checker> {
    if c.script == [] then None else
      match c.script[0]
      case SetEnabled(enable, replies) =>
        if enabled != enable || state != c.state then None else
          var changed := enable != c.enabled;
          Some(c.(enabled := enable, script := c.script[1..], due := if changed then Some(replies) else None,
                  enabledChanges := c.enabledChanges + if changed then 1 else 0))
      case SetState(to, replies) =>
        if enabled != c.enabled || state != to then None else
          var changed := to != c.state;
          Some(c.(state := to, script := c.script[1..], due := if changed then Some(replies) else None,
                  stateChanges := c.stateChanges + if changed then 1 else 0))
      case _ => None
  }

  function ReadAll(c: Checker, log: seq<Event>): Option<Checker> {
    if log == [] then Some(c) else
      var k := ReadAll(c, log[..|log| - 1]);
      if k == None then None else Read(k.value, log[|log| - 1])
  }

  /** The checker accepts the whole record, agrees with the track, and has seen one fire for every change. */
  ghost predicate Agrees(start: Checker, t: Track, c: Checker) {
    && ReadAll(start, t.log) == Some(c)
    && c.observers == t.observers && c.enabled == t.enabled && c.state == t.state
    && c.due == None
    && c.fires == c.enabledChanges + c.stateChanges
  }

  lemma ReadOne(start: Checker, log: seq<Event>, e: Event)
    requires ReadAll(start, log).Some?
    ensures ReadAll(start, log + [e]) == Read(ReadAll(start, log).value, e)
  {
    assert (log + [e])[..|log|] == log;
  }

  // ---------- The public interface

  /** `set_ended` is the one public way to change the state. */
  ghost predicate Public(script: seq<Action>)
    decreases script
  {
    forall i :: 0 <= i < |script| ==> PublicAction(script[i])
  }

  ghost predicate PublicAction(a: Action)
    decreases a
  {
    match a
    case SetEnabled(_, replies) => PublicReplies(replies)
    case SetState(state, replies) => state == Ended && PublicReplies(replies)
    case _ => true
  }

  ghost predicate PublicReplies(replies: seq<Reply>)
    decreases replies
  {
    forall i :: 0 <= i < |replies| ==> Public(replies[i].actions)
  }

  /** How often the state changed, and whether it still can. */
  function Potential(c: Checker): nat {
    c.stateChanges + if c.state == Live then 1 else 0
  }

  // ---------- The record of every run is accepted

  lemma {:induction false} CallEachAgrees(
    start: Checker, t: Track, observers: seq<Observer>, replies: seq<Reply>, after: seq<Action>, c: Checker,
    outer: seq<Fire>)
    returns (c': Checker)
    requires Agrees(start, t, c) && c.calling == outer + [Fire(observers, replies, after)] && c.script == []
    ensures Agrees(start, CallEach(t, observers, replies), c') && c'.script == []
    ensures exists left :: c'.calling == outer + [Fire([], left, after)]
    ensures PublicReplies(replies) ==> Potential(c') == Potential(c)
    decreases replies, |observers|
  {
    c' := c;
    if observers != [] {
      var e := Called(observers[0]);
      ReadOne(start, t.log, e);
      var t1, c1 := Record(t, e), Read(c, e).value;
      assert c.calling[|outer| := AfterCall(c.calling[|outer|])] == outer + [AfterCall(c.calling[|outer|])];
      assert Agrees(start, t1, c1);
      if replies == [] {
        c' := CallEachAgrees(start, t1, observers[1..], [], after, c1, outer);
      } else {
        var c2 := PerformAgrees(start, t1, replies[0].actions, c1, []);
        c' := CallEachAgrees(
          start, Perform(t1, replies[0].actions), observers[1..], replies[1..], after, c2, outer);
      }
    }
  }

  /** After a change has been recorded, the fire announces it. */
  lemma {:induction false} FireAgrees(start: Checker, t: Track, replies: seq<Reply>, c: Checker) returns (c': Checker)
    requires ReadAll(start, t.log) == Some(c) && c.due == Some(replies)
    requires c.observers == t.observers && c.enabled == t.enabled && c.state == t.state
    requires c.fires + 1 == c.enabledChanges + c.stateChanges
    ensures Agrees(start, FireOnChanged(t, replies), c') && c'.calling == c.calling && c'.script == c.script
    ensures PublicReplies(replies) ==> Potential(c') == Potential(c)
    decreases replies, |t.observers| + 1
  {
    hide PublicReplies;
    ReadOne(start, t.log, Fired);
    var c1 := Read(c, Fired).value;
    var c2 := CallEachAgrees(start, Record(t, Fired), t.observers, replies, c.script, c1, c.calling);
    var t2 := CallEach(Record(t, Fired), t.observers, replies);
    ReadOne(start, t2.log, Done);
    c' := Read(c2, Done).value;
    assert c2.calling[..|c.calling|] == c.calling;
  }

  lemma {:induction false} ActAgrees(start: Checker, t: Track, a: Action, c: Checker, rest: seq<Action>)
    returns (c': Checker)
    requires Agrees(start, t, c) && c.script == [a] + rest
    ensures Agrees(start, Act(t, a), c') && c'.calling == c.calling && c'.script == rest
    ensures PublicAction(a) ==> Potential(c') == Potential(c)
    decreases a
  {
    assert c.script[1..] == rest;
    match a
    case Register(o) =>
      ReadOne(start, t.log, Registered(o));
      c' := Read(c, Registered(o)).value;
    case Unregister(o) =>
      ReadOne(start, t.log, Unregistered(o));
      c' := Read(c, Unregistered(o)).value;
    case SetEnabled(enable, replies) => c' := SetEnabledAgrees(start, t, enable, replies, c);
    case SetState(state, replies) => c' := SetStateAgrees(start, t, state, replies, c);
  }

  lemma {:induction false} SetEnabledAgrees(start: Checker, t: Track, enable: bool, replies: seq<Reply>, c: Checker)
    returns (c': Checker)
    requires Agrees(start, t, c) && c.script != [] && c.script[0] == SetEnabled(enable, replies)
    ensures Agrees(start, SetEnabledTo(t, enable, replies), c') && c'.calling == c.calling && c'.script == c.script[1..]
    ensures PublicReplies(replies) ==> Potential(c') == Potential(c)
    decreases replies, |t.observers| + 2
  {
    hide PublicReplies, ReadAll;
    ReadOne(start, t.log, Assigned(enable, t.state));
    c' := ReadAssigned(c, enable, t.state).value;
    if enable != t.enabled {
      c' := FireAgrees(start, Record(t.(enabled := enable), Assigned(enable, t.state)), replies, c');
    }
  }

  lemma {:induction false} SetStateAgrees(start: Checker, t: Track, state: TrackState, replies: seq<Reply>, c: Checker)
    returns (c': Checker)
    requires Agrees(start, t, c) && c.script != [] && c.script[0] == SetState(state, replies)
    ensures Agrees(start, SetStateTo(t, state, replies), c') && c'.calling == c.calling && c'.script == c.script[1..]
    ensures PublicReplies(replies) && state == Ended ==> Potential(c') == Potential(c)
    decreases replies, |t.observers| + 2
  {
    hide PublicReplies, ReadAll;
    ReadOne(start, t.log, Assigned(t.enabled, state));
    c' := ReadAssigned(c, t.enabled, state).value;
    if state != t.state {
      c' := FireAgrees(start, Record(t.(state := state), Assigned(t.enabled, state)), replies, c');
    }
  }

  lemma {:induction false} PerformAgrees(
      start: Checker, t: Track, script: seq<Action>, c: Checker, rest: seq<Action>)
      returns (c': Checker)
    requires Agrees(start, t, c) && c.script == script + rest
    ensures Agrees(start, Perform(t, script), c') && c'.calling == c.calling && c'.script == rest
    ensures Public(script) ==> Potential(c') == Potential(c)
    decreases script
  {
    c' := c;
    if script == [] {
      assert c.script == rest;
    } else {
      assert c.script == [script[0]] + (script[1..] + rest);
      c' := ActAgrees(start, t, script[0], c, script[1..] + rest);
      c' := PerformAgrees(start, Act(t, script[0]), script[1..], c', rest);
    }
  }

  /** A checker that starts with the track as it is and the actions to come. */
  function Watching(t: Track, script: seq<Action>): Checker {
    Checker(t.observers, t.enabled, t.state, script, [], None, 0, 0, 0)
  }

  /** Nothing is left to do, to call or to announce. */
  predicate Finished(c: Checker) {
    c.script == [] && c.calling == [] && c.due == None
  }

  /**
   Whatever the observers do, every action leaves its own event in its own turn, each fire calls exactly the
   observers registered at its start, in order and with multiplicity, and the track fires once for every change
   of `enabled` or `state`, right after it.
   */
  lemma EveryRunAccepted(t: Track, script: seq<Action>)
    requires t.log == []
    ensures var t' := Perform(t, script);
            var c := ReadAll(Watching(t, script), t'.log);
            && c.Some? && Finished(c.value)
            && c.value.observers == t'.observers && c.value.enabled == t'.enabled && c.value.state == t'.state
            && c.value.fires == c.value.enabledChanges + c.value.stateChanges
  {
    var start := Watching(t, script);
    assert start.script == script + [];
    var c := PerformAgrees(start, t, script, start, []);
  }

  /** In every state of the checker at most one event can come next, and none once nothing is left. */
  lemma OneEventNext(c: Checker, d: Event, e: Event)
    requires Read(c, d).Some? && Read(c, e).Some?
    ensures d == e && !Finished(c)
  {
  }

  lemma {:induction false} PrefixRead(start: Checker, log: seq<Event>, k: nat)
    requires k <= |log| && ReadAll(start, log).Some?
    ensures ReadAll(start, log[..k]).Some?
    ensures k < |log| ==> Read(ReadAll(start, log[..k]).value, log[k]).Some?
    decreases |log|
  {
    if k == |log| {
      assert log[..k] == log;
    } else {
      var init := log[..|log| - 1];
      if k < |init| {
        PrefixRead(start, init, k);
        assert init[..k] == log[..k];
      }
    }
  }

  lemma {:induction false} SamePrefixes(start: Checker, log: seq<Event>, other: seq<Event>, k: nat)
    requires ReadAll(start, log).Some? && ReadAll(start, other).Some? && k <= |log| && k <= |other|
    ensures log[..k] == other[..k]
  {
    hide ReadAll, Read, Finished;
    if k > 0 {
      SamePrefixes(start, log, other, k - 1);
      PrefixRead(start, log, k - 1);
      PrefixRead(start, other, k - 1);
      OneEventNext(ReadAll(start, log[..k - 1]).value, log[k - 1], other[k - 1]);
      assert log[..k] == log[..k - 1] + [log[k - 1]] && other[..k] == other[..k - 1] + [other[k - 1]];
    }
  }

  /** Nothing is accepted after a finished record. */
  lemma NothingAfter(start: Checker, log: seq<Event>, other: seq<Event>)
    requires ReadAll(start, log).Some? && Finished(ReadAll(start, log).value)
    requires log <= other && ReadAll(start, other).Some?
    ensures log == other
  {
    PrefixRead(start, other, |log|);
    assert other[..|log|] == log;
    if |log| < |other| { OneEventNext(ReadAll(start, log).value, other[|log|], other[|log|]); }
  }

  /** The checker accepts no finished record but one. */
  lemma OneRecord(start: Checker, log: seq<Event>, other: seq<Event>)
    requires ReadAll(start, log).Some? && Finished(ReadAll(start, log).value)
    requires ReadAll(start, other).Some? && Finished(ReadAll(start, other).value)
    ensures log == other
  {
    hide ReadAll, Read;
    if |log| <= |other| {
      SamePrefixes(start, log, other, |log|);
      NothingAfter(start, log, other);
    } else {
      SamePrefixes(start, log, other, |other|);
      NothingAfter(start, other, log);
    }
  }

  /** The track's record of a script is the only one that the checker accepts to the end. */
  lemma RecordIsTheOnly(t: Track, script: seq<Action>, log: seq<Event>)
    requires t.log == []
    requires var c := ReadAll(Watching(t, script), log); c.Some? && Finished(c.value)
    ensures log == Perform(t, script).log
  {
    EveryRunAccepted(t, script);
    OneRecord(Watching(t, script), log, Perform(t, script).log);
  }

  /**
   Through the public interface the state changes at most once, from live to ended, whatever the observers
   do; an ended track stays ended and the number of fires is the number of changes of `enabled` plus at most one.
   */
  lemma EndedIsPermanent(t: Track, script: seq<Action>)
    requires t.log == [] && Public(script)
    ensures var t' := Perform(t, script);
            var c := ReadAll(Watching(t, script), t'.log);
            && c.Some?
            && c.value.stateChanges == (if t.state == Live && t'.state == Ended then 1 else 0)
            && c.value.fires == c.value.enabledChanges + c.value.stateChanges
            && (t.state == Ended ==> t'.state == Ended)
  {
    var start := Watching(t, script);
    assert start.script == script + [];
    var c := PerformAgrees(start, t, script, start, []);
  }

  function Calls(observers: seq<Observer>): seq<Event> {
    if observers == [] then [] else [Called(observers[0])] + Calls(observers[1..])
  }

  /** Observers that do nothing are just called. */
  lemma {:induction false} QuietCalls(t: Track, observers: seq<Observer>)
    ensures CallEach(t, observers, []) == t.(log := t.log + Calls(observers))
    decreases observers
  {
    if observers == [] {
      assert t.log + [] == t.log;
    } else {
      QuietCalls(Record(t, Called(observers[0])), observers[1..]);
      assert t.log + [Called(observers[0])] + Calls(observers[1..]) == t.log + Calls(observers);
    }
  }

  // ---------- What a set_ function leaves behind

  datatype Field = TheState | TheFlag

  predicate Same(t: Track, t': Track, f: Field) {
    match f
    case TheState => t'.state == t.state
    case TheFlag => t'.enabled == t.enabled
  }

  /** No action of the script, and none of the observers that it calls, sets the field. */
  ghost predicate Leaves(script: seq<Action>, f: Field)
    decreases script
  {
    forall i :: 0 <= i < |script| ==> ActionLeaves(script[i], f)
  }

  ghost predicate ActionLeaves(a: Action, f: Field)
    decreases a
  {
    match a
    case SetEnabled(_, replies) => f != TheFlag && RepliesLeave(replies, f)
    case SetState(_, replies) => f != TheState && RepliesLeave(replies, f)
    case _ => true
  }

  ghost predicate RepliesLeave(replies: seq<Reply>, f: Field)
    decreases replies
  {
    forall i :: 0 <= i < |replies| ==> Leaves(replies[i].actions, f)
  }

  lemma {:induction false} CallsLeave(t: Track, observers: seq<Observer>, replies: seq<Reply>, f: Field)
    requires RepliesLeave(replies, f)
    ensures Same(t, CallEach(t, observers, replies), f) && t.log <= CallEach(t, observers, replies).log
    decreases replies, |observers|
  {
    if observers != [] {
      var t1 := Record(t, Called(observers[0]));
      if replies == [] {
        CallsLeave(t1, observers[1..], [], f);
      } else {
        ScriptLeaves(t1, replies[0].actions, f);
        CallsLeave(Perform(t1, replies[0].actions), observers[1..], replies[1..], f);
      }
    }
  }

  lemma {:induction false} FireLeaves(t: Track, replies: seq<Reply>, f: Field)
    requires RepliesLeave(replies, f)
    ensures var t' := FireOnChanged(t, replies);
            Same(t, t', f) && t.log + [Fired] <= t'.log && t'.log[|t'.log| - 1] == Done
    decreases replies, |t.observers| + 1
  {
    CallsLeave(Record(t, Fired), t.observers, replies, f);
  }

  lemma {:induction false} ActionKeeps(t: Track, a: Action, f: Field)
    requires ActionLeaves(a, f)
    ensures Same(t, Act(t, a), f) && t.log <= Act(t, a).log
    decreases a
  {
    if a.SetEnabled? && a.enable != t.enabled {
      FireLeaves(Record(t.(enabled := a.enable), Assigned(a.enable, t.state)), a.replies, f);
    }
    if a.SetState? && a.state != t.state {
      FireLeaves(Record(t.(state := a.state), Assigned(t.enabled, a.state)), a.replies, f);
    }
  }

  lemma {:induction false} ScriptLeaves(t: Track, script: seq<Action>, f: Field)
    requires Leaves(script, f)
    ensures Same(t, Perform(t, script), f) && t.log <= Perform(t, script).log
    decreases script
  {
    if script != [] {
      ActionKeeps(t, script[0], f);
      ScriptLeaves(Act(t, script[0]), script[1..], f);
    }
  }

  /** After `t`'s record comes the assignment, then a whole fire if something changed and nothing otherwise. */
  ghost predicate Announced(t: Track, entry: Event, changed: bool, t': Track) {
    var log := t.log + [entry];
    if changed then log + [Fired] <= t'.log && t'.log[|t'.log| - 1] == Done
    else t'.log == log && t'.observers == t.observers
  }

  /**
   `set_enabled` leaves the track with the value it was given, whatever its observers do but set `enabled` again.
   Its record begins with the assignment, and the track fires right after it if and only if the value differed.
   */
  lemma SetEnabledAssigns(t: Track, enable: bool, replies: seq<Reply>)
    requires RepliesLeave(replies, TheFlag)
    ensures var t' := SetEnabledTo(t, enable, replies);
            && t'.enabled == enable
            && Announced(t, Assigned(enable, t.state), enable != t.enabled, t')
            && (replies == [] && enable != t.enabled ==>
                  && t'.observers == t.observers && t'.state == t.state
                  && t'.log == t.log + [Assigned(enable, t.state), Fired] + Calls(t.observers) + [Done])
  {
    if enable != t.enabled {
      var t1 := Record(t.(enabled := enable), Assigned(enable, t.state));
      FireLeaves(t1, replies, TheFlag);
      if replies == [] { QuietCalls(Record(t1, Fired), t.observers); }
      assert t.log + [Assigned(enable, t.state), Fired] == t1.log + [Fired];
    }
  }

  /** The same for `set_state`, of which `set_ended` is the public use. */
  lemma SetStateAssigns(t: Track, state: TrackState, replies: seq<Reply>)
    requires RepliesLeave(replies, TheState)
    ensures var t' := SetStateTo(t, state, replies);
            && t'.state == state
            && Announced(t, Assigned(t.enabled, state), state != t.state, t')
            && (replies == [] && state != t.state ==>
                  && t'.observers == t.observers && t'.enabled == t.enabled
                  && t'.log == t.log + [Assigned(t.enabled, state), Fired] + Calls(t.observers) + [Done])
  {
    if state != t.state {
      var t1 := Record(t.(state := state), Assigned(t.enabled, state));
      FireLeaves(t1, replies, TheState);
      if replies == [] { QuietCalls(Record(t1, Fired), t.observers); }
      assert t.log + [Assigned(t.enabled, state), Fired] == t1.log + [Fired];
    }
  }

  /**
   The protected `set_state` is the only way back: it revives an ended track, whatever its observers do but set
   the state again, and notifies right after the assignment.  Observers that do nothing are all just called.
   */
  lemma SetStateRevives(t: Track, replies: seq<Reply>)
    requires t.state == Ended && RepliesLeave(replies, TheState)
    ensures var t' := SetStateTo(t, Live, replies);
            && t'.state == Live
            && t.log + [Assigned(t.enabled, Live), Fired] <= t'.log && t'.log[|t'.log| - 1] == Done
            && (replies == [] ==>
                  && t'.observers == t.observers && t'.enabled == t.enabled
                  && t'.log == t.log + [Assigned(t.enabled, Live), Fired] + Calls(t.observers) + [Done])
  {
    SetStateAssigns(t, Live, replies);
    assert t.log + [Assigned(t.enabled, Live)] + [Fired] == t.log + [Assigned(t.enabled, Live), Fired];
  }

  // ---------- Registering

  /** The first registration of `o`. */
  function FirstOf(s: seq<Observer>, o: Observer): (i: nat)
    requires o in s
    ensures i < |s| && s[i] == o && o !in s[..i]
  {
    if s[0] == o then 0 else
      assert s[1..][..FirstOf(s[1..], o)] == s[1..FirstOf(s[1..], o) + 1];
      1 + FirstOf(s[1..], o)
  }

  /** Unregistering removes the first registration of that observer and keeps the rest in order. */
  lemma {:induction false} UnregisterRemovesFirst(s: seq<Observer>, o: Observer)
    ensures RemoveFirst(s, o) == if o in s then s[..FirstOf(s, o)] + s[FirstOf(s, o) + 1..] else s
  {
    if s != [] {
      var rest := s[1..];
      assert s == [s[0]] + rest;
      if s[0] != o {
        UnregisterRemovesFirst(rest, o);
        if o in s {
          Shifted(s, FirstOf(rest, o));
        }
      }
    }
  }

  lemma Shifted(s: seq<Observer>, i: nat)
    requires i + 1 < |s|
    ensures [s[0]] + (s[1..][..i] + s[1..][i + 1..]) == s[..i + 1] + s[i + 2..]
  {
  }
}
