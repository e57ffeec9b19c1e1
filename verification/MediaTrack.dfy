/** `MediaStreamTrack` over `Notifier`, as a class that updates its fields and calls observers back in loops. */
module MediaTrack {
  import opened TrackModel

  class MediaStreamTrack {
    var observers: seq<Observer>
    var enabled: bool
    var state: TrackState
    ghost var log: seq<Event>

    ghost function View(): Track
      reads this
    {
      Track(observers, enabled, state, log)
    }

    constructor ()
      ensures View() == Track([], true, Live, [])
    {
      observers, enabled, state, log := [], true, Live, [];
    }

    method RegisterObserver(o: Observer)
      modifies this
      ensures View() == TrackModel.RegisterObserver(old(View()), o)
    {
      observers := observers + [o];
      log := log + [Registered(o)];
    }

    method UnregisterObserver(o: Observer)
      modifies this
      ensures View() == TrackModel.UnregisterObserver(old(View()), o)
    {
      var i := 0;
      while i < |observers|
        invariant 0 <= i <= |observers| && observers == old(observers)
        invariant enabled == old(enabled) && state == old(state) && log == old(log)
        invariant o !in observers[..i]
        invariant RemoveFirst(observers, o) == observers[..i] + RemoveFirst(observers[i..], o)
      {
        if observers[i] == o {
          observers := observers[..i] + observers[i + 1..];
          break;
        }
        assert observers[i..][1..] == observers[i + 1..];
        i := i + 1;
      }
      log := log + [Unregistered(o)];
    }

    /** What the observers do is given by `replies`, one reply for each call in order. */
    method FireOnChanged(replies: seq<Reply>)
      modifies this
      ensures View() == TrackModel.FireOnChanged(old(View()), replies)
      decreases replies, 1
    {
      log := log + [Fired];
      var copy := observers;
      var i := 0;
      while i < |copy|
        invariant 0 <= i <= |copy| == |old(observers)| && copy == old(observers)
        invariant CallEach(View(), copy[i..], From(replies, i)) == CallEach(Record(old(View()), Fired), copy, replies)
      {
        if i < |replies| {
          OnChanged(copy[i], replies[i]);
        } else {
          log := log + [Called(copy[i])];  // this observer does nothing
        }
        assert copy[i..][1..] == copy[i + 1..];
        i := i + 1;
      }
      log := log + [Done];
    }

    static function From(replies: seq<Reply>, i: nat): seq<Reply> {
      if i <= |replies| then replies[i..] else []
    }

    /** An observer is called and does what it does. */
    method OnChanged(o: Observer, reply: Reply)
      modifies this
      ensures View() == Perform(Record(old(View()), Called(o)), reply.actions)
      decreases reply
    {
      log := log + [Called(o)];
      Run(reply.actions);
    }

    method SetEnabled(enable: bool, replies: seq<Reply>) returns (changed: bool)
      modifies this
      ensures View() == SetEnabledTo(old(View()), enable, replies) && changed == (enable != old(enabled))
      decreases replies, 2
    {
      changed := enable != enabled;
      enabled := enable;
      log := log + [Assigned(enabled, state)];
      if changed {
        FireOnChanged(replies);
      }
    }

    method SetEnded(replies: seq<Reply>)
      modifies this
      ensures View() == SetStateTo(old(View()), Ended, replies)
      decreases replies, 3
    {
      var ok := SetState(Ended, replies);
    }

    method SetState(newState: TrackState, replies: seq<Reply>) returns (ok: bool)
      modifies this
      ensures View() == SetStateTo(old(View()), newState, replies) && ok
      decreases replies, 2
    {
      var fireOnChange := state != newState;
      state := newState;
      log := log + [Assigned(enabled, state)];
      if fireOnChange {
        FireOnChanged(replies);
      }
      ok := true;
    }

    /** The actions of an observer, or of anyone else. */
    method Run(script: seq<Action>)
      modifies this
      ensures View() == Perform(old(View()), script)
      decreases script
    {
      if script != [] {
        match script[0] {
          case Register(o) => RegisterObserver(o);
          case Unregister(o) => UnregisterObserver(o);
          case SetEnabled(enable, replies) => var changed := SetEnabled(enable, replies);
          case SetState(s, replies) => var ok := SetState(s, replies);
        }
        Run(script[1..]);
      }
    }
  }
}
