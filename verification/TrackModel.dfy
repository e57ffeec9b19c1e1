/**
 Change notification of a media track.  Observers are called back while the track
 is being changed and may register, unregister or change the track again; what
 each of them does is a finite tree of actions.
 */
module TrackModel {
  type Observer = nat

  datatype TrackState = Live | Ended

  /** What an observer does when it is called back. */
  datatype Reply = Reply(actions: seq<Action>)

  /** `replies[i]` is what the i-th observer called by the action's own notification does, nothing if it is missing. */
  datatype Action =
    | Register(o: Observer)
    | Unregister(o: Observer)
    | SetEnabled(enable: bool, replies: seq<Reply>)
    | SetState(state: TrackState, replies: seq<Reply>)

  datatype Event =
    | Registered(o: Observer)
    | Unregistered(o: Observer)
    | Assigned(enabled: bool, state: TrackState)  // a set_ function assigned its field
    | Fired                                       // FireOnChanged begins
    | Called(o: Observer)                         // it calls an observer
    | Done                                        // it returns

  datatype Track = Track(observers: seq<Observer>, enabled: bool, state: TrackState, log: seq<Event>)

  function Record(t: Track, e: Event): Track {
    t.(log := t.log + [e])
  }

  /** The list without the first occurrence of `o`. */
  function RemoveFirst(s: seq<Observer>, o: Observer): seq<Observer> {
    if s == [] then [] else if s[0] == o then s[1..] else [s[0]] + RemoveFirst(s[1..], o)
  }

  function RegisterObserver(t: Track, o: Observer): Track {
    Record(t.(observers := t.observers + [o]), Registered(o))
  }

  function UnregisterObserver(t: Track, o: Observer): Track {
    Record(t.(observers := RemoveFirst(t.observers, o)), Unregistered(o))
  }

  /** Calls a list of observers one after the other. */
  function CallEach(t: Track, observers: seq<Observer>, replies: seq<Reply>): Track
    decreases replies, |observers|
  {
    if observers == [] then t else
      var t1 := Record(t, Called(observers[0]));
      if replies == [] then CallEach(t1, observers[1..], [])
      else CallEach(Perform(t1, replies[0].actions), observers[1..], replies[1..])
  }

  /** Notifies the observers that are registered when it begins. */
  function FireOnChanged(t: Track, replies: seq<Reply>): Track
    decreases replies, |t.observers| + 1
  {
    Record(CallEach(Record(t, Fired), t.observers, replies), Done)
  }

  function SetEnabledTo(t: Track, enable: bool, replies: seq<Reply>): Track
    decreases replies, |t.observers| + 2
  {
    var t1 := Record(t.(enabled := enable), Assigned(enable, t.state));
    if enable != t.enabled then FireOnChanged(t1, replies) else t1
  }

  function SetStateTo(t: Track, state: TrackState, replies: seq<Reply>): Track
    decreases replies, |t.observers| + 2
  {
    var t1 := Record(t.(state := state), Assigned(t.enabled, state));
    if state != t.state then FireOnChanged(t1, replies) else t1
  }

  function Act(t: Track, a: Action): Track
    decreases a
  {
    match a
    case Register(o) => RegisterObserver(t, o)
    case Unregister(o) => UnregisterObserver(t, o)
    case SetEnabled(enable, replies) => SetEnabledTo(t, enable, replies)
    case SetState(state, replies) => SetStateTo(t, state, replies)
  }

  /** A list of actions, in order. */
  function Perform(t: Track, script: seq<Action>): Track
    decreases script
  {
    if script == [] then t else Perform(Act(t, script[0]), script[1..])
  }
}
