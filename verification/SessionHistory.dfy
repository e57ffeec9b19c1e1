/**
 The session and its keepalive timer read off the events of a run alone: what was heard, which creates
 wait for an answer, the session id, whether the timer is armed, and every request that was accepted.
 */
module SessionHistory {
  import opened SessionModel
  import T = TransportModel
  import W = TransportTheorems
  import H = TransportHistory

  // ---------- Reading the events

  /** Whether a step that calls nobody back leaves the transport online. */
  predicate StaysOnline(step: T.Step<Request>, before: bool) {
    match step
    case Write(_, ok) => ok && before
    case Close(ok) => !ok && before
    case _ => before
  }

  function Online(events: seq<Event>): bool {
    if events == [] then false else
      var before := Online(events[..|events| - 1]);
      match events[|events| - 1]
      case Handshake(ok, _) => ok || before
      case Read(ok, _) => ok && before
      case Net(step) => StaysOnline(step, before)
      case _ => before
  }

  function ReadsOf(events: seq<Event>): seq<T.ReadResult> {
    if events == [] then [] else
      var last := events[|events| - 1];
      ReadsOf(events[..|events| - 1]) + if last.Read? then [T.ReadResult(last.ok, last.data)] else []
  }

  /** What a successful read after these events brings: the reply in its bytes, after what was left over. */
  function Incoming(parse: Parser, before: seq<Event>, data: string): Reply {
    parse(W.Leftover(ReadsOf(before)) + data)
  }

  /** The ids of the creates that no reply has answered yet. */
  function Unanswered(parse: Parser, events: seq<Event>): set<string> {
    if events == [] then {} else
      var init := events[..|events| - 1];
      match events[|events| - 1]
      case Handshake(true, txn) => Unanswered(parse, init) + {txn}
      case Read(true, data) => Unanswered(parse, init) - {Incoming(parse, init, data).txn}
      case _ => Unanswered(parse, init)
  }

  /** A read brings the first reply to a create, and it says success. */
  predicate Succeeds(parse: Parser, before: seq<Event>, data: string) {
    var r := Incoming(parse, before, data);
    r.txn in Unanswered(parse, before) && r.body.Success?
  }

  /** The id that came with the last success. */
  function SessionId(parse: Parser, events: seq<Event>): int {
    if events == [] then NO_SESSION else
      var init := events[..|events| - 1];
      match events[|events| - 1]
      case Read(true, data) =>
        if Succeeds(parse, init, data) then Incoming(parse, init, data).body.id else SessionId(parse, init)
      case _ => SessionId(parse, init)
  }

  /** The last of the successes and the completed waits is a success or a wait that was not cut short. */
  function Armed(parse: Parser, events: seq<Event>): bool {
    if events == [] then false else
      var init := events[..|events| - 1];
      match events[|events| - 1]
      case Read(true, data) => Succeeds(parse, init, data) || Armed(parse, init)
      case Tick(ok, _) => ok
      case _ => Armed(parse, init)
  }

  /** A create for each handshake, and a keepalive for each wait that ends online with a session. */
  function Requests(parse: Parser, events: seq<Event>): seq<Request> {
    if events == [] then [] else
      var init := events[..|events| - 1];
      Requests(parse, init) +
      match events[|events| - 1]
      case Handshake(true, txn) => [Create(txn)]
      case Tick(true, txn) =>
        if Online(init) && SessionId(parse, init) != NO_SESSION then [KeepAlive(SessionId(parse, init), txn)] else []
      case _ => []
  }

  // ---------- The state agrees

  ghost predicate WireAgrees(parse: Parser, events: seq<Event>, w: Wire) {
    && w.connected == Online(events)
    && w.results == ReadsOf(events)
    && w.buffer == W.Leftover(w.results)
    && w.accepted == Requests(parse, events)
  }

  ghost predicate SessionAgrees(parse: Parser, events: seq<Event>, j: Session) {
    && j.pending == Unanswered(parse, events)
    && j.id == SessionId(parse, events)
    && j.armed == Armed(parse, events)
    && "" !in j.pending
  }

  lemma WireStep(parse: Parser, events: seq<Event>, s: System, e: Event)
    requires WireAgrees(parse, events, s.w) && s.j.id == SessionId(parse, events)
    requires Enabled(s, e) && (e.Net? && e.step.Write? ==> s.w.queue != [])
    ensures WireAgrees(parse, events + [e], Apply(parse, s, e).w)
  {
    hide T.OnRead, W.Leftover;
    match e
    case Init =>
      assert (events + [e])[..|events|] == events;
    case Net(step) => NetAgrees(parse, events, s.w, step);
    case Handshake(ok, txn) => HandshakeAgrees(parse, events, s.w, ok, txn);
    case Read(ok, data) =>
      ReadGrows(parse, events, ok, data);
      ReadDoes(s.w, ok, data);
    case Tick(ok, txn) => TickAgrees(parse, events, s, ok, txn);
  }

  lemma NetGrows(parse: Parser, events: seq<Event>, step: T.Step<Request>)
    requires Silent(step)
    ensures var more := events + [Net(step)];
            && Online(more) == StaysOnline(step, Online(events))
            && ReadsOf(more) == ReadsOf(events) && Requests(parse, more) == Requests(parse, events)
  {
    assert (events + [Net(step)])[..|events|] == events;
  }

  lemma NetEffect(w: Wire, step: T.Step<Request>)
    requires Silent(step) && T.Enabled(w, step) && (step.Write? ==> w.queue != [])
    ensures var w' := T.Apply(w, step);
            && w'.connected == StaysOnline(step, w.connected)
            && w'.results == w.results && w'.buffer == w.buffer && w'.accepted == w.accepted
  {
  }

  lemma NetAgrees(parse: Parser, events: seq<Event>, w: Wire, step: T.Step<Request>)
    requires WireAgrees(parse, events, w)
    requires Silent(step) && T.Enabled(w, step) && (step.Write? ==> w.queue != [])
    ensures WireAgrees(parse, events + [Net(step)], T.Apply(w, step))
  {
    hide W.Leftover, Online, ReadsOf, Requests, T.Apply, StaysOnline;
    NetGrows(parse, events, step);
    NetEffect(w, step);
  }

  lemma HandshakeAgrees(parse: Parser, events: seq<Event>, w: Wire, ok: bool, txn: string)
    requires WireAgrees(parse, events, w) && w.shaking > 0
    ensures WireAgrees(parse, events + [Handshake(ok, txn)], T.OnHandshake(w, ok, [Create(txn)]))
  {
    hide W.Leftover, T.SendAll;
    assert (events + [Handshake(ok, txn)])[..|events|] == events;
    if ok { H.HandshakeEffect(w, [Create(txn)]); }
  }

  lemma ReadGrows(parse: Parser, events: seq<Event>, ok: bool, data: string)
    ensures var more := events + [Read(ok, data)];
            && Online(more) == (ok && Online(events))
            && ReadsOf(more) == ReadsOf(events) + [T.ReadResult(ok, data)]
            && Requests(parse, more) == Requests(parse, events)
  {
    assert (events + [Read(ok, data)])[..|events|] == events;
  }

  lemma ReadDoes(w: Wire, ok: bool, data: string)
    requires w.reading > 0 && w.buffer == W.Leftover(w.results)
    ensures var w' := T.OnRead(w, ok, data, []);
            && w'.connected == (ok && w.connected) && w'.accepted == w.accepted
            && w'.results == w.results + [T.ReadResult(ok, data)] && w'.buffer == W.Leftover(w'.results)
  {
    hide W.Leftover, T.SendAll;
    W.ResultsGrow(w.results, T.ReadResult(ok, data));
    if ok { H.ReadEffect(w, data, []); }
  }

  lemma TickAgrees(parse: Parser, events: seq<Event>, s: System, ok: bool, txn: string)
    requires WireAgrees(parse, events, s.w) && s.j.id == SessionId(parse, events) && s.j.armed
    ensures WireAgrees(parse, events + [Tick(ok, txn)], Apply(parse, s, Tick(ok, txn)).w)
  {
    hide W.Leftover, T.SendAll;
    assert (events + [Tick(ok, txn)])[..|events|] == events;
    if ok { W.SendAllKeeps(s.w, DoKeepAlive(s.j, txn)); }
  }

  lemma SessionStep(parse: Parser, events: seq<Event>, s: System, e: Event)
    requires WireAgrees(parse, events, s.w) && SessionAgrees(parse, events, s.j)
    requires Enabled(s, e) && (e.Net? && e.step.Write? ==> s.w.queue != [])
    ensures SessionAgrees(parse, events + [e], Apply(parse, s, e).j)
  {
    hide W.Leftover, T.OnRead, T.OnHandshake, T.SendAll, Requests, Online;
    if e.Read? && e.ok {
      ReplyAgrees(parse, events, s.j, e.data);
    } else {
      hide Incoming, OnMsg, Succeeds;
      assert (events + [e])[..|events|] == events;
    }
  }

  lemma ReplyAgrees(parse: Parser, events: seq<Event>, j: Session, data: string)
    requires SessionAgrees(parse, events, j)
    ensures SessionAgrees(parse, events + [Read(true, data)], OnMsg(j, Incoming(parse, events, data)))
  {
    hide Incoming;
    assert (events + [Read(true, data)])[..|events|] == events;
  }

  lemma AgreedId(parse: Parser, events: seq<Event>, j: Session)
    requires SessionAgrees(parse, events, j)
    ensures j.id == SessionId(parse, events)
  {
  }

  lemma {:induction false} RunAgrees(parse: Parser, done: seq<Event>, s: System, events: seq<Event>, s': System)
    requires WireAgrees(parse, done, s.w) && SessionAgrees(parse, done, s.j) && Runs(parse, s, events, s')
    ensures WireAgrees(parse, done + events, s'.w) && SessionAgrees(parse, done + events, s'.j)
    decreases events
  {
    hide WireAgrees, SessionAgrees, Enabled, Apply;
    if events == [] {
      assert done + events == done;
    } else {
      var e := events[0];
      AgreedId(parse, done, s.j);
      WireStep(parse, done, s, e);
      SessionStep(parse, done, s, e);
      assert done + events == done + [e] + events[1..];
      RunAgrees(parse, done + [e], Apply(parse, s, e), events[1..], s');
    }
  }

  lemma StartAgrees(parse: Parser, none: seq<Event>, s: System)
    requires none == [] && Start(s)
    ensures WireAgrees(parse, none, s.w) && SessionAgrees(parse, none, s.j)
  {
  }

  // ---------- The theorems

  /**
   In every run the timer is armed if and only if the last of the success replies that ran a callback and
   the completed waits is a success or a successful wait, and the session id is that of the last success.
   */
  lemma TimerIsRead(parse: Parser, s: System, events: seq<Event>, s': System)
    requires Start(s) && Runs(parse, s, events, s')
    ensures s'.j.armed <==> Armed(parse, events)
    ensures s'.j.id == SessionId(parse, events)
    ensures s'.j.pending == Unanswered(parse, events)
  {
    var none: seq<Event> := [];
    StartAgrees(parse, none, s);
    RunAgrees(parse, none, s, events, s');
    assert none + events == events;
  }

  /**
   The accepted requests are exactly one create for each handshake and one keepalive, with the session id of that
   moment, for each wait that ended while the transport was online and a session was known.
   */
  lemma RequestsAreRead(parse: Parser, s: System, events: seq<Event>, s': System)
    requires Start(s) && Runs(parse, s, events, s')
    ensures s'.w.accepted == Requests(parse, events)
    ensures s'.w.connected <==> Online(events)
  {
    var none: seq<Event> := [];
    StartAgrees(parse, none, s);
    RunAgrees(parse, none, s, events, s');
    assert none + events == events;
  }

  // ---------- Keepalives go on

  function Waits(txns: seq<string>): seq<Event> {
    seq(|txns|, i requires 0 <= i < |txns| => Tick(true, txns[i]))
  }

  function KeepAlives(id: int, txns: seq<string>): seq<Request> {
    seq(|txns|, i requires 0 <= i < |txns| => KeepAlive(id, txns[i]))
  }

  /**
   Once a session is created and while the transport is connected, any number of waits may follow, and each
   of them sends one keepalive of the session and leaves the timer armed for the next.
   */
  lemma {:induction false} KeepsAlive(parse: Parser, s: System, txns: seq<string>) returns (s': System)
    requires s.w.connected && s.j.armed && s.j.id != NO_SESSION
    ensures Runs(parse, s, Waits(txns), s')
    ensures s'.w.accepted == s.w.accepted + KeepAlives(s.j.id, txns)
    ensures s'.w.connected && s'.j == s.j
    decreases |txns|
  {
    if txns == [] {
      s' := s;
    } else {
      var e := Tick(true, txns[0]);
      W.SendAllKeeps(s.w, DoKeepAlive(s.j, txns[0]));
      s' := KeepsAlive(parse, Apply(parse, s, e), txns[1..]);
      assert Waits(txns)[1..] == Waits(txns[1..]);
      assert KeepAlives(s.j.id, txns) == [KeepAlive(s.j.id, txns[0])] + KeepAlives(s.j.id, txns[1..]);
    }
  }

  /**
   From every reachable state that is online with a session and an armed timer, for every list of transaction
   ids there is a continuation whose accepted requests grow by exactly one keepalive of the session for each.
   */
  lemma KeepalivesGoOn(parse: Parser, s: System, done: seq<Event>, s': System, txns: seq<string>)
      returns (s'': System)
    requires Start(s) && Runs(parse, s, done, s') && s'.w.connected && s'.j.armed && s'.j.id != NO_SESSION
    ensures Online(done) && Armed(parse, done)
    ensures Runs(parse, s', Waits(txns), s'')
    ensures s''.w.accepted == Requests(parse, done) + KeepAlives(SessionId(parse, done), txns)
  {
    TimerIsRead(parse, s, done, s');
    RequestsAreRead(parse, s, done, s');
    s'' := KeepsAlive(parse, s', txns);
  }
}
