/**
 `JanusSession` on top of the transport: the transaction map, the session id and
 the keepalive loop, as functions on values, and the runs of the two together.
 */
module SessionModel {
  import T = TransportModel

  datatype Request = Create(txn: string) | KeepAlive(session: int, txn: string)

  /** The part of a reply that the session looks at: the "janus" field, and the id that comes with "success". */
  datatype Body = Success(id: int) | Error | Other

  datatype Reply = Reply(txn: string, body: Body)

  type Wire = T.Wire<Request>

  /** The reader of a message text. */
  type Parser = string -> Reply

  const NO_SESSION := -1

  /** A create request that was registered after the session had heard `since` replies. */
  datatype Registration = Registration(txn: string, since: nat)

  datatype Session = Session(
    id: int,                        // session_id_
    pending: set<string>,           // the keys of response_callback_map_
    armed: bool,                    // keep_alive_timer_ has a wait outstanding
    registered: seq<Registration>,  // history: all create requests
    heard: seq<Reply>,              //   all replies
    ran: seq<Reply>)                //   the replies that ran a callback

  ghost predicate IsInitial(j: Session) {
    j == Session(NO_SESSION, {}, false, [], [], [])
  }

  /** Registers the callback of a create request; the request itself is sent next. */
  function OnConnect(j: Session, txn: string): Session {
    j.(pending := j.pending + {txn}, registered := j.registered + [Registration(txn, |j.heard|)])
  }

  /** The callback registered by `OnConnect`. */
  function OnResponse(j: Session, body: Body): Session {
    match body
    case Success(id) => j.(id := id, armed := true)
    case Error => j
    case Other => j
  }

  function OnMsg(j: Session, r: Reply): Session {
    var j1 := j.(heard := j.heard + [r]);
    if r.txn == "" || r.txn !in j1.pending then j1 else
      OnResponse(j1.(pending := j1.pending - {r.txn}, ran := j1.ran + [r]), r.body)
  }

  /** What `DoKeepAlive` sends. */
  function DoKeepAlive(j: Session, txn: string): seq<Request> {
    if j.id == NO_SESSION then [] else [KeepAlive(j.id, txn)]
  }

  lemma SendOne(w: Wire, m: Request)
    ensures T.SendAll(w, [m]) == T.SendMsg(w, m)
  {
    assert [m][..0] == [];
    assert T.SendAll(w, []) == w;
  }

  datatype System = System(w: Wire, j: Session)

  datatype Event =
    | Init                              // Init: Connect
    | Net(step: T.Step<Request>)        // a transport step that calls nobody back
    | Handshake(ok: bool, txn: string)  // txn: the random transaction id of the create request
    | Read(ok: bool, data: string)
    | Tick(ok: bool, txn: string)       // the keepalive timer's wait completes

  predicate Silent(step: T.Step<Request>) {
    step.RunPosted? || step.Resolve? || step.TcpConnect? || step.Write? || step.Close?
  }

  predicate Registers(j: Session, txn: string) {
    exists i :: 0 <= i < |j.registered| && j.registered[i].txn == txn
  }

  /** The transport steps of an event. */
  function Steps(s: System, e: Event): seq<T.Step<Request>> {
    match e
    case Init => [T.Connect]
    case Net(step) => [step]
    case Handshake(ok, txn) => [T.Handshake(ok, [Create(txn)])]
    case Read(ok, data) => [T.Read(ok, data, [])]
    case Tick(ok, txn) =>
      if !ok || DoKeepAlive(s.j, txn) == [] then [] else [T.Send(DoKeepAlive(s.j, txn)[0])]
  }

  /** Transaction ids are fresh and not empty, and the environment completes only what is outstanding. */
  predicate Enabled(s: System, e: Event) {
    match e
    case Init => true
    case Net(step) => Silent(step) && T.Enabled(s.w, step)
    case Handshake(ok, txn) => s.w.shaking > 0 && txn != "" && !Registers(s.j, txn)
    case Read(ok, data) => s.w.reading > 0
    case Tick(ok, txn) => s.j.armed
  }

  function Apply(parse: Parser, s: System, e: Event): System
    requires Enabled(s, e) && (e.Net? && e.step.Write? ==> s.w.queue != [])
  {
    match e
    case Init => s.(w := T.ConnectCall(s.w))
    case Net(step) => s.(w := T.Apply(s.w, step))
    case Handshake(ok, txn) =>
      System(T.OnHandshake(s.w, ok, [Create(txn)]), if ok then OnConnect(s.j, txn) else s.j)
    case Read(ok, data) =>
      System(T.OnRead(s.w, ok, data, []), if ok then OnMsg(s.j, parse(s.w.buffer + data)) else s.j)
    case Tick(ok, txn) =>
      if !ok then s.(j := s.j.(armed := false)) else
        System(T.SendAll(s.w, DoKeepAlive(s.j, txn)), s.j.(armed := true))
  }

  ghost predicate Runs(parse: Parser, s: System, events: seq<Event>, s': System)
    decreases events
  {
    if events == [] then s' == s else
      && Enabled(s, events[0])
      && (events[0].Net? && events[0].step.Write? ==> s.w.queue != [])
      && Runs(parse, Apply(parse, s, events[0]), events[1..], s')
  }

  ghost predicate Start(s: System) {
    T.IsInitial(s.w) && IsInitial(s.j)
  }

  function Inits(events: seq<Event>): nat {
    if events == [] then 0 else (if events[0].Init? then 1 else 0) + Inits(events[1..])
  }
}
