/** What holds of every run of the session over the transport. */
module SessionTheorems {
  import opened Wrappers
  import opened SessionModel
  import T = TransportModel
  import W = TransportTheorems

  // ---------- The transaction map, for any number of connections

  /** The first reply with this transaction id. */
  function FirstReply(heard: seq<Reply>, txn: string): Option<Body> {
    if heard == [] then None else
      var init, last := heard[..|heard| - 1], heard[|heard| - 1];
      if FirstReply(init, txn).Some? then FirstReply(init, txn)
      else if last.txn == txn then Some(last.body) else None
  }

  /** The bodies a callback was run with. */
  function RunsOf(ran: seq<Reply>, txn: string): seq<Body> {
    if ran == [] then [] else
      RunsOf(ran[..|ran| - 1], txn) + if ran[|ran| - 1].txn == txn then [ran[|ran| - 1].body] else []
  }

  function AsRuns(b: Option<Body>): seq<Body> {
    if b.Some? then [b.value] else []
  }

  /** The first reply to a registered request. */
  function Answer(j: Session, i: nat): Option<Body>
    requires i < |j.registered|
  {
    var reg := j.registered[i];
    if reg.since <= |j.heard| then FirstReply(j.heard[reg.since..], reg.txn) else None
  }

  ghost predicate EntryOk(j: Session, i: nat)
    requires i < |j.registered|
  {
    var reg := j.registered[i];
    && reg.txn != "" && reg.since <= |j.heard|
    && (reg.txn in j.pending <==> Answer(j, i) == None)
    && RunsOf(j.ran, reg.txn) == AsRuns(Answer(j, i))
  }

  ghost predicate MapInv(j: Session) {
    && (forall i :: 0 <= i < |j.registered| ==> EntryOk(j, i))
    && (forall i, k :: 0 <= i < k < |j.registered| ==> j.registered[i].txn != j.registered[k].txn)
    && (forall txn :: txn in j.pending ==> Registers(j, txn))
    && (forall txn :: !Registers(j, txn) ==> RunsOf(j.ran, txn) == [])
  }

  lemma FirstReplyGrows(heard: seq<Reply>, since: nat, r: Reply, txn: string)
    requires since <= |heard|
    ensures FirstReply((heard + [r])[since..], txn) ==
            if FirstReply(heard[since..], txn).Some? then FirstReply(heard[since..], txn)
            else if r.txn == txn then Some(r.body) else None
  {
    assert (heard + [r])[since..] == heard[since..] + [r];
    assert (heard[since..] + [r])[..|heard[since..]|] == heard[since..];
  }

  lemma RunsGrow(ran: seq<Reply>, r: Reply, txn: string)
    ensures RunsOf(ran + [r], txn) == RunsOf(ran, txn) + if r.txn == txn then [r.body] else []
  {
    assert (ran + [r])[..|ran|] == ran;
  }

  lemma RegistersGrow(j: Session, txn: string, t: string)
    ensures Registers(OnConnect(j, txn), t) <==> Registers(j, t) || t == txn
  {
    var j' := OnConnect(j, txn);
    assert j'.registered[|j.registered|].txn == txn;
    if Registers(j, t) {
      var i :| 0 <= i < |j.registered| && j.registered[i].txn == t;
      assert j'.registered[i].txn == t;
    }
  }

  lemma ConnectKeepsMap(j: Session, txn: string)
    requires MapInv(j) && txn != "" && !Registers(j, txn)
    ensures MapInv(OnConnect(j, txn))
  {
    var j' := OnConnect(j, txn);
    forall i | 0 <= i < |j'.registered| ensures EntryOk(j', i) {
      if i < |j.registered| { assert EntryOk(j, i) && j.registered[i].txn != txn; }
    }
    forall t ensures Registers(j', t) <==> Registers(j, t) || t == txn { RegistersGrow(j, txn, t); }
  }

  lemma AnswerGrows(j: Session, r: Reply, i: nat)
    requires i < |j.registered| && j.registered[i].since <= |j.heard|
    ensures OnMsg(j, r).registered == j.registered
    ensures Answer(OnMsg(j, r), i) ==
            if Answer(j, i).Some? then Answer(j, i) else if r.txn == j.registered[i].txn then Some(r.body) else None
  {
    FirstReplyGrows(j.heard, j.registered[i].since, r, j.registered[i].txn);
    assert OnMsg(j, r).heard == j.heard + [r];
  }

  lemma ReplyKeepsEntry(j: Session, r: Reply, i: nat)
    requires MapInv(j) && i < |j.registered|
    ensures EntryOk(OnMsg(j, r), i)
  {
    hide Answer, Registers, MapInv, EntryOk, OnMsg;
    EntryOf(j, i);
    EntryHas(j, i);
    AnswerGrows(j, r, i);
    RunsGrow(j.ran, r, j.registered[i].txn);
    if r.txn == j.registered[i].txn && r.txn in j.pending {
      AnsweredNow(j, r, i);
    } else {
      OnMsgDoes(j, r);
      SameEntry(j, OnMsg(j, r), i);
    }
  }

  /** What a reply does to the record. */
  lemma OnMsgDoes(j: Session, r: Reply)
    ensures var j' := OnMsg(j, r);
            && j'.registered == j.registered && j'.heard == j.heard + [r]
            && if r.txn == "" || r.txn !in j.pending then j'.ran == j.ran && j'.pending == j.pending
               else j'.ran == j.ran + [r] && j'.pending == j.pending - {r.txn}
  {
  }

  lemma EntryHas(j: Session, i: nat)
    requires i < |j.registered| && EntryOk(j, i)
    ensures j.registered[i].txn != "" && j.registered[i].since <= |j.heard|
    ensures j.registered[i].txn !in j.pending ==> Answer(j, i).Some?
  {
    hide Answer;
  }

  lemma EntryOf(j: Session, i: nat)
    requires MapInv(j) && i < |j.registered|
    ensures EntryOk(j, i)
  {
  }

  /** The first reply to a request runs its callback. */
  lemma AnsweredNow(j: Session, r: Reply, i: nat)
    requires i < |j.registered| && EntryOk(j, i) && r.txn == j.registered[i].txn && r.txn in j.pending
    requires Answer(OnMsg(j, r), i) == Some(r.body)
    requires RunsOf(j.ran + [r], r.txn) == RunsOf(j.ran, r.txn) + [r.body]
    ensures EntryOk(OnMsg(j, r), i)
  {
    hide Answer;
    EntryHas(j, i);
    OnMsgDoes(j, r);
    hide OnMsg;
  }

  /** Any other reply changes nothing for the request. */
  lemma SameEntry(j: Session, j': Session, i: nat)
    requires i < |j.registered| && j'.registered == j.registered && |j.heard| <= |j'.heard| && EntryOk(j, i)
    requires Answer(j', i) == Answer(j, i)
    requires j.registered[i].txn in j'.pending <==> j.registered[i].txn in j.pending
    requires RunsOf(j'.ran, j.registered[i].txn) == RunsOf(j.ran, j.registered[i].txn)
    ensures EntryOk(j', i)
  {
    hide Answer;
  }

  lemma ReplyKeepsMap(j: Session, r: Reply)
    requires MapInv(j)
    ensures MapInv(OnMsg(j, r))
  {
    var j' := OnMsg(j, r);
    assert j'.registered == j.registered;
    forall i | 0 <= i < |j'.registered| ensures EntryOk(j', i) { ReplyKeepsEntry(j, r, i); }
    forall t ensures Registers(j', t) <==> Registers(j, t) { }
    forall t | !Registers(j', t) ensures RunsOf(j'.ran, t) == [] { RunsGrow(j.ran, r, t); }
  }

  lemma ApplyKeepsMap(parse: Parser, s: System, e: Event)
    requires MapInv(s.j) && Enabled(s, e) && (e.Net? && e.step.Write? ==> s.w.queue != [])
    ensures MapInv(Apply(parse, s, e).j)
  {
    match e
    case Handshake(ok, txn) => if ok { ConnectKeepsMap(s.j, txn); }
    case Read(ok, data) => if ok { ReplyKeepsMap(s.j, parse(s.w.buffer + data)); }
    case Tick(ok, txn) => ArmingKeepsMap(s.j, ok);
    case _ =>
  }

  lemma ArmingKeepsMap(j: Session, armed: bool)
    requires MapInv(j)
    ensures MapInv(j.(armed := armed))
  {
    var j' := j.(armed := armed);
    forall i | 0 <= i < |j'.registered| ensures EntryOk(j', i) { assert EntryOk(j, i); }
    forall t ensures Registers(j', t) <==> Registers(j, t) { assert j'.registered == j.registered; }
  }

  lemma {:induction false} ReachableMapInv(parse: Parser, s: System, events: seq<Event>, s': System)
    requires MapInv(s.j) && Runs(parse, s, events, s')
    ensures MapInv(s'.j)
    decreases events
  {
    if events != [] {
      ApplyKeepsMap(parse, s, events[0]);
      ReachableMapInv(parse, Apply(parse, s, events[0]), events[1..], s');
    }
  }

  /**
   In every reachable state the map holds the create requests that were registered and not yet answered,
   and the callback of each has run once, on the first reply with its id, if there was one.
   */
  lemma TransactionMap(parse: Parser, s: System, events: seq<Event>, s': System)
    requires Start(s) && Runs(parse, s, events, s')
    ensures forall txn :: txn in s'.j.pending <==>
              exists i :: 0 <= i < |s'.j.registered| && s'.j.registered[i].txn == txn
                          && Answer(s'.j, i) == None
    ensures forall i :: 0 <= i < |s'.j.registered| ==>
              RunsOf(s'.j.ran, s'.j.registered[i].txn) == AsRuns(Answer(s'.j, i))
  {
    ReachableMapInv(parse, s, events, s');
    MapExact(s'.j);
    forall i | 0 <= i < |s'.j.registered| ensures RunsOf(s'.j.ran, s'.j.registered[i].txn) == AsRuns(Answer(s'.j, i)) {
      assert EntryOk(s'.j, i);
    }
  }

  lemma MapExact(j: Session)
    requires MapInv(j)
    ensures forall i :: 0 <= i < |j.registered| ==> EntryOk(j, i)
    ensures forall txn :: txn in j.pending <==>
              exists i :: 0 <= i < |j.registered| && j.registered[i].txn == txn && Answer(j, i) == None
  {
    forall txn ensures txn in j.pending <==>
        exists i :: 0 <= i < |j.registered| && j.registered[i].txn == txn && Answer(j, i) == None {
      if txn in j.pending {
        var i :| 0 <= i < |j.registered| && j.registered[i].txn == txn;
        assert EntryOk(j, i);
      } else if i :| 0 <= i < |j.registered| && j.registered[i].txn == txn {
        assert EntryOk(j, i);
      }
    }
  }

  /** An unknown, repeated or empty transaction id changes nothing but the record of what was heard. */
  lemma StrayReplyIgnored(j: Session, r: Reply)
    requires MapInv(j)
    requires r.txn == "" || !Registers(j, r.txn) || (exists i :: 0 <= i < |j.registered| && j.registered[i].txn == r.txn
                                                       && Answer(j, i).Some?)
    ensures OnMsg(j, r) == j.(heard := j.heard + [r])
  {
    if i :| 0 <= i < |j.registered| && j.registered[i].txn == r.txn && Answer(j, i).Some? {
      assert EntryOk(j, i);
    }
  }

  // ---------- Create requests, for any number of connections

  function Creates(sent: seq<Request>): seq<string> {
    if sent == [] then [] else
      Creates(sent[..|sent| - 1]) + match sent[|sent| - 1] case Create(txn) => [txn] case KeepAlive(_, _) => []
  }

  function Ids(registered: seq<Registration>): seq<string> {
    if registered == [] then [] else Ids(registered[..|registered| - 1]) + [registered[|registered| - 1].txn]
  }

  lemma CreatesGrow(sent: seq<Request>, m: Request)
    ensures Creates(sent + [m]) == Creates(sent) + if m.Create? then [m.txn] else []
  {
    assert (sent + [m])[..|sent|] == sent;
  }

  lemma IdsGrow(registered: seq<Registration>, r: Registration)
    ensures Ids(registered + [r]) == Ids(registered) + [r.txn]
  {
    assert (registered + [r])[..|registered|] == registered;
  }

  lemma ApplyCreates(parse: Parser, s: System, e: Event)
    requires Enabled(s, e) && (e.Net? && e.step.Write? ==> s.w.queue != [])
    requires Creates(s.w.accepted) == Ids(s.j.registered)
    ensures Creates(Apply(parse, s, e).w.accepted) == Ids(Apply(parse, s, e).j.registered)
  {
    match e
    case Init =>
    case Net(step) => SilentAcceptsNothing(s.w, step);
    case Handshake(ok, txn) =>
      if ok {
        HandshakeSends(s.w, Create(txn));
        CreatesGrow(s.w.accepted, Create(txn));
        IdsGrow(s.j.registered, Registration(txn, |s.j.heard|));
      }
    case Read(ok, data) => if ok { W.OnReadDelivers(s.w, data, []); ReadSendsNothing(s.w, data); }
    case Tick(ok, txn) =>
      if ok && s.j.id != NO_SESSION {
        SendOne(s.w, KeepAlive(s.j.id, txn));
        CreatesGrow(s.w.accepted, KeepAlive(s.j.id, txn));
      }
  }

  lemma ReadSendsNothing(w: Wire, data: string)
    requires w.reading > 0
    ensures T.OnRead(w, true, data, []).accepted == w.accepted
  {
  }

  lemma {:induction false} ReachableCreates(parse: Parser, s: System, events: seq<Event>, s': System)
    requires Runs(parse, s, events, s') && Creates(s.w.accepted) == Ids(s.j.registered)
    ensures Creates(s'.w.accepted) == Ids(s'.j.registered)
    decreases events
  {
    if events != [] {
      hide Creates, Ids;
      ApplyCreates(parse, s, events[0]);
      ReachableCreates(parse, Apply(parse, s, events[0]), events[1..], s');
    }
  }

  /**
   However often Init is called, the create requests the transport accepted are those whose callbacks were
   registered, in order: no create can reach the wire whose answer would find nothing in the map.
   */
  lemma CreatesAreTheRegistered(parse: Parser, s: System, events: seq<Event>, s': System)
    requires Start(s) && Runs(parse, s, events, s')
    ensures Creates(s'.w.accepted) == Ids(s'.j.registered)
  {
    ReachableCreates(parse, s, events, s');
  }

  // ---------- The trace of one connection

  function IdFrom(answer: Option<Body>): int {
    match answer
    case Some(Success(id)) => id
    case _ => NO_SESSION
  }

  /** One create, then keepalives with the session id that the create's answer carried. */
  ghost predicate IsTrace(sent: seq<Request>, j: Session) {
    if |j.registered| != 1 then sent == [] else
      && (sent != [] ==> sent[0] == Create(j.registered[0].txn))
      && forall k :: 1 <= k < |sent| ==> sent[k].KeepAlive? && Answer(j, 0) == Some(Success(sent[k].session))
  }

  ghost predicate TraceInv(s: System) {
    && W.SendInv(s.w) && W.ChainInv(s.w) && MapInv(s.j)
    && W.Connects(s.w.calls) == |s.j.registered| <= 1
    && IsTrace(s.w.accepted, s.j)
    && (s.j.registered == [] ==> s.j.heard == [] && !s.j.armed && s.j.id == NO_SESSION)
    && (s.j.registered != [] ==>
          && s.j.registered[0].since == 0 && s.w.accepted != []
          && s.j.id == IdFrom(Answer(s.j, 0))
          && (s.j.armed ==> Answer(s.j, 0).Some? && Answer(s.j, 0).value.Success?))
  }

  lemma NetKeepsTrace(s: System, step: T.Step<Request>)
    requires TraceInv(s) && Silent(step) && T.Enabled(s.w, step)
    ensures (step.Write? ==> s.w.queue != []) && TraceInv(s.(w := T.Apply(s.w, step)))
  {
    W.ApplySendInv(s.w, step);
    W.ApplyChainInv(s.w, step);
    W.OtherStepChain(s.w, step);
    SilentAcceptsNothing(s.w, step);
  }

  lemma SilentAcceptsNothing(w: Wire, step: T.Step<Request>)
    requires Silent(step) && T.Enabled(w, step) && (step.Write? ==> w.queue != [])
    ensures T.Apply(w, step).accepted == w.accepted && T.Apply(w, step).chains == w.chains
  {
  }

  lemma HandshakeKeepsTrace(parse: Parser, s: System, ok: bool, txn: string)
    requires TraceInv(s) && Enabled(s, Handshake(ok, txn)) && s.w.chains <= 1
    ensures TraceInv(Apply(parse, s, Handshake(ok, txn)))
  {
    var w := T.OnHandshake(s.w, ok, [Create(txn)]);
    W.ApplySendInv(s.w, T.Handshake(ok, [Create(txn)]));
    W.HandshakeChain(s.w, ok, [Create(txn)]);
    if ok {
      NoneRegistered(s);
      W.CallsGrow(s.w.calls, T.Connected);
      HandshakeSends(s.w, Create(txn));
      FirstConnect(s.j, txn);
      FirstTrace(s, w, OnConnect(s.j, txn), txn);
    } else {
      hide W.SendInv, W.ChainInv, MapInv, IsTrace, Answer;
      assert w.calls == s.w.calls && w.accepted == s.w.accepted;
    }
  }

  /** With one chain, a handshake under way means that none has been made. */
  lemma NoneRegistered(s: System)
    requires TraceInv(s) && s.w.shaking > 0 && s.w.chains <= 1
    ensures s.j.registered == [] && s.w.accepted == [] && W.Connects(s.w.calls) == 0
  {
    hide MapInv, Answer, W.SendInv;
  }

  lemma FirstTrace(s: System, w: Wire, j: Session, txn: string)
    requires TraceInv(s) && s.j.registered == [] && s.w.accepted == [] && W.Connects(s.w.calls) == 0
    requires W.SendInv(w) && W.ChainInv(w) && MapInv(j)
    requires w.accepted == s.w.accepted + [Create(txn)] && w.calls == s.w.calls + [T.Connected]
    requires W.Connects(s.w.calls + [T.Connected]) == W.Connects(s.w.calls) + 1
    requires j == OnConnect(s.j, txn) && j.registered == [Registration(txn, 0)] && Answer(j, 0) == None
    ensures TraceInv(System(w, j))
  {
    hide MapInv, W.SendInv, W.ChainInv, Answer;
    assert w.accepted == [Create(txn)];
  }

  lemma FirstConnect(j: Session, txn: string)
    requires MapInv(j) && j.registered == [] && j.heard == [] && txn != ""
    ensures var j' := OnConnect(j, txn);
            MapInv(j') && j'.registered == [Registration(txn, 0)] && Answer(j', 0) == None
  {
    ConnectKeepsMap(j, txn);
  }

  lemma HandshakeSends(w: Wire, m: Request)
    requires w.shaking > 0
    ensures var w' := T.OnHandshake(w, true, [m]);
            w'.accepted == w.accepted + [m] && w'.calls == w.calls + [T.Connected] && w'.chains == w.chains
  {
    W.SendAllKeeps(w.(shaking := w.shaking - 1, connected := true, calls := w.calls + [T.Connected]), [m]);
  }

  lemma ReadKeepsTrace(parse: Parser, s: System, ok: bool, data: string)
    requires TraceInv(s) && Enabled(s, Read(ok, data))
    ensures TraceInv(Apply(parse, s, Read(ok, data)))
  {
    W.ApplySendInv(s.w, T.Read(ok, data, []));
    W.ReadChain(s.w, ok, data, []);
    assert s.j.registered != [];
    if ok {
      W.OnReadDelivers(s.w, data, []);
      W.CallsGrow(s.w.calls, T.Message(s.w.buffer + data));
      ReplyKeepsTrace(s, parse(s.w.buffer + data));
      assert T.OnRead(s.w, ok, data, []).accepted == s.w.accepted;
    }
  }

  /** The session's part of a reply. */
  lemma ReplyKeepsTrace(s: System, r: Reply)
    requires TraceInv(s) && s.j.registered != []
    ensures var j' := OnMsg(s.j, r);
            && MapInv(j') && j'.registered == s.j.registered && IsTrace(s.w.accepted, j')
            && j'.id == IdFrom(Answer(j', 0))
            && (j'.armed ==> Answer(j', 0).Some? && Answer(j', 0).value.Success?)
  {
    ReplyKeepsMap(s.j, r);
    assert EntryOk(s.j, 0);
    AnswerGrows(s.j, r, 0);
    if r.txn in s.j.pending {
      assert Registers(s.j, r.txn);
      assert r.txn == s.j.registered[0].txn;
    }
  }

  lemma TickKeepsTrace(parse: Parser, s: System, ok: bool, txn: string)
    requires TraceInv(s) && Enabled(s, Tick(ok, txn))
    ensures TraceInv(Apply(parse, s, Tick(ok, txn)))
  {
    var j' := s.j.(armed := ok);
    ArmingKeepsMap(s.j, ok);
    assert Answer(j', 0) == Answer(s.j, 0);
    if ok {
      var ms := DoKeepAlive(s.j, txn);
      W.SendAllKeeps(s.w, ms);
      W.SendAllInv(s.w, ms);
      assert W.ChainInv(T.SendAll(s.w, ms));
      assert s.w.accepted + [] == s.w.accepted;
      forall k | 1 <= k < |T.SendAll(s.w, ms).accepted|
        ensures var m := T.SendAll(s.w, ms).accepted[k]; m.KeepAlive? && Answer(j', 0) == Some(Success(m.session)) {
      }
    }
  }

  lemma InitKeepsTrace(s: System)
    requires TraceInv(s)
    ensures TraceInv(s.(w := T.ConnectCall(s.w)))
  {
    hide MapInv;
    W.ApplySendInv(s.w, T.Connect);
  }

  lemma ApplyKeepsTrace(parse: Parser, s: System, e: Event)
    requires TraceInv(s) && Enabled(s, e) && s.w.chains + (if e.Init? then 1 else 0) <= 1
    requires e.Net? && e.step.Write? ==> s.w.queue != []
    ensures TraceInv(Apply(parse, s, e)) && Apply(parse, s, e).w.chains <= s.w.chains + if e.Init? then 1 else 0
  {
    hide TraceInv;
    match e
    case Init => InitKeepsTrace(s);
    case Net(step) =>
      NetKeepsTrace(s, step);
      SilentAcceptsNothing(s.w, step);
    case Handshake(ok, txn) =>
      HandshakeKeepsTrace(parse, s, ok, txn);
      W.ChainsCount(s.w, T.Handshake(ok, [Create(txn)]));
    case Read(ok, data) =>
      ReadKeepsTrace(parse, s, ok, data);
      W.ChainsCount(s.w, T.Read(ok, data, []));
    case Tick(ok, txn) =>
      TickKeepsTrace(parse, s, ok, txn);
      W.SendAllKeeps(s.w, DoKeepAlive(s.j, txn));
  }

  lemma {:induction false} ReachableTrace(parse: Parser, s: System, events: seq<Event>, s': System)
    requires TraceInv(s) && Runs(parse, s, events, s') && s.w.chains + Inits(events) <= 1
    ensures TraceInv(s')
    decreases events
  {
    if events != [] {
      ApplyKeepsTrace(parse, s, events[0]);
      ReachableTrace(parse, Apply(parse, s, events[0]), events[1..], s');
    }
  }

  lemma StartTrace(s: System)
    requires Start(s)
    ensures TraceInv(s) && s.w.chains == 0
  {
    hide W.SendInv, W.ChainInv, MapInv, T.IsInitial;
    W.InitialInv(s.w);
    NoCalls(s.w);
    StartMap(s.j);
  }

  lemma NoCalls(w: Wire)
    requires T.IsInitial(w)
    ensures w.calls == [] && w.accepted == [] && w.chains == 0 && W.Connects(w.calls) == 0
  {
  }

  lemma StartMap(j: Session)
    requires IsInitial(j)
    ensures MapInv(j)
  {
  }

  lemma TraceReached(parse: Parser, s: System, events: seq<Event>, s': System)
    requires Start(s) && Runs(parse, s, events, s') && Inits(events) <= 1
    ensures TraceInv(s')
  {
    hide Runs, MapInv, W.SendInv, W.ChainInv, IsTrace, Inits, Answer, TraceInv;
    StartTrace(s);
    ReachableTrace(parse, s, events, s');
  }

  /**
   With one Init, what was written is a prefix of one create request followed by keepalives, and a
   keepalive exists only once that create was answered with success; it carries the answer's session id.
   */
  lemma SessionTrace(parse: Parser, s: System, events: seq<Event>, s': System)
    requires Start(s) && Runs(parse, s, events, s') && Inits(events) <= 1
    ensures s'.w.written <= s'.w.accepted && IsTrace(s'.w.accepted, s'.j) && IsTrace(s'.w.written, s'.j)
    ensures |s'.j.registered| <= 1
  {
    hide Runs, Start, Inits, TraceInv, IsTrace;
    TraceReached(parse, s, events, s');
    TraceFacts(s');
  }

  lemma TraceFacts(s: System)
    requires TraceInv(s)
    ensures s.w.written <= s.w.accepted && IsTrace(s.w.accepted, s.j) && IsTrace(s.w.written, s.j)
    ensures |s.j.registered| <= 1
  {
    assert s.w.accepted == s.w.written + (s.w.queue + s.w.posted);
  }

  // ---------- The session's runs are runs of the transport

  lemma EventRuns(parse: Parser, s: System, e: Event)
    requires Enabled(s, e) && (e.Net? && e.step.Write? ==> s.w.queue != [])
    ensures |Steps(s, e)| <= 1
    ensures Steps(s, e) == [] ==> Apply(parse, s, e).w == s.w
    ensures Steps(s, e) != [] ==>
              var step := Steps(s, e)[0];
              && T.Enabled(s.w, step) && (step.Write? ==> s.w.queue != []) && T.Apply(s.w, step) == Apply(parse, s, e).w
  {
    if e.Tick? && Steps(s, e) != [] {
      SendOne(s.w, DoKeepAlive(s.j, e.txn)[0]);
      assert DoKeepAlive(s.j, e.txn) == [DoKeepAlive(s.j, e.txn)[0]];
    }
  }

  /** What holds of every run of the transport therefore holds of every run of the session. */
  lemma {:induction false} RunsTransport(
      parse: Parser, s: System, events: seq<Event>, s': System)
      returns (steps: seq<T.Step<Request>>)
    requires Runs(parse, s, events, s')
    ensures T.Runs(s.w, steps, s'.w) && W.ConnectCalls(steps) == Inits(events)
    decreases events
  {
    if events == [] { return []; }
    EventRuns(parse, s, events[0]);
    var rest := RunsTransport(parse, Apply(parse, s, events[0]), events[1..], s');
    steps := Steps(s, events[0]) + rest;
    if Steps(s, events[0]) == [] {
      assert steps == rest;
    } else {
      assert steps[0] == Steps(s, events[0])[0] && steps[1..] == rest;
    }
  }
}
