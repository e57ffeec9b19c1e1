/**
 `WebsocketTransport` and `JanusSession` as classes whose handlers update their
 fields in place.  Each handler is proved equal to the function of the same name
 in `TransportModel` or `SessionModel`, so what is proved of runs of those
 functions holds of these objects.
 */
module JanusClient {
  import T = TransportModel
  import S = SessionModel

  class WebsocketTransport {
    var connected: bool
    var sendMsgQueue: seq<S.Request>
    var buffer: string
    var session: JanusSession?  // behind connect_callback_ and msg_callback_
    var io: S.Wire              // what the I/O library holds for the transport, and the history

    ghost function View(): S.Wire
      reads this
    {
      io.(connected := connected, queue := sendMsgQueue, buffer := buffer)
    }

    constructor ()
      ensures T.IsInitial(View()) && session == null
    {
      connected, sendMsgQueue, buffer, session := false, [], "", null;
      io := T.Wire(false, [], "", [], [], 0, 0, 0, 0, [], 0, [], false, 0, 0, [], []);
    }

    // ---------- Sending

    method SendMsg(msg: S.Request)
      modifies this
      ensures View() == T.SendMsg(old(View()), msg) && session == old(session)
    {
      if !connected { return; }
      io := io.(posted := io.posted + [msg], accepted := io.accepted + [msg]);
    }

    /** `ws_.async_write` of the queue's front. */
    method AsyncWrite()
      requires sendMsgQueue != []
      modifies this
      ensures View() == T.StartWrite(old(View())) && session == old(session)
    {
      io := io.(writing := io.writing + [sendMsgQueue[0]], started := io.started + 1);
    }

    method SendDataInner(data: S.Request)
      modifies this
      ensures View() == T.SendDataInner(old(View()), data) && session == old(session)
    {
      sendMsgQueue := sendMsgQueue + [data];
      if |sendMsgQueue| > 1 { return; }
      AsyncWrite();
    }

    /** The strand runs the next task that `SendMsg` posted. */
    method RunPosted()
      requires T.Enabled(View(), T.RunPosted)
      modifies this
      ensures View() == T.Apply(old(View()), T.RunPosted) && session == old(session)
    {
      var data := io.posted[0];
      io := io.(posted := io.posted[1..]);
      SendDataInner(data);
    }

    /** Completion of the `i`-th outstanding write. */
    method OnWrite(i: nat, ok: bool)
      requires i < |View().writing| && sendMsgQueue != []
      modifies this
      ensures View() == T.OnWrite(old(View()), i, ok) && session == old(session)
    {
      var data := io.writing[i];
      io := io.(writing := io.writing[..i] + io.writing[i + 1..]);
      if !ok {
        connected := false;
        io := io.(failed := true);
        return;
      }
      sendMsgQueue := sendMsgQueue[1..];
      io := io.(written := io.written + [data]);
      if sendMsgQueue != [] {
        AsyncWrite();
      }
    }

    // ---------- Connecting and reading

    method Connect()
      modifies this
      ensures View() == T.ConnectCall(old(View())) && session == old(session)
    {
      if connected { return; }
      io := io.(resolving := io.resolving + 1, chains := io.chains + 1);
    }

    method OnResolve(ok: bool)
      requires View().resolving > 0
      modifies this
      ensures View() == T.OnResolve(old(View()), ok) && session == old(session)
    {
      io := io.(resolving := io.resolving - 1);
      if !ok {
        io := io.(broken := io.broken + 1);
        return;
      }
      io := io.(connecting := io.connecting + 1);
    }

    method OnConnect(ok: bool)
      requires View().connecting > 0
      modifies this
      ensures View() == T.OnConnect(old(View()), ok) && session == old(session)
    {
      io := io.(connecting := io.connecting - 1);
      if !ok {
        io := io.(broken := io.broken + 1);
        return;
      }
      io := io.(shaking := io.shaking + 1);
    }

    method DoRead()
      modifies this
      ensures View() == T.DoRead(old(View())) && session == old(session)
    {
      io := io.(reading := io.reading + 1);
    }

    /** `txn` is the random id that the connect callback draws, if one is set. */
    method OnHandshake(ok: bool, txn: string)
      requires View().shaking > 0 && (session != null ==> session.ws == this)
      modifies this, session
      ensures View() == T.OnHandshake(old(View()), ok, if session == null then [] else [S.Create(txn)])
      ensures session == old(session)
      ensures session != null ==>
                session.View() == if ok then S.OnConnect(old(session.View()), txn) else old(session.View())
    {
      io := io.(shaking := io.shaking - 1);
      if !ok {
        io := io.(broken := io.broken + 1);
        return;
      }
      connected := true;
      io := io.(calls := io.calls + [T.Connected]);
      if session != null {
        S.SendOne(View(), S.Create(txn));
        session.OnConnect(txn);
      }
      DoRead();
    }

    method OnRead(ok: bool, data: string)
      requires View().reading > 0 && (session != null ==> session.ws == this)
      modifies this, session
      ensures View() == T.OnRead(old(View()), ok, data, []) && session == old(session)
      ensures session != null ==>
                session.View() ==
                if ok then S.OnMsg(old(session.View()), session.parse(old(buffer) + data)) else old(session.View())
    {
      io := io.(reading := io.reading - 1, results := io.results + [T.ReadResult(ok, data)]);
      buffer := buffer + data;
      if !ok {
        connected := false;
        return;
      }
      io := io.(calls := io.calls + [T.Message(buffer)]);
      if session != null {
        session.OnMsg(buffer);
      }
      buffer := "";
      DoRead();
    }

    method OnClose(ok: bool)
      modifies this
      ensures View() == T.OnClose(old(View()), ok) && session == old(session)
    {
      if !ok { return; }
      connected := false;
    }
  }

  /** The one kind of callback the session registers: the one for a create request. */
  datatype ResponseCallback = OnCreated

  class JanusSession {
    const ws: WebsocketTransport
    const parse: S.Parser
    var sessionId: int
    var responseCallbackMap: map<string, ResponseCallback>
    var timerArmed: bool
    ghost var registered: seq<S.Registration>
    ghost var heard: seq<S.Reply>
    ghost var ran: seq<S.Reply>
    ghost var sentWith: seq<set<string>>  // the ids in the map whenever a create request was sent

    ghost function View(): S.Session
      reads this
    {
      S.Session(sessionId, responseCallbackMap.Keys, timerArmed, registered, heard, ran)
    }

    constructor (ws: WebsocketTransport, parse: S.Parser)
      modifies ws
      ensures this.ws == ws && this.parse == parse && S.IsInitial(View())
      ensures ws.session == this && ws.View() == old(ws.View())
    {
      this.ws, this.parse := ws, parse;
      sessionId, responseCallbackMap, timerArmed := S.NO_SESSION, map[], false;
      registered, heard, ran, sentWith := [], [], [], [];
      new;
      ws.session := this;
    }

    method Init()
      modifies ws
      ensures ws.View() == T.ConnectCall(old(ws.View())) && ws.session == old(ws.session)
    {
      ws.Connect();
    }

    /** Registers the callback first, then sends the request: when it is sent, the map already holds its id. */
    method OnConnect(txn: string)
      modifies this, ws
      ensures View() == S.OnConnect(old(View()), txn)
      ensures ws.View() == T.SendMsg(old(ws.View()), S.Create(txn)) && ws.session == old(ws.session)
      ensures |sentWith| == |old(sentWith)| + 1 && sentWith[..|old(sentWith)|] == old(sentWith)
      ensures txn in sentWith[|old(sentWith)|]
    {
      responseCallbackMap := responseCallbackMap[txn := OnCreated];
      registered := registered + [S.Registration(txn, |heard|)];
      SendCreate(txn);
    }

    /** Sends a create request, and records the ids whose callbacks are registered at that moment. */
    method SendCreate(txn: string)
      modifies this`sentWith, ws
      ensures ws.View() == T.SendMsg(old(ws.View()), S.Create(txn)) && ws.session == old(ws.session)
      ensures sentWith == old(sentWith) + [responseCallbackMap.Keys]
    {
      ws.SendMsg(S.Create(txn));
      sentWith := sentWith + [responseCallbackMap.Keys];
    }

    method OnMsg(msg: string)
      modifies this
      ensures View() == S.OnMsg(old(View()), parse(msg))
    {
      var message := parse(msg);
      heard := heard + [message];
      if message.txn == "" { return; }
      if message.txn !in responseCallbackMap { return; }
      var callback := responseCallbackMap[message.txn];
      responseCallbackMap := responseCallbackMap - {message.txn};
      ran := ran + [message];
      match callback
      case OnCreated => OnResponse(message.body);
    }

    method OnResponse(body: S.Body)
      modifies this
      ensures View() == S.OnResponse(old(View()), body)
    {
      match body
      case Success(id) =>
        sessionId := id;
        KeepAlive();
      case Error =>
      case Other =>
    }

    /** Re-arms the timer. */
    method KeepAlive()
      modifies this
      ensures View() == old(View()).(armed := true)
    {
      timerArmed := true;
    }

    /** Completion of the timer's wait; `txn` is the random id of the keepalive. */
    method OnTimer(ok: bool, txn: string)
      requires timerArmed
      modifies this, ws
      ensures S.System(ws.View(), View()) == S.Apply(parse, old(S.System(ws.View(), View())), S.Tick(ok, txn))
      ensures ws.session == old(ws.session)
    {
      timerArmed := false;
      if !ok { return; }
      S.SendOne(ws.View(), S.KeepAlive(sessionId, txn));
      DoKeepAlive(txn);
      KeepAlive();
    }

    method DoKeepAlive(txn: string)
      modifies ws
      ensures ws.View() == T.SendAll(old(ws.View()), S.DoKeepAlive(View(), txn)) && ws.session == old(ws.session)
    {
      if sessionId == S.NO_SESSION { return; }
      S.SendOne(ws.View(), S.KeepAlive(sessionId, txn));
      ws.SendMsg(S.KeepAlive(sessionId, txn));
    }
  }
}
