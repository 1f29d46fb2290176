/** The session server's shared state and its handlers: the map of active
    sessions, the per-address connection counter, the clients whose handlers
    are registered, and the ordered trace of everything the server does to the
    outside world (channel and client messages, timers, protocol sends). */
module SessionServer {
  import opened Protocol
  import opened ServerLogic

  /** What `activeSessions` holds for an id: the protocol client's handle. */
  datatype SessionEntry = SessionEntry(sock: nat)

  /** A connected real-time client and the address it connected from. */
  datatype ClientSocket = ClientSocket(id: nat, address: string)

  /** What starting a connection gives: a new protocol client handle, or a
      failure (the session directory or the auth store could not be set up). */
  datatype StartOutcome = Started(sock: nat) | StartFailed

  class SessionManager {
    const maxConnections: int
    var activeSessions: map<string, SessionEntry>
    var connectionCount: map<string, int>
    // Clients admitted past the capacity check, whose `generate` and
    // `disconnect` handlers are therefore registered.
    var listening: set<ClientSocket>
    var trace: seq<Effect>

    ghost predicate Valid()
      reads this
    {
      NonNegative(connectionCount)
    }

    constructor (maxConnections: int)
      ensures Valid()
      ensures this.maxConnections == maxConnections
      ensures activeSessions == map[] && connectionCount == map[] && listening == {} && trace == []
    {
      this.maxConnections := maxConnections;
      activeSessions := map[];
      connectionCount := map[];
      listening := {};
      trace := [];
    }

    /** A client connects: it is admitted while its address is below the cap,
        otherwise told so and dropped before any handler is registered. */
    method Connect(socket: ClientSocket) returns (admitted: bool)
      requires Valid()
      modifies this
      ensures Valid()
      ensures admitted <==> CountOf(old(connectionCount), socket.address) < maxConnections
      ensures connectionCount == Attempt(old(connectionCount), socket.address, maxConnections)
      ensures listening == if admitted then old(listening) + {socket} else old(listening)
      ensures trace == old(trace) +
        (if admitted then [] else [ToClient(socket.id, Error(CAPACITY_MESSAGE)), DropClient(socket.id)])
      ensures activeSessions == old(activeSessions)
    {
      if !Admits(connectionCount, socket.address, maxConnections) {
        trace := trace + [ToClient(socket.id, Error(CAPACITY_MESSAGE)), DropClient(socket.id)];
        admitted := false;
        return;
      }
      connectionCount := AfterAdmit(connectionCount, socket.address);
      listening := listening + {socket};
      admitted := true;
    }

    /** A client goes away. Only an admitted client has a handler to run; a
        rejected one leaves the counter untouched. */
    method Disconnect(socket: ClientSocket)
      requires Valid()
      modifies this
      ensures Valid()
      ensures socket in old(listening) ==> connectionCount == AfterRelease(old(connectionCount), socket.address)
      ensures socket !in old(listening) ==> connectionCount == old(connectionCount)
      ensures listening == old(listening) - {socket}
      ensures activeSessions == old(activeSessions) && trace == old(trace)
    {
      if socket in listening {
        connectionCount := AfterRelease(connectionCount, socket.address);
        listening := listening - {socket};
      }
    }

    /** Starting a connection for `sessionId`: on success the new handle is
        registered under the id, replacing any previous one. */
    method StartConnection(sessionId: string, outcome: StartOutcome) returns (ok: bool)
      requires Valid()
      modifies this
      ensures Valid()
      ensures ok == outcome.Started?
      ensures ok ==> activeSessions == old(activeSessions)[sessionId := SessionEntry(outcome.sock)]
      ensures !ok ==> activeSessions == old(activeSessions)
      ensures connectionCount == old(connectionCount) && listening == old(listening) && trace == old(trace)
    {
      match outcome
      case StartFailed =>
        ok := false;
      case Started(sock) =>
        activeSessions := activeSessions[sessionId := SessionEntry(sock)];
        ok := true;
    }

    /** A `generate` request from a client: choose the id, join the client to
        its channel and start the connection; a failed start is reported to
        that client alone. */
    method Generate(socket: ClientSocket, requested: Option<string>, now: nat, outcome: StartOutcome)
      returns (sessionId: Option<string>)
      requires Valid()
      modifies this
      ensures Valid()
      ensures socket !in old(listening) ==> sessionId == None && activeSessions == old(activeSessions) && trace == old(trace)
      ensures socket in old(listening) ==>
        && sessionId == Some(ChooseSessionId(requested, now))
        && trace == old(trace) + [JoinRoom(socket.id, sessionId.value)] +
             (if outcome.Started? then [] else [ToClient(socket.id, Error(START_FAILED_MESSAGE))])
        && activeSessions == (if outcome.Started? then old(activeSessions)[sessionId.value := SessionEntry(outcome.sock)]
                              else old(activeSessions))
      ensures connectionCount == old(connectionCount) && listening == old(listening)
    {
      if socket !in listening {
        return None;
      }
      var id := ChooseSessionId(requested, now);
      trace := trace + [JoinRoom(socket.id, id)];
      var ok := StartConnection(id, outcome);
      if !ok {
        trace := trace + [ToClient(socket.id, Error(START_FAILED_MESSAGE))];
      }
      sessionId := Some(id);
    }

    /** The `connection.update` handler of session `sessionId`. A logged-out
        close removes the id from `activeSessions` and, as the handler is
        written, from the per-address counter map as well. */
    method ConnectionUpdate(sessionId: string, u: ConnectionUpdate)
      requires Valid()
      modifies this
      ensures Valid()
      ensures trace == old(trace) + UpdateEffects(sessionId, u)
      ensures activeSessions == if TearsDown(u) then old(activeSessions) - {sessionId} else old(activeSessions)
      ensures connectionCount == if TearsDown(u) then old(connectionCount) - {sessionId} else old(connectionCount)
      ensures listening == old(listening)
    {
      if u.qr.QrRendered? {
        trace := trace + [ToRoom(sessionId, QrImage(u.qr.dataUrl))];
      }
      match u.connection {
        case Close(e) =>
          if ShouldReconnect(e) {
            trace := trace + [Schedule(Timer(RESTART_DELAY_MS, RestartConnection(sessionId)))];
          } else {
            trace := trace + [ToRoom(sessionId, Error(LOGGED_OUT_MESSAGE))];
            activeSessions := activeSessions - {sessionId};
            connectionCount := connectionCount - {sessionId};
          }
        case Open =>
          trace := trace + [ToRoom(sessionId, Connected(true))];
          trace := trace + [Schedule(Timer(DELIVERY_DELAY_MS, DeliverSession(sessionId)))];
        case _ =>
      }
    }

    /** The delayed delivery of a session's credential bundle, with the early
        returns of the source: bundle not there yet, session gone. */
    method SendSessionData(sessionId: string, creds: CredsFile, textSent: bool, documentSent: bool)
      requires Valid()
      modifies this
      ensures Valid()
      ensures trace == old(trace) + DeliverySteps(sessionId, creds,
        if sessionId in old(activeSessions) then Some(old(activeSessions)[sessionId].sock) else None,
        textSent, documentSent)
      ensures activeSessions == old(activeSessions) && connectionCount == old(connectionCount)
      ensures listening == old(listening)
    {
      if creds.CredsMissing? {
        return;
      }
      if creds.CredsUnreadable? {
        trace := trace + [ToRoom(sessionId, Error(DELIVERY_FAILED_MESSAGE))];
        return;
      }
      var botNumber := AccountId(creds.meId);
      if sessionId !in activeSessions {
        return;
      }
      var sock := activeSessions[sessionId].sock;
      var jid := botNumber + JID_SUFFIX;
      trace := trace + [SendText(sock, jid, sessionId)];
      if !textSent {
        trace := trace + [ToRoom(sessionId, Error(DELIVERY_FAILED_MESSAGE))];
        return;
      }
      trace := trace + [SendDocument(sock, jid, creds.raw, CREDS_FILE_NAME, CREDS_MIME_TYPE)];
      if !documentSent {
        trace := trace + [ToRoom(sessionId, Error(DELIVERY_FAILED_MESSAGE))];
        return;
      }
      trace := trace + [ToRoom(sessionId, Success(sessionId, botNumber, SUCCESS_MESSAGE))];
    }
  }

  /** One client asks for a fresh session, scans the QR challenge and the
      account opens: the channel sees the QR image, `connected`, and one
      success naming the generated id and the account of the bundle. */
  method GenerateScanDeliver(address: string, now: nat, sock: nat, qrUrl: string,
                             raw: string, user: string, device: string)
    returns (sessionId: string, notes: seq<Notification>)
    requires user != "" && ':' !in user
    ensures sessionId == ChooseSessionId(None, now)
    ensures notes == [QrImage(qrUrl), Connected(true), Success(sessionId, user, SUCCESS_MESSAGE)]
  {
    var server := new SessionManager(DEFAULT_MAX_CONNECTIONS);
    var client := ClientSocket(0, address);
    var admitted := server.Connect(client);
    assert admitted && server.trace == [];
    var id := server.Generate(client, None, now, Started(sock));
    sessionId := id.value;
    assert server.trace == [JoinRoom(0, sessionId)];
    var creds := CredsRead(raw, Some(user + ":" + device));
    server.ConnectionUpdate(sessionId, ConnectionUpdate(QrRendered(qrUrl), Connecting));
    server.ConnectionUpdate(sessionId, ConnectionUpdate(NoQr, Open));
    server.SendSessionData(sessionId, creds, true, true);
    ScenarioNotes(sessionId, qrUrl, sock, raw, user, device);
    notes := Notes(server.trace);
  }

  /** Under the intended reconnect test, which `ConnectionUpdate` uses, the
      logout branch deletes the counter entry keyed by the session id. A
      client that asks for a session named after its own address therefore
      loses its address's count when that session is logged out: with a cap
      of one, a second client from the same address is rejected before the
      logout and admitted after it, although the first is still connected. */
  method LogoutFreesSlotOfAddressNamedSession(address: string, sock: nat)
    returns (admittedBefore: bool, admittedAfter: bool)
    requires address != ""
    ensures !admittedBefore && admittedAfter
  {
    var server := new SessionManager(1);
    var first := ClientSocket(0, address);
    var ok := server.Connect(first);
    var id := server.Generate(first, Some(address), 0, Started(sock));
    admittedBefore := server.Connect(ClientSocket(1, address));
    server.ConnectionUpdate(address, ConnectionUpdate(NoQr, Close(BoomError(LOGGED_OUT))));
    admittedAfter := server.Connect(ClientSocket(2, address));
  }

  lemma ScenarioNotes(sessionId: string, qrUrl: string, sock: nat, raw: string, user: string, device: string)
    requires user != "" && ':' !in user
    ensures Notes([JoinRoom(0, sessionId)]
                  + UpdateEffects(sessionId, ConnectionUpdate(QrRendered(qrUrl), Connecting))
                  + UpdateEffects(sessionId, ConnectionUpdate(NoQr, Open))
                  + DeliverySteps(sessionId, CredsRead(raw, Some(user + ":" + device)), Some(sock), true, true))
            == [QrImage(qrUrl), Connected(true), Success(sessionId, user, SUCCESS_MESSAGE)]
  {
    var t0: seq<Effect> := [JoinRoom(0, sessionId)];
    var u1 := ConnectionUpdate(QrRendered(qrUrl), Connecting);
    var u2 := ConnectionUpdate(NoQr, Open);
    var e1 := UpdateEffects(sessionId, u1);
    var e2 := UpdateEffects(sessionId, u2);
    var e3 := DeliverySteps(sessionId, CredsRead(raw, Some(user + ":" + device)), Some(sock), true, true);
    assert Notes(e1) == [QrImage(qrUrl)] by { QuietUpdateSchedulesNothing(sessionId, u1); }
    assert Notes(e2) == [Connected(true)] by { OpenSchedulesOneDelivery(sessionId, u2); }
    assert Notes(e3) == [Success(sessionId, user, SUCCESS_MESSAGE)] by {
      AccountIdOfDeviceId(user, device);
      DeliverySucceeds(sessionId, raw, Some(user + ":" + device), sock);
    }
    assert Notes(t0) == [];
    NotesOfFour(t0, e1, e2, e3);
  }

  lemma NotesOfFour(a: seq<Effect>, b: seq<Effect>, c: seq<Effect>, d: seq<Effect>)
    ensures Notes(a + b + c + d) == Notes(a) + Notes(b) + Notes(c) + Notes(d)
  {
    ProjectionsAppend(a, b);
    ProjectionsAppend(a + b, c);
    ProjectionsAppend(a + b + c, d);
  }
}
