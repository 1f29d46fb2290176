/** The decision logic of the session server, lifted out of its I/O: the
    per-address connection counter, the choice of a session id, the account id
    taken from a credential bundle, the reaction to a connection-lifecycle
    update and the outcome of a credential delivery. The stateful server in
    module SessionServer applies these functions to its maps and its trace. */
module ServerLogic {
  import opened Protocol

  const DEFAULT_MAX_CONNECTIONS: int := 5
  const RESTART_DELAY_MS: nat := 3000
  const DELIVERY_DELAY_MS: nat := 2000

  const SESSION_ID_PREFIX: string := "session_"
  const JID_SUFFIX: string := "@s.whatsapp.net"
  const UNKNOWN_ACCOUNT: string := "Unknown"
  const CREDS_FILE_NAME: string := "creds.json"
  const CREDS_MIME_TYPE: string := "application/json"

  const CAPACITY_MESSAGE: string := "Maximum connections reached for this IP. Please try again later."
  const START_FAILED_MESSAGE: string := "Failed to start WhatsApp connection"
  const LOGGED_OUT_MESSAGE: string := "WhatsApp disconnected. Please refresh and try again."
  const DELIVERY_FAILED_MESSAGE: string := "Failed to send session data"
  const SUCCESS_MESSAGE: string := "Session generated! Check your WhatsApp!"

  // ---------------------------------------------------------------------
  // Per-address connection counter
  // ---------------------------------------------------------------------

  /** `sessionConnectionCount.get(ip) || 0` */
  function CountOf(counts: map<string, int>, ip: string): (c: int)
    ensures ip in counts ==> c == counts[ip]
    ensures ip !in counts ==> c == 0
    ensures NonNegative(counts) ==> c >= 0
  {
    if ip in counts then counts[ip] else 0
  }

  predicate NonNegative(counts: map<string, int>)
  {
    forall ip :: ip in counts ==> counts[ip] >= 0
  }

  /** The admission test: a client is let in while its address is below the cap. */
  predicate Admits(counts: map<string, int>, ip: string, maxConnections: int)
  {
    CountOf(counts, ip) < maxConnections
  }

  /** The counter after an admitted client. */
  function AfterAdmit(counts: map<string, int>, ip: string): (r: map<string, int>)
    ensures CountOf(r, ip) == CountOf(counts, ip) + 1
    ensures forall other :: other != ip ==> CountOf(r, other) == CountOf(counts, other)
    ensures r.Keys == counts.Keys + {ip}
    ensures NonNegative(counts) ==> NonNegative(r)
  {
    counts[ip := CountOf(counts, ip) + 1]
  }

  /** One connection attempt: admitted clients are counted, a rejected one
      leaves the counter exactly as it was. */
  function Attempt(counts: map<string, int>, ip: string, maxConnections: int): (r: map<string, int>)
    ensures !Admits(counts, ip, maxConnections) ==> r == counts
    ensures Admits(counts, ip, maxConnections) ==> CountOf(r, ip) == CountOf(counts, ip) + 1
    ensures forall other :: other != ip ==> CountOf(r, other) == CountOf(counts, other)
    ensures NonNegative(counts) ==> NonNegative(r)
  {
    if Admits(counts, ip, maxConnections) then AfterAdmit(counts, ip) else counts
  }

  /** The disconnect handler's update: `max(0, (get(ip) || 1) - 1)`. */
  function AfterRelease(counts: map<string, int>, ip: string): (r: map<string, int>)
    ensures ip in r && r[ip] >= 0
    ensures CountOf(counts, ip) > 0 ==> r[ip] == CountOf(counts, ip) - 1
    ensures CountOf(counts, ip) <= 0 ==> r[ip] == 0
    ensures forall other :: other != ip ==> CountOf(r, other) == CountOf(counts, other)
    ensures r.Keys == counts.Keys + {ip}
    ensures NonNegative(counts) ==> NonNegative(r)
  {
    var current := if ip in counts && counts[ip] != 0 then counts[ip] else 1;
    counts[ip := if current - 1 < 0 then 0 else current - 1]
  }

  /** A release undoes an admission: every address reads back its old count. */
  lemma ReleaseUndoesAdmit(counts: map<string, int>, ip: string, x: string)
    requires NonNegative(counts)
    ensures CountOf(AfterRelease(AfterAdmit(counts, ip), ip), x) == CountOf(counts, x)
  {
  }

  /** `n` connection attempts from one address with no disconnect between them. */
  function Attempts(counts: map<string, int>, ip: string, maxConnections: int, n: nat): map<string, int>
  {
    if n == 0 then counts else Attempt(Attempts(counts, ip, maxConnections, n - 1), ip, maxConnections)
  }

  /** Concurrent attempts from one address fill the cap and stop there: from a
      count `c` below the cap, `n` attempts end at `min(cap, c + n)`; at or
      above the cap nothing changes. */
  lemma {:induction false} AttemptsFillCap(counts: map<string, int>, ip: string, maxConnections: int, n: nat)
    ensures CountOf(Attempts(counts, ip, maxConnections, n), ip) ==
      if CountOf(counts, ip) >= maxConnections then CountOf(counts, ip)
      else if CountOf(counts, ip) + n <= maxConnections then CountOf(counts, ip) + n
      else maxConnections
  {
    if n > 0 {
      AttemptsFillCap(counts, ip, maxConnections, n - 1);
    }
  }

  /** The attempt after `maxConnections` admitted ones from a fresh address is
      rejected and does not change the counter. */
  lemma CapPlusOneRejected(counts: map<string, int>, ip: string, maxConnections: nat)
    requires CountOf(counts, ip) == 0
    ensures var full := Attempts(counts, ip, maxConnections, maxConnections);
      !Admits(full, ip, maxConnections) && Attempt(full, ip, maxConnections) == full
  {
    AttemptsFillCap(counts, ip, maxConnections, maxConnections);
  }

  // ---------------------------------------------------------------------
  // Session id choice
  // ---------------------------------------------------------------------

  function DigitChar(d: nat): (c: char)
    requires d < 10
    ensures '0' <= c <= '9'
  {
    (48 + d) as char
  }

  /** The number a string of decimal digits denotes, read most significant
      digit first. */
  function DecimalValue(s: string): nat
    requires forall i :: 0 <= i < |s| ==> '0' <= s[i] <= '9'
  {
    if s == [] then 0 else 10 * DecimalValue(s[..|s| - 1]) + (s[|s| - 1] as int - 48)
  }

  /** The decimal text of a millisecond timestamp, as a template string prints
      it: digits without a leading zero that read back as the timestamp. */
  function Decimal(n: nat): (r: string)
    ensures |r| >= 1
    ensures forall i :: 0 <= i < |r| ==> '0' <= r[i] <= '9'
    ensures DecimalValue(r) == n
    ensures |r| == 1 <==> n < 10
    ensures n >= 10 ==> r[0] != '0'
  {
    if n < 10 then [DigitChar(n)]
    else
      var r := Decimal(n / 10) + [DigitChar(n % 10)];
      assert r[..|r| - 1] == Decimal(n / 10);
      r
  }

  /** Distinct timestamps print differently. */
  lemma DecimalInjective(a: nat, b: nat)
    requires Decimal(a) == Decimal(b)
    ensures a == b
  {
    calc {
      a;
      DecimalValue(Decimal(a));
      DecimalValue(Decimal(b));
      b;
    }
  }

  /** `data.sessionId || \`session_${Date.now()}\``: the caller's id when it is a
      non-empty string, otherwise one generated from the clock. */
  function ChooseSessionId(requested: Option<string>, now: nat): (id: string)
    ensures id != ""
    ensures requested.Some? && requested.value != "" ==> id == requested.value
    ensures requested.None? || requested.value == "" ==>
      && id == SESSION_ID_PREFIX + Decimal(now)
      && |id| > |SESSION_ID_PREFIX| && id[..|SESSION_ID_PREFIX|] == SESSION_ID_PREFIX
      && DecimalValue(id[|SESSION_ID_PREFIX|..]) == now
  {
    if requested.Some? && requested.value != "" then requested.value
    else SESSION_ID_PREFIX + Decimal(now)
  }

  /** Two generated ids coincide only when they were generated in the same millisecond. */
  lemma GeneratedIdsDistinct(t1: nat, t2: nat)
    requires t1 != t2
    ensures ChooseSessionId(None, t1) != ChooseSessionId(None, t2)
  {
  }

  /** A chosen id is always truthy, so sending it back in a later `generate`
      resumes the same session whatever the clock says. */
  lemma ChosenIdIsStable(requested: Option<string>, t1: nat, t2: nat)
    ensures ChooseSessionId(Some(ChooseSessionId(requested, t1)), t2) == ChooseSessionId(requested, t1)
  {
  }

  // ---------------------------------------------------------------------
  // Account id of a credential bundle
  // ---------------------------------------------------------------------

  /** `s.split(':')[0]`: the longest prefix of `s` without a colon. */
  function BeforeColon(s: string): (p: string)
    ensures |p| <= |s| && p == s[..|p|]
    ensures ':' !in p
    ensures |p| < |s| ==> s[|p|] == ':'
  {
    if s == [] || s[0] == ':' then [] else [s[0]] + BeforeColon(s[1..])
  }

  /** `creds.me?.id?.split(':')[0] || 'Unknown'`. */
  function AccountId(meId: Option<string>): (r: string)
    ensures r != "" && ':' !in r
    ensures meId.None? ==> r == UNKNOWN_ACCOUNT
    ensures meId.Some? ==> r == (if BeforeColon(meId.value) == "" then UNKNOWN_ACCOUNT else BeforeColon(meId.value))
  {
    match meId
    case None => UNKNOWN_ACCOUNT
    case Some(s) => var p := BeforeColon(s); if p == "" then UNKNOWN_ACCOUNT else p
  }

  /** A device-qualified id `user:device` yields the user part. */
  lemma AccountIdOfDeviceId(user: string, device: string)
    requires user != "" && ':' !in user
    ensures AccountId(Some(user + ":" + device)) == user
  {
    var s := user + ":" + device;
    var p := BeforeColon(s);
    assert s[..|user|] == user && s[|user|] == ':';
    assert p == s[..|user|];
  }

  /** The address the bundle is sent to: the account id, which has no colon,
      followed by the user-address suffix. */
  function Recipient(meId: Option<string>): (jid: string)
    ensures |jid| > |JID_SUFFIX| && jid[|jid| - |JID_SUFFIX|..] == JID_SUFFIX
    ensures ':' !in jid[..|jid| - |JID_SUFFIX|]
    ensures jid[..|jid| - |JID_SUFFIX|] == AccountId(meId)
    ensures meId.None? ==> jid == UNKNOWN_ACCOUNT + JID_SUFFIX
  {
    AccountId(meId) + JID_SUFFIX
  }

  // ---------------------------------------------------------------------
  // Outbound effects
  // ---------------------------------------------------------------------

  /** What the server publishes to a session's channel or to one client. */
  datatype Notification =
    | QrImage(dataUrl: string)
    | Connected(open: bool)
    | Success(sessionId: string, botNumber: string, message: string)
    | Error(message: string)

  /** Work a timer runs later. */
  datatype Deferred = RestartConnection(sessionId: string) | DeliverSession(sessionId: string)

  datatype Timer = Timer(delayMs: nat, job: Deferred)

  /** Everything the server does to the outside world, in order. */
  datatype Effect =
    | ToRoom(room: string, note: Notification)
    | ToClient(socket: nat, note: Notification)
    | JoinRoom(socket: nat, room: string)
    | DropClient(socket: nat)
    | Schedule(timer: Timer)
    | SendText(sock: nat, jid: string, sessionId: string)
    | SendDocument(sock: nat, jid: string, content: string, fileName: string, mimeType: string)

  /** The notifications published to session channels, in order. */
  function Notes(effs: seq<Effect>): (ns: seq<Notification>)
    ensures |ns| <= |effs|
  {
    if effs == [] then []
    else (if effs[0].ToRoom? then [effs[0].note] else []) + Notes(effs[1..])
  }

  /** The timers scheduled, in order. */
  function Timers(effs: seq<Effect>): (ts: seq<Timer>)
    ensures |ts| <= |effs|
  {
    if effs == [] then []
    else (if effs[0].Schedule? then [effs[0].timer] else []) + Timers(effs[1..])
  }

  /** The messages sent through the protocol client, in order. */
  function Sends(effs: seq<Effect>): (ss: seq<Effect>)
    ensures |ss| <= |effs|
    ensures forall i :: 0 <= i < |ss| ==> ss[i].SendText? || ss[i].SendDocument?
  {
    if effs == [] then []
    else (if effs[0].SendText? || effs[0].SendDocument? then [effs[0]] else []) + Sends(effs[1..])
  }

  lemma ProjectionsAppend(a: seq<Effect>, b: seq<Effect>)
    ensures Notes(a + b) == Notes(a) + Notes(b)
    ensures Timers(a + b) == Timers(a) + Timers(b)
    ensures Sends(a + b) == Sends(a) + Sends(b)
  {
    NotesAppend(a, b);
    TimersAppend(a, b);
    SendsAppend(a, b);
  }

  lemma {:induction false} NotesAppend(a: seq<Effect>, b: seq<Effect>)
    ensures Notes(a + b) == Notes(a) + Notes(b)
  {
    if a == [] {
      assert a + b == b;
    } else {
      assert (a + b)[0] == a[0] && (a + b)[1..] == a[1..] + b;
      NotesAppend(a[1..], b);
    }
  }

  lemma {:induction false} TimersAppend(a: seq<Effect>, b: seq<Effect>)
    ensures Timers(a + b) == Timers(a) + Timers(b)
  {
    if a == [] {
      assert a + b == b;
    } else {
      assert (a + b)[0] == a[0] && (a + b)[1..] == a[1..] + b;
      TimersAppend(a[1..], b);
    }
  }

  lemma {:induction false} SendsAppend(a: seq<Effect>, b: seq<Effect>)
    ensures Sends(a + b) == Sends(a) + Sends(b)
  {
    if a == [] {
      assert a + b == b;
    } else {
      assert (a + b)[0] == a[0] && (a + b)[1..] == a[1..] + b;
      SendsAppend(a[1..], b);
    }
  }

  // ---------------------------------------------------------------------
  // Connection lifecycle
  // ---------------------------------------------------------------------

  /** The QR part of an update, after the external renderer has run on it. */
  datatype QrChallenge = NoQr | QrRendered(dataUrl: string) | QrRenderFailed

  datatype Connection = Unchanged | Connecting | Open | Close(error: DisconnectError)

  /** One `connection.update` event: it may carry a QR challenge and a
      connection state change at once. */
  datatype ConnectionUpdate = ConnectionUpdate(qr: QrChallenge, connection: Connection)

  /** The reconnect test as Server.js:169 writes it: optional chaining is applied
      to the boolean result of `instanceof`, which has no `output` property, so
      the status compared with loggedOut is always undefined. */
  function ShouldReconnectAsWritten(e: DisconnectError): (r: bool)
    ensures r
  {
    StatusThrough(BooleanValue(e.BoomError?)) != Some(LOGGED_OUT)
  }

  /** The intended reconnect test: the chain is applied to the error itself,
      so the session reconnects unless the close reports a logout. */
  function ShouldReconnect(e: DisconnectError): (r: bool)
    ensures r <==> !(e.BoomError? && e.statusCode == LOGGED_OUT)
  {
    StatusThrough(ErrorValue(e)) != Some(LOGGED_OUT)
  }

  /** As written, a logout is never recognised: the session is retried instead
      of being torn down. */
  lemma LogoutMissedAsWritten()
    ensures ShouldReconnectAsWritten(BoomError(LOGGED_OUT))
    ensures !ShouldReconnect(BoomError(LOGGED_OUT))
  {
  }

  /** Whether an update ends the session (logged-out close). */
  predicate TearsDown(u: ConnectionUpdate)
  {
    u.connection.Close? && !ShouldReconnect(u.connection.error)
  }

  function QrEffects(sessionId: string, qr: QrChallenge): seq<Effect>
  {
    if qr.QrRendered? then [ToRoom(sessionId, QrImage(qr.dataUrl))] else []
  }

  /** The effects of one lifecycle update of session `sessionId`, in order.
      The handler publishes only to its own session's channel, schedules at
      most one job and only for its own session, and publishes the logout
      error exactly when the update tears the session down. */
  function UpdateEffects(sessionId: string, u: ConnectionUpdate): (r: seq<Effect>)
    ensures forall i :: 0 <= i < |r| ==>
      || (r[i].ToRoom? && r[i].room == sessionId)
      || (r[i].Schedule? && r[i].timer.job.sessionId == sessionId)
    ensures |Timers(r)| <= 1
    ensures ToRoom(sessionId, Error(LOGGED_OUT_MESSAGE)) in r <==> TearsDown(u)
  {
    var qr := QrEffects(sessionId, u.qr);
    var tail := StateEffects(sessionId, u.connection);
    assert Timers(qr) == [] && ToRoom(sessionId, Error(LOGGED_OUT_MESSAGE)) !in qr;
    ProjectionsAppend(qr, tail);
    qr + tail
  }

  /** The close or open branch of the handler. */
  function StateEffects(sessionId: string, c: Connection): (r: seq<Effect>)
    ensures forall i :: 0 <= i < |r| ==>
      || (r[i].ToRoom? && r[i].room == sessionId)
      || (r[i].Schedule? && r[i].timer.job.sessionId == sessionId)
    ensures |Timers(r)| <= 1
    ensures ToRoom(sessionId, Error(LOGGED_OUT_MESSAGE)) in r <==> c.Close? && !ShouldReconnect(c.error)
  {
    match c
    case Close(e) =>
      if ShouldReconnect(e) then [Schedule(Timer(RESTART_DELAY_MS, RestartConnection(sessionId)))]
      else [ToRoom(sessionId, Error(LOGGED_OUT_MESSAGE))]
    case Open => [ToRoom(sessionId, Connected(true)), Schedule(Timer(DELIVERY_DELAY_MS, DeliverSession(sessionId)))]
    case _ => []
  }

  /** A rendered QR challenge is published, first; a failed rendering publishes nothing. */
  lemma QrRelayed(sessionId: string, u: ConnectionUpdate)
    ensures u.qr.QrRendered? ==> Notes(UpdateEffects(sessionId, u))[0] == QrImage(u.qr.dataUrl)
    ensures !u.qr.QrRendered? ==> forall n :: n in Notes(UpdateEffects(sessionId, u)) ==> !n.QrImage?
  {
    var rest := UpdateEffects(sessionId, u)[|QrEffects(sessionId, u.qr)|..];
    assert UpdateEffects(sessionId, u) == QrEffects(sessionId, u.qr) + rest;
    ProjectionsAppend(QrEffects(sessionId, u.qr), rest);
  }

  /** A close that is not a logout schedules exactly one restart of the same
      session, publishes no error and removes nothing. */
  lemma CloseSchedulesOneRestart(sessionId: string, u: ConnectionUpdate)
    requires u.connection.Close? && ShouldReconnect(u.connection.error)
    ensures Timers(UpdateEffects(sessionId, u)) == [Timer(RESTART_DELAY_MS, RestartConnection(sessionId))]
    ensures Notes(UpdateEffects(sessionId, u)) == Notes(QrEffects(sessionId, u.qr))
    ensures forall n :: n in Notes(UpdateEffects(sessionId, u)) ==> n.QrImage?
    ensures !TearsDown(u)
  {
    var tail := [Schedule(Timer(RESTART_DELAY_MS, RestartConnection(sessionId)))];
    assert UpdateEffects(sessionId, u) == QrEffects(sessionId, u.qr) + tail;
    ProjectionsAppend(QrEffects(sessionId, u.qr), tail);
  }

  /** A logged-out close publishes exactly one error, schedules nothing and
      tears the session down. */
  lemma LoggedOutCloseTearsDown(sessionId: string, u: ConnectionUpdate)
    requires u.connection.Close? && !ShouldReconnect(u.connection.error)
    ensures Timers(UpdateEffects(sessionId, u)) == []
    ensures Notes(UpdateEffects(sessionId, u)) == Notes(QrEffects(sessionId, u.qr)) + [Error(LOGGED_OUT_MESSAGE)]
    ensures TearsDown(u)
  {
    var tail := [ToRoom(sessionId, Error(LOGGED_OUT_MESSAGE))];
    assert UpdateEffects(sessionId, u) == QrEffects(sessionId, u.qr) + tail;
    ProjectionsAppend(QrEffects(sessionId, u.qr), tail);
  }

  /** An open event publishes `connected` and then schedules exactly one delivery. */
  lemma OpenSchedulesOneDelivery(sessionId: string, u: ConnectionUpdate)
    requires u.connection.Open?
    ensures Timers(UpdateEffects(sessionId, u)) == [Timer(DELIVERY_DELAY_MS, DeliverSession(sessionId))]
    ensures Notes(UpdateEffects(sessionId, u)) == Notes(QrEffects(sessionId, u.qr)) + [Connected(true)]
    ensures var effs := UpdateEffects(sessionId, u);
      |effs| >= 2 && effs[|effs| - 2] == ToRoom(sessionId, Connected(true)) && effs[|effs| - 1].Schedule?
    ensures !TearsDown(u)
  {
    var tail := [ToRoom(sessionId, Connected(true)), Schedule(Timer(DELIVERY_DELAY_MS, DeliverSession(sessionId)))];
    assert UpdateEffects(sessionId, u) == QrEffects(sessionId, u.qr) + tail;
    ProjectionsAppend(QrEffects(sessionId, u.qr), tail);
  }

  /** An update without a close or open schedules nothing and only relays the QR. */
  lemma QuietUpdateSchedulesNothing(sessionId: string, u: ConnectionUpdate)
    requires !u.connection.Close? && !u.connection.Open?
    ensures Timers(UpdateEffects(sessionId, u)) == []
    ensures Notes(UpdateEffects(sessionId, u)) == if u.qr.QrRendered? then [QrImage(u.qr.dataUrl)] else []
    ensures !TearsDown(u)
  {
    assert UpdateEffects(sessionId, u) == QrEffects(sessionId, u.qr) + [];
  }

  // ---------------------------------------------------------------------
  // Credential delivery
  // ---------------------------------------------------------------------

  /** What reading `creds.json` gives: the file is missing; it cannot be read,
      parsed or split; or its raw text and the optional `me.id` inside it. */
  datatype CredsFile = CredsMissing | CredsUnreadable | CredsRead(raw: string, meId: Option<string>)

  /** The effects of one delivery attempt for `sessionId`, in order. `session`
      is the handle registered for the id, if any; `textSent` and
      `documentSent` say whether the two sends succeed. Notes go only to the
      session's channel, sends only through the handle registered for it and
      only to the bundle's account; nothing else happens, and at most three
      steps are taken. */
  function DeliverySteps(sessionId: string, creds: CredsFile, session: Option<nat>,
                         textSent: bool, documentSent: bool): (r: seq<Effect>)
    ensures |r| <= 3
    ensures forall i :: 0 <= i < |r| ==>
      || (r[i].ToRoom? && r[i].room == sessionId)
      || (r[i].SendText? && creds.CredsRead? && session == Some(r[i].sock) && r[i].jid == Recipient(creds.meId))
      || (r[i].SendDocument? && creds.CredsRead? && session == Some(r[i].sock) && r[i].jid == Recipient(creds.meId)
          && r[i].content == creds.raw)
  {
    match creds
    case CredsMissing => []
    case CredsUnreadable => [ToRoom(sessionId, Error(DELIVERY_FAILED_MESSAGE))]
    case CredsRead(raw, meId) =>
      match session
      case None => []
      case Some(sock) =>
        var text := [SendText(sock, Recipient(meId), sessionId)];
        if !textSent then text + [ToRoom(sessionId, Error(DELIVERY_FAILED_MESSAGE))]
        else
          var both := text + [SendDocument(sock, Recipient(meId), raw, CREDS_FILE_NAME, CREDS_MIME_TYPE)];
          if !documentSent then both + [ToRoom(sessionId, Error(DELIVERY_FAILED_MESSAGE))]
          else both + [ToRoom(sessionId, Success(sessionId, AccountId(meId), SUCCESS_MESSAGE))]
  }

  /** A bundle that is not there yet, or a session that is gone, ends the
      attempt silently: nothing is sent and nothing is published. */
  lemma DeliveryNotReadyIsSilent(sessionId: string, creds: CredsFile, session: Option<nat>,
                                 textSent: bool, documentSent: bool)
    requires creds.CredsMissing? || (creds.CredsRead? && session.None?)
    ensures Notes(DeliverySteps(sessionId, creds, session, textSent, documentSent)) == []
    ensures Sends(DeliverySteps(sessionId, creds, session, textSent, documentSent)) == []
  {
  }

  /** With a readable bundle, a live session and both sends succeeding, the
      text goes out before the document, both to the account of the bundle,
      and exactly one success carrying the session id and account id follows. */
  lemma DeliverySucceeds(sessionId: string, raw: string, meId: Option<string>, sock: nat)
    ensures var steps := DeliverySteps(sessionId, CredsRead(raw, meId), Some(sock), true, true);
      && Sends(steps) == [SendText(sock, AccountId(meId) + JID_SUFFIX, sessionId),
                          SendDocument(sock, AccountId(meId) + JID_SUFFIX, raw, CREDS_FILE_NAME, CREDS_MIME_TYPE)]
      && Notes(steps) == [Success(sessionId, AccountId(meId), SUCCESS_MESSAGE)]
      && steps[|steps| - 1].ToRoom?
  {
    var s1 := SendText(sock, Recipient(meId), sessionId);
    var s2 := SendDocument(sock, Recipient(meId), raw, CREDS_FILE_NAME, CREDS_MIME_TYPE);
    var s3 := ToRoom(sessionId, Success(sessionId, AccountId(meId), SUCCESS_MESSAGE));
    assert DeliverySteps(sessionId, CredsRead(raw, meId), Some(sock), true, true) == [s1] + [s2] + [s3];
    ProjectionsAppend([s1], [s2]);
    ProjectionsAppend([s1] + [s2], [s3]);
  }

  /** With a readable bundle and a live session, the text is always sent
      first; the document follows only when the text was sent, and nothing
      else is sent. */
  lemma DeliverySendOrder(sessionId: string, raw: string, meId: Option<string>, sock: nat,
                          textSent: bool, documentSent: bool)
    ensures Sends(DeliverySteps(sessionId, CredsRead(raw, meId), Some(sock), textSent, documentSent)) ==
      [SendText(sock, Recipient(meId), sessionId)] +
      (if textSent then [SendDocument(sock, Recipient(meId), raw, CREDS_FILE_NAME, CREDS_MIME_TYPE)] else [])
  {
    var text := [SendText(sock, Recipient(meId), sessionId)];
    var failure := [ToRoom(sessionId, Error(DELIVERY_FAILED_MESSAGE))];
    if !textSent {
      ProjectionsAppend(text, failure);
    } else {
      var doc := [SendDocument(sock, Recipient(meId), raw, CREDS_FILE_NAME, CREDS_MIME_TYPE)];
      var last := [ToRoom(sessionId, if documentSent then Success(sessionId, AccountId(meId), SUCCESS_MESSAGE)
                                     else Error(DELIVERY_FAILED_MESSAGE))];
      assert DeliverySteps(sessionId, CredsRead(raw, meId), Some(sock), textSent, documentSent) == text + doc + last;
      ProjectionsAppend(text, doc);
      ProjectionsAppend(text + doc, last);
    }
  }

  /** Any failure after the bundle was found publishes exactly one error and
      no success. */
  lemma DeliveryFailureReportsOnce(sessionId: string, creds: CredsFile, session: Option<nat>,
                                   textSent: bool, documentSent: bool)
    requires !creds.CredsMissing?
    requires creds.CredsUnreadable? || (session.Some? && !(textSent && documentSent))
    ensures Notes(DeliverySteps(sessionId, creds, session, textSent, documentSent)) == [Error(DELIVERY_FAILED_MESSAGE)]
  {
    var steps := DeliverySteps(sessionId, creds, session, textSent, documentSent);
    var failure := ToRoom(sessionId, Error(DELIVERY_FAILED_MESSAGE));
    if creds.CredsRead? {
      assert steps == steps[..|steps| - 1] + [failure];
      ProjectionsAppend(steps[..|steps| - 1], [failure]);
      if textSent {
        assert Notes(steps[..|steps| - 1]) == Notes([steps[0]] + [steps[1]]);
        ProjectionsAppend([steps[0]], [steps[1]]);
      }
    }
  }

  /** Every delivery attempt publishes at most one notification, and a
      success only after both sends, in order, to the bundle's account. */
  lemma {:induction false} DeliveryNotifiesAtMostOnce(sessionId: string, creds: CredsFile, session: Option<nat>,
                                   textSent: bool, documentSent: bool)
    ensures var steps := DeliverySteps(sessionId, creds, session, textSent, documentSent);
      && |Notes(steps)| <= 1
      && (|Notes(steps)| == 1 <==> (creds.CredsUnreadable? || (creds.CredsRead? && session.Some?)))
      && (forall n :: n in Notes(steps) && n.Success? ==>
            creds.CredsRead? && session.Some? && textSent && documentSent && n.botNumber == AccountId(creds.meId))
  {
    if creds.CredsMissing? || (creds.CredsRead? && session.None?) {
      DeliveryNotReadyIsSilent(sessionId, creds, session, textSent, documentSent);
    } else if creds.CredsRead? && textSent && documentSent {
      DeliverySucceeds(sessionId, creds.raw, creds.meId, session.value);
    } else {
      DeliveryFailureReportsOnce(sessionId, creds, session, textSent, documentSent);
    }
  }
}
