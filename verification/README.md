# Session generator core, modelled in Dafny

The repository is a small web service that gets a user a credential bundle
for a WhatsApp account without the user running a client. It wraps the
WhatsApp protocol library in bookkeeping and decision logic. This project
models that logic and proves properties of it:

- **Server.js**, the session lifecycle manager:
  - the per-address connection counter, with admission and release;
  - the choice of a session id;
  - the registry of active sessions;
  - the handler of connection-lifecycle updates (QR challenge, open, close);
  - the delivery of the credential bundle to the paired account;
  - the account id read from the bundle;
  - the sweep that removes session directories older than seven days.
- **pair.js**, the pairing-code route:
  - sanitising the phone number;
  - deriving the session id from the upload URL;
  - dispatching on the close reason;
  - the guard that lets at most one HTTP reply leave per request;
  - emptying the auth directory after an open event.

Files:

- `protocol.dfy` (module `Protocol`): `Option`, the protocol library's
  disconnect codes (loggedOut 401, connectionClosed 428, connectionLost 408,
  timedOut 408, restartRequired 515), and the shape of the error a close
  event carries.
- `server_logic.dfy` (module `ServerLogic`): the pure parts of Server.js. It
  also defines the `Effect` values that record what the server does to the
  outside world: channel and client messages, timers, protocol sends.
- `janitor.dfy` (module `Janitor`): `cleanupOldSessions`, a loop method
  proved against a recursive specification.
- `server_state.dfy` (module `SessionServer`): class `SessionManager`. It
  holds `activeSessions`, `connectionCount` (the source's
  `sessionConnectionCount`), the admitted clients and the ordered trace of
  effects. Its handlers update these in place.
- `pair_route.dfy` (module `PairRoute`): the pure helpers of pair.js and
  class `PairingRequest`. The class holds `headersSent`, the replies sent,
  the auth-directory files and the ordered external actions.

Inputs that come from I/O are parameters of the handlers:

- the clock (`now`, integer milliseconds);
- the outcome of starting a protocol client;
- the rendered QR image, or a failed rendering;
- whether each protocol send succeeds;
- the parsed credential file;
- the directory listing and each entry's stat/remove outcome;
- the upload URL.

Timers are recorded as `Schedule(Timer(delay, job))` effects. Firing one means
calling `StartConnection` or `SendSessionData` again.

In these respects the model follows the code as written:

- Registering a session overwrites an existing entry for the same id. There
  is no conflict error.
- A non-logout close is retried with a fixed 3-second delay and no cap.
- The janitor's single `try` around its loop makes the first failing entry
  end the whole sweep. Failures are not skipped.
- Delivery does not re-check that the session exists before reading the
  bundle. It checks `activeSessions` only after parsing the bundle, so an
  unreadable bundle is reported even for a session that is gone.

pair.js does not parse as shipped: the `{` after `auth:` at pair.js:56 is
missing, and index.js:17-23 then mounts a stub route. The model follows the
evidently intended code.

The existence check at pair.js:81 ends in `;`, so its body is empty and it
has no effect. The model therefore has no input for it.

The logged-out branch (Server.js:177-178) is reached only under the intended
reconnect test (see Findings). It deletes the session id from the
per-address counter map. `SessionManager.ConnectionUpdate` models that
literally: the key removed is the session id, and no address's count changes
unless an address happens to equal it. A client can choose such an id:
`SessionServer.LogoutFreesSlotOfAddressNamedSession` shows a second client
from the same address getting past a cap of one once the first one's
session is logged out. As written the branch is never reached, so this
bypass of the cap cannot happen in the program as shipped; it would appear
once the reconnect test is corrected.

## Model

| member | source | states |
|---|---|---|
| `Protocol.CarriedStatus` | Server.js:169 | the status code of a close error is present exactly for an HTTP-error object and is that object's status code |
| `Protocol.StatusThrough` | Server.js:169 | the optional chain `?.output?.statusCode` yields nothing on a boolean and yields the error's carried status on the error itself |
| `Protocol.WrappedStatus` | pair.js:135 | wrapping a close error keeps the status it carries, and gives the default status 500 when it carries none |
| `ServerLogic.CountOf` | Server.js:279 | the count read for an address is the count stored under it, and 0 for an absent address; non-negative maps give non-negative counts |
| `ServerLogic.AfterAdmit` | Server.js:288 | an admitted address's count goes up by one; every other address keeps its count; non-negative counts stay non-negative |
| `ServerLogic.Attempt` | Server.js:279-288 | a connection attempt at or above the cap leaves the counter map unchanged; below the cap it adds one for that address only |
| `ServerLogic.AfterRelease` | Server.js:305-308 | after a disconnect the address's count is old-1 when positive and 0 otherwise (also for an absent address); never negative; other addresses untouched |
| `ServerLogic.ReleaseUndoesAdmit` | Server.js:279-308 | for non-negative counts (which `Valid()` keeps), admitting then releasing an address gives every address its old count back |
| `ServerLogic.AttemptsFillCap` | Server.js:279-288 | n attempts from one address with no disconnects raise its count to min(cap, c+n) from c below the cap; at or above the cap they change nothing |
| `ServerLogic.CapPlusOneRejected` | Server.js:281-286 | from a fresh address, the attempt after `maxConnections` admitted ones is rejected and leaves the counter unchanged |
| `ServerLogic.Decimal` | Server.js:292 | the timestamp text is the base-10 text of the timestamp: non-empty decimal digits that read back (most significant first) as the timestamp, with no leading zero |
| `ServerLogic.DecimalInjective` | Server.js:292 | different timestamps print as different texts |
| `ServerLogic.ChooseSessionId` | Server.js:292 | the id is the caller's id when that is a non-empty string; otherwise it is `session_` followed by the decimal text of the clock, whose digits read back as the clock value; never empty |
| `ServerLogic.GeneratedIdsDistinct` | Server.js:292 | ids generated at different milliseconds differ |
| `ServerLogic.ChosenIdIsStable` | Server.js:292 | sending a chosen id back in a later `generate` yields the same id whatever the clock |
| `ServerLogic.BeforeColon` | Server.js:232 | `split(':')[0]`: a prefix of the input that contains no colon and stops at the first colon or at the end |
| `ServerLogic.AccountId` | Server.js:232 | the account id is never empty and has no colon; it is `Unknown` when `me.id` is absent or its part before the first colon is empty, otherwise that part |
| `ServerLogic.AccountIdOfDeviceId` | Server.js:232 | for a device-qualified id `user:device` the account id is `user` |
| `ServerLogic.Recipient` | Server.js:243 | the address the bundle goes to is the bundle's account id (colon-free) followed by `@s.whatsapp.net`; `Unknown@s.whatsapp.net` when the bundle has no `me.id` |
| `ServerLogic.ShouldReconnectAsWritten` | Server.js:169 | the reconnect test as written is true for every close error, a logout included |
| `ServerLogic.ShouldReconnect` | Server.js:169 | the intended test: reconnect exactly when the close does not carry status code loggedOut |
| `ServerLogic.LogoutMissedAsWritten` | Server.js:168-179 | on a loggedOut close the written test still reconnects while the intended one tears down |
| `ServerLogic.UpdateEffects` | Server.js:154-193 | an update publishes only to its own session's channel, schedules at most one job and only for its own session, and publishes the logout error exactly when it tears the session down |
| `ServerLogic.StateEffects` | Server.js:168-192 | the close or open branch acts only on its own session, schedules at most one job, and publishes the logout error exactly on a logged-out close |
| `ServerLogic.QrRelayed` | Server.js:157-166 | a rendered QR challenge is the first notification published; a failed rendering publishes no QR image |
| `ServerLogic.CloseSchedulesOneRestart` | Server.js:168-173 | a non-logout close schedules exactly one restart of the same session after 3 s, publishes exactly the QR notes and no error, and tears nothing down |
| `ServerLogic.LoggedOutCloseTearsDown` | Server.js:174-179 | a logged-out close publishes exactly one error, schedules nothing and tears the session down |
| `ServerLogic.OpenSchedulesOneDelivery` | Server.js:180-191 | an open event publishes `connected` and then schedules exactly one delivery of the same session after 2 s |
| `ServerLogic.QuietUpdateSchedulesNothing` | Server.js:154-193 | an update that neither opens nor closes schedules nothing, publishes exactly the rendered QR image (nothing when there is none or its rendering failed) and tears nothing down |
| `ServerLogic.DeliverySteps` | Server.js:213-270 | a delivery takes at most three steps; notes go only to the session's channel; both sends go through the handle registered for the session, to the bundle's account, and the document carries the bundle's text |
| `ServerLogic.DeliveryNotReadyIsSilent` | Server.js:219-239 | a missing bundle, or a readable bundle whose session is gone, sends nothing and publishes nothing |
| `ServerLogic.DeliverySucceeds` | Server.js:241-265 | with the bundle, the session and both sends succeeding: the text goes before the document, both to `<account>@s.whatsapp.net`; the document is the bundle's text; exactly one success follows, carrying the session id and account id |
| `ServerLogic.DeliverySendOrder` | Server.js:241-270 | with a readable bundle and a live session the text is always sent first; the document is sent only after the text was sent, and nothing else is sent |
| `ServerLogic.DeliveryFailureReportsOnce` | Server.js:226-270 | an unreadable bundle or a failed send publishes exactly one error and no success |
| `ServerLogic.DeliveryNotifiesAtMostOnce` | Server.js:213-270 | every delivery publishes at most one notification; it publishes one exactly when the bundle is unreadable or the session is present; a success implies both sends succeeded and names the bundle's account |
| `Janitor.SweepOutcome` | Server.js:104-124 | the sweep removes a leading part of the expired directories' names, in listing order; all of them when it does not abort; it aborts only when some entry fails |
| `Janitor.CleanupOldSessions` | Server.js:104-125 | the loop removes and reports exactly what the sweep specification gives; an unreadable directory removes nothing and reports failure |
| `Janitor.SweepStopsAtFirstFailure` | Server.js:105-124 | the sweep removes the expired directories listed before the first failing entry, in order, and fails exactly when some entry fails |
| `Janitor.DoomedNamesExact` | Server.js:109-119 | a name is among the expired directories' names exactly when some listed directory with that name is more than 7 days old |
| `Janitor.SweepWithoutFailureIsComplete` | Server.js:109-121 | without failures, with unique names: a directory older than 7 days is removed; a younger directory or a plain file is kept |
| `SessionServer.SessionManager.constructor` | Server.js:99-101 | the server starts with no sessions, no counts, no clients and an empty trace |
| `SessionServer.SessionManager.Connect` | Server.js:278-288 | admission iff the address's count is below the cap; the counter becomes `Attempt` of the old one; a rejected client gets the capacity error and is dropped without its handlers being registered |
| `SessionServer.SessionManager.Disconnect` | Server.js:305-311 | an admitted client's disconnect applies `AfterRelease`; a rejected client's disconnect changes no count; counts stay non-negative |
| `SessionServer.SessionManager.StartConnection` | Server.js:204 | a started connection registers its handle under the id, replacing any previous one; all other ids unchanged; a failed start changes nothing |
| `SessionServer.SessionManager.Generate` | Server.js:290-303 | only an admitted client's request is handled; the id is `ChooseSessionId`; the client joins that channel; a failed start is reported to that client alone |
| `SessionServer.SessionManager.ConnectionUpdate` | Server.js:154-193 | the trace grows by `UpdateEffects`; a logged-out close deletes the id from `activeSessions` and from the counter map; every other update leaves both maps unchanged |
| `SessionServer.SessionManager.SendSessionData` | Server.js:213-271 | the trace grows by `DeliverySteps` for the handle registered under the id; no map changes |
| `SessionServer.GenerateScanDeliver` | Server.js:180-265 | end to end: a fresh `generate`, a QR challenge, an open and a good bundle for `user:device` publish the QR image, `connected` and one success naming the generated id and `user` |
| `SessionServer.LogoutFreesSlotOfAddressNamedSession` | Server.js:174-179 | under the intended reconnect test, with a cap of one, a client that named its session after its own address blocks a second client from that address until the session is logged out; the logout deletes the address's count and the second client is let in |
| `PairRoute.Sanitize` | pair.js:67 | the sanitised number has only digit characters and is no longer than the input |
| `PairRoute.SanitizeAppend` | pair.js:67 | sanitising distributes over concatenation, so digits keep their original order |
| `PairRoute.SanitizeKeepsExactlyTheDigits` | pair.js:67 | every digit occurs in the result as often as in the input; no other character occurs |
| `PairRoute.SanitizeKeepsDigitStrings` | pair.js:67 | a digits-only string is unchanged |
| `PairRoute.SanitizeIdempotent` | pair.js:67 | sanitising an already sanitised number returns it unchanged |
| `PairRoute.IndexFrom` | pair.js:97 | the result is an occurrence of the pattern, and no earlier position holds one; none is found only when no position holds one |
| `PairRoute.SessionIdOf` | pair.js:97 | a URL without the storage prefix is returned unchanged; otherwise the result is exactly one prefix-length shorter |
| `PairRoute.SessionIdOfUploadUrl` | pair.js:96-97 | the prefix followed by a file handle gives that handle back |
| `PairRoute.SessionIdWithoutPrefix` | pair.js:97 | a URL that contains the prefix nowhere is its own session id |
| `PairRoute.SessionIdRemovesFirstOccurrence` | pair.js:97 | only the first occurrence is cut out; the text before it and everything after it, later occurrences included, are kept |
| `PairRoute.CloseDispatch` | pair.js:134-150 | restartRequired exactly reruns the routine; connectionClosed, connectionLost and timedOut exactly only log; every other reason restarts the process after 5 s |
| `PairRoute.CloseWithoutStatusRestartsProcess` | pair.js:135 | a close whose error is not an HTTP-error object is wrapped with status 500 and restarts the process |
| `PairRoute.PairingRequest.constructor` | pair.js:49-50 | a request starts with the query number, no reply sent and no actions |
| `PairRoute.PairingRequest.SendOnce` | pair.js:69-71 | a reply is sent only while none has been; afterwards `headersSent` holds and at most one reply exists |
| `PairRoute.PairingRequest.Run` | pair.js:52-163 | a code is requested only when the client starts and is unregistered with a number; the number is stored sanitised; any failure restarts the service, reruns the routine, empties the auth directory and replies with the retry text; at most one reply ever |
| `PairRoute.PairingRequest.Open` | pair.js:78-132 | the upload is attempted; the session id `SessionIdOf(url)` is sent when the upload succeeds, the banner only after it; the auth directory ends empty whatever failed |
| `PairRoute.PairingRequest.Close` | pair.js:134-151 | the actions grow by what `CloseDispatch` of the wrapped status asks for; replies, number and files unchanged |
| `PairRoute.RestartRequiredRerun` | pair.js:140-142 | a rerun after restartRequired asks for the same sanitised number again, and the client still receives only the first code |

## Left out

- Express, Socket.IO, helmet, cors, the rate limiter, static serving, `/health`, the error middleware (Server.js:23-97, 314-320): framework wiring.
- The protocol library itself (socket creation, auth-state store, `sendMessage`, `requestPairingCode`, the `creds.update` and `messages.upsert` handlers): foreign code; their outcomes are handler parameters.
- QR rendering (Server.js:160) and the mega upload (pair.js:96): foreign libraries; their results or failures are inputs.
- Real timers and the `delay` calls: timers are recorded as scheduled jobs; pair.js's delays have no observable effect in the model.
- `randomMegaId` (pair.js:86-94): driven by `Math.random`; only the resulting URL is an input.
- `exec('pm2 restart qasim')` and the rerun of the pairing routine: recorded as the actions `RestartService` and `RerunRoutine`; the caller runs the routine again.
- Signal handling, graceful shutdown, `uncaughtException`/`unhandledRejection` (Server.js:322-357), and logging: process-level concerns.
- JSON parsing of `creds.json`: the model takes the parsed optional `me.id` string; a parse error, a null bundle or a non-string id are one `CredsUnreadable` case.
- `MAX_CONNECTIONS` parsing (Server.js:38): the cap is a constructor parameter, default 5; a non-numeric setting (NaN, which admits everyone) is not modelled.
- Malformed `generate` payloads (no payload, a non-string truthy `sessionId`): the requested id is an optional string.
- Socket.IO room membership: joins are recorded as effects; who receives a room message is not modelled.
- Concurrency between requests: pair.js uses one auth directory for all requests; each `PairingRequest` holds its own copy of the file set.
- Module-load emptying of the auth directory (pair.js:45-47) and the `/qr` route (qr.js) and index.js: start-up and routing only.
- `useMultiFileAuthState` failing in pair.js (line 53, outside the `try`): the request's promise rejects; not modelled.
- `PairRoute.PairingRequest.Open`: does not model the working directory. The route reads and writes `./auth_info_baileys` relative to the process's working directory (pair.js:53, 83, 96), but empties `__dirname + '/auth_info_baileys'` (pair.js:46, 124, 131, 159). The model keeps one file set for both, so the directory that was read always ends empty; in the program that holds only when the process runs from the module's own directory.
- `Janitor.CleanupOldSessions`: uses one `now` for the whole sweep, whereas the source reads `Date.now()` again for each entry after awaiting its `stat` (Server.js:112-113); an entry that crosses the 7-day line while the sweep runs is not modelled.
- Interleaving of the asynchronous Server.js handlers: they can interleave at their awaits, during QR rendering (Server.js:160), the bundle reads (Server.js:227-231) and the two sends (Server.js:242-257). Each `SessionManager` handler runs as one atomic step and appends its effects as one contiguous block, so traces where another handler's effects fall between them, or where `activeSessions` changes between a delivery's check and its sends, are not covered.
- `SessionServer.SessionManager.ConnectionUpdate`: uses the intended reconnect test `ShouldReconnect` rather than the test as written, which never tears down (see Findings).

## Findings

| source | as written | input that shows it | evidently intended | confidence | as-written member | corrected member |
|---|---|---|---|---|---|---|
| Server.js:169 | `(err instanceof Boom)?.output?.statusCode` reads a property of a boolean, always undefined, so every close reconnects | a close whose error is an HTTP-error object with status 401 (loggedOut) | reconnect unless the error's status code is loggedOut; on logout publish the error and remove the session | high; not executed | `ServerLogic.ShouldReconnectAsWritten`, `ServerLogic.LogoutMissedAsWritten` | `ServerLogic.ShouldReconnect` |
