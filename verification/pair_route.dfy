/** The pairing-code route: one HTTP request asks for a pairing code for a
    phone number, then follows the protocol client's lifecycle events to hand
    the resulting session id to the paired account. The protocol client, the
    object-storage upload and the process supervisor are given as outcomes. */
module PairRoute {
  import opened Protocol

  const MEGA_PREFIX: string := "https://mega.nz/file/"
  const RETRY_CODE: string := "Try After Few Minutes"
  const PROCESS_RESTART_DELAY_MS: nat := 5000

  // ---------------------------------------------------------------------
  // Phone number sanitisation: `num.replace(/[^0-9]/g, '')`
  // ---------------------------------------------------------------------

  predicate IsDigit(c: char)
  {
    '0' <= c <= '9'
  }

  function Sanitize(s: string): (r: string)
    ensures |r| <= |s|
    ensures forall i :: 0 <= i < |r| ==> IsDigit(r[i])
  {
    if s == [] then [] else (if IsDigit(s[0]) then [s[0]] else []) + Sanitize(s[1..])
  }

  /** Sanitising works piecewise, so the digits keep their original order. */
  lemma {:induction false} SanitizeAppend(a: string, b: string)
    ensures Sanitize(a + b) == Sanitize(a) + Sanitize(b)
  {
    if a == [] {
      assert a + b == b;
    } else {
      assert (a + b)[0] == a[0] && (a + b)[1..] == a[1..] + b;
      SanitizeAppend(a[1..], b);
    }
  }

  /** Each digit occurs as often in the result as in the input; nothing else occurs. */
  lemma {:induction false} SanitizeKeepsExactlyTheDigits(s: string, c: char)
    ensures multiset(Sanitize(s))[c] == if IsDigit(c) then multiset(s)[c] else 0
  {
    if s != [] {
      SanitizeKeepsExactlyTheDigits(s[1..], c);
      assert s == [s[0]] + s[1..];
      assert multiset(s) == multiset([s[0]]) + multiset(s[1..]);
    }
  }

  /** A string of digits only is left as it is. */
  lemma {:induction false} SanitizeKeepsDigitStrings(s: string)
    requires forall i :: 0 <= i < |s| ==> IsDigit(s[i])
    ensures Sanitize(s) == s
  {
    if s != [] {
      SanitizeKeepsDigitStrings(s[1..]);
    }
  }

  /** Sanitising twice is sanitising once: a routine that runs again on the
      already sanitised number asks for the same number. */
  lemma SanitizeIdempotent(s: string)
    ensures Sanitize(Sanitize(s)) == Sanitize(s)
  {
    SanitizeKeepsDigitStrings(Sanitize(s));
  }

  // ---------------------------------------------------------------------
  // Session id from the upload URL: `url.replace('https://mega.nz/file/', '')`
  // ---------------------------------------------------------------------

  predicate OccursAt(s: string, pat: string, i: nat)
  {
    i + |pat| <= |s| && s[i..i + |pat|] == pat
  }

  /** The first position at or after `from` where `pat` occurs in `s`. */
  function IndexFrom(s: string, pat: string, from: nat): (r: Option<nat>)
    requires from <= |s|
    ensures r.Some? ==> from <= r.value && OccursAt(s, pat, r.value)
    ensures forall i :: from <= i <= |s| && (r.None? || i < r.value) ==> !OccursAt(s, pat, i)
    decreases |s| - from
  {
    if OccursAt(s, pat, from) then Some(from)
    else if from == |s| then None
    else IndexFrom(s, pat, from + 1)
  }

  /** The upload URL without the first occurrence of the storage prefix. */
  function SessionIdOf(url: string): (id: string)
    ensures IndexFrom(url, MEGA_PREFIX, 0).None? ==> id == url
    ensures IndexFrom(url, MEGA_PREFIX, 0).Some? ==> |id| == |url| - |MEGA_PREFIX|
  {
    match IndexFrom(url, MEGA_PREFIX, 0)
    case None => url
    case Some(k) => url[..k] + url[k + |MEGA_PREFIX|..]
  }

  /** The id of an uploaded file's URL is the file handle after the prefix. */
  lemma SessionIdOfUploadUrl(handle: string)
    ensures SessionIdOf(MEGA_PREFIX + handle) == handle
  {
    var url := MEGA_PREFIX + handle;
    assert OccursAt(url, MEGA_PREFIX, 0) by {
      assert url[..|MEGA_PREFIX|] == MEGA_PREFIX;
    }
    assert url[|MEGA_PREFIX|..] == handle;
  }

  /** A URL that does not contain the prefix is its own session id. */
  lemma SessionIdWithoutPrefix(url: string)
    requires forall i :: 0 <= i <= |url| ==> !OccursAt(url, MEGA_PREFIX, i)
    ensures SessionIdOf(url) == url
  {
  }

  /** Only the first occurrence is removed: the text before it is kept, and
      later occurrences stay in the id. */
  lemma SessionIdRemovesFirstOccurrence(url: string, k: nat)
    requires k <= |url| && OccursAt(url, MEGA_PREFIX, k)
    requires forall i :: 0 <= i < k ==> !OccursAt(url, MEGA_PREFIX, i)
    ensures SessionIdOf(url) == url[..k] + url[k + |MEGA_PREFIX|..]
  {
    var r := IndexFrom(url, MEGA_PREFIX, 0);
    assert r.Some? && r.value == k;
  }

  // ---------------------------------------------------------------------
  // Close-reason dispatch
  // ---------------------------------------------------------------------

  /** What the route does about a close: run the pairing routine again, only
      log, or restart the whole process after a delay. */
  datatype CloseAction = Rerun | LogOnly | RestartAfter(delayMs: nat)

  /** The if/else chain over the close reason code. */
  function CloseDispatch(reason: int): (a: CloseAction)
    ensures a == Rerun <==> reason == RESTART_REQUIRED
    ensures a == LogOnly <==> reason == CONNECTION_CLOSED || reason == CONNECTION_LOST || reason == TIMED_OUT
    ensures a.RestartAfter? <==>
      reason !in {RESTART_REQUIRED, CONNECTION_CLOSED, CONNECTION_LOST, TIMED_OUT}
    ensures a.RestartAfter? ==> a.delayMs == PROCESS_RESTART_DELAY_MS
  {
    if reason == CONNECTION_CLOSED then LogOnly
    else if reason == CONNECTION_LOST then LogOnly
    else if reason == RESTART_REQUIRED then Rerun
    else if reason == TIMED_OUT then LogOnly
    else RestartAfter(PROCESS_RESTART_DELAY_MS)
  }

  /** The close reason is the status of `new Boom(lastDisconnect?.error)`: a
      close without an HTTP-error object is treated as unrecoverable. */
  lemma CloseWithoutStatusRestartsProcess(e: DisconnectError)
    requires !e.BoomError?
    ensures CloseDispatch(WrappedStatus(e)) == RestartAfter(PROCESS_RESTART_DELAY_MS)
  {
  }

  // ---------------------------------------------------------------------
  // One pairing request
  // ---------------------------------------------------------------------

  /** The reply body `{ code }`. */
  datatype Reply = CodeReply(code: string)

  /** What the route asks of the outside world, in order. */
  datatype PairAction =
    | RequestCode(number: string)          // ask the protocol client for a pairing code
    | RestartService                       // restart the process under its supervisor
    | RerunRoutine                         // run the pairing routine again
    | UploadCreds                          // upload the credential file to object storage
    | SendSessionId(user: string, id: string)
    | SendBanner(user: string)

  class PairingRequest {
    // The `number` query parameter; None when it is absent or not a string.
    var num: Option<string>
    var headersSent: bool
    var replies: seq<Reply>
    // Files of the shared auth-state directory.
    var authFiles: set<string>
    var actions: seq<PairAction>

    /** At most one reply is ever sent, and `headersSent` says whether it was. */
    ghost predicate Valid()
      reads this
    {
      |replies| <= 1 && (headersSent <==> |replies| == 1)
    }

    constructor (num: Option<string>, authFiles: set<string>)
      ensures Valid()
      ensures this.num == num && this.authFiles == authFiles
      ensures !headersSent && replies == [] && actions == []
    {
      this.num := num;
      this.authFiles := authFiles;
      headersSent := false;
      replies := [];
      actions := [];
    }

    /** `if (!res.headersSent) res.send(body)`. */
    method SendOnce(body: Reply)
      requires Valid()
      modifies this
      ensures Valid()
      ensures replies == if old(headersSent) then old(replies) else [body]
      ensures headersSent
      ensures num == old(num) && authFiles == old(authFiles) && actions == old(actions)
    {
      if !headersSent {
        replies := replies + [body];
        headersSent := true;
      }
    }

    /** The pairing routine up to the registration of its event handlers.
        `socketOk` says whether creating the protocol client succeeds,
        `registered` whether its credentials are already registered, and
        `pairing` the code the client returns (None when that request throws).
        Any failure takes the catch path: restart the service, run the
        routine again, empty the auth directory and reply with the retry text. */
    method Run(socketOk: bool, registered: bool, pairing: Option<string>)
      requires Valid()
      modifies this
      ensures Valid()
      ensures var asks := socketOk && !registered && old(num).Some?;
        var failed := !socketOk || (!registered && (old(num).None? || pairing.None?));
        && num == (if asks then Some(Sanitize(old(num).value)) else old(num))
        && actions == old(actions)
             + (if asks then [RequestCode(Sanitize(old(num).value))] else [])
             + (if failed then [RestartService, RerunRoutine] else [])
        && authFiles == (if failed then {} else old(authFiles))
        && replies == (if old(headersSent) then old(replies)
                       else if failed then [CodeReply(RETRY_CODE)]
                       else if asks then [CodeReply(pairing.value)]
                       else [])
    {
      var failed := !socketOk;
      if !failed && !registered {
        if num.None? {
          failed := true;
        } else {
          num := Some(Sanitize(num.value));
          actions := actions + [RequestCode(num.value)];
          if pairing.None? {
            failed := true;
          } else {
            SendOnce(CodeReply(pairing.value));
          }
        }
      }
      if failed {
        actions := actions + [RestartService, RerunRoutine];
        authFiles := {};
        SendOnce(CodeReply(RETRY_CODE));
      }
    }

    /** The open event: upload the credential file, send the session id and
        the banner to the paired account, then empty the auth directory.
        `upload` is the URL of the uploaded file, None when the upload throws;
        `idSent` says whether sending the id succeeds; the banner send comes
        last before the emptying, so its outcome changes nothing here. */
    method Open(user: string, upload: Option<string>, idSent: bool)
      requires Valid()
      modifies this
      ensures Valid()
      ensures authFiles == {}
      ensures actions == old(actions) + [UploadCreds] +
        (if upload.None? then []
         else [SendSessionId(user, SessionIdOf(upload.value))] + (if idSent then [SendBanner(user)] else []))
      ensures replies == old(replies) && headersSent == old(headersSent) && num == old(num)
    {
      actions := actions + [UploadCreds];
      if upload.Some? {
        var id := SessionIdOf(upload.value);
        actions := actions + [SendSessionId(user, id)];
        if idSent {
          actions := actions + [SendBanner(user)];
        }
      }
      // Both the emptying after the banner and the one after the try empty
      // the same directory, so one assignment stands for both.
      authFiles := {};
    }

    /** The close event: dispatch on the wrapped status code. */
    method Close(e: DisconnectError)
      requires Valid()
      modifies this
      ensures Valid()
      ensures actions == old(actions) +
        match CloseDispatch(WrappedStatus(e))
        case Rerun => [RerunRoutine]
        case LogOnly => []
        case RestartAfter(_) => [RestartService]
      ensures replies == old(replies) && headersSent == old(headersSent)
      ensures num == old(num) && authFiles == old(authFiles)
    {
      var reason := WrappedStatus(e);
      if reason == CONNECTION_CLOSED || reason == CONNECTION_LOST {
      } else if reason == RESTART_REQUIRED {
        actions := actions + [RerunRoutine];
      } else if reason == TIMED_OUT {
      } else {
        actions := actions + [RestartService];
      }
    }
  }

  /** A close that requires a restart runs the routine again on the same
      request: the number it asks for is the same, already sanitised one,
      and the second code never reaches the client because a reply has
      already left. */
  method RestartRequiredRerun(number: string, first: string, second: string)
    returns (replies: seq<Reply>, actions: seq<PairAction>)
    ensures replies == [CodeReply(first)]
    ensures actions == [RequestCode(Sanitize(number)), RerunRoutine, RequestCode(Sanitize(number))]
  {
    var req := new PairingRequest(Some(number), {});
    req.Run(true, false, Some(first));
    req.Close(BoomError(RESTART_REQUIRED));
    SanitizeIdempotent(number);
    req.Run(true, false, Some(second));
    replies, actions := req.replies, req.actions;
  }
}
