/** The periodic sweep of the sessions directory: every sub-directory whose
    last modification is more than seven days old is removed. Time is in
    integer milliseconds; the filesystem calls are given as the outcome each
    entry's `stat` and `rm` would have. */
module Janitor {
  import opened Protocol

  const DAY_MS: int := 1000 * 60 * 60 * 24
  const RETENTION_DAYS: int := 7

  /** One entry of the sessions directory listing. `statOk` and `removeOk` say
      whether stat and the recursive removal of that entry succeed. */
  datatype DirEntry = DirEntry(name: string, isDirectory: bool, mtimeMs: int, statOk: bool, removeOk: bool)

  /** `daysOld > 7` with `daysOld = (now - mtime) / one day`, without division. */
  predicate Expired(e: DirEntry, now: int)
  {
    now - e.mtimeMs > RETENTION_DAYS * DAY_MS
  }

  /** A directory the sweep removes. */
  predicate Doomed(e: DirEntry, now: int)
  {
    e.isDirectory && Expired(e, now)
  }

  /** An entry on which the sweep throws: its stat fails, or its removal does. */
  predicate Fails(e: DirEntry, now: int)
  {
    e.isDirectory && (!e.statOk || (Expired(e, now) && !e.removeOk))
  }

  datatype Sweep = Sweep(deleted: seq<string>, aborted: bool)

  /** The names of the doomed entries, in listing order. */
  function DoomedNames(entries: seq<DirEntry>, now: int): seq<string>
  {
    if entries == [] then []
    else (if Doomed(entries[0], now) then [entries[0].name] else []) + DoomedNames(entries[1..], now)
  }

  /** The names the sweep removes and whether it stops on a failure: one try
      surrounds the whole loop, so the first failure ends the sweep. What is
      removed is a leading part of the doomed names, all of them when the
      sweep does not abort; it aborts only when some entry fails. */
  function SweepOutcome(entries: seq<DirEntry>, now: int): (r: Sweep)
    ensures r.deleted <= DoomedNames(entries, now)
    ensures !r.aborted ==> r.deleted == DoomedNames(entries, now)
    ensures r.aborted ==> exists i :: 0 <= i < |entries| && Fails(entries[i], now)
  {
    if entries == [] then Sweep([], false)
    else if Fails(entries[0], now) then Sweep([], true)
    else
      var rest := SweepOutcome(entries[1..], now);
      Sweep((if Doomed(entries[0], now) then [entries[0].name] else []) + rest.deleted, rest.aborted)
  }


  /** Index of the first entry on which the sweep fails, or the length. */
  function FirstFailure(entries: seq<DirEntry>, now: int): (k: nat)
    ensures k <= |entries|
    ensures forall i :: 0 <= i < k ==> !Fails(entries[i], now)
    ensures k < |entries| ==> Fails(entries[k], now)
  {
    if entries == [] then 0
    else if Fails(entries[0], now) then 0
    else 1 + FirstFailure(entries[1..], now)
  }

  /** `cleanupOldSessions`: `listing` is the directory read, None when reading
      the directory throws. */
  method CleanupOldSessions(listing: Option<seq<DirEntry>>, now: int) returns (deleted: seq<string>, aborted: bool)
    ensures listing.None? ==> deleted == [] && aborted
    ensures listing.Some? ==> Sweep(deleted, aborted) == SweepOutcome(listing.value, now)
  {
    deleted, aborted := [], false;
    if listing.None? {
      aborted := true;
      return;
    }
    var entries := listing.value;
    var i := 0;
    while i < |entries|
      invariant 0 <= i <= |entries|
      invariant SweepOutcome(entries, now) ==
        Sweep(deleted + SweepOutcome(entries[i..], now).deleted, SweepOutcome(entries[i..], now).aborted)
    {
      var e := entries[i];
      assert entries[i..][0] == e && entries[i..][1..] == entries[i + 1..];
      ghost var rest := SweepOutcome(entries[i + 1..], now);
      assert SweepOutcome(entries[i..], now) ==
        if Fails(e, now) then Sweep([], true)
        else Sweep((if Doomed(e, now) then [e.name] else []) + rest.deleted, rest.aborted);
      if e.isDirectory {
        if !e.statOk {
          aborted := true;
          return;
        }
        if Expired(e, now) {
          if !e.removeOk {
            aborted := true;
            return;
          }
          deleted := deleted + [e.name];
        }
      }
      i := i + 1;
    }
  }

  /** The sweep removes exactly the doomed entries before the first failure,
      and reports a failure exactly when there is one. */
  lemma {:induction false} SweepStopsAtFirstFailure(entries: seq<DirEntry>, now: int)
    ensures var k := FirstFailure(entries, now);
      SweepOutcome(entries, now) == Sweep(DoomedNames(entries[..k], now), k < |entries|)
  {
    if entries != [] && !Fails(entries[0], now) {
      SweepStopsAtFirstFailure(entries[1..], now);
      var k := FirstFailure(entries[1..], now);
      assert entries[..k + 1][0] == entries[0] && entries[..k + 1][1..] == entries[1..][..k];
    }
  }

  /** A name is among the doomed names exactly when a doomed entry carries it. */
  lemma {:induction false} DoomedNamesExact(entries: seq<DirEntry>, now: int, name: string)
    ensures name in DoomedNames(entries, now) <==>
      exists i :: 0 <= i < |entries| && entries[i].name == name && Doomed(entries[i], now)
  {
    if entries != [] {
      DoomedNamesExact(entries[1..], now, name);
      if exists i :: 0 <= i < |entries| && entries[i].name == name && Doomed(entries[i], now) {
        var i :| 0 <= i < |entries| && entries[i].name == name && Doomed(entries[i], now);
        if i > 0 {
          assert entries[1..][i - 1] == entries[i];
        }
      }
      if exists j :: 0 <= j < |entries| - 1 && entries[1..][j].name == name && Doomed(entries[1..][j], now) {
        var j :| 0 <= j < |entries| - 1 && entries[1..][j].name == name && Doomed(entries[1..][j], now);
        assert entries[j + 1] == entries[1..][j];
      }
    }
  }

  /** A sweep that meets no failure removes every directory older than the
      retention period and nothing whose name belongs only to a young
      directory or to a plain file. */
  lemma SweepWithoutFailureIsComplete(entries: seq<DirEntry>, now: int)
    requires forall i :: 0 <= i < |entries| ==> !Fails(entries[i], now)
    requires forall i, j :: 0 <= i < j < |entries| ==> entries[i].name != entries[j].name
    ensures !SweepOutcome(entries, now).aborted
    ensures forall i :: 0 <= i < |entries| ==>
      (entries[i].name in SweepOutcome(entries, now).deleted <==> Doomed(entries[i], now))
  {
    SweepStopsAtFirstFailure(entries, now);
    assert entries[..|entries|] == entries;
    forall i | 0 <= i < |entries|
      ensures entries[i].name in SweepOutcome(entries, now).deleted <==> Doomed(entries[i], now)
    {
      DoomedNamesExact(entries, now, entries[i].name);
    }
  }
}
