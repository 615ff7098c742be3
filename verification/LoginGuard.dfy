/** The lockout after failed logins: one row per user name, counted up by failures, deleted by a
    successful login and, when old, by the purge. */
module LoginGuard {
  import opened Domain

  /** Durations are in the unit of `Time`. */
  datatype Limits = Limits(maxFailed: int, lockout: int, window: int)

  datatype Attempt = Attempt(failedCount: int, firstFailedAt: Time, lastFailedAt: Time, lockedUntil: Option<Time>)

  // ---------------------------------------------------------------- one row

  /** The end of the lock that is in force now. */
  function Lock(row: Option<Attempt>, now: Time): Option<Time> {
    if row.Some? && row.value.lockedUntil.Some? && row.value.lockedUntil.value > now
    then row.value.lockedUntil else None
  }

  /** The row a failure is counted in: a new one, the old one, or the old one started afresh because
      its last failure is out of the window. */
  function Opened(row: Option<Attempt>, now: Time, limits: Limits): Attempt {
    match row
    case None => Attempt(0, now, now, None)
    case Some(a) =>
      if a.lastFailedAt < now - limits.window then Attempt(0, now, a.lastFailedAt, None) else a
  }

  /** The row after a failure; reaching the maximum locks and starts the next count. */
  function Failed(row: Option<Attempt>, now: Time, limits: Limits): Attempt {
    var a := Opened(row, now, limits);
    if a.failedCount + 1 >= limits.maxFailed
    then a.(failedCount := 0, lastFailedAt := now, lockedUntil := Some(now + limits.lockout))
    else a.(failedCount := a.failedCount + 1, lastFailedAt := now)
  }

  /** Whether this very failure locked. */
  function NewLock(row: Option<Attempt>, now: Time, limits: Limits): Option<Time> {
    if Opened(row, now, limits).failedCount + 1 >= limits.maxFailed then Some(now + limits.lockout) else None
  }

  predicate Stale(a: Attempt, now: Time, limits: Limits) {
    a.lastFailedAt < now - limits.window && (a.lockedUntil == None || a.lockedUntil.value < now)
  }

  function Purged(row: Option<Attempt>, now: Time, limits: Limits): Option<Attempt> {
    if row.Some? && Stale(row.value, now, limits) then None else row
  }

  // ---------------------------------------------------------------- the table

  class Guard {
    const limits: Limits
    var rows: map<string, Attempt>

    constructor (limits: Limits)
      ensures this.limits == limits && rows == map[]
    {
      this.limits := limits;
      rows := map[];
    }

    function Row(username: string): Option<Attempt>
      reads this
    {
      if username in rows then Some(rows[username]) else None
    }

    method LockedUntil(username: string, now: Time) returns (until: Option<Time>)
      ensures until == Lock(Row(username), now)
    {
      if username !in rows { return None; }
      until := rows[username].lockedUntil;
      if until == None || until.value <= now { return None; }
    }

    method RecordFailure(username: string, now: Time) returns (locked: Option<Time>)
      modifies this
      ensures rows == old(rows)[username := Failed(old(Row(username)), now, limits)]
      ensures locked == NewLock(old(Row(username)), now, limits)
    {
      var row;
      if username !in rows {
        row := Attempt(0, now, now, None);
      } else {
        row := rows[username];
        if row.lastFailedAt < now - limits.window {
          row := row.(failedCount := 0, firstFailedAt := now, lockedUntil := None);
        }
      }
      row := row.(failedCount := row.failedCount + 1, lastFailedAt := now);
      locked := None;
      if row.failedCount >= limits.maxFailed {
        row := row.(lockedUntil := Some(now + limits.lockout), failedCount := 0);
        locked := row.lockedUntil;
      }
      rows := rows[username := row];
    }

    method ClearFailures(username: string)
      modifies this
      ensures rows == old(rows) - {username}
    {
      rows := rows - {username};
    }

    method PurgeStale(now: Time) returns (count: nat)
      modifies this
      ensures forall u :: Row(u) == Purged(old(Row(u)), now, limits)
      ensures count == |old(rows)| - |rows|
    {
      var stale := set u | u in rows && Stale(rows[u], now, limits);
      ghost var before := rows.Keys;
      rows := rows - stale;
      assert before == rows.Keys + stale;
      count := |stale|;
    }
  }

  // ---------------------------------------------------------------- runs of one user name

  datatype Event = Failure(at: Time) | Check(at: Time) | Success(at: Time) | Purge(at: Time)

  function After(row: Option<Attempt>, e: Event, limits: Limits): Option<Attempt> {
    match e
    case Failure(now) => Some(Failed(row, now, limits))
    case Check(_) => row
    case Success(_) => None
    case Purge(now) => Purged(row, now, limits)
  }

  /** In the order of time, from `now` on. */
  predicate Ordered(run: seq<Event>, now: Time) {
    run == [] || (now <= run[0].at && Ordered(run[1..], run[0].at))
  }

  /** The calling rule of the login: a failure is only recorded when there is no lock. */
  predicate Guarded(row: Option<Attempt>, run: seq<Event>, limits: Limits)
    decreases |run|
  {
    run == []
    || ((run[0].Failure? ==> Lock(row, run[0].at) == None)
        && Guarded(After(row, run[0], limits), run[1..], limits))
  }

  predicate NoSuccess(run: seq<Event>) {
    forall e :: e in run ==> !e.Success?
  }

  /** The failures recorded from `from` on and before `to`. */
  function FailuresIn(run: seq<Event>, from: Time, to: Time): nat {
    if run == [] then 0
    else (if run[0].Failure? && from <= run[0].at < to then 1 else 0) + FailuresIn(run[1..], from, to)
  }

  function Max(x: int, y: int): int { if x >= y then x else y }

  function Min(x: int, y: int): int { if x <= y then x else y }

  // ---------------------------------------------------------------- the rate bound

  /** After `k` failures in the interval that starts at `from`: the row counts them all, or it has
      locked since then. */
  predicate Accounts(row: Option<Attempt>, k: nat, from: Time, limits: Limits) {
    && (row.Some? ==> row.value.failedCount >= 0)
    && (k > 0 ==>
      && row.Some? && row.value.lastFailedAt >= from
      && ((k <= row.value.failedCount && k < limits.maxFailed)
          || (k <= Max(limits.maxFailed, 1) && row.value.lockedUntil.Some?
              && row.value.lockedUntil.value >= from + limits.lockout)))
  }

  lemma AccountsStep(row: Option<Attempt>, k: nat, e: Event, from: Time, limits: Limits)
    requires Accounts(row, k, from, limits) && !e.Success?
    requires e.Failure? ==> Lock(row, e.at) == None
    requires e.at < from + Min(limits.lockout, limits.window) && (k > 0 ==> from <= e.at)
    ensures Accounts(After(row, e, limits), if e.Failure? && from <= e.at then k + 1 else k, from, limits)
  {
  }

  lemma {:induction false} NoneLater(run: seq<Event>, from: Time, to: Time, now: Time)
    requires Ordered(run, now) && to <= now
    ensures FailuresIn(run, from, to) == 0
  {
    if run != [] { NoneLater(run[1..], from, to, run[0].at); }
  }

  lemma {:induction false} RateBoundFrom(
      row: Option<Attempt>, k: nat, run: seq<Event>, from: Time, now: Time, limits: Limits)
    requires Accounts(row, k, from, limits) && (k > 0 ==> from <= now)
    requires Ordered(run, now) && Guarded(row, run, limits) && NoSuccess(run)
    ensures k + FailuresIn(run, from, from + Min(limits.lockout, limits.window)) <= Max(limits.maxFailed, 1)
    decreases |run|
  {
    var to := from + Min(limits.lockout, limits.window);
    if run != [] {
      if run[0].at < to {
        var counted := run[0].Failure? && from <= run[0].at;
        AccountsStep(row, k, run[0], from, limits);
        RateBoundFrom(After(row, run[0], limits), if counted then k + 1 else k, run[1..], from, run[0].at, limits);
      } else {
        NoneLater(run, from, to, run[0].at);
      }
    }
  }

  /** Without a successful login in between, no half-open interval as long as the shorter of lockout and
      window holds more failures than the maximum, whatever is purged and whenever: the counter may
      start again from any row that counts properly. */
  lemma RateBound(row: Option<Attempt>, run: seq<Event>, from: Time, now: Time, limits: Limits)
    requires row.Some? ==> row.value.failedCount >= 0
    requires Ordered(run, now) && Guarded(row, run, limits) && NoSuccess(run)
    ensures FailuresIn(run, from, from + Min(limits.lockout, limits.window)) <= Max(limits.maxFailed, 1)
  {
    RateBoundFrom(row, 0, run, from, now, limits);
  }

  /** The other half: failures that follow each other within the window do lock, and exactly at the
      maximum. */
  lemma {:induction false} LocksAtTheMaximum(row: Option<Attempt>, run: seq<Event>, limits: Limits)
    requires |run| >= 1 && forall e :: e in run ==> e.Failure?
    requires forall i :: 0 < i < |run| ==> run[i].at <= run[i - 1].at + limits.window
    requires Opened(row, run[0].at, limits).failedCount + |run| == limits.maxFailed
    ensures forall i :: 0 <= i < |run| ==>
      NewLock(RowAfter(row, run[..i], limits), run[i].at, limits)
        == if i == |run| - 1 then Some(run[i].at + limits.lockout) else None
    decreases |run|
  {
    var next := After(row, run[0], limits);
    if |run| > 1 {
      LocksAtTheMaximum(next, run[1..], limits);
    }
    forall i | 0 < i < |run| ensures RowAfter(row, run[..i], limits) == RowAfter(next, run[1..][..i - 1], limits)
      && run[1..][i - 1] == run[i]
    {
      assert run[..i][1..] == run[1..][..i - 1];
    }
  }

  function RowAfter(row: Option<Attempt>, run: seq<Event>, limits: Limits): Option<Attempt>
    decreases |run|
  {
    if run == [] then row else RowAfter(After(row, run[0], limits), run[1..], limits)
  }

  // ---------------------------------------------------------------- one failure in words

  /** A failure adds to the count of the window it falls into. At the maximum the user is locked out for
      exactly the lockout, the caller is told until when, and the count starts again. */
  lemma FailureInWords(row: Option<Attempt>, now: Time, limits: Limits, at: Time)
    ensures var live := row.Some? && now <= row.value.lastFailedAt + limits.window;
      var count := (if live then row.value.failedCount else 0) + 1;
      var after := Failed(row, now, limits);
      && after.lastFailedAt == now && after.firstFailedAt == (if live then row.value.firstFailedAt else now)
      && (if count >= limits.maxFailed
          then
            && after.failedCount == 0 && NewLock(row, now, limits) == Some(now + limits.lockout)
            && Lock(Some(after), at) == if at < now + limits.lockout then Some(now + limits.lockout) else None
          else
            && after.failedCount == count && NewLock(row, now, limits) == None
            && after.lockedUntil == if live then row.value.lockedUntil else None)
  {
  }

  /** Failures further apart than the window never lock, as long as a single one may not. */
  lemma {:induction false} RareFailuresNeverLock(row: Option<Attempt>, run: seq<Event>, limits: Limits)
    requires limits.maxFailed > 1 && forall e :: e in run ==> e.Failure?
    requires run != [] ==> row.Some? ==> run[0].at > row.value.lastFailedAt + limits.window
    requires forall i :: 0 < i < |run| ==> run[i].at > run[i - 1].at + limits.window
    ensures forall a :: a in Answers(row, run, limits) ==> a == None
    decreases |run|
  {
    if run != [] { RareFailuresNeverLock(After(row, run[0], limits), run[1..], limits); }
  }

  /** A row is purged exactly when its last failure is out of the window and its lock, if any, is over. */
  lemma PurgeInWords(row: Option<Attempt>, now: Time, limits: Limits)
    ensures Purged(row, now, limits) ==
      if row.Some? && now > row.value.lastFailedAt + limits.window
        && (row.value.lockedUntil.Some? ==> now > row.value.lockedUntil.value) then None else row
  {
  }

  // ---------------------------------------------------------------- purging is invisible

  /** What a caller sees: the lock on every check, the new lock on every failure. */
  function Answers(row: Option<Attempt>, run: seq<Event>, limits: Limits): seq<Option<Time>>
    decreases |run|
  {
    if run == [] then []
    else
      (match run[0]
       case Failure(now) => [NewLock(row, now, limits)]
       case Check(now) => [Lock(row, now)]
       case _ => [])
      + Answers(After(row, run[0], limits), run[1..], limits)
  }

  function WithoutPurges(run: seq<Event>): seq<Event> {
    if run == [] then []
    else if run[0].Purge? then WithoutPurges(run[1..])
    else [run[0]] + WithoutPurges(run[1..])
  }

  /** Equal, or gone on the one side and long over on the other. */
  predicate SameToCallers(purged: Option<Attempt>, kept: Option<Attempt>, now: Time, limits: Limits) {
    purged == kept || (purged == None && kept.Some? && Stale(kept.value, now, limits))
  }

  lemma SameAnswers(purged: Option<Attempt>, kept: Option<Attempt>, now: Time, at: Time, limits: Limits)
    requires SameToCallers(purged, kept, now, limits) && now <= at
    ensures Lock(purged, at) == Lock(kept, at)
    ensures NewLock(purged, at, limits) == NewLock(kept, at, limits)
    ensures Failed(purged, at, limits) == Failed(kept, at, limits)
    ensures SameToCallers(purged, kept, at, limits)
  {
  }

  /** Take the purges out of any run in the order of time: every answer stays the same, and after the
      next failure so does the row. */
  lemma {:induction false} PurgingIsInvisible(
      purged: Option<Attempt>, kept: Option<Attempt>, run: seq<Event>, now: Time, limits: Limits)
    requires SameToCallers(purged, kept, now, limits) && Ordered(run, now)
    ensures Answers(purged, run, limits) == Answers(kept, WithoutPurges(run), limits)
    ensures run != [] && run[|run| - 1].Failure? ==>
      RowAfter(purged, run, limits) == RowAfter(kept, WithoutPurges(run), limits)
    decreases |run|
  {
    if run != [] {
      var e := run[0];
      SameAnswers(purged, kept, now, e.at, limits);
      var purged', kept' := After(purged, e, limits), if e.Purge? then kept else After(kept, e, limits);
      PurgingIsInvisible(purged', kept', run[1..], e.at, limits);
      if !e.Purge? { assert WithoutPurges(run)[1..] == WithoutPurges(run[1..]); }
    }
  }
}
