/** The outbox: a sweep sends what waits and is due, backs off exponentially after failures and gives up
    after a number of attempts. */
module Delivery {
  import opened Domain

  datatype DeliveryStatus = Pending | Failed | Sent | Abandoned

  /** Rows stand in the order they were created in. */
  datatype Row = Row(status: DeliveryStatus, attempts: nat, lastAttemptAt: Option<Time>, channel: Id, notification: Id)

  /** What a channel answers: delivered, a delivery error worth repeating or not, or anything else it
      may throw. */
  datatype Answer = Delivered | Retryable | Permanent | Unexpected

  /** Durations are in the unit of `Time`. */
  datatype Limits = Limits(batchSize: nat, maxAttempts: int, retryBase: nat)

  /** What a sweep finds around it: the configured channels, the notifications that may go out, and the
      answer to sending each row. */
  datatype World = World(channels: set<Id>, sendable: set<Id>, answer: nat -> Answer)

  datatype Outcome = Outcome(sent: nat, failed: nat, abandoned: nat)

  function Pow2(n: nat): (p: nat)
    ensures p >= 1
  {
    if n == 0 then 1 else 2 * Pow2(n - 1)
  }

  function RetryDelay(attempts: nat, limits: Limits): nat {
    limits.retryBase * Pow2(if attempts == 0 then 0 else attempts - 1)
  }

  predicate Due(r: Row, now: Time, limits: Limits) {
    r.lastAttemptAt == None || r.lastAttemptAt.value + RetryDelay(r.attempts, limits) <= now
  }

  predicate Waiting(r: Row) {
    r.status == Pending || r.status == Failed
  }

  // ---------------------------------------------------------------- which rows a sweep takes up

  function Take(s: seq<nat>, n: nat): seq<nat> {
    if |s| <= n then s else s[..n]
  }

  /** Positions in a table of `n` rows. */
  predicate Within(s: seq<nat>, n: nat) {
    forall j :: 0 <= j < |s| ==> s[j] < n
  }

  /** The positions of the waiting rows. */
  function WaitingRows(rows: seq<Row>): (s: seq<nat>)
    ensures Within(s, |rows|)
  {
    if rows == [] then []
    else
      var earlier := WaitingRows(rows[..|rows| - 1]);
      if Waiting(rows[|rows| - 1]) then earlier + [|rows| - 1] else earlier
  }

  function DueRows(rows: seq<Row>, candidates: seq<nat>, now: Time, limits: Limits): (s: seq<nat>)
    requires Within(candidates, |rows|)
    ensures Within(s, |rows|)
  {
    if candidates == [] then []
    else
      var n := |candidates| - 1;
      var earlier := DueRows(rows, candidates[..n], now, limits);
      if Due(rows[candidates[n]], now, limits) then earlier + [candidates[n]] else earlier
  }

  /** Four batches of waiting rows are read; a batch of those that are due is taken up. */
  function Batch(rows: seq<Row>, now: Time, limits: Limits): (s: seq<nat>)
    ensures Within(s, |rows|)
  {
    var candidates := Take(WaitingRows(rows), 4 * limits.batchSize);
    Take(DueRows(rows, candidates, now, limits), limits.batchSize)
  }

  // ---------------------------------------------------------------- one row

  /** The row after it was taken up. */
  function Processed(r: Row, k: nat, now: Time, world: World, limits: Limits): Row {
    if r.channel !in world.channels then r
    else if r.notification !in world.sendable then r.(status := Abandoned)
    else
      r.(attempts := r.attempts + 1, lastAttemptAt := Some(now), status :=
        match world.answer(k)
        case Delivered => Sent
        case Permanent => Abandoned
        case Retryable => if r.attempts + 1 >= limits.maxAttempts then Abandoned else Failed
        case Unexpected => Failed)
  }

  /** The table after these rows were taken up one after the other. */
  function SweptBy(rows: seq<Row>, batch: seq<nat>, now: Time, world: World, limits: Limits): (rows': seq<Row>)
    requires Within(batch, |rows|)
    ensures |rows'| == |rows|
  {
    if batch == [] then rows
    else
      var n := |batch| - 1;
      var earlier := SweptBy(rows, batch[..n], now, world, limits);
      earlier[batch[n] := Processed(earlier[batch[n]], batch[n], now, world, limits)]
  }

  function Swept(rows: seq<Row>, now: Time, world: World, limits: Limits): (rows': seq<Row>)
    ensures |rows'| == |rows|
  {
    if world.channels == {} then rows else SweptBy(rows, Batch(rows, now, limits), now, world, limits)
  }

  // ---------------------------------------------------------------- the sweep

  predicate Ascending(s: seq<nat>) {
    forall i, j :: 0 <= i < j < |s| ==> s[i] < s[j]
  }

  predicate AllWaiting(rows: seq<Row>, s: seq<nat>)
    requires Within(s, |rows|)
  {
    forall j :: 0 <= j < |s| ==> Waiting(rows[s[j]])
  }

  predicate AllDue(rows: seq<Row>, s: seq<nat>, now: Time, limits: Limits)
    requires Within(s, |rows|)
  {
    forall j :: 0 <= j < |s| ==> Due(rows[s[j]], now, limits)
  }

  lemma {:induction false} WaitingAscend(rows: seq<Row>)
    ensures Ascending(WaitingRows(rows))
  {
    if rows != [] { WaitingAscend(rows[..|rows| - 1]); }
  }

  lemma MoreRows(init: seq<Row>, rows: seq<Row>, s: seq<nat>)
    requires init <= rows && Within(s, |init|) && AllWaiting(init, s)
    ensures AllWaiting(rows, s)
  {
  }

  lemma {:induction false} WaitingRowsWait(rows: seq<Row>)
    ensures AllWaiting(rows, WaitingRows(rows))
  {
    if rows != [] {
      var init := rows[..|rows| - 1];
      WaitingRowsWait(init);
      MoreRows(init, rows, WaitingRows(init));
    }
  }

  lemma {:induction false} DueAscend(rows: seq<Row>, candidates: seq<nat>, now: Time, limits: Limits)
    requires Within(candidates, |rows|) && Ascending(candidates) && AllWaiting(rows, candidates)
    ensures var s := DueRows(rows, candidates, now, limits);
      && Ascending(s) && AllWaiting(rows, s) && AllDue(rows, s, now, limits)
      && (s != [] ==> s[|s| - 1] <= candidates[|candidates| - 1])
  {
    if candidates != [] { DueAscend(rows, candidates[..|candidates| - 1], now, limits); }
  }

  /** A sweep takes each row up at most once, in the order of creation, and only if it waits and is
      due. */
  lemma BatchIsSound(rows: seq<Row>, now: Time, limits: Limits)
    ensures var batch := Batch(rows, now, limits);
      && Ascending(batch) && |batch| <= limits.batchSize
      && AllWaiting(rows, batch) && AllDue(rows, batch, now, limits)
  {
    WaitingAscend(rows);
    WaitingRowsWait(rows);
    DueAscend(rows, Take(WaitingRows(rows), 4 * limits.batchSize), now, limits);
  }

  function Booked(before: Row, after: Row, o: Outcome): Outcome {
    if after.status == Sent then o.(sent := o.sent + 1)
    else if after.status == Abandoned then o.(abandoned := o.abandoned + 1)
    else if after.attempts > before.attempts then o.(failed := o.failed + 1)
    else o
  }

  /** How many of these rows ended in which way. */
  function Tally(batch: seq<nat>, rows: seq<Row>, now: Time, world: World, limits: Limits): Outcome
    requires Within(batch, |rows|)
  {
    if batch == [] then Outcome(0, 0, 0)
    else
      var n := |batch| - 1;
      var earlier := SweptBy(rows, batch[..n], now, world, limits);
      Booked(earlier[batch[n]], Processed(earlier[batch[n]], batch[n], now, world, limits),
             Tally(batch[..n], rows, now, world, limits))
  }

  /** Each row is processed once, from what it was before the sweep. */
  lemma {:induction false} EachRowOnce(rows: seq<Row>, batch: seq<nat>, now: Time, world: World, limits: Limits, k: nat)
    requires Within(batch, |rows|) && Ascending(batch) && k < |rows|
    ensures SweptBy(rows, batch, now, world, limits)[k]
      == if At(batch, k) then Processed(rows[k], k, now, world, limits) else rows[k]
  {
    if batch != [] {
      var n := |batch| - 1;
      EachRowOnce(rows, batch[..n], now, world, limits, k);
      if batch[n] == k {
        assert !At(batch[..n], k);
        assert At(batch, k);
      } else if At(batch, k) {
        var j :| 0 <= j < |batch| && batch[j] == k;
        assert batch[..n][j] == k;
      } else {
        assert forall j :: 0 <= j < n ==> batch[..n][j] == batch[j];
      }
    }
  }

  predicate At(batch: seq<nat>, k: nat) {
    exists j :: 0 <= j < |batch| && batch[j] == k
  }

  lemma OneMore(rows: seq<Row>, batch: seq<nat>, i: nat, now: Time, world: World, limits: Limits)
    requires i < |batch| && Within(batch, |rows|) && Ascending(batch) && AllWaiting(rows, batch)
    ensures var earlier, k := SweptBy(rows, batch[..i], now, world, limits), batch[i];
      var processed := Processed(earlier[k], k, now, world, limits);
      && Waiting(earlier[k])
      && SweptBy(rows, batch[..i + 1], now, world, limits) == earlier[k := processed]
      && Tally(batch[..i + 1], rows, now, world, limits)
        == Booked(earlier[k], processed, Tally(batch[..i], rows, now, world, limits))
  {
    EachRowOnce(rows, batch[..i], now, world, limits, batch[i]);
    assert batch[..i + 1][..i] == batch[..i];
  }

  class Outbox {
    const limits: Limits
    var rows: seq<Row>

    constructor (limits: Limits, rows: seq<Row>)
      ensures this.limits == limits && this.rows == rows
    {
      this.limits := limits;
      this.rows := rows;
    }

    /** Takes one row up. */
    method Deliver(k: nat, now: Time, world: World, outcome: Outcome) returns (outcome': Outcome)
      requires k < |rows| && Waiting(rows[k])
      modifies this
      ensures rows == old(rows)[k := Processed(old(rows)[k], k, now, world, limits)]
      ensures outcome' == Booked(old(rows)[k], Processed(old(rows)[k], k, now, world, limits), outcome)
    {
      var r := rows[k];
      if r.channel !in world.channels {
        return outcome;
      }
      if r.notification !in world.sendable {
        rows := rows[k := r.(status := Abandoned)];
        return outcome.(abandoned := outcome.abandoned + 1);
      }
      r := r.(attempts := r.attempts + 1, lastAttemptAt := Some(now));
      var answer := world.answer(k);
      if answer == Permanent || (answer == Retryable && r.attempts >= limits.maxAttempts) {
        rows := rows[k := r.(status := Abandoned)];
        return outcome.(abandoned := outcome.abandoned + 1);
      } else if answer == Retryable || answer == Unexpected {
        rows := rows[k := r.(status := DeliveryStatus.Failed)];
        return outcome.(failed := outcome.failed + 1);
      }
      rows := rows[k := r.(status := Sent)];
      return outcome.(sent := outcome.sent + 1);
    }

    method Sweep(now: Time, world: World) returns (outcome: Outcome)
      modifies this
      ensures rows == Swept(old(rows), now, world, limits)
      ensures outcome ==
        if world.channels == {} then Outcome(0, 0, 0)
        else Tally(Batch(old(rows), now, limits), old(rows), now, world, limits)
    {
      outcome := Outcome(0, 0, 0);
      if world.channels == {} { return; }
      var batch := Batch(rows, now, limits);
      BatchIsSound(rows, now, limits);
      for i := 0 to |batch|
        invariant rows == SweptBy(old(rows), batch[..i], now, world, limits)
        invariant outcome == Tally(batch[..i], old(rows), now, world, limits)
      {
        OneMore(old(rows), batch, i, now, world, limits);
        outcome := Deliver(batch[i], now, world, outcome);
      }
      assert batch[..|batch|] == batch;
    }
  }

  // ---------------------------------------------------------------- runs of sweeps

  /** A sweep, and the rows that were enqueued since the one before. */
  datatype Timed = Timed(enqueued: seq<Row>, world: World, at: Time)

  function After(rows: seq<Row>, t: Timed, limits: Limits): (rows': seq<Row>)
    ensures |rows'| == |rows| + |t.enqueued|
  {
    Swept(rows + t.enqueued, t.at, t.world, limits)
  }

  function Played(rows: seq<Row>, run: seq<Timed>, limits: Limits): (end: seq<Row>)
    ensures |end| >= |rows|
    decreases |run|
  {
    if run == [] then rows else Played(After(rows, run[0], limits), run[1..], limits)
  }

  /** The times at which a row was attempted. */
  function AttemptTimes(rows: seq<Row>, run: seq<Timed>, k: nat, limits: Limits): seq<Time>
    decreases |run|
  {
    if run == [] || k >= |rows| then []
    else
      var rows' := After(rows, run[0], limits);
      (if rows'[k].attempts > rows[k].attempts then [run[0].at] else [])
      + AttemptTimes(rows', run[1..], k, limits)
  }

  /** A sweep leaves a row alone, or processes it when it waits and is due. */
  lemma RowStep(rows: seq<Row>, t: Timed, limits: Limits, k: nat)
    requires k < |rows|
    ensures var r' := After(rows, t, limits)[k];
      r' == rows[k]
      || (Waiting(rows[k]) && Due(rows[k], t.at, limits) && r' == Processed(rows[k], k, t.at, t.world, limits))
  {
    if t.world.channels != {} {
      var all := rows + t.enqueued;
      var batch := Batch(all, t.at, limits);
      BatchIsSound(all, t.at, limits);
      EachRowOnce(all, batch, t.at, t.world, limits, k);
      if At(batch, k) {
        var j :| 0 <= j < |batch| && batch[j] == k;
      }
    }
  }

  /** What is sent or given up stays as it is. */
  lemma {:induction false} SettledStays(rows: seq<Row>, run: seq<Timed>, limits: Limits, k: nat)
    requires k < |rows| && !Waiting(rows[k])
    ensures Played(rows, run, limits)[k] == rows[k]
    ensures AttemptTimes(rows, run, k, limits) == []
    decreases |run|
  {
    if run != [] {
      RowStep(rows, run[0], limits, k);
      SettledStays(After(rows, run[0], limits), run[1..], limits, k);
    }
  }

  // ---------------------------------------------------------------- the backoff

  /** The earliest time of the (n + 1)-th attempt, when the first was at `first`. */
  function Earliest(first: Time, n: nat, limits: Limits): Time {
    first + limits.retryBase * (Pow2(n) - 1)
  }

  lemma NextEarliest(first: Time, n: nat, limits: Limits)
    requires n > 0
    ensures Earliest(first, n, limits) == Earliest(first, n - 1, limits) + RetryDelay(n, limits)
  {
    calc {
      Earliest(first, n - 1, limits) + RetryDelay(n, limits);
      first + limits.retryBase * (Pow2(n - 1) - 1) + limits.retryBase * Pow2(n - 1);
      first + limits.retryBase * (2 * Pow2(n - 1) - 1);
      Earliest(first, n, limits);
    }
  }

  /** The row has been attempted `attempts` times, the last time not before its earliest time. */
  predicate BackedOff(r: Row, first: Time, limits: Limits) {
    r.attempts > 0 && r.lastAttemptAt.Some? && r.lastAttemptAt.value >= Earliest(first, r.attempts - 1, limits)
  }

  lemma AttemptKeepsBackoff(r: Row, first: Time, now: Time, k: nat, world: World, limits: Limits)
    requires BackedOff(r, first, limits) && Due(r, now, limits)
    ensures BackedOff(Processed(r, k, now, world, limits), first, limits)
    ensures Processed(r, k, now, world, limits).attempts > r.attempts ==> now >= Earliest(first, r.attempts, limits)
  {
    NextEarliest(first, r.attempts, limits);
  }

  /** These are the attempts after the first `done` ones, none before its time. */
  predicate NoneTooEarly(times: seq<Time>, first: Time, done: nat, limits: Limits) {
    forall n :: 0 <= n < |times| ==> times[n] >= Earliest(first, done + n, limits)
  }

  lemma OneEarlier(time: Time, times: seq<Time>, first: Time, done: nat, limits: Limits)
    requires time >= Earliest(first, done, limits) && NoneTooEarly(times, first, done + 1, limits)
    ensures NoneTooEarly([time] + times, first, done, limits)
  {
    forall n | 0 < n < |[time] + times| ensures ([time] + times)[n] >= Earliest(first, done + n, limits) {
      assert times[n - 1] >= Earliest(first, done + 1 + (n - 1), limits);
    }
  }

  lemma FirstIsEarliest(first: Time, limits: Limits)
    ensures Earliest(first, 0, limits) == first
  {
  }

  lemma AttemptTimesStep(rows: seq<Row>, run: seq<Timed>, k: nat, limits: Limits)
    requires run != [] && k < |rows|
    ensures var rows' := After(rows, run[0], limits);
      var rest := AttemptTimes(rows', run[1..], k, limits);
      && (rows'[k].attempts == rows[k].attempts || rows'[k].attempts == rows[k].attempts + 1)
      && AttemptTimes(rows, run, k, limits)
        == if rows'[k].attempts == rows[k].attempts then rest else [run[0].at] + rest
  {
    RowStep(rows, run[0], limits, k);
  }

  lemma SweepKeepsBackoff(rows: seq<Row>, t: Timed, limits: Limits, k: nat, first: Time)
    requires k < |rows| && BackedOff(rows[k], first, limits)
    ensures var r' := After(rows, t, limits)[k];
      && BackedOff(r', first, limits)
      && (r'.attempts != rows[k].attempts ==> t.at >= Earliest(first, rows[k].attempts, limits))
  {
    RowStep(rows, t, limits, k);
    if After(rows, t, limits)[k] != rows[k] { AttemptKeepsBackoff(rows[k], first, t.at, k, t.world, limits); }
  }

  lemma {:induction false} LaterAttempts(rows: seq<Row>, run: seq<Timed>, limits: Limits, k: nat, first: Time)
    requires k < |rows| && BackedOff(rows[k], first, limits)
    ensures NoneTooEarly(AttemptTimes(rows, run, k, limits), first, rows[k].attempts, limits)
    decreases |run|
  {
    if run != [] {
      var now := run[0].at;
      var rows' := After(rows, run[0], limits);
      SweepKeepsBackoff(rows, run[0], limits, k, first);
      AttemptTimesStep(rows, run, k, limits);
      LaterAttempts(rows', run[1..], limits, k, first);
      if rows'[k].attempts != rows[k].attempts {
        OneEarlier(now, AttemptTimes(rows', run[1..], k, limits), first, rows[k].attempts, limits);
      }
    }
  }

  predicate Fresh(r: Row) {
    r.attempts == 0 && r.lastAttemptAt == None
  }

  lemma FirstAttempt(rows: seq<Row>, t: Timed, limits: Limits, k: nat)
    requires k < |rows| && Fresh(rows[k])
    ensures var r' := After(rows, t, limits)[k]; Fresh(r') || (r'.attempts == 1 && BackedOff(r', t.at, limits))
  {
    RowStep(rows, t, limits, k);
    FirstIsEarliest(t.at, limits);
  }

  /** The n-th of these attempts comes at least base * (2^(n-1) - 1) after the first. */
  predicate Spaced(times: seq<Time>, limits: Limits) {
    times != [] ==> NoneTooEarly(times, times[0], 0, limits)
  }

  lemma SpacedFrom(first: Time, times: seq<Time>, limits: Limits)
    requires NoneTooEarly(times, first, 1, limits)
    ensures Spaced([first] + times, limits)
  {
    FirstIsEarliest(first, limits);
    OneEarlier(first, times, first, 0, limits);
  }

  /** Over any run of sweeps, whatever is enqueued between them, the attempts on a new row back off. */
  lemma {:induction false} Backoff(rows: seq<Row>, run: seq<Timed>, limits: Limits, k: nat)
    requires k < |rows| && Fresh(rows[k])
    ensures Spaced(AttemptTimes(rows, run, k, limits), limits)
    decreases |run|
  {
    if run != [] {
      var rows' := After(rows, run[0], limits);
      FirstAttempt(rows, run[0], limits, k);
      AttemptTimesStep(rows, run, k, limits);
      if Fresh(rows'[k]) {
        Backoff(rows', run[1..], limits, k);
      } else {
        LaterAttempts(rows', run[1..], limits, k, run[0].at);
        SpacedFrom(run[0].at, AttemptTimes(rows', run[1..], k, limits), limits);
      }
    }
  }

  // ---------------------------------------------------------------- giving up

  /** The attempts on a row that were answered by something else than a delivery error. */
  function Surprises(rows: seq<Row>, run: seq<Timed>, k: nat, limits: Limits): nat
    decreases |run|
  {
    if run == [] || k >= |rows| then 0
    else
      var rows' := After(rows, run[0], limits);
      (if rows'[k].attempts > rows[k].attempts && run[0].world.answer(k) == Unexpected then 1 else 0)
      + Surprises(rows', run[1..], k, limits)
  }

  function AtLeastOne(n: int): int {
    if n > 1 then n else 1
  }

  lemma {:induction false} NoMoreSurprises(rows: seq<Row>, run: seq<Timed>, limits: Limits, k: nat)
    requires k < |rows| && !Waiting(rows[k])
    ensures Surprises(rows, run, k, limits) == 0
    decreases |run|
  {
    if run != [] {
      RowStep(rows, run[0], limits, k);
      NoMoreSurprises(After(rows, run[0], limits), run[1..], limits, k);
    }
  }

  /** Over any run, from any state of the row: apart from the attempts that ended in an unexpected
      exception, it is attempted at most as often as the maximum still allows, and once more if it allows
      nothing. */
  lemma {:induction false} AttemptsAreBounded(rows: seq<Row>, run: seq<Timed>, limits: Limits, k: nat)
    requires k < |rows|
    ensures |AttemptTimes(rows, run, k, limits)| - Surprises(rows, run, k, limits)
      <= AtLeastOne(limits.maxAttempts - rows[k].attempts)
    decreases |run|
  {
    if run != [] {
      var rows' := After(rows, run[0], limits);
      RowStep(rows, run[0], limits, k);
      AttemptTimesStep(rows, run, k, limits);
      if Waiting(rows'[k]) {
        AttemptsAreBounded(rows', run[1..], limits, k);
      } else {
        SettledStays(rows', run[1..], limits, k);
        NoMoreSurprises(rows', run[1..], limits, k);
      }
    }
  }

  /** A fresh row that only ever fails with a delivery error is attempted at most `maxAttempts` times, and
      once if that is not positive. */
  lemma DeliveryErrorsAreBounded(rows: seq<Row>, run: seq<Timed>, limits: Limits, k: nat)
    requires k < |rows| && rows[k].attempts == 0
    requires forall i :: 0 <= i < |run| ==> run[i].world.answer(k) != Unexpected
    ensures |AttemptTimes(rows, run, k, limits)| <= AtLeastOne(limits.maxAttempts)
  {
    AttemptsAreBounded(rows, run, limits, k);
    NeverSurprised(rows, run, limits, k);
  }

  lemma {:induction false} NeverSurprised(rows: seq<Row>, run: seq<Timed>, limits: Limits, k: nat)
    requires forall i :: 0 <= i < |run| ==> run[i].world.answer(k) != Unexpected
    ensures Surprises(rows, run, k, limits) == 0
    decreases |run|
  {
    if run != [] && k < |rows| {
      NeverSurprised(After(rows, run[0], limits), run[1..], limits, k);
    }
  }

  lemma LoneRow(r: Row, now: Time, world: World, limits: Limits)
    requires Waiting(r) && Due(r, now, limits) && limits.batchSize > 0 && world.channels != {}
    ensures Swept([r], now, world, limits) == [Processed(r, 0, now, world, limits)]
  {
    assert [r][..0] == [] && WaitingRows([]) == [];
    assert WaitingRows([r]) == [0];
    assert [0][..0] == [] && DueRows([r], [0][..0], now, limits) == [];
    assert DueRows([r], [0], now, limits) == [0];
    assert Batch([r], now, limits) == [0];
    EachRowOnce([r], [0], now, world, limits, 0);
    assert At([0], 0);
  }

  /** With anything else than a delivery error there is no bound: the limit on attempts is not looked
      at, and the row stays in the queue for as many attempts as there are sweeps far enough apart. */
  lemma {:induction false} UnexpectedNeverGivesUp(
      r: Row, n: nat, limits: Limits, world: World, now: Time) returns (run: seq<Timed>)
    requires Waiting(r) && Due(r, now, limits) && limits.batchSize > 0
    requires r.channel in world.channels && r.notification in world.sendable && world.answer(0) == Unexpected
    ensures var end := Played([r], run, limits)[0];
      Waiting(end) && end.attempts == r.attempts + n
    decreases n
  {
    if n == 0 {
      run := [];
    } else {
      LoneRow(r, now, world, limits);
      var r' := Processed(r, 0, now, world, limits);
      var rest := UnexpectedNeverGivesUp(r', n - 1, limits, world, now + RetryDelay(r'.attempts, limits));
      run := [Timed([], world, now)] + rest;
      assert [r] + [] == [r];
      assert run[1..] == rest;
    }
  }

  // ---------------------------------------------------------------- whose turn it is

  lemma {:induction false} WaitingRowsAreAll(rows: seq<Row>, k: nat)
    requires k < |rows| && Waiting(rows[k])
    ensures At(WaitingRows(rows), k)
  {
    var init := rows[..|rows| - 1];
    if k < |init| {
      WaitingRowsAreAll(init, k);
      var j :| 0 <= j < |WaitingRows(init)| && WaitingRows(init)[j] == k;
      assert WaitingRows(rows)[j] == k;
    } else {
      assert WaitingRows(rows)[|WaitingRows(init)|] == k;
    }
  }

  /** How many of these rows are due. */
  function CountDue(rows: seq<Row>, s: seq<nat>, now: Time, limits: Limits): nat
    requires Within(s, |rows|)
  {
    if s == [] then 0
    else CountDue(rows, s[..|s| - 1], now, limits) + (if Due(rows[s[|s| - 1]], now, limits) then 1 else 0)
  }

  lemma {:induction false} CountDueIsLength(rows: seq<Row>, s: seq<nat>, now: Time, limits: Limits)
    requires Within(s, |rows|)
    ensures CountDue(rows, s, now, limits) == |DueRows(rows, s, now, limits)| <= |s|
  {
    if s != [] { CountDueIsLength(rows, s[..|s| - 1], now, limits); }
  }

  lemma {:induction false} DuePrefix(rows: seq<Row>, s: seq<nat>, m: nat, now: Time, limits: Limits)
    requires Within(s, |rows|) && m <= |s|
    ensures DueRows(rows, s[..m], now, limits) <= DueRows(rows, s, now, limits)
    decreases |s|
  {
    if m < |s| {
      DuePrefix(rows, s[..|s| - 1], m, now, limits);
      assert s[..|s| - 1][..m] == s[..m];
    } else {
      assert s[..m] == s;
    }
  }

  /** A due row stands among the due rows where the number of due rows before it says. */
  lemma PlaceAmongTheDue(rows: seq<Row>, s: seq<nat>, p: nat, now: Time, limits: Limits)
    requires Within(s, |rows|) && p < |s| && Due(rows[s[p]], now, limits)
    ensures CountDue(rows, s[..p], now, limits) < |DueRows(rows, s, now, limits)|
    ensures DueRows(rows, s, now, limits)[CountDue(rows, s[..p], now, limits)] == s[p]
  {
    CountDueIsLength(rows, s[..p], now, limits);
    assert s[..p + 1][..p] == s[..p] && s[..p + 1][p] == s[p];
    DuePrefix(rows, s, p + 1, now, limits);
    var upTo := DueRows(rows, s[..p + 1], now, limits);
    assert upTo == DueRows(rows, s[..p], now, limits) + [s[p]];
    assert upTo[|upTo| - 1] == DueRows(rows, s, now, limits)[|upTo| - 1];
  }

  lemma AscendingOnce(s: seq<nat>, i: nat, n: nat)
    requires Ascending(s) && i < |s|
    ensures At(Take(s, n), s[i]) <==> i < n
  {
    if i < n { assert Take(s, n)[i] == s[i]; }
  }

  /** Exactly whose turn it is: a waiting, due row is taken up if and only if it is among the first four
      batches of waiting rows and fewer than a batch of the waiting rows before it are due. */
  lemma TurnExactly(rows: seq<Row>, now: Time, limits: Limits, p: nat)
    requires p < |WaitingRows(rows)| && Due(rows[WaitingRows(rows)[p]], now, limits)
    ensures At(Batch(rows, now, limits), WaitingRows(rows)[p])
      <==> p < 4 * limits.batchSize && CountDue(rows, WaitingRows(rows)[..p], now, limits) < limits.batchSize
  {
    var waiting := WaitingRows(rows);
    var candidates := Take(waiting, 4 * limits.batchSize);
    WaitingAscend(rows);
    WaitingRowsWait(rows);
    DueAscend(rows, candidates, now, limits);
    var due := DueRows(rows, candidates, now, limits);
    if p < |candidates| {
      assert candidates[..p] == waiting[..p];
      PlaceAmongTheDue(rows, candidates, p, now, limits);
      AscendingOnce(due, CountDue(rows, waiting[..p], now, limits), limits.batchSize);
    } else {
      forall j | 0 <= j < |due| ensures due[j] < waiting[p] {
        assert due[j] <= due[|due| - 1];
      }
    }
  }

  /** As long as the waiting rows fit into one batch, every one that is due is taken up. */
  lemma SmallQueueIsServed(rows: seq<Row>, now: Time, world: World, limits: Limits, k: nat)
    requires k < |rows| && |WaitingRows(rows)| <= limits.batchSize && world.channels != {}
    requires Waiting(rows[k]) && Due(rows[k], now, limits)
    ensures Swept(rows, now, world, limits)[k] == Processed(rows[k], k, now, world, limits)
  {
    var waiting := WaitingRows(rows);
    WaitingRowsAreAll(rows, k);
    var p :| 0 <= p < |waiting| && waiting[p] == k;
    TurnExactly(rows, now, limits, p);
    CountDueIsLength(rows, waiting[..p], now, limits);
    BatchIsSound(rows, now, limits);
    EachRowOnce(rows, Batch(rows, now, limits), now, world, limits, k);
  }

  // ---------------------------------------------------------------- a blocked queue

  /** A row whose channel is no longer configured is meant to wait. */
  predicate Parked(r: Row, world: World) {
    r.channel !in world.channels
  }

  /** A sweep changes nothing exactly if no channel is configured or all rows whose turn it is are parked. */
  lemma IdleExactly(rows: seq<Row>, now: Time, world: World, limits: Limits)
    ensures Swept(rows, now, world, limits) == rows
      <==> (world.channels == {}
            || forall k: nat :: k < |rows| && At(Batch(rows, now, limits), k) ==> Parked(rows[k], world))
  {
    var batch := Batch(rows, now, limits);
    BatchIsSound(rows, now, limits);
    forall k: nat | k < |rows| && world.channels != {}
      ensures Swept(rows, now, world, limits)[k] == rows[k] <==> At(batch, k) ==> Parked(rows[k], world)
    {
      EachRowOnce(rows, batch, now, world, limits, k);
      if At(batch, k) {
        var j :| 0 <= j < |batch| && batch[j] == k;
        assert Waiting(rows[k]);
      }
    }
  }

  lemma {:induction false} AllDueCounted(rows: seq<Row>, s: seq<nat>, now: Time, limits: Limits)
    requires Within(s, |rows|) && AllDue(rows, s, now, limits)
    ensures CountDue(rows, s, now, limits) == |s|
  {
    if s != [] { AllDueCounted(rows, s[..|s| - 1], now, limits); }
  }

  lemma {:induction false} CountDueGrows(rows: seq<Row>, s: seq<nat>, m: nat, now: Time, limits: Limits)
    requires Within(s, |rows|) && m <= |s|
    ensures CountDue(rows, s[..m], now, limits) <= CountDue(rows, s, now, limits)
    decreases |s|
  {
    if m < |s| {
      CountDueGrows(rows, s[..|s| - 1], m, now, limits);
      assert s[..|s| - 1][..m] == s[..m];
    } else {
      assert s[..m] == s;
    }
  }

  lemma BehindAFullBatch(rows: seq<Row>, s: seq<nat>, n: nat, p: nat, now: Time, limits: Limits)
    requires Within(s, |rows|) && n <= p <= |s| && AllDue(rows, s[..n], now, limits)
    ensures CountDue(rows, s[..p], now, limits) >= n
  {
    AllDueCounted(rows, s[..n], now, limits);
    CountDueGrows(rows, s[..p], n, now, limits);
    assert s[..p][..n] == s[..n];
  }

  /** The first batch of waiting rows is due, so that every turn is theirs. */
  predicate Jammed(rows: seq<Row>, now: Time, limits: Limits) {
    |WaitingRows(rows)| >= limits.batchSize && AllDue(rows, WaitingRows(rows)[..limits.batchSize], now, limits)
  }

  predicate FrontParked(rows: seq<Row>, world: World, limits: Limits) {
    forall j :: 0 <= j < limits.batchSize && j < |WaitingRows(rows)| ==> Parked(rows[WaitingRows(rows)[j]], world)
  }

  lemma JammedSweepIsIdle(rows: seq<Row>, now: Time, later: Time, world: World, limits: Limits)
    requires Jammed(rows, now, limits) && FrontParked(rows, world, limits) && now <= later
    ensures Swept(rows, later, world, limits) == rows
  {
    var waiting, n := WaitingRows(rows), limits.batchSize;
    BatchIsSound(rows, later, limits);
    forall k: nat | k < |rows| && At(Batch(rows, later, limits), k) ensures Parked(rows[k], world) {
      var j :| 0 <= j < |Batch(rows, later, limits)| && Batch(rows, later, limits)[j] == k;
      WaitingRowsAreAll(rows, k);
      var p :| 0 <= p < |waiting| && waiting[p] == k;
      TurnExactly(rows, later, limits, p);
      if p >= n {
        BehindAFullBatch(rows, waiting, n, p, later, limits);
        assert false;
      }
    }
    IdleExactly(rows, later, world, limits);
  }

  /** New rows queue up behind the others. */
  lemma {:induction false} NewRowsQueueUp(rows: seq<Row>, enqueued: seq<Row>)
    ensures WaitingRows(rows) <= WaitingRows(rows + enqueued)
    decreases |enqueued|
  {
    if enqueued == [] {
      assert rows + enqueued == rows;
    } else {
      var n := |enqueued| - 1;
      NewRowsQueueUp(rows, enqueued[..n]);
      assert (rows + enqueued)[..|rows + enqueued| - 1] == rows + enqueued[..n];
    }
  }

  lemma StillJammed(rows: seq<Row>, enqueued: seq<Row>, now: Time, world: World, limits: Limits)
    requires Jammed(rows, now, limits)
    ensures Jammed(rows + enqueued, now, limits)
    ensures FrontParked(rows + enqueued, world, limits) == FrontParked(rows, world, limits)
  {
    NewRowsQueueUp(rows, enqueued);
    var front, front' := WaitingRows(rows)[..limits.batchSize], WaitingRows(rows + enqueued)[..limits.batchSize];
    assert front' == front;
    forall j | 0 <= j < |front|
      ensures (rows + enqueued)[front'[j]] == rows[front[j]] && front[j] == WaitingRows(rows)[j]
    {
    }
  }

  function Enqueued(run: seq<Timed>): seq<Row> {
    if run == [] then [] else run[0].enqueued + Enqueued(run[1..])
  }

  /** But a full batch of parked rows, due and older than the rest, takes every turn: as long as their
      channels are missing, no sweep does anything at all, and what is enqueued meanwhile only waits too. */
  lemma {:induction false} ParkedRowsBlockTheQueue(rows: seq<Row>, run: seq<Timed>, now: Time, limits: Limits)
    requires Jammed(rows, now, limits)
    requires forall i :: 0 <= i < |run| ==> now <= run[i].at && FrontParked(rows, run[i].world, limits)
    ensures Played(rows, run, limits) == rows + Enqueued(run)
    decreases |run|
  {
    if run == [] {
      assert rows + Enqueued(run) == rows;
    } else {
      var all, t := rows + run[0].enqueued, run[0];
      StillJammed(rows, t.enqueued, now, t.world, limits);
      JammedSweepIsIdle(all, now, t.at, t.world, limits);
      forall i | 0 <= i < |run[1..]| ensures now <= run[1..][i].at && FrontParked(all, run[1..][i].world, limits) {
        StillJammed(rows, t.enqueued, now, run[i + 1].world, limits);
      }
      ParkedRowsBlockTheQueue(all, run[1..], now, limits);
      assert rows + Enqueued(run) == all + Enqueued(run[1..]);
    }
  }

  // ---------------------------------------------------------------- one row in words

  /** What becomes of a row that is taken up while its channel is configured: without a notification it is
      abandoned untried; otherwise the answer decides, and the attempt is counted and dated. */
  lemma AnswerDecides(r: Row, k: nat, now: Time, world: World, limits: Limits)
    requires r.channel in world.channels
    ensures var r' := Processed(r, k, now, world, limits);
      if r.notification !in world.sendable then r' == r.(status := Abandoned)
      else
        && r' == r.(status := r'.status, attempts := r.attempts + 1, lastAttemptAt := Some(now))
        && (r'.status == Sent <==> world.answer(k) == Delivered)
        && (r'.status == Abandoned <==>
              world.answer(k) == Permanent || (world.answer(k) == Retryable && r.attempts + 1 >= limits.maxAttempts))
        && (Waiting(r') <==>
              world.answer(k) == Unexpected
              || (world.answer(k) == Retryable && r.attempts + 1 < limits.maxAttempts))
  {
  }

  /** The wait after the first attempt is the base, and every further attempt doubles it. */
  lemma WaitsDouble(r: Row, at: Time, now: Time, limits: Limits)
    requires r.lastAttemptAt == Some(at)
    ensures r.attempts == 1 ==> (Due(r, now, limits) <==> now >= at + limits.retryBase)
    ensures r.attempts >= 1 ==> RetryDelay(r.attempts + 1, limits) == 2 * RetryDelay(r.attempts, limits)
    ensures Due(r, now, limits) <==> now >= at + RetryDelay(r.attempts, limits)
  {
    assert Pow2(0) == 1 && Pow2(r.attempts) >= 1;
  }

  // ---------------------------------------------------------------- what a sweep reports

  /** Rows that changed to this status. */
  function CountTo(rows: seq<Row>, rows': seq<Row>, status: DeliveryStatus): nat
    requires |rows'| == |rows|
  {
    if rows == [] then 0
    else
      var n := |rows| - 1;
      CountTo(rows[..n], rows'[..n], status)
      + (if rows[n].status != status && rows'[n].status == status then 1 else 0)
  }

  /** Rows attempted once more that go on waiting. */
  function CountRetried(rows: seq<Row>, rows': seq<Row>): nat
    requires |rows'| == |rows|
  {
    if rows == [] then 0
    else
      var n := |rows| - 1;
      CountRetried(rows[..n], rows'[..n]) + (if Waiting(rows'[n]) && rows'[n].attempts > rows[n].attempts then 1 else 0)
  }

  lemma {:induction false} NothingChanged(rows: seq<Row>)
    ensures CountTo(rows, rows, Sent) == 0 && CountTo(rows, rows, Abandoned) == 0 && CountRetried(rows, rows) == 0
  {
    if rows != [] { NothingChanged(rows[..|rows| - 1]); }
  }

  lemma {:induction false} OneRowChanged(rows: seq<Row>, rows': seq<Row>, k: nat, r: Row)
    requires |rows'| == |rows| && k < |rows| && rows'[k] == rows[k] && Waiting(rows[k])
    ensures var after := rows'[k := r];
      && CountTo(rows, after, Sent) == CountTo(rows, rows', Sent) + (if r.status == Sent then 1 else 0)
      && CountTo(rows, after, Abandoned) == CountTo(rows, rows', Abandoned) + (if r.status == Abandoned then 1 else 0)
      && CountRetried(rows, after)
        == CountRetried(rows, rows') + (if Waiting(r) && r.attempts > rows[k].attempts then 1 else 0)
  {
    var n := |rows| - 1;
    if k < n {
      OneRowChanged(rows[..n], rows'[..n], k, r);
      assert rows'[k := r][..n] == rows'[..n][k := r];
    } else {
      assert rows'[k := r][..n] == rows'[..n];
    }
  }

  /** The counters of a sweep are the numbers of rows that were sent, abandoned and put back. */
  lemma {:induction false} ReportIsTrue(rows: seq<Row>, batch: seq<nat>, now: Time, world: World, limits: Limits)
    requires Within(batch, |rows|) && Ascending(batch) && AllWaiting(rows, batch)
    ensures var rows', report := SweptBy(rows, batch, now, world, limits), Tally(batch, rows, now, world, limits);
      && report.sent == CountTo(rows, rows', Sent) && report.abandoned == CountTo(rows, rows', Abandoned)
      && report.failed == CountRetried(rows, rows')
  {
    if batch == [] {
      NothingChanged(rows);
    } else {
      var n := |batch| - 1;
      var k, earlier := batch[n], SweptBy(rows, batch[..n], now, world, limits);
      ReportIsTrue(rows, batch[..n], now, world, limits);
      EachRowOnce(rows, batch[..n], now, world, limits, k);
      assert !At(batch[..n], k);
      OneRowChanged(rows, earlier, k, Processed(rows[k], k, now, world, limits));
    }
  }
}
