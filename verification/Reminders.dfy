/** The sweep that reminds the owners of cases that have waited too long, and the run of sweeps it is part
    of. Its own list of owners is compared with the transition table. */
module Reminders {
  import opened Domain
  import opened Workflow
  import opened WorkflowRuns
  import LoginGuard
  import Delivery

  /** `enteredAt` is the start of the present stage. */
  datatype CaseRow = CaseRow(record: Id, flow: Case, enteredAt: Time)

  /** The status is part of the key, so that the next stage is reminded anew. */
  datatype Reminder = Reminder(user: UserId, record: Id, status: Status, at: Time)

  predicate Stalled(c: CaseRow, now: Time, patience: nat) {
    c.flow.status in OPEN_STATUSES && c.enteredAt <= now - patience
  }

  // ---------------------------------------------------------------- whom the sweep takes for the owner

  /** `_current_owner_ids`: a list that may hold an empty seat. */
  function CurrentOwnerIds(c: Case, activeHr: seq<UserId>): seq<Option<UserId>> {
    match c.status
    case Draft =>
      var owner :=
        if c.seats.deputy == None && c.seats.supervisor == None then Some(c.seats.ceo)
        else if c.seats.supervisor == None then c.seats.deputy
        else c.seats.supervisor;
      if owner != None then [owner] else []
    case Submitted => seq(|activeHr|, i requires 0 <= i < |activeHr| => Some(activeHr[i]))
    case HrApproved => [c.seats.deputy]
    case DeputyApproved => [Some(c.seats.ceo)]
    case _ => []
  }

  /** All of HR for the HR queue, and otherwise whoever holds the desk. */
  predicate Expected(c: Case, activeHr: seq<UserId>, user: UserId) {
    if c.status == Submitted then user in activeHr else user == DeskHolder(c, 0)
  }

  /** After HR's approval in a chain without a deputy it is the CEO's turn. */
  predicate Forgotten(c: Case) {
    c.status == HrApproved && c.seats.deputy == None
  }

  /** On its chain, an open case is reminded at exactly the desk that can move it, except after HR's
      approval in a chain without a deputy: there the list holds the empty deputy seat. */
  lemma RemindersReachTheDesk(c: Case, activeHr: seq<UserId>)
    requires OnChain(c) && c.status in OPEN_STATUSES
    ensures Forgotten(c) <==> None in CurrentOwnerIds(c, activeHr)
    ensures Forgotten(c) ==> CurrentOwnerIds(c, activeHr) == [None]
    ensures Forgotten(c) ==> TransitionAllowed(c, CeoFinalize, User(c.seats.ceo, CeoRole))
    ensures !Forgotten(c) ==>
      forall user :: Some(user) in CurrentOwnerIds(c, activeHr) <==> Expected(c, activeHr, user)
  {
    var owners := CurrentOwnerIds(c, activeHr);
    if c.status == Submitted {
      forall user ensures Some(user) in owners <==> user in activeHr {
        if user in activeHr {
          var i :| 0 <= i < |activeHr| && activeHr[i] == user;
          assert owners[i] == Some(user);
        }
      }
    }
  }

  // ---------------------------------------------------------------- one reminder

  /** The same reminder has been created at `since` or later. */
  predicate Told(rows: seq<Reminder>, r: Reminder, since: Time) {
    exists i :: 0 <= i < |rows| && rows[i] == r.(at := rows[i].at) && since <= rows[i].at
  }

  /** The column for the user must not be empty: without a user the insertion fails. */
  function NotifiedOnce(
      rows: seq<Reminder>, c: CaseRow, user: Option<UserId>, now: Time, patience: nat): Option<seq<Reminder>> {
    if user == None then None
    else
      var r := Reminder(user.value, c.record, c.flow.status, now);
      Some(if Told(rows, r, now - patience) then rows else rows + [r])
  }

  function OwnersTold(
      rows: seq<Reminder>, c: CaseRow, owners: seq<Option<UserId>>, now: Time, patience: nat): Option<seq<Reminder>> {
    if owners == [] then Some(rows)
    else
      var n := |owners| - 1;
      var earlier := OwnersTold(rows, c, owners[..n], now, patience);
      if earlier == None then None else NotifiedOnce(earlier.value, c, owners[n], now, patience)
  }

  /** The reminders after the sweep over these cases; `None` is the failed insertion. */
  function Swept(
      rows: seq<Reminder>, cases: seq<CaseRow>, activeHr: seq<UserId>, now: Time,
      patience: nat): Option<seq<Reminder>> {
    if cases == [] then Some(rows)
    else
      var n := |cases| - 1;
      var earlier := Swept(rows, cases[..n], activeHr, now, patience);
      if earlier == None || !Stalled(cases[n], now, patience) then earlier
      else OwnersTold(earlier.value, cases[n], CurrentOwnerIds(cases[n].flow, activeHr), now, patience)
  }

  // ---------------------------------------------------------------- what a sweep adds

  /** The new rows are of this moment, no two are the same, and none repeats a recent one. */
  ghost predicate Adds(rows: seq<Reminder>, rows': seq<Reminder>, now: Time, patience: nat) {
    && rows <= rows'
    && forall i :: |rows| <= i < |rows'| ==> Adding(rows'[..i], rows'[i], now, patience)
  }

  predicate Adding(rows: seq<Reminder>, r: Reminder, now: Time, patience: nat) {
    r.at == now && !Told(rows, r, now - patience)
  }

  lemma AddsMore(rows: seq<Reminder>, middle: seq<Reminder>, rows': seq<Reminder>, now: Time, patience: nat)
    requires Adds(rows, middle, now, patience) && Adds(middle, rows', now, patience)
    ensures Adds(rows, rows', now, patience)
  {
    forall i | |rows| <= i < |rows'| ensures Adding(rows'[..i], rows'[i], now, patience) {
      if i < |middle| { assert rows'[..i] == middle[..i] && rows'[i] == middle[i]; }
    }
  }

  lemma ToldOfOneMore(rows: seq<Reminder>, r: Reminder, any: Reminder, since: Time)
    ensures Told(rows + [r], any, since) <==> Told(rows, any, since) || (r == any.(at := r.at) && since <= r.at)
  {
    if Told(rows, any, since) {
      var i :| 0 <= i < |rows| && rows[i] == any.(at := rows[i].at) && since <= rows[i].at;
      assert (rows + [r])[i] == rows[i];
    }
    assert (rows + [r])[|rows|] == r;
  }

  /** A reminder about this case to this user. */
  predicate About(r: Reminder, c: CaseRow) {
    r.record == c.record && r.status == c.flow.status
  }

  lemma {:induction false} OwnersAreTold(
      rows: seq<Reminder>, c: CaseRow, owners: seq<Option<UserId>>, now: Time, patience: nat, r: Reminder)
    ensures OwnersTold(rows, c, owners, now, patience) == None <==> None in owners
    ensures OwnersTold(rows, c, owners, now, patience).Some? ==>
      var rows' := OwnersTold(rows, c, owners, now, patience).value;
      && Adds(rows, rows', now, patience)
      && (Told(rows', r, now - patience)
          <==> Told(rows, r, now - patience) || (About(r, c) && Some(r.user) in owners))
    decreases |owners|
  {
    if owners != [] {
      var n := |owners| - 1;
      OwnersAreTold(rows, c, owners[..n], now, patience, r);
      assert owners == owners[..n] + [owners[n]];
      var earlier := OwnersTold(rows, c, owners[..n], now, patience);
      if earlier.Some? && owners[n].Some? {
        OneOwnerIsTold(earlier.value, c, owners[n].value, now, patience, r);
        AddsMore(rows, earlier.value, NotifiedOnce(earlier.value, c, owners[n], now, patience).value, now, patience);
      }
    }
  }

  lemma OneOwnerIsTold(rows: seq<Reminder>, c: CaseRow, user: UserId, now: Time, patience: nat, r: Reminder)
    ensures var rows' := NotifiedOnce(rows, c, Some(user), now, patience).value;
      && Adds(rows, rows', now, patience)
      && (Told(rows', r, now - patience) <==> Told(rows, r, now - patience) || (About(r, c) && r.user == user))
  {
    var one := Reminder(user, c.record, c.flow.status, now);
    assert (rows + [one])[..|rows|] == rows;
    ToldOfOneMore(rows, one, r, now - patience);
  }

  /** Approved by HR in a chain without a deputy, and waiting for long enough to be reminded of. */
  predicate Stuck(c: CaseRow, now: Time, patience: nat) {
    c.flow.status == HrApproved && c.flow.seats.deputy == None && now - c.enteredAt >= patience
  }

  predicate AnyStuck(cases: seq<CaseRow>, now: Time, patience: nat) {
    exists i :: 0 <= i < |cases| && Stuck(cases[i], now, patience)
  }

  /** It is this user's turn in a case that has waited too long. */
  predicate Owed(cases: seq<CaseRow>, activeHr: seq<UserId>, now: Time, patience: nat, r: Reminder) {
    exists i :: 0 <= i < |cases| && OwedFor(cases[i], activeHr, now, patience, r)
  }

  predicate OwedFor(c: CaseRow, activeHr: seq<UserId>, now: Time, patience: nat, r: Reminder) {
    Stalled(c, now, patience) && About(r, c) && Expected(c.flow, activeHr, r.user)
  }

  ghost predicate OnChains(cases: seq<CaseRow>) {
    forall i :: 0 <= i < |cases| ==> OnChain(cases[i].flow)
  }

  lemma OneMoreCase(cases: seq<CaseRow>, activeHr: seq<UserId>, now: Time, patience: nat, r: Reminder)
    requires cases != []
    ensures var n := |cases| - 1;
      && (AnyStuck(cases, now, patience) <==> AnyStuck(cases[..n], now, patience) || Stuck(cases[n], now, patience))
      && (Owed(cases, activeHr, now, patience, r)
          <==> Owed(cases[..n], activeHr, now, patience, r) || OwedFor(cases[n], activeHr, now, patience, r))
  {
    var n := |cases| - 1;
    var init := cases[..n];
    if AnyStuck(init, now, patience) {
      var i :| 0 <= i < |init| && Stuck(init[i], now, patience);
      assert Stuck(cases[i], now, patience);
    }
    if Owed(init, activeHr, now, patience, r) {
      var i :| 0 <= i < |init| && OwedFor(init[i], activeHr, now, patience, r);
      assert OwedFor(cases[i], activeHr, now, patience, r);
    }
    assert forall i :: 0 <= i < n ==> init[i] == cases[i];
  }

  /** The sweep completes exactly if no stalled case is a forgotten one. Then whoever is to move a stalled
      case has been reminded of it recently, nobody else has who was not before, and nobody twice. */
  lemma {:induction false} SweepRemindsTheDesks(
      rows: seq<Reminder>, cases: seq<CaseRow>, activeHr: seq<UserId>, now: Time, patience: nat, r: Reminder)
    requires OnChains(cases)
    ensures Swept(rows, cases, activeHr, now, patience) == None <==> AnyStuck(cases, now, patience)
    ensures !AnyStuck(cases, now, patience) ==>
      var rows' := Swept(rows, cases, activeHr, now, patience).value;
      && Adds(rows, rows', now, patience)
      && (Told(rows', r, now - patience)
          <==> Told(rows, r, now - patience) || Owed(cases, activeHr, now, patience, r))
    decreases |cases|
  {
    if cases != [] {
      var n := |cases| - 1;
      SweepRemindsTheDesks(rows, cases[..n], activeHr, now, patience, r);
      OneMoreCase(cases, activeHr, now, patience, r);
      if !AnyStuck(cases[..n], now, patience) && Stalled(cases[n], now, patience) {
        var earlier := Swept(rows, cases[..n], activeHr, now, patience).value;
        CaseIsReminded(earlier, cases[n], activeHr, now, patience, r);
        if !Stuck(cases[n], now, patience) {
          AddsMore(rows, earlier, Swept(rows, cases, activeHr, now, patience).value, now, patience);
        }
      }
    }
  }

  lemma CaseIsReminded(rows: seq<Reminder>, c: CaseRow, activeHr: seq<UserId>, now: Time, patience: nat, r: Reminder)
    requires OnChain(c.flow) && Stalled(c, now, patience)
    ensures var told := OwnersTold(rows, c, CurrentOwnerIds(c.flow, activeHr), now, patience);
      && (told == None <==> Stuck(c, now, patience))
      && (told.Some? ==>
            && Adds(rows, told.value, now, patience)
            && (Told(told.value, r, now - patience)
                <==> Told(rows, r, now - patience) || OwedFor(c, activeHr, now, patience, r)))
  {
    RemindersReachTheDesk(c.flow, activeHr);
    OwnersAreTold(rows, c, CurrentOwnerIds(c.flow, activeHr), now, patience, r);
  }

  /** Reminders from an earlier visit to the same stage do not stand in the way: after a sweep the user whose
      turn it is has a reminder from after the case came, or came back. */
  lemma EveryVisitIsReminded(
      rows: seq<Reminder>, cases: seq<CaseRow>, activeHr: seq<UserId>, now: Time, patience: nat, i: nat, user: UserId)
    requires OnChains(cases) && !AnyStuck(cases, now, patience)
    requires i < |cases| && Stalled(cases[i], now, patience) && Expected(cases[i].flow, activeHr, user)
    ensures var after := Swept(rows, cases, activeHr, now, patience);
      after.Some? && Told(after.value, Reminder(user, cases[i].record, cases[i].flow.status, now), cases[i].enteredAt)
  {
    var r := Reminder(user, cases[i].record, cases[i].flow.status, now);
    SweepRemindsTheDesks(rows, cases, activeHr, now, patience, r);
    assert OwedFor(cases[i], activeHr, now, patience, r);
  }

  /** This user has had a reminder of this case at this stage within the patience. */
  predicate RecentlyReminded(rows: seq<Reminder>, user: UserId, c: CaseRow, now: Time, patience: nat) {
    exists i :: 0 <= i < |rows|
      && rows[i].user == user && rows[i].record == c.record && rows[i].status == c.flow.status
      && now - rows[i].at <= patience
  }

  /** The reminder is due: the case is open and has been waiting for long enough, it is this user's turn, and
      there has been no reminder lately. */
  predicate ReminderDue(
      rows: seq<Reminder>, c: CaseRow, activeHr: seq<UserId>, user: UserId, now: Time, patience: nat) {
    && c.flow.status !in {Finalized, Cancelled} && now - c.enteredAt >= patience
    && (if c.flow.status == Submitted then user in activeHr else user == DeskHolder(c.flow, 0))
    && !RecentlyReminded(rows, user, c, now, patience)
  }

  predicate AnyDue(
      rows: seq<Reminder>, cases: seq<CaseRow>, activeHr: seq<UserId>, now: Time, patience: nat, r: Reminder) {
    exists i :: 0 <= i < |cases| && About(r, cases[i]) && ReminderDue(rows, cases[i], activeHr, r.user, now, patience)
  }

  lemma DueIsOwed(
      rows: seq<Reminder>, cases: seq<CaseRow>, activeHr: seq<UserId>, now: Time, patience: nat, r: Reminder)
    ensures AnyDue(rows, cases, activeHr, now, patience, r)
      <==> Owed(cases, activeHr, now, patience, r) && !Told(rows, r, now - patience)
  {
    forall i | 0 <= i < |cases| && About(r, cases[i])
      ensures ReminderDue(rows, cases[i], activeHr, r.user, now, patience)
        <==> OwedFor(cases[i], activeHr, now, patience, r) && !Told(rows, r, now - patience)
    {
      OpenOrClosed(cases[i].flow.status);
      ToldIsReminded(rows, r, cases[i], now, patience);
    }
  }

  lemma ToldIsReminded(rows: seq<Reminder>, r: Reminder, c: CaseRow, now: Time, patience: nat)
    requires About(r, c)
    ensures Told(rows, r, now - patience) <==> RecentlyReminded(rows, r.user, c, now, patience)
  {
  }

  lemma ToldInAPrefix(rows: seq<Reminder>, rows': seq<Reminder>, r: Reminder, since: Time)
    requires rows <= rows' && Told(rows, r, since)
    ensures Told(rows', r, since)
  {
    var i :| 0 <= i < |rows| && rows[i] == r.(at := rows[i].at) && since <= rows[i].at;
    assert rows'[i] == rows[i];
  }

  /** A completed sweep adds exactly the reminders that are due, each once. */
  lemma NewRemindersExactly(
      rows: seq<Reminder>, cases: seq<CaseRow>, activeHr: seq<UserId>, now: Time, patience: nat, r: Reminder)
    requires OnChains(cases) && !AnyStuck(cases, now, patience)
    ensures Swept(rows, cases, activeHr, now, patience).Some?
    ensures var after := Swept(rows, cases, activeHr, now, patience).value;
      && rows <= after
      && (r in after[|rows|..] <==> r.at == now && AnyDue(rows, cases, activeHr, now, patience, r))
      && forall i, j :: |rows| <= i < j < |after| ==> after[i] != after[j]
  {
    SweepRemindsTheDesks(rows, cases, activeHr, now, patience, r);
    DueIsOwed(rows, cases, activeHr, now, patience, r);
    var after := Swept(rows, cases, activeHr, now, patience).value;
    if r in after[|rows|..] {
      var i :| |rows| <= i < |after| && after[i] == r;
      assert Adding(after[..i], after[i], now, patience);
      if Told(rows, r, now - patience) { ToldInAPrefix(rows, after[..i], r, now - patience); }
    } else if r.at == now && Told(after, r, now - patience) && !Told(rows, r, now - patience) {
      NewOnesAreOfNow(rows, after, now, patience, r);
    }
    forall i, j | |rows| <= i < j < |after| ensures after[i] != after[j] {
      assert Adding(after[..i], after[i], now, patience) && Adding(after[..j], after[j], now, patience);
      assert after[..j][i] == after[i];
    }
  }

  lemma NewOnesAreOfNow(rows: seq<Reminder>, after: seq<Reminder>, now: Time, patience: nat, r: Reminder)
    requires Adds(rows, after, now, patience) && r.at == now
    requires Told(after, r, now - patience) && !Told(rows, r, now - patience)
    ensures r in after[|rows|..]
  {
    var i :| 0 <= i < |after| && after[i] == r.(at := after[i].at) && now - patience <= after[i].at;
    assert Adding(after[..i], after[i], now, patience);
    assert after[|rows|..][i - |rows|] == after[i];
  }

  // ---------------------------------------------------------------- orphans

  /** Reported to HR as a case whose owner is no active user any more. */
  predicate Orphaned(c: Case, active: set<UserId>) {
    var owners := CurrentOwnerIds(c, []);
    c.status != Submitted && owners != []
      && !exists i :: 0 <= i < |owners| && owners[i].Some? && owners[i].value in active
  }

  /** The report is right about every case but the forgotten ones, which it always lists. */
  lemma OrphansExactly(c: Case, active: set<UserId>)
    requires OnChain(c) && c.status in OPEN_STATUSES
    ensures Orphaned(c, active) <==> c.status != Submitted && (DeskHolder(c, 0) !in active || Forgotten(c))
  {
    var owners := CurrentOwnerIds(c, []);
    if c.status != Submitted { assert |owners| == 1 && (owners[0] == Some(DeskHolder(c, 0)) || Forgotten(c)); }
  }

  // ---------------------------------------------------------------- all sweeps

  datatype Settings = Settings(patience: nat, login: LoginGuard.Limits, delivery: Delivery.Limits)

  /** What one run of the sweeps works on; the other reminders only add rows. */
  datatype Backend = Backend(
    reminders: seq<Reminder>, attempts: Attempts, outbox: seq<Delivery.Row>)

  /** The cases and users of the moment, and the deliveries enqueued for the reminders. */
  datatype Tick = Tick(
      cases: seq<CaseRow>, activeHr: seq<UserId>, enqueued: seq<Delivery.Row>, world: Delivery.World, at: Time)

  type Attempts = map<string, LoginGuard.Attempt>

  function Purged(attempts: Attempts, now: Time, limits: LoginGuard.Limits): Attempts {
    map u | u in attempts && !LoginGuard.Stale(attempts[u], now, limits) :: attempts[u]
  }

  /** One transaction: reminders, purge and delivery, or nothing. */
  function AllSwept(b: Backend, t: Tick, settings: Settings): Option<Backend> {
    var reminders := Swept(b.reminders, t.cases, t.activeHr, t.at, settings.patience);
    if reminders == None then None
    else Some(Backend(reminders.value, Purged(b.attempts, t.at, settings.login),
                      Delivery.Swept(b.outbox + t.enqueued, t.at, t.world, settings.delivery)))
  }

  function Played(b: Backend, run: seq<Tick>, settings: Settings): Backend
    decreases |run|
  {
    if run == [] then b
    else
      var b' := AllSwept(b, run[0], settings);
      Played(if b'.Some? then b'.value else b, run[1..], settings)
  }

  /** A forgotten case that has waited too long stops every run of the sweeps from then on, until somebody
      moves it: nobody is reminded of anything, nothing is purged and nothing is sent. */
  lemma {:induction false} AForgottenCaseStopsEverything(b: Backend, run: seq<Tick>, settings: Settings, c: CaseRow)
    requires OnChain(c.flow) && Forgotten(c.flow)
    requires forall i :: 0 <= i < |run| ==>
      c in run[i].cases && OnChains(run[i].cases) && c.enteredAt + settings.patience <= run[i].at
    ensures Played(b, run, settings) == b
    decreases |run|
  {
    if run != [] {
      var t := run[0];
      var i :| 0 <= i < |t.cases| && t.cases[i] == c;
      assert Stuck(t.cases[i], t.at, settings.patience);
      SweepRemindsTheDesks(b.reminders, t.cases, t.activeHr, t.at, settings.patience, Reminder(0, 0, Draft, 0));
      AForgottenCaseStopsEverything(b, run[1..], settings, c);
    }
  }

  // ---------------------------------------------------------------- in place

  lemma OneOwnerMore(rows: seq<Reminder>, c: CaseRow, owners: seq<Option<UserId>>, n: nat, now: Time, patience: nat)
    requires n < |owners|
    ensures var earlier := OwnersTold(rows, c, owners[..n], now, patience);
      OwnersTold(rows, c, owners[..n + 1], now, patience)
        == if earlier == None then None else NotifiedOnce(earlier.value, c, owners[n], now, patience)
  {
    assert owners[..n + 1][..n] == owners[..n];
  }

  lemma {:induction false} FailureStays(
      rows: seq<Reminder>, c: CaseRow, owners: seq<Option<UserId>>, n: nat, now: Time, patience: nat)
    requires n <= |owners| && OwnersTold(rows, c, owners[..n], now, patience) == None
    ensures OwnersTold(rows, c, owners, now, patience) == None
    decreases |owners| - n
  {
    if n < |owners| {
      OneOwnerMore(rows, c, owners, n, now, patience);
      FailureStays(rows, c, owners, n + 1, now, patience);
    } else {
      assert owners[..n] == owners;
    }
  }

  lemma OneCaseMore(rows: seq<Reminder>, cases: seq<CaseRow>, activeHr: seq<UserId>, n: nat, now: Time, patience: nat)
    requires n < |cases|
    ensures var earlier := Swept(rows, cases[..n], activeHr, now, patience);
      Swept(rows, cases[..n + 1], activeHr, now, patience)
        == if earlier == None || !Stalled(cases[n], now, patience) then earlier
           else OwnersTold(earlier.value, cases[n], CurrentOwnerIds(cases[n].flow, activeHr), now, patience)
  {
    assert cases[..n + 1][..n] == cases[..n];
  }

  lemma {:induction false} SweepFailureStays(
      rows: seq<Reminder>, cases: seq<CaseRow>, activeHr: seq<UserId>, n: nat, now: Time, patience: nat)
    requires n <= |cases| && Swept(rows, cases[..n], activeHr, now, patience) == None
    ensures Swept(rows, cases, activeHr, now, patience) == None
    decreases |cases| - n
  {
    if n < |cases| {
      OneCaseMore(rows, cases, activeHr, n, now, patience);
      SweepFailureStays(rows, cases, activeHr, n + 1, now, patience);
    } else {
      assert cases[..n] == cases;
    }
  }

  class Sweeper {
    var reminders: seq<Reminder>
    const guard: LoginGuard.Guard
    const outbox: Delivery.Outbox

    constructor (guard: LoginGuard.Guard, outbox: Delivery.Outbox)
      ensures this.guard == guard && this.outbox == outbox && reminders == []
    {
      this.guard := guard;
      this.outbox := outbox;
      reminders := [];
    }

    /** Whether a reminder was created; `None` is the error of the database. */
    method NotifyOnce(user: Option<UserId>, c: CaseRow, now: Time, patience: nat) returns (created: Option<bool>)
      modifies this`reminders
      ensures var after := NotifiedOnce(old(reminders), c, user, now, patience);
        reminders == if after.Some? then after.value else old(reminders)
      ensures created == None <==> user == None
      ensures created.Some? ==> created.value == (|reminders| > |old(reminders)|)
    {
      if user == None { return None; }
      var r := Reminder(user.value, c.record, c.flow.status, now);
      if Told(reminders, r, now - patience) { return Some(false); }
      reminders := reminders + [r];
      return Some(true);
    }

    /** How many reminders were created for this case. */
    method RemindOwners(c: CaseRow, activeHr: seq<UserId>, now: Time, patience: nat) returns (created: Option<nat>)
      modifies this`reminders
      ensures var after := OwnersTold(old(reminders), c, CurrentOwnerIds(c.flow, activeHr), now, patience);
        if created == None then after == None
        else after == Some(reminders) && |reminders| == |old(reminders)| + created.value
    {
      var owners := CurrentOwnerIds(c.flow, activeHr);
      var count: nat := 0;
      for n := 0 to |owners|
        invariant OwnersTold(old(reminders), c, owners[..n], now, patience) == Some(reminders)
        invariant |reminders| == |old(reminders)| + count
      {
        OneOwnerMore(old(reminders), c, owners, n, now, patience);
        var one := NotifyOnce(owners[n], c, now, patience);
        if one == None {
          FailureStays(old(reminders), c, owners, n + 1, now, patience);
          return None;
        }
        if one.value { count := count + 1; }
      }
      assert owners[..|owners|] == owners;
      return Some(count);
    }

    method SlaSweep(cases: seq<CaseRow>, activeHr: seq<UserId>, now: Time, patience: nat) returns (created: Option<nat>)
      modifies this`reminders
      ensures var after := Swept(old(reminders), cases, activeHr, now, patience);
        if created == None then after == None
        else after == Some(reminders) && |reminders| == |old(reminders)| + created.value
    {
      var count: nat := 0;
      for n := 0 to |cases|
        invariant Swept(old(reminders), cases[..n], activeHr, now, patience) == Some(reminders)
        invariant |reminders| == |old(reminders)| + count
      {
        OneCaseMore(old(reminders), cases, activeHr, n, now, patience);
        if Stalled(cases[n], now, patience) {
          var more := RemindOwners(cases[n], activeHr, now, patience);
          if more == None {
            SweepFailureStays(old(reminders), cases, activeHr, n + 1, now, patience);
            return None;
          }
          count := count + more.value;
        }
      }
      assert cases[..|cases|] == cases;
      return Some(count);
    }

    function State(): Backend
      reads this, guard, outbox
    {
      Backend(reminders, guard.rows, outbox.rows)
    }

    /** Commits at the end; an error before that undoes everything. */
    method RunAllSweeps(t: Tick, patience: nat) returns (ok: bool)
      modifies this`reminders, guard, outbox
      ensures var after := AllSwept(old(State()), t, Settings(patience, guard.limits, outbox.limits));
        ok == after.Some? && State() == if ok then after.value else old(State())
    {
      var before := reminders;
      var created := SlaSweep(t.cases, t.activeHr, t.at, patience);
      if created == None {
        reminders := before;
        return false;
      }
      var purged := guard.PurgeStale(t.at);
      forall u ensures u in guard.rows <==>
          u in old(guard.rows) && !LoginGuard.Stale(old(guard.rows)[u], t.at, guard.limits)
      {
        assert guard.Row(u) == LoginGuard.Purged(old(guard.Row(u)), t.at, guard.limits);
      }
      forall u | u in guard.rows ensures guard.rows[u] == old(guard.rows)[u] {
        assert guard.Row(u) == LoginGuard.Purged(old(guard.Row(u)), t.at, guard.limits);
      }
      assert guard.rows == Purged(old(guard.rows), t.at, guard.limits);
      outbox.rows := outbox.rows + t.enqueued;
      var sent := outbox.Sweep(t.at, t.world);
      return true;
    }
  }
}
