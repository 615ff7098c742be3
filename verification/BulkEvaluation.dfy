/** Opening evaluations for a whole cohort: a dry run that says what will happen to each person, and an
    execution that carries it out while others open cases by hand. */
module BulkEvaluation {
  import opened Domain
  import opened Workflow
  import opened WorkflowRuns

  datatype Person = Person(id: Id, active: bool, isManager: bool)

  datatype Outcome =
    | Created | SkippedAlreadyOpen
    | BlockedInactive | BlockedNoAccessRow | BlockedNoSupervisor | BlockedInactiveSeat | BlockedConflict

  datatype Plan = Plan(
    person: Person, outcome: Outcome, evaluation: Option<nat>, assignee: Option<UserId>, managerPath: bool)

  /** An evaluation record; its id is its position. */
  datatype Row = Row(subject: Id, flow: Case)

  // ---------------------------------------------------------------- the plan

  predicate SeatActive(seat: Option<UserId>, activeUsers: set<UserId>) {
    seat.Some? ==> seat.value in activeUsers
  }

  predicate SeatsActive(seats: Seats, activeUsers: set<UserId>) {
    SeatActive(seats.supervisor, activeUsers) && SeatActive(seats.deputy, activeUsers) && seats.ceo in activeUsers
  }

  /** The order of the checks matters: an open case is reported even for somebody who has left. */
  function PlanOne(person: Person, access: Option<Seats>, open: Option<nat>, activeUsers: set<UserId>): Plan {
    if open.Some? then Plan(person, SkippedAlreadyOpen, open, None, false)
    else if !person.active then Plan(person, BlockedInactive, None, None, false)
    else match access
      case None => Plan(person, BlockedNoAccessRow, None, None, false)
      case Some(seats) =>
        if !person.isManager && seats.supervisor == None && !DirectCeoPath(seats)
        then Plan(person, BlockedNoSupervisor, None, None, false)
        else if !SeatsActive(seats, activeUsers) then Plan(person, BlockedInactiveSeat, None, None, false)
        else
          var assignee :=
            if DirectCeoPath(seats) then Some(seats.ceo)
            else if person.isManager then seats.deputy
            else seats.supervisor;
          Plan(person, Created, None, assignee, person.isManager || DirectCeoPath(seats))
  }

  predicate IsOpenFor(row: Row, subject: Id) {
    row.subject == subject && row.flow.status in OPEN_STATUSES
  }

  function OpenRow(table: seq<Row>, subject: Id): Option<nat> {
    if table == [] then None
    else if IsOpenFor(table[|table| - 1], subject) then Some(|table| - 1)
    else OpenRow(table[..|table| - 1], subject)
  }

  function AccessOf(access: map<Id, Seats>, person: Id): Option<Seats> {
    if person in access then Some(access[person]) else None
  }

  function PlanFor(person: Person, table: seq<Row>, access: map<Id, Seats>, activeUsers: set<UserId>): Plan {
    PlanOne(person, AccessOf(access, person.id), OpenRow(table, person.id), activeUsers)
  }

  /** Cases are only created for people whose access row was seen. */
  predicate Grounded(plans: seq<Plan>, access: map<Id, Seats>) {
    forall i :: 0 <= i < |plans| && plans[i].outcome == Created ==> plans[i].person.id in access
  }

  method MakePlan(people: seq<Person>, table: seq<Row>, access: map<Id, Seats>, activeUsers: set<UserId>)
    returns (plans: seq<Plan>)
    ensures |plans| == |people| && Grounded(plans, access)
    ensures forall i :: 0 <= i < |people| ==> plans[i] == PlanFor(people[i], table, access, activeUsers)
  {
    plans := [];
    for i := 0 to |people|
      invariant |plans| == i
      invariant forall j :: 0 <= j < i ==> plans[j] == PlanFor(people[j], table, access, activeUsers)
    {
      var open := OpenRow(table, people[i].id);
      var seats := if people[i].id in access then Some(access[people[i].id]) else None;
      plans := plans + [PlanOne(people[i], seats, open, activeUsers)];
    }
  }

  /** The row named is an open one of this person, and there is none if none is named. */
  lemma {:induction false} OpenRowInWords(table: seq<Row>, subject: Id)
    ensures OpenRow(table, subject).Some? ==>
      var i := OpenRow(table, subject).value;
      i < |table| && table[i].subject == subject && table[i].flow.status !in {Finalized, Cancelled}
    ensures OpenRow(table, subject) == None ==>
      forall i :: 0 <= i < |table| && table[i].subject == subject ==> table[i].flow.status in {Finalized, Cancelled}
  {
    if table != [] {
      OpenRowInWords(table[..|table| - 1], subject);
      OpenOrClosed(table[|table| - 1].flow.status);
      forall i | 0 <= i < |table| - 1 ensures table[i] == table[..|table| - 1][i] {
      }
    }
  }

  /** What each person is told: an open case is named before anything else; then whoever has left, has no
      access row, lacks a supervisor without being a manager or under the CEO alone, or has somebody
      inactive on a seat is refused, for the first of these reasons; everybody else gets a case. */
  lemma PlanInWords(person: Person, access: Option<Seats>, open: Option<nat>, activeUsers: set<UserId>)
    ensures var p := PlanOne(person, access, open, activeUsers);
      && p.person == person && p.evaluation == open
      && (p.outcome == SkippedAlreadyOpen <==> open.Some?)
      && (p.outcome == BlockedInactive <==> open == None && !person.active)
      && (p.outcome == BlockedNoAccessRow <==> open == None && person.active && access == None)
      && (p.outcome == BlockedNoSupervisor <==>
            open == None && person.active && access.Some?
            && access.value.supervisor == None && access.value.deputy != None && !person.isManager)
      && (p.outcome == BlockedInactiveSeat <==>
            open == None && person.active && access.Some?
            && (access.value.supervisor == None && access.value.deputy != None ==> person.isManager)
            && !(SeatHolders(access.value) <= activeUsers))
      && (p.outcome == Created <==>
            open == None && person.active && access.Some?
            && (access.value.supervisor == None && access.value.deputy != None ==> person.isManager)
            && SeatHolders(access.value) <= activeUsers)
      && p.outcome != BlockedConflict
  {
    if access.Some? { SeatsActiveInWords(access.value, activeUsers); }
  }

  lemma SeatsActiveInWords(seats: Seats, activeUsers: set<UserId>)
    ensures SeatsActive(seats, activeUsers) <==> SeatHolders(seats) <= activeUsers
  {
    assert seats.ceo in SeatHolders(seats);
    assert seats.supervisor.Some? ==> seats.supervisor.value in SeatHolders(seats);
    assert seats.deputy.Some? ==> seats.deputy.value in SeatHolders(seats);
  }

  // ---------------------------------------------------------------- the execution

  /** The draft that is inserted for a planned person. */
  function NewRow(p: Plan, seats: Seats): Row {
    Row(p.person.id, Case(if p.managerPath then seats.(supervisor := None) else seats, None, Draft))
  }

  /** The partial unique index: a second open record for one person is refused. */
  function Insert(table: seq<Row>, row: Row): seq<Row> {
    if OpenRow(table, row.subject).Some? then table else table + [row]
  }

  /** What others insert in the meantime goes through the same index. */
  function InsertAll(table: seq<Row>, rows: seq<Row>): seq<Row> {
    if rows == [] then table else Insert(InsertAll(table, rows[..|rows| - 1]), rows[|rows| - 1])
  }

  /** The plan of one person after its turn, given the table at that moment. */
  function Settled(p: Plan, table: seq<Row>): Plan {
    if p.outcome != Created then p
    else if OpenRow(table, p.person.id).Some? then p.(outcome := BlockedConflict)
    else p.(evaluation := Some(|table|))
  }

  function AfterTurn(p: Plan, table: seq<Row>, access: map<Id, Seats>): seq<Row>
    requires p.outcome == Created ==> p.person.id in access
  {
    if p.outcome == Created then Insert(table, NewRow(p, access[p.person.id])) else table
  }

  /** The table after the turns of these plans; `others[i]` is what others insert right before turn `i`. */
  function TableAfter(table: seq<Row>, plans: seq<Plan>, access: map<Id, Seats>, others: seq<seq<Row>>): seq<Row>
    requires |others| == |plans| && Grounded(plans, access)
  {
    if plans == [] then table
    else
      var n := |plans| - 1;
      AfterTurn(plans[n], InsertAll(TableAfter(table, plans[..n], access, others[..n]), others[n]), access)
  }

  /** The plans after these turns. */
  function SettledPlans(
      table: seq<Row>, plans: seq<Plan>, access: map<Id, Seats>, others: seq<seq<Row>>): (done: seq<Plan>)
    requires |others| == |plans| && Grounded(plans, access)
    ensures |done| == |plans|
  {
    if plans == [] then []
    else
      var n := |plans| - 1;
      SettledPlans(table, plans[..n], access, others[..n])
      + [Settled(plans[n], InsertAll(TableAfter(table, plans[..n], access, others[..n]), others[n]))]
  }

  /** The table that the turn of plan `i` finds. */
  function TableAt(table: seq<Row>, plans: seq<Plan>, access: map<Id, Seats>, others: seq<seq<Row>>, i: nat): seq<Row>
    requires |others| == |plans| && Grounded(plans, access) && i < |plans|
  {
    InsertAll(TableAfter(table, plans[..i], access, others[..i]), others[i])
  }

  class Store {
    var table: seq<Row>

    method TryInsert(row: Row) returns (ok: bool)
      modifies this
      ensures table == Insert(old(table), row) && ok == OpenRow(old(table), row.subject).None?
    {
      ok := OpenRow(table, row.subject).None?;
      if ok { table := table + [row]; }
    }

    method OthersInsert(rows: seq<Row>)
      modifies this
      ensures table == InsertAll(old(table), rows)
    {
      for i := 0 to |rows|
        invariant table == InsertAll(old(table), rows[..i])
      {
        assert rows[..i + 1][..i] == rows[..i];
        var _ := TryInsert(rows[i]);
      }
      assert rows[..|rows|] == rows;
    }

    /** One savepoint per person: a refused insert is reported and does not stop the others. */
    method Turn(p: Plan, access: map<Id, Seats>) returns (p': Plan)
      requires p.outcome == Created ==> p.person.id in access
      modifies this
      ensures table == AfterTurn(p, old(table), access) && p' == Settled(p, old(table))
    {
      p' := p;
      if p.outcome == Created {
        var id := |table|;
        var ok := TryInsert(NewRow(p, access[p.person.id]));
        p' := if ok then p.(evaluation := Some(id)) else p.(outcome := BlockedConflict);
      }
    }

    method Execute(plans: seq<Plan>, access: map<Id, Seats>, others: seq<seq<Row>>) returns (done: seq<Plan>)
      requires |others| == |plans| && Grounded(plans, access)
      modifies this
      ensures table == TableAfter(old(table), plans, access, others)
      ensures done == SettledPlans(old(table), plans, access, others)
    {
      done := [];
      for i := 0 to |plans|
        invariant table == TableAfter(old(table), plans[..i], access, others[..i])
        invariant done == SettledPlans(old(table), plans[..i], access, others[..i])
      {
        assert plans[..i + 1][..i] == plans[..i] && others[..i + 1][..i] == others[..i];
        OthersInsert(others[i]);
        var p := Turn(plans[i], access);
        done := done + [p];
      }
      assert plans[..|plans|] == plans && others[..|others|] == others;
    }
  }

  // ---------------------------------------------------------------- plan and execution agree

  predicate HasOpen(table: seq<Row>, subject: Id) {
    OpenRow(table, subject).Some?
  }

  /** Somebody opens a case for this person in these turns. */
  predicate Opens(rows: seq<Row>, subject: Id) {
    rows != [] && (Opens(rows[..|rows| - 1], subject) || IsOpenFor(rows[|rows| - 1], subject))
  }

  predicate OthersOpen(others: seq<seq<Row>>, subject: Id) {
    others != [] && (OthersOpen(others[..|others| - 1], subject) || Opens(others[|others| - 1], subject))
  }

  predicate Planned(plans: seq<Plan>, person: Id) {
    plans != [] && (Planned(plans[..|plans| - 1], person)
                    || (plans[|plans| - 1].outcome == Created && plans[|plans| - 1].person.id == person))
  }

  lemma OpenAfterInsert(table: seq<Row>, row: Row, subject: Id)
    ensures HasOpen(Insert(table, row), subject) <==> HasOpen(table, subject) || IsOpenFor(row, subject)
  {
    assert (table + [row])[..|table|] == table;
  }

  lemma {:induction false} OpenAfterAll(table: seq<Row>, rows: seq<Row>, subject: Id)
    ensures HasOpen(InsertAll(table, rows), subject) <==> HasOpen(table, subject) || Opens(rows, subject)
  {
    if rows != [] {
      OpenAfterAll(table, rows[..|rows| - 1], subject);
      OpenAfterInsert(InsertAll(table, rows[..|rows| - 1]), rows[|rows| - 1], subject);
    }
  }

  /** Exactly the people planned for and the people others opened a case for have got one. */
  lemma {:induction false} OpenAfterTurns(
      table: seq<Row>, plans: seq<Plan>, access: map<Id, Seats>, others: seq<seq<Row>>, subject: Id)
    requires |others| == |plans| && Grounded(plans, access)
    ensures HasOpen(TableAfter(table, plans, access, others), subject)
      <==> HasOpen(table, subject) || Planned(plans, subject) || OthersOpen(others, subject)
  {
    if plans != [] {
      var n := |plans| - 1;
      var before := TableAfter(table, plans[..n], access, others[..n]);
      OpenAfterTurns(table, plans[..n], access, others[..n], subject);
      OpenAfterAll(before, others[n], subject);
      if plans[n].outcome == Created {
        OpenAfterInsert(InsertAll(before, others[n]), NewRow(plans[n], access[plans[n].person.id]), subject);
      }
    }
  }

  lemma {:induction false} SettledAt(
      table: seq<Row>, plans: seq<Plan>, access: map<Id, Seats>, others: seq<seq<Row>>, i: nat)
    requires |others| == |plans| && Grounded(plans, access) && i < |plans|
    ensures SettledPlans(table, plans, access, others)[i] == Settled(plans[i], TableAt(table, plans, access, others, i))
  {
    var n := |plans| - 1;
    if i < n {
      SettledAt(table, plans[..n], access, others[..n], i);
      assert plans[..n][..i] == plans[..i] && others[..n][..i] == others[..i];
    }
  }

  /** Execution changes a planned outcome in one way only: a case to be created becomes a conflict,
      exactly when somebody has a case for that person by then, be it from the start, from an earlier
      turn for the same person or from others. */
  lemma ExecutionKeepsThePlan(table: seq<Row>, plans: seq<Plan>, access: map<Id, Seats>, others: seq<seq<Row>>, i: nat)
    requires |others| == |plans| && Grounded(plans, access) && i < |plans|
    ensures var p, q := plans[i], SettledPlans(table, plans, access, others)[i];
      && q == p.(outcome := q.outcome, evaluation := q.evaluation)
      && (q.outcome != p.outcome <==>
            p.outcome == Created
            && (HasOpen(table, p.person.id) || Planned(plans[..i], p.person.id)
                || OthersOpen(others[..i + 1], p.person.id)))
      && (q.outcome != p.outcome ==> q.outcome == BlockedConflict)
  {
    SettledAt(table, plans, access, others, i);
    var before, subject := TableAfter(table, plans[..i], access, others[..i]), plans[i].person.id;
    OpenAfterTurns(table, plans[..i], access, others[..i], subject);
    OpenAfterAll(before, others[i], subject);
    assert others[..i + 1][..i] == others[..i];
  }

  lemma {:induction false} InsertsAppend(table: seq<Row>, rows: seq<Row>)
    ensures table <= InsertAll(table, rows)
  {
    if rows != [] { InsertsAppend(table, rows[..|rows| - 1]); }
  }

  /** Whoever is reported as created has the reported case: an open draft on the planned seats. */
  lemma {:induction false} CreatedAreInTheTable(
      table: seq<Row>, plans: seq<Plan>, access: map<Id, Seats>, others: seq<seq<Row>>, i: nat)
    requires |others| == |plans| && Grounded(plans, access) && i < |plans|
    ensures var q, end := SettledPlans(table, plans, access, others)[i], TableAfter(table, plans, access, others);
      q.outcome == Created ==>
        && plans[i].outcome == Created && q.evaluation.Some? && q.evaluation.value < |end|
        && var seats := access[plans[i].person.id];
           end[q.evaluation.value] == Row(plans[i].person.id,
             Case(if plans[i].managerPath then Seats(None, seats.deputy, seats.ceo) else seats, None, Draft))
  {
    var n := |plans| - 1;
    var before := TableAfter(table, plans[..n], access, others[..n]);
    InsertsAppend(before, others[n]);
    if i < n { CreatedAreInTheTable(table, plans[..n], access, others[..n], i); }
  }

  ghost predicate AtMostOneOpen(table: seq<Row>) {
    forall i, j :: 0 <= i < j < |table| && IsOpenFor(table[i], table[i].subject) ==>
        !IsOpenFor(table[j], table[i].subject)
  }

  lemma {:induction false} NoOpenRow(table: seq<Row>, subject: Id)
    requires OpenRow(table, subject) == None
    ensures forall i :: 0 <= i < |table| ==> !IsOpenFor(table[i], subject)
  {
    if table != [] { NoOpenRow(table[..|table| - 1], subject); }
  }

  lemma InsertKeepsOneOpen(table: seq<Row>, row: Row)
    requires AtMostOneOpen(table)
    ensures AtMostOneOpen(Insert(table, row))
  {
    if OpenRow(table, row.subject) == None { NoOpenRow(table, row.subject); }
  }

  lemma {:induction false} InsertAllKeepsOneOpen(table: seq<Row>, rows: seq<Row>)
    requires AtMostOneOpen(table)
    ensures AtMostOneOpen(InsertAll(table, rows))
  {
    if rows != [] {
      InsertAllKeepsOneOpen(table, rows[..|rows| - 1]);
      InsertKeepsOneOpen(InsertAll(table, rows[..|rows| - 1]), rows[|rows| - 1]);
    }
  }

  /** Against whatever others open in the meantime, nobody ends up with two open cases. */
  lemma {:induction false} ExecutionKeepsOneOpen(
      table: seq<Row>, plans: seq<Plan>, access: map<Id, Seats>, others: seq<seq<Row>>)
    requires |others| == |plans| && Grounded(plans, access) && AtMostOneOpen(table)
    ensures AtMostOneOpen(TableAfter(table, plans, access, others))
  {
    if plans != [] {
      var n := |plans| - 1;
      ExecutionKeepsOneOpen(table, plans[..n], access, others[..n]);
      var before := TableAfter(table, plans[..n], access, others[..n]);
      InsertAllKeepsOneOpen(before, others[n]);
      if plans[n].outcome == Created {
        InsertKeepsOneOpen(InsertAll(before, others[n]), NewRow(plans[n], access[plans[n].person.id]));
      }
    }
  }

  lemma {:induction false} PlannedAt(plans: seq<Plan>, i: nat)
    requires i < |plans| && plans[i].outcome == Created
    ensures Planned(plans, plans[i].person.id)
  {
    if i < |plans| - 1 { PlannedAt(plans[..|plans| - 1], i); }
  }

  /** Running it again on the same cohort creates nothing. */
  lemma RerunCreatesNothing(people: seq<Person>, table: seq<Row>, access: map<Id, Seats>, activeUsers: set<UserId>,
                            plans: seq<Plan>, others: seq<seq<Row>>, i: nat)
    requires |others| == |plans| == |people| && i < |people|
    requires forall j :: 0 <= j < |people| ==> plans[j] == PlanFor(people[j], table, access, activeUsers)
    requires Grounded(plans, access)
    ensures PlanFor(people[i], TableAfter(table, plans, access, others), access, activeUsers).outcome != Created
  {
    OpenAfterTurns(table, plans, access, others, people[i].id);
    if plans[i].outcome == Created { PlannedAt(plans, i); }
  }

  // ---------------------------------------------------------------- who is to score

  /** A manager with a supervisor seat but no deputy seat: the plan names the empty deputy seat, while
      dropping the supervisor turns the draft into a direct case of the CEO. */
  predicate Misassigned(person: Person, seats: Seats) {
    person.isManager && seats.deputy == None && seats.supervisor.Some?
  }

  ghost predicate CanSubmit(c: Case, u: UserId) {
    exists role, a :: IsSubmit(a) && TransitionAllowed(c, a, User(u, role))
  }

  lemma OnlyTheScorerSubmits(seats: Seats, u: UserId)
    ensures CanSubmit(Case(seats, None, Draft), u) <==> u == Scorer(seats)
  {
    var c := Case(seats, None, Draft);
    var a := if DirectCeoPath(seats) then DirectCeoSubmit else if ManagerPath(seats) then ManagerSubmit else Submit;
    assert u == Scorer(seats) ==> IsSubmit(a) && TransitionAllowed(c, a, User(u, CeoRole));
    forall role, b | IsSubmit(b) && TransitionAllowed(c, b, User(u, role)) ensures u == Scorer(seats) {
      AllowedHoldsDesk(c, b, User(u, role));
    }
  }

  /** The planned assignee is the one user id that can submit the created draft, except for misassigned
      managers: there the plan names nobody and the CEO has to score. */
  lemma AssigneeIsTheScorer(person: Person, seats: Seats, activeUsers: set<UserId>)
    requires PlanOne(person, Some(seats), None, activeUsers).outcome == Created
    ensures var p := PlanOne(person, Some(seats), None, activeUsers); var c := NewRow(p, seats).flow;
      && (p.assignee == Some(Scorer(c.seats)) <==> !Misassigned(person, seats))
      && (Misassigned(person, seats) ==> p.assignee == None && Scorer(c.seats) == seats.ceo && DirectCeoPath(c.seats))
      && forall u :: CanSubmit(c, u) <==> u == Scorer(c.seats)
  {
    var c := NewRow(PlanOne(person, Some(seats), None, activeUsers), seats).flow;
    forall u ensures CanSubmit(c, u) <==> u == Scorer(c.seats) {
      OnlyTheScorerSubmits(c.seats, u);
    }
  }

  /** Opening one case by hand: the seats of the draft, or a refusal. */
  function OpenByHand(
      person: Person, access: Option<Seats>, open: Option<nat>, activeUsers: set<UserId>, user: User): Option<Seats> {
    if !person.active || access == None || !SeatsActive(access.value, activeUsers) || open.Some? then None
    else
      var seats := access.value;
      if DirectCeoPath(seats) then
        if MayActAt(user.role, CeoRole) && user.id == seats.ceo then Some(seats) else None
      else if person.isManager then
        if MayActAt(user.role, DeputyRole) && Some(user.id) == seats.deputy
        then Some(seats.(supervisor := None)) else None
      else if MayActAt(user.role, SupervisorRole) && Some(user.id) == seats.supervisor then Some(seats)
      else None
  }

  /** The bulk plan creates a draft that somebody could also have opened by hand, with the same seats
      and for the same scorer; only the misassigned managers can be opened in bulk and by nobody by
      hand. */
  lemma BulkAgreesWithOpeningByHand(person: Person, access: Option<Seats>, open: Option<nat>, activeUsers: set<UserId>)
    ensures var p := PlanOne(person, access, open, activeUsers);
      && (p.outcome == Created && !Misassigned(person, access.value) <==>
            exists user :: OpenByHand(person, access, open, activeUsers, user).Some?)
      && (forall user :: OpenByHand(person, access, open, activeUsers, user).Some? ==>
            NewRow(p, access.value).flow.seats == OpenByHand(person, access, open, activeUsers, user).value
            && p.assignee == Some(user.id))
  {
    var p := PlanOne(person, access, open, activeUsers);
    if p.outcome == Created && !Misassigned(person, access.value) {
      var user := User(p.assignee.value, CeoRole);
      assert OpenByHand(person, access, open, activeUsers, user).Some?;
    }
  }

  // ---------------------------------------------------------------- the summary

  function Count(plans: seq<Plan>, outcome: Outcome): nat {
    if plans == [] then 0
    else Count(plans[..|plans| - 1], outcome) + (if plans[|plans| - 1].outcome == outcome then 1 else 0)
  }

  function Of(counts: map<Outcome, nat>, outcome: Outcome): nat {
    if outcome in counts then counts[outcome] else 0
  }

  method Summarise(plans: seq<Plan>) returns (counts: map<Outcome, nat>)
    ensures forall o :: Of(counts, o) == Count(plans, o)
    ensures forall o :: o in counts ==> counts[o] > 0
  {
    counts := map[];
    for i := 0 to |plans|
      invariant forall o :: Of(counts, o) == Count(plans[..i], o)
      invariant forall o :: o in counts ==> counts[o] > 0
    {
      assert plans[..i + 1][..i] == plans[..i];
      var o := plans[i].outcome;
      counts := counts[o := (if o in counts then counts[o] else 0) + 1];
    }
    assert plans[..|plans|] == plans;
  }

  /** Nobody is counted twice or forgotten. */
  lemma {:induction false} SummaryIsComplete(plans: seq<Plan>)
    ensures Count(plans, Created) + Count(plans, SkippedAlreadyOpen) + Count(plans, BlockedInactive)
      + Count(plans, BlockedNoAccessRow) + Count(plans, BlockedNoSupervisor) + Count(plans, BlockedInactiveSeat)
      + Count(plans, BlockedConflict) == |plans|
  {
    if plans != [] { SummaryIsComplete(plans[..|plans| - 1]); }
  }
}
