/** Who is told about a workflow action. This is written down separately from the transition table; the
    lemmas say how the two agree. */
module Notifications {
  import opened Domain
  import opened Workflow
  import opened WorkflowRuns

  /** The notification's own idea of who scores. */
  function EvaluatorId(seats: Seats): UserId {
    if seats.supervisor == None && seats.deputy == None then seats.ceo
    else if seats.supervisor == None then seats.deputy.value
    else seats.supervisor.value
  }

  /** `deputy or ceo`: an identifier 0 counts as absent. */
  function AfterHrId(seats: Seats): UserId {
    if seats.deputy.Some? && seats.deputy.value != 0 then seats.deputy.value else seats.ceo
  }

  /** The recipients of a workflow action; `c` is the case after the action. */
  function Recipients(c: Case, action: Action, activeHr: set<UserId>): set<UserId> {
    match action
    case Submit => activeHr
    case ManagerSubmit => activeHr
    case DirectCeoSubmit => activeHr
    case HrApprove => {AfterHrId(c.seats)}
    case HrApproveManager => {c.seats.ceo}
    case HrFinalizeDirectCeo => {c.seats.ceo}
    case DeputyApprove => {c.seats.ceo}
    case CeoFinalize => {EvaluatorId(c.seats)}
    case HrReturn => {EvaluatorId(c.seats)}
    case DeputyReturn => activeHr
    case CeoReturn => {AfterHrId(c.seats)}
    case CeoReturnManager => activeHr
    case Cancel => SeatHolders(c.seats)
  }

  datatype Notification = Notification(user: UserId, action: Action, record: Id)

  function Users(rows: seq<Notification>): set<UserId> {
    set n | n in rows :: n.user
  }

  /** One row for each of the users, about this action on this record. */
  ghost predicate OneEach(rows: seq<Notification>, users: set<UserId>, action: Action, record: Id) {
    && |rows| == |users| && Users(rows) == users
    && forall n :: n in rows ==> n.action == action && n.record == record
  }

  lemma OneMore(rows: seq<Notification>, users: set<UserId>, todo: set<UserId>, n: Notification)
    requires OneEach(rows, users - todo, n.action, n.record) && n.user in todo && todo <= users
    ensures OneEach(rows + [n], users - (todo - {n.user}), n.action, n.record)
  {
    UsersOfOneMore(rows, n);
    assert users - (todo - {n.user}) == users - todo + {n.user};
  }

  class Inbox {
    var rows: seq<Notification>

    method Notify(userIds: set<UserId>, action: Action, record: Id)
      modifies this
      ensures old(rows) <= rows && OneEach(rows[|old(rows)|..], userIds, action, record)
    {
      var todo := userIds;
      ghost var added := [];
      while todo != {}
        invariant todo <= userIds
        invariant rows == old(rows) + added && OneEach(added, userIds - todo, action, record)
        decreases todo
      {
        HasMember(todo);
        var user :| user in todo;
        var row := Notification(user, action, record);
        OneMore(added, userIds, todo, row);
        rows, added := rows + [row], added + [row];
        todo := todo - {user};
      }
      assert rows[|old(rows)|..] == added && userIds - todo == userIds;
    }

    /** One notification for each recipient of the action. */
    method NotifyForWorkflowAction(c: Case, action: Action, activeHr: set<UserId>, record: Id)
      modifies this
      ensures old(rows) <= rows && OneEach(rows[|old(rows)|..], Recipients(c, action, activeHr), action, record)
    {
      var recipients := ChooseRecipients(c, action, activeHr);
      if recipients != {} {
        Notify(recipients, action, record);
      }
    }
  }

  /** The branch chain over the action. */
  method ChooseRecipients(c: Case, action: Action, activeHr: set<UserId>) returns (recipients: set<UserId>)
    ensures recipients == Recipients(c, action, activeHr)
  {
    var evaluatorId := EvaluatorId(c.seats);
    var afterHrId := AfterHrId(c.seats);
    recipients := {};
    if action == Submit || action == ManagerSubmit || action == DirectCeoSubmit {
      recipients := activeHr;
    } else if action == HrApprove {
      recipients := {afterHrId};
    } else if action == HrApproveManager || action == HrFinalizeDirectCeo || action == DeputyApprove {
      recipients := {c.seats.ceo};
    } else if action == CeoFinalize || action == HrReturn {
      recipients := {evaluatorId};
    } else if action == DeputyReturn || action == CeoReturnManager {
      recipients := activeHr;
    } else if action == CeoReturn {
      recipients := {afterHrId};
    } else if action == Cancel {
      recipients := SeatHolders(c.seats);
    }
  }

  lemma UsersOfOneMore(rows: seq<Notification>, n: Notification)
    ensures Users(rows + [n]) == Users(rows) + {n.user}
  {
    forall u | u in Users(rows) + {n.user} ensures u in Users(rows + [n]) {
      if u in Users(rows) {
        var m :| m in rows && m.user == u;
        assert m in rows + [n];
      } else {
        assert n in rows + [n];
      }
    }
  }

  /** Database keys are positive. */
  predicate PositiveIds(seats: Seats) {
    seats.deputy.Some? ==> seats.deputy.value > 0
  }

  /** After every transition that leaves the case open, everybody who can now move it forward or back
      has been told; for the HR stage that is every active HR user. */
  lemma NextActorIsTold(c: Case, action: Action, user: User, activeHr: set<UserId>, next: Action, actor: User)
    requires OnChain(c) && PositiveIds(c.seats) && TransitionAllowed(c, action, user)
    requires next != Cancel && TransitionAllowed(After(c, action, user), next, actor)
    requires actor.role == HrRole ==> actor.id in activeHr
    ensures actor.id in Recipients(After(c, action, user), action, activeHr)
  {
    StaysOnChain(c, action, user);
    AllowedHoldsDesk(After(c, action, user), next, actor);
    RecipientsAreDeskHolders(c, action, user, activeHr);
  }

  /** The recipients are the desk the case has moved to, and nobody else. */
  lemma RecipientsAreDeskHolders(c: Case, action: Action, user: User, activeHr: set<UserId>)
    requires OnChain(c) && PositiveIds(c.seats) && TransitionAllowed(c, action, user)
    ensures var c' := After(c, action, user);
      c'.status in OPEN_STATUSES ==>
        Recipients(c', action, activeHr) == if c'.status == Submitted then activeHr else {DeskHolder(c', 0)}
  {
  }

  /** Whoever scored hears of the end: of a finalization alone, of a cancellation with every other seat. */
  lemma ClosingTellsTheScorer(c: Case, action: Action, user: User, activeHr: set<UserId>)
    requires OnChain(c) && TransitionAllowed(c, action, user) && After(c, action, user).status !in OPEN_STATUSES
    ensures Recipients(After(c, action, user), action, activeHr)
      == if action == Cancel then SeatHolders(c.seats) else {Scorer(c.seats)}
    ensures Scorer(c.seats) in Recipients(After(c, action, user), action, activeHr)
  {
  }
}
