/** The table of transitions and the function that reads it. The table says, per action, from which
    statuses it leaves, where it goes, which role it needs and whose seat it belongs to;
    `MovesAlongTheChain` proves that all of this amounts to one rule: the holder of the desk where a
    case lies moves it one place along its chain. */
module Workflow {
  import opened Domain

  datatype Status = Draft | Submitted | HrApproved | DeputyApproved | Finalized | Cancelled

  datatype Role = SupervisorRole | HrRole | DeputyRole | CeoRole | EmployeeRole | SupportRole

  type UserId = Id

  datatype User = User(id: UserId, role: Role)

  /** Who sits where; an empty seat means that the stage does not exist for this person. */
  datatype Seats = Seats(supervisor: Option<UserId>, deputy: Option<UserId>, ceo: UserId)

  /** The part of a record the transition table looks at. `hr` is the owner of the HR stage, empty
      while the case lies in the shared queue. */
  datatype Case = Case(seats: Seats, hr: Option<UserId>, status: Status)

  datatype Action =
    | Submit | ManagerSubmit | DirectCeoSubmit
    | HrApprove | HrFinalizeDirectCeo | HrApproveManager
    | DeputyApprove | CeoFinalize
    | HrReturn | DeputyReturn | CeoReturn | CeoReturnManager
    | Cancel

  datatype Field = SupervisorField | HrField | DeputyField | CeoField

  datatype Guard = NoGuard | HasSupervisor | IsManagerPath | IsDirectCeoPath | DeputyDoneOrAbsent

  datatype Transition = Transition(
    from: set<Status>, to: Status, role: Role, assignee: Option<Field>, claimable: bool, guard: Guard)

  const OPEN_STATUSES: set<Status> := {Draft, Submitted, HrApproved, DeputyApproved}

  /** Supervisor empty: the deputy scores. */
  predicate ManagerPath(seats: Seats) {
    seats.supervisor == None
  }

  /** Both empty: the CEO scores and HR closes. */
  predicate DirectCeoPath(seats: Seats) {
    seats.supervisor == None && seats.deputy == None
  }

  predicate SkipsDeputy(seats: Seats) {
    seats.deputy == None
  }

  function Table(action: Action): Transition {
    match action
    case Submit => Transition({Draft}, Submitted, SupervisorRole, Some(SupervisorField), false, HasSupervisor)
    case ManagerSubmit => Transition({Draft}, Submitted, DeputyRole, Some(DeputyField), false, IsManagerPath)
    case DirectCeoSubmit => Transition({Draft}, Submitted, CeoRole, Some(CeoField), false, IsDirectCeoPath)
    case HrApprove => Transition({Submitted}, HrApproved, HrRole, Some(HrField), true, HasSupervisor)
    case HrFinalizeDirectCeo => Transition({Submitted}, Finalized, HrRole, Some(HrField), true, IsDirectCeoPath)
    case HrApproveManager => Transition({Submitted}, DeputyApproved, HrRole, Some(HrField), true, IsManagerPath)
    case DeputyApprove => Transition({HrApproved}, DeputyApproved, DeputyRole, Some(DeputyField), false, NoGuard)
    case CeoFinalize =>
      Transition({DeputyApproved, HrApproved}, Finalized, CeoRole, Some(CeoField), false, DeputyDoneOrAbsent)
    case HrReturn => Transition({Submitted}, Draft, HrRole, Some(HrField), true, NoGuard)
    case DeputyReturn => Transition({HrApproved}, Submitted, DeputyRole, Some(DeputyField), false, NoGuard)
    case CeoReturn => Transition({DeputyApproved}, HrApproved, CeoRole, Some(CeoField), false, HasSupervisor)
    case CeoReturnManager => Transition({DeputyApproved}, Submitted, CeoRole, Some(CeoField), false, IsManagerPath)
    case Cancel => Transition(OPEN_STATUSES, Cancelled, HrRole, None, false, NoGuard)
  }

  predicate GuardHolds(guard: Guard, c: Case) {
    match guard
    case NoGuard => true
    case HasSupervisor => !ManagerPath(c.seats)
    case IsManagerPath => ManagerPath(c.seats)
    case IsDirectCeoPath => DirectCeoPath(c.seats)
    case DeputyDoneOrAbsent => c.status != HrApproved || c.seats.deputy == None
  }

  function Assignee(c: Case, field: Field): Option<UserId> {
    match field
    case SupervisorField => c.seats.supervisor
    case HrField => c.hr
    case DeputyField => c.seats.deputy
    case CeoField => Some(c.seats.ceo)
  }

  /** The place of a role in the scoring hierarchy; HR is not a step of it. */
  function ChainRank(role: Role): Option<nat> {
    match role
    case SupervisorRole => Some(1)
    case DeputyRole => Some(2)
    case CeoRole => Some(3)
    case _ => None
  }

  predicate MayActAt(user: Role, stage: Role) {
    if stage == HrRole then user == HrRole
    else ChainRank(user).Some? && ChainRank(stage).Some? && ChainRank(user).value >= ChainRank(stage).value
  }

  predicate TransitionAllowed(c: Case, action: Action, user: User) {
    var spec := Table(action);
    && c.status in spec.from
    && MayActAt(user.role, spec.role)
    && GuardHolds(spec.guard, c)
    && (spec.assignee.Some? ==>
          var assignee := Assignee(c, spec.assignee.value);
          (assignee == None && spec.claimable) || assignee == Some(user.id))
  }

  /** The case after an allowed transition: acting on an unowned HR case also takes it. */
  function After(c: Case, action: Action, user: User): Case {
    var spec := Table(action);
    var claimed :=
      if spec.claimable && spec.assignee == Some(HrField) && c.hr == None then c.(hr := Some(user.id)) else c;
    claimed.(status := spec.to)
  }

  lemma OpenOrClosed(s: Status)
    ensures s in OPEN_STATUSES <==> s !in {Finalized, Cancelled}
  {
    match s
    case _ =>
  }

  // ---------------------------------------------------------------- the chain

  /** The stages a case passes, by the shape of its seats. */
  function Chain(seats: Seats): seq<Status> {
    if ManagerPath(seats) then [Draft, Submitted, DeputyApproved, Finalized]
    else if SkipsDeputy(seats) then [Draft, Submitted, HrApproved, Finalized]
    else [Draft, Submitted, HrApproved, DeputyApproved, Finalized]
  }

  ghost predicate OnChain(c: Case) {
    c.status in Chain(c.seats) || c.status == Cancelled
  }

  /** How far along its chain a status is. */
  function Place(seats: Seats, status: Status): nat {
    match status
    case Draft => 0
    case Submitted => 1
    case HrApproved => 2
    case DeputyApproved => if ManagerPath(seats) then 2 else 3
    case Finalized => |Chain(seats)| - 1
    case Cancelled => |Chain(seats)|
  }

  /** The first scorer: the lowest filled seat. */
  function Scorer(seats: Seats): UserId {
    if seats.supervisor.Some? then seats.supervisor.value
    else if seats.deputy.Some? then seats.deputy.value
    else seats.ceo
  }

  function ScorerRole(seats: Seats): Role {
    if seats.supervisor.Some? then SupervisorRole
    else if seats.deputy.Some? then DeputyRole
    else CeoRole
  }

  /** At whose desk an open case lies. */
  predicate HoldsDesk(c: Case, user: User) {
    match c.status
    case Draft => user.id == Scorer(c.seats) && MayActAt(user.role, ScorerRole(c.seats))
    case Submitted => user.role == HrRole && (c.hr == None || c.hr == Some(user.id))
    case HrApproved =>
      if c.seats.deputy.Some? then user.id == c.seats.deputy.value && MayActAt(user.role, DeputyRole)
      else user.id == c.seats.ceo && MayActAt(user.role, CeoRole)
    case DeputyApproved => user.id == c.seats.ceo && MayActAt(user.role, CeoRole)
    case _ => false
  }

  /** One place forward; one place back, which only the CEO of a chain without a deputy cannot do
      from `HrApproved`; and the short cut by which HR closes a direct-CEO case. */
  predicate ChainMove(c: Case, to: Status) {
    var chain := Chain(c.seats);
    var here := Place(c.seats, c.status);
    || (here + 1 < |chain| && to == chain[here + 1])
    || (here > 0 && here < |chain| && to == chain[here - 1] && !(c.status == HrApproved && c.seats.deputy == None))
    || (DirectCeoPath(c.seats) && c.status == Submitted && to == Finalized)
  }

  lemma PlaceOnChain(c: Case)
    requires c.status in Chain(c.seats)
    ensures Place(c.seats, c.status) < |Chain(c.seats)| && Chain(c.seats)[Place(c.seats, c.status)] == c.status
  {
  }

  lemma AllowedHoldsDesk(c: Case, action: Action, user: User)
    requires OnChain(c) && action != Cancel && TransitionAllowed(c, action, user)
    ensures HoldsDesk(c, user)
  {
  }

  lemma AllowedIsChainMove(c: Case, action: Action, user: User)
    requires OnChain(c) && action != Cancel && TransitionAllowed(c, action, user)
    ensures ChainMove(c, Table(action).to)
  {
  }

  /** The action that carries a case from one status to the next. */
  function ActionFor(c: Case, to: Status): Action {
    match (c.status, to)
    case (Draft, _) =>
      if DirectCeoPath(c.seats) then DirectCeoSubmit else if ManagerPath(c.seats) then ManagerSubmit else Submit
    case (Submitted, Draft) => HrReturn
    case (Submitted, Finalized) => HrFinalizeDirectCeo
    case (Submitted, _) => if ManagerPath(c.seats) then HrApproveManager else HrApprove
    case (HrApproved, Submitted) => DeputyReturn
    case (HrApproved, DeputyApproved) => DeputyApprove
    case (DeputyApproved, Submitted) => CeoReturnManager
    case (DeputyApproved, HrApproved) => CeoReturn
    case _ => CeoFinalize
  }

  lemma ChainMoveIsAllowed(c: Case, to: Status, user: User)
    requires OnChain(c) && HoldsDesk(c, user) && ChainMove(c, to)
    ensures TransitionAllowed(c, ActionFor(c, to), user) && Table(ActionFor(c, to)).to == to
    ensures ActionFor(c, to) != Cancel
  {
  }

  /** The thirteen guarded transitions amount to one rule: apart from cancelling, a user can carry a
      case to a status exactly when the case lies at that user's desk and the status is the next or
      the previous one of the case's chain. */
  lemma MovesAlongTheChain(c: Case, user: User, to: Status)
    requires OnChain(c)
    ensures (exists a :: a != Cancel && TransitionAllowed(c, a, user) && Table(a).to == to)
      <==> HoldsDesk(c, user) && ChainMove(c, to)
  {
    if HoldsDesk(c, user) && ChainMove(c, to) {
      ChainMoveIsAllowed(c, to, user);
    }
    forall a | a != Cancel && TransitionAllowed(c, a, user) && Table(a).to == to
      ensures HoldsDesk(c, user) && ChainMove(c, to)
    {
      AllowedHoldsDesk(c, a, user);
      AllowedIsChainMove(c, a, user);
    }
  }

  /** Any HR user, owner or not, may cancel an open case, and nobody else may. */
  lemma CancelIsForHrOnOpenCases(c: Case, user: User)
    ensures TransitionAllowed(c, Cancel, user) <==> user.role == HrRole && c.status in OPEN_STATUSES
  {
  }

  lemma StaysOnChain(c: Case, action: Action, user: User)
    requires OnChain(c) && TransitionAllowed(c, action, user)
    ensures OnChain(After(c, action, user)) && After(c, action, user).seats == c.seats
  {
    if action != Cancel { AllowedIsChainMove(c, action, user); }
  }

  // ---------------------------------------------------------------- the table in words

  /** Whoever stands as high as a seat may hold it; HR's work is for HR alone. */
  lemma WhoMaySit(role: Role)
    ensures MayActAt(role, SupervisorRole) <==> role in {SupervisorRole, DeputyRole, CeoRole}
    ensures MayActAt(role, DeputyRole) <==> role in {DeputyRole, CeoRole}
    ensures MayActAt(role, CeoRole) <==> role == CeoRole
    ensures MayActAt(role, HrRole) <==> role == HrRole
  {
  }

  predicate ActsForHr(c: Case, user: User) {
    c.status == Submitted && user.role == HrRole && (c.hr == None || c.hr == Some(user.id))
  }

  /** Table, guards, ranks and owner check taken together, action by action. */
  lemma ActionsInWords(c: Case, action: Action, user: User)
    ensures TransitionAllowed(c, action, user) <==>
      match action
      case Submit =>
        && c.status == Draft && c.seats.supervisor == Some(user.id)
        && user.role in {SupervisorRole, DeputyRole, CeoRole}
      case ManagerSubmit =>
        && c.status == Draft && c.seats.supervisor == None && c.seats.deputy == Some(user.id)
        && user.role in {DeputyRole, CeoRole}
      case DirectCeoSubmit =>
        && c.status == Draft && c.seats.supervisor == None && c.seats.deputy == None
        && c.seats.ceo == user.id && user.role == CeoRole
      case HrApprove => ActsForHr(c, user) && c.seats.supervisor != None
      case HrApproveManager => ActsForHr(c, user) && c.seats.supervisor == None
      case HrFinalizeDirectCeo => ActsForHr(c, user) && c.seats.supervisor == None && c.seats.deputy == None
      case HrReturn => ActsForHr(c, user)
      case DeputyApprove =>
        c.status == HrApproved && c.seats.deputy == Some(user.id) && user.role in {DeputyRole, CeoRole}
      case DeputyReturn =>
        c.status == HrApproved && c.seats.deputy == Some(user.id) && user.role in {DeputyRole, CeoRole}
      case CeoFinalize =>
        && (c.status == DeputyApproved || (c.status == HrApproved && c.seats.deputy == None))
        && c.seats.ceo == user.id && user.role == CeoRole
      case CeoReturn =>
        c.status == DeputyApproved && c.seats.supervisor != None && c.seats.ceo == user.id && user.role == CeoRole
      case CeoReturnManager =>
        c.status == DeputyApproved && c.seats.supervisor == None && c.seats.ceo == user.id && user.role == CeoRole
      case Cancel => c.status in {Draft, Submitted, HrApproved, DeputyApproved} && user.role == HrRole
  {
    WhoMaySit(user.role);
  }

  /** Where an action leads and whose the HR stage is then. */
  lemma EffectsInWords(c: Case, action: Action, user: User)
    requires TransitionAllowed(c, action, user)
    ensures After(c, action, user).seats == c.seats
    ensures After(c, action, user).hr
      == if action in {HrApprove, HrApproveManager, HrFinalizeDirectCeo, HrReturn} then Some(user.id) else c.hr
    ensures After(c, action, user).status ==
      match action
      case HrReturn => Draft
      case Submit => Submitted case ManagerSubmit => Submitted case DirectCeoSubmit => Submitted
      case DeputyReturn => Submitted case CeoReturnManager => Submitted
      case HrApprove => HrApproved case CeoReturn => HrApproved
      case HrApproveManager => DeputyApproved case DeputyApprove => DeputyApproved
      case CeoFinalize => Finalized case HrFinalizeDirectCeo => Finalized
      case Cancel => Cancelled
  {
  }
}
