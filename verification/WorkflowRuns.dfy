/** Whole runs of the workflow: how long they are, that they never get stuck, and who must have acted
    before a case is finalized. Seats are fixed along a run and every user has one role. */
module WorkflowRuns {
  import opened Domain
  import opened Workflow

  datatype Move = Move(action: Action, actor: UserId)

  function Actor(m: Move, roles: UserId -> Role): User {
    User(m.actor, roles(m.actor))
  }

  predicate Enabled(c: Case, m: Move, roles: UserId -> Role) {
    TransitionAllowed(c, m.action, Actor(m, roles))
  }

  function Next(c: Case, m: Move, roles: UserId -> Role): Case {
    After(c, m.action, Actor(m, roles))
  }

  /** Every move is allowed where it is made. */
  predicate Run(c: Case, moves: seq<Move>, roles: UserId -> Role)
    decreases |moves|
  {
    moves == [] || (Enabled(c, moves[0], roles) && Run(Next(c, moves[0], roles), moves[1..], roles))
  }

  /** The case after the first `k` moves. */
  function StateAt(c: Case, moves: seq<Move>, k: nat, roles: UserId -> Role): Case
    requires k <= |moves|
    decreases k
  {
    if k == 0 then c else StateAt(Next(c, moves[0], roles), moves[1..], k - 1, roles)
  }

  function End(c: Case, moves: seq<Move>, roles: UserId -> Role): Case {
    StateAt(c, moves, |moves|, roles)
  }

  lemma {:induction false} SplitState(c: Case, moves: seq<Move>, k: nat, j: nat, roles: UserId -> Role)
    requires k + j <= |moves|
    ensures StateAt(StateAt(c, moves, k, roles), moves[k..], j, roles) == StateAt(c, moves, k + j, roles)
    decreases k
  {
    if k == 0 {
      assert moves[0..] == moves;
    } else {
      SplitState(Next(c, moves[0], roles), moves[1..], k - 1, j, roles);
      assert moves[1..][k - 1..] == moves[k..];
    }
  }

  lemma {:induction false} SplitRun(c: Case, moves: seq<Move>, k: nat, roles: UserId -> Role)
    requires Run(c, moves, roles) && k <= |moves|
    ensures Run(StateAt(c, moves, k, roles), moves[k..], roles)
    decreases k
  {
    if k == 0 {
      assert moves[0..] == moves;
    } else {
      var c', rest := Next(c, moves[0], roles), moves[1..];
      SplitRun(c', rest, k - 1, roles);
      assert rest[k - 1..] == moves[k..];
    }
  }

  lemma SplitEnd(c: Case, moves: seq<Move>, k: nat, roles: UserId -> Role)
    requires k <= |moves|
    ensures End(StateAt(c, moves, k, roles), moves[k..], roles) == End(c, moves, roles)
  {
    SplitState(c, moves, k, |moves| - k, roles);
  }

  /** A case never leaves its chain, and its seats stay as they are. */
  lemma {:induction false} StaysOnChainThroughout(c: Case, moves: seq<Move>, k: nat, roles: UserId -> Role)
    requires Run(c, moves, roles) && OnChain(c) && k <= |moves|
    ensures OnChain(StateAt(c, moves, k, roles)) && StateAt(c, moves, k, roles).seats == c.seats
    decreases k
  {
    if k > 0 {
      var c', rest := Next(c, moves[0], roles), moves[1..];
      StaysOnChain(c, moves[0].action, Actor(moves[0], roles));
      StaysOnChainThroughout(c', rest, k - 1, roles);
      assert StateAt(c, moves, k, roles) == StateAt(c', rest, k - 1, roles);
    }
  }

  lemma EnabledAt(c: Case, moves: seq<Move>, k: nat, roles: UserId -> Role)
    requires Run(c, moves, roles) && k < |moves|
    ensures Enabled(StateAt(c, moves, k, roles), moves[k], roles)
    ensures StateAt(c, moves, k + 1, roles) == Next(StateAt(c, moves, k, roles), moves[k], roles)
  {
    SplitRun(c, moves, k, roles);
    SplitState(c, moves, k, 1, roles);
    assert moves[k..][0] == moves[k];
    assert StateAt(StateAt(c, moves, k, roles), moves[k..], 0, roles) == StateAt(c, moves, k, roles);
  }

  // ---------------------------------------------------------------- the owner of the HR stage

  predicate IsHrStage(a: Action) {
    Table(a).assignee == Some(HrField)
  }

  lemma ActingTakesTheCase(c: Case, m: Move, roles: UserId -> Role)
    requires Enabled(c, m, roles)
    ensures IsHrStage(m.action) ==> Next(c, m, roles).hr == Some(m.actor)
    ensures c.hr.Some? ==> Next(c, m, roles).hr == c.hr && (IsHrStage(m.action) ==> c.hr == Some(m.actor))
  {
  }

  // ---------------------------------------------------------------- how long runs are

  predicate IsReturn(a: Action) {
    a == HrReturn || a == DeputyReturn || a == CeoReturn || a == CeoReturnManager
  }

  function Returns(moves: seq<Move>): nat {
    if moves == [] then 0 else (if IsReturn(moves[0].action) then 1 else 0) + Returns(moves[1..])
  }

  function ShortCuts(moves: seq<Move>): nat {
    if moves == [] then 0 else (if moves[0].action == HrFinalizeDirectCeo then 1 else 0) + ShortCuts(moves[1..])
  }

  lemma MoveLength(c: Case, m: Move, roles: UserId -> Role)
    requires OnChain(c) && Enabled(c, m, roles) && m.action != Cancel
    ensures Place(c.seats, Next(c, m, roles).status) - Place(c.seats, c.status) ==
      if IsReturn(m.action) then -1 else if m.action == HrFinalizeDirectCeo then 2 else 1
  {
  }

  lemma {:induction false} Terminal(c: Case, moves: seq<Move>, roles: UserId -> Role)
    requires Run(c, moves, roles) && c.status !in OPEN_STATUSES
    ensures moves == []
  {
    if moves != [] {
      TerminalStatus(c, moves[0], roles);
    }
  }

  lemma TerminalStatus(c: Case, m: Move, roles: UserId -> Role)
    requires c.status !in OPEN_STATUSES
    ensures !Enabled(c, m, roles)
  {
    CancelIsForHrOnOpenCases(c, Actor(m, roles));
  }

  lemma CancelEnds(c: Case, moves: seq<Move>, roles: UserId -> Role)
    requires Run(c, moves, roles) && moves != []
    ensures moves[0].action == Cancel ==> End(c, moves, roles).status == Cancelled
  {
    if moves[0].action == Cancel {
      Terminal(Next(c, moves[0], roles), moves[1..], roles);
    }
  }

  /** The length of a run that was not cancelled is settled by where it starts and ends, by the number
      of returns, and by whether it ended with HR's short cut. */
  lemma {:induction false} ExactLength(c: Case, moves: seq<Move>, roles: UserId -> Role)
    requires OnChain(c) && Run(c, moves, roles) && End(c, moves, roles).status != Cancelled
    ensures |moves| + Place(c.seats, c.status) + ShortCuts(moves)
      == Place(c.seats, End(c, moves, roles).status) + 2 * Returns(moves)
    decreases |moves|
  {
    if moves != [] {
      var c' := Next(c, moves[0], roles);
      StaysOnChain(c, moves[0].action, Actor(moves[0], roles));
      CancelEnds(c, moves, roles);
      MoveLength(c, moves[0], roles);
      ExactLength(c', moves[1..], roles);
    }
  }

  lemma {:induction false} CancelledLength(c: Case, moves: seq<Move>, roles: UserId -> Role)
    requires c.status in OPEN_STATUSES && OnChain(c)
    requires Run(c, moves, roles) && End(c, moves, roles).status == Cancelled
    ensures |moves| + Place(c.seats, c.status) <= |Chain(c.seats)| - 1 + 2 * Returns(moves)
    decreases |moves|
  {
    var c' := Next(c, moves[0], roles);
    StaysOnChain(c, moves[0].action, Actor(moves[0], roles));
    if c'.status !in OPEN_STATUSES {
      Terminal(c', moves[1..], roles);
    } else {
      MoveLength(c, moves[0], roles);
      CancelledLength(c', moves[1..], roles);
    }
  }

  /** A run from a fresh draft with R returns has at most 4 + 2R moves, and at most 3 + 2R when the
      supervisor seat or the deputy seat is empty. */
  lemma BoundedRuns(c: Case, moves: seq<Move>, roles: UserId -> Role)
    requires c.status == Draft && Run(c, moves, roles)
    ensures |moves| <= |Chain(c.seats)| - 1 + 2 * Returns(moves)
    ensures |Chain(c.seats)| == if c.seats.supervisor.Some? && c.seats.deputy.Some? then 5 else 4
  {
    StaysOnChainThroughout(c, moves, |moves|, roles);
    if End(c, moves, roles).status == Cancelled {
      CancelledLength(c, moves, roles);
    } else {
      ExactLength(c, moves, roles);
      PlaceOnChain(End(c, moves, roles));
    }
  }

  // ---------------------------------------------------------------- runs never get stuck

  /** Everybody who has to act can: seat holders have a role that fits the seat, and the HR stage has
      an owner with the HR role, or an HR user to take it. */
  predicate SeatsCompatible(c: Case, hrUser: UserId, roles: UserId -> Role) {
    && MayActAt(roles(Scorer(c.seats)), ScorerRole(c.seats))
    && (c.seats.deputy.Some? ==> MayActAt(roles(c.seats.deputy.value), DeputyRole))
    && MayActAt(roles(c.seats.ceo), CeoRole)
    && roles(hrUser) == HrRole
    && (c.hr.Some? ==> roles(c.hr.value) == HrRole)
  }

  function DeskHolder(c: Case, hrUser: UserId): UserId {
    match c.status
    case Draft => Scorer(c.seats)
    case Submitted => if c.hr.Some? then c.hr.value else hrUser
    case HrApproved => if c.seats.deputy.Some? then c.seats.deputy.value else c.seats.ceo
    case _ => c.seats.ceo
  }

  lemma ForwardMove(c: Case, to: Status, hrUser: UserId, roles: UserId -> Role) returns (m: Move)
    requires c.status in OPEN_STATUSES && OnChain(c) && SeatsCompatible(c, hrUser, roles)
    requires Place(c.seats, c.status) + 1 < |Chain(c.seats)| && to == Chain(c.seats)[Place(c.seats, c.status) + 1]
    ensures Enabled(c, m, roles) && m.action != Cancel && !IsReturn(m.action) && Table(m.action).to == to
  {
    m := Move(ActionFor(c, to), DeskHolder(c, hrUser));
    assert HoldsDesk(c, Actor(m, roles));
    ChainMoveIsAllowed(c, to, Actor(m, roles));
  }

  lemma StillCompatible(c: Case, m: Move, hrUser: UserId, roles: UserId -> Role)
    requires SeatsCompatible(c, hrUser, roles) && Enabled(c, m, roles)
    ensures SeatsCompatible(Next(c, m, roles), hrUser, roles)
  {
  }

  lemma PlaceOfStage(seats: Seats, i: nat)
    requires i < |Chain(seats)|
    ensures Place(seats, Chain(seats)[i]) == i && (Chain(seats)[i] in OPEN_STATUSES <==> i + 1 < |Chain(seats)|)
  {
  }

  /** From every open place of the chain the straight way forward leads to `Finalized`. */
  lemma {:induction false} NeverStuck(c: Case, hrUser: UserId, roles: UserId -> Role) returns (moves: seq<Move>)
    requires c.status in OPEN_STATUSES && OnChain(c) && SeatsCompatible(c, hrUser, roles)
    ensures Run(c, moves, roles) && End(c, moves, roles).status == Finalized
    ensures Returns(moves) == 0 && |moves| == |Chain(c.seats)| - 1 - Place(c.seats, c.status)
    decreases |Chain(c.seats)| - Place(c.seats, c.status)
  {
    PlaceOnChain(c);
    PlaceOfStage(c.seats, Place(c.seats, c.status));
    var next := Place(c.seats, c.status) + 1;
    var m := ForwardMove(c, Chain(c.seats)[next], hrUser, roles);
    StaysOnChain(c, m.action, Actor(m, roles));
    StillCompatible(c, m, hrUser, roles);
    PlaceOfStage(c.seats, next);
    var rest := [];
    if next + 1 < |Chain(c.seats)| {
      rest := NeverStuck(Next(c, m, roles), hrUser, roles);
    }
    moves := [m] + rest;
    assert moves[1..] == rest;
  }

  // ---------------------------------------------------------------- separation of duties

  predicate IsSubmit(a: Action) {
    a == Submit || a == ManagerSubmit || a == DirectCeoSubmit
  }

  predicate IsHrApproval(a: Action) {
    a == HrApprove || a == HrFinalizeDirectCeo || a == HrApproveManager
  }

  /** Two mergeable seats may not be held by one person; supervisor and CEO may. */
  predicate NotRedundant(seats: Seats) {
    && (seats.supervisor.Some? && seats.deputy.Some? ==> seats.supervisor != seats.deputy)
    && (seats.deputy.Some? ==> seats.deputy.value != seats.ceo)
  }

  function SeatHolders(seats: Seats): set<UserId> {
    {seats.ceo}
    + (if seats.supervisor.Some? then {seats.supervisor.value} else {})
    + (if seats.deputy.Some? then {seats.deputy.value} else {})
  }

  function Actors(moves: seq<Move>): set<UserId> {
    set i | 0 <= i < |moves| :: moves[i].actor
  }

  /** The moves from the last time the case was a draft: the scorer's submit, directly followed by an
      HR approval, and never a draft again. */
  ghost predicate FinalRound(c: Case, moves: seq<Move>, k: nat, roles: UserId -> Role) {
    && k + 1 < |moves|
    && StateAt(c, moves, k, roles).status == Draft
    && (forall j :: k < j <= |moves| ==> StateAt(c, moves, j, roles).status != Draft)
    && IsSubmit(moves[k].action) && moves[k].actor == Scorer(c.seats)
    && IsHrApproval(moves[k + 1].action) && roles(moves[k + 1].actor) == HrRole
  }

  ghost predicate NeverDraft(c: Case, moves: seq<Move>, roles: UserId -> Role) {
    forall j :: 0 <= j <= |moves| ==> StateAt(c, moves, j, roles).status != Draft
  }

  lemma NeverDraftTail(c: Case, moves: seq<Move>, roles: UserId -> Role)
    requires moves != [] && forall j :: 0 < j <= |moves| ==> StateAt(c, moves, j, roles).status != Draft
    ensures NeverDraft(Next(c, moves[0], roles), moves[1..], roles)
  {
    forall j | 0 <= j <= |moves[1..]| ensures StateAt(Next(c, moves[0], roles), moves[1..], j, roles).status != Draft {
      assert StateAt(c, moves, j + 1, roles).status != Draft;
    }
  }

  lemma ActorsTail(moves: seq<Move>)
    requires moves != []
    ensures Actors(moves) == {moves[0].actor} + Actors(moves[1..])
  {
    assert forall i :: 0 < i < |moves| ==> moves[i] == moves[1..][i - 1];
    assert forall i :: 0 <= i < |moves[1..]| ==> moves[1..][i] == moves[i + 1];
  }

  lemma MoveActor(c: Case, m: Move, roles: UserId -> Role)
    requires OnChain(c) && Enabled(c, m, roles) && m.action != Cancel
    ensures c.status == Draft ==> IsSubmit(m.action) && m.actor == Scorer(c.seats)
    ensures c.status == Submitted && m.action != HrReturn ==> IsHrApproval(m.action)
    ensures c.status == Submitted ==> roles(m.actor) == HrRole
    ensures c.status == HrApproved && c.seats.deputy.Some? ==> m.actor == c.seats.deputy.value
    ensures c.status == HrApproved && c.seats.deputy == None ==> m.actor == c.seats.ceo
    ensures c.status == DeputyApproved ==> m.actor == c.seats.ceo
    ensures c.status != Submitted ==> roles(m.actor) != HrRole
    ensures Next(c, m, roles).status == Finalized ==> m.actor == c.seats.ceo || DirectCeoPath(c.seats)
  {
  }

  /** Past the scorer's submit, whoever sits on a seat that still has to act, acts. */
  lemma {:induction false} RemainingSeatsAct(c: Case, moves: seq<Move>, roles: UserId -> Role)
    requires OnChain(c) && Run(c, moves, roles) && NeverDraft(c, moves, roles)
    requires End(c, moves, roles).status == Finalized && c.status != Finalized
    ensures !DirectCeoPath(c.seats) ==> c.seats.ceo in Actors(moves) && roles(c.seats.ceo) != HrRole
    ensures c.seats.supervisor.Some? && c.seats.deputy.Some? && c.status != DeputyApproved
      ==> c.seats.deputy.value in Actors(moves) && roles(c.seats.deputy.value) != HrRole
    decreases |moves|
  {
    assert StateAt(c, moves, 0, roles) == c;
    Terminal2(c, moves, roles);
    var c' := Next(c, moves[0], roles);
    StaysOnChain(c, moves[0].action, Actor(moves[0], roles));
    NeverDraftTail(c, moves, roles);
    ActorsTail(moves);
    MoveActor(c, moves[0], roles);
    if c'.status == Finalized {
      FinalizedFrom(c, moves[0], roles);
    } else {
      RemainingSeatsAct(c', moves[1..], roles);
      if c'.status == DeputyApproved { DeputyApprovedFrom(c, moves[0], roles); }
    }
  }

  /** A run to `Finalized` cannot start by cancelling. */
  lemma Terminal2(c: Case, moves: seq<Move>, roles: UserId -> Role)
    requires OnChain(c) && Run(c, moves, roles)
    requires End(c, moves, roles).status == Finalized && c.status != Finalized
    ensures moves != [] && moves[0].action != Cancel
  {
    if moves != [] { CancelEnds(c, moves, roles); }
  }

  lemma FinalizedFrom(c: Case, m: Move, roles: UserId -> Role)
    requires OnChain(c) && Enabled(c, m, roles) && Next(c, m, roles).status == Finalized
    ensures c.seats.supervisor.Some? && c.seats.deputy.Some? ==> c.status == DeputyApproved
  {
  }

  lemma DeputyApprovedFrom(c: Case, m: Move, roles: UserId -> Role)
    requires OnChain(c) && Enabled(c, m, roles) && Next(c, m, roles).status == DeputyApproved
    ensures c.seats.supervisor.Some? && c.seats.deputy.Some? ==>
      c.status == HrApproved && m.actor == c.seats.deputy.value && roles(m.actor) != HrRole
  {
  }

  /** The last moment the case was a draft. */
  lemma {:induction false} LastDraft(c: Case, moves: seq<Move>, roles: UserId -> Role) returns (k: int)
    ensures -1 <= k <= |moves|
    ensures k >= 0 ==> StateAt(c, moves, k, roles).status == Draft
    ensures forall j :: 0 <= j <= |moves| && k < j ==> StateAt(c, moves, j, roles).status != Draft
    decreases |moves|
  {
    if moves == [] {
      k := if c.status == Draft then 0 else -1;
    } else {
      var tail := LastDraft(Next(c, moves[0], roles), moves[1..], roles);
      k := if tail >= 0 then tail + 1 else if c.status == Draft then 0 else -1;
      forall j | 0 <= j <= |moves| && k < j ensures StateAt(c, moves, j, roles).status != Draft {
        if j > 0 { assert StateAt(c, moves, j, roles) == StateAt(Next(c, moves[0], roles), moves[1..], j - 1, roles); }
      }
    }
  }

  /** A run from a draft that never comes back to draft and ends finalized. */
  lemma RoundActs(d: Case, moves: seq<Move>, roles: UserId -> Role)
    requires d.status == Draft && Run(d, moves, roles) && End(d, moves, roles).status == Finalized
    requires forall j :: 0 < j <= |moves| ==> StateAt(d, moves, j, roles).status != Draft
    ensures |moves| > 1 && IsSubmit(moves[0].action) && moves[0].actor == Scorer(d.seats)
    ensures IsHrApproval(moves[1].action) && roles(moves[1].actor) == HrRole
    ensures SeatHolders(d.seats) + {moves[1].actor} <= Actors(moves)
    ensures forall u :: u in SeatHolders(d.seats) ==> roles(u) != HrRole
  {
    Terminal2(d, moves, roles);
    MoveActor(d, moves[0], roles);
    var s := Next(d, moves[0], roles);
    StaysOnChain(d, moves[0].action, Actor(moves[0], roles));
    NeverDraftTail(d, moves, roles);
    Terminal2(s, moves[1..], roles);
    MoveActor(s, moves[1..][0], roles);
    assert StateAt(s, moves[1..], 1, roles) == Next(s, moves[1], roles);
    RemainingSeatsAct(s, moves[1..], roles);
    ActorsTail(moves);
    ActorsTail(moves[1..]);
  }

  lemma ThreeDistinct(a: UserId, b: UserId, c: UserId, s: set<UserId>)
    requires {a, b, c} <= s && a != b && b != c && a != c
    ensures |s| >= 3
  {
    var rest := s - {a, b};
    assert c in rest && s == {a, b} + rest;
  }

  lemma TwoDistinct(a: UserId, b: UserId, s: set<UserId>)
    requires {a, b} <= s && a != b
    ensures |s| >= 2
  {
    assert s == {a} + (s - {a}) && b in s - {a};
  }

  /** The people who act in a round: everybody with a seat, and somebody from HR who has none. */
  lemma PeopleInRound(seats: Seats, hr: UserId, actors: set<UserId>, roles: UserId -> Role)
    requires SeatHolders(seats) + {hr} <= actors && NotRedundant(seats)
    requires roles(hr) == HrRole && forall u :: u in SeatHolders(seats) ==> roles(u) != HrRole
    ensures |actors| >= 2
    ensures seats.deputy.Some? ==> |actors| >= 3
  {
    assert seats.ceo in SeatHolders(seats);
    TwoDistinct(seats.ceo, hr, actors);
    if seats.deputy.Some? {
      assert seats.deputy.value in SeatHolders(seats);
      ThreeDistinct(seats.ceo, seats.deputy.value, hr, actors);
    }
  }

  /** In every run from a draft to `Finalized`, after the last time the case is a draft: the scorer
      submits, HR approves next, everybody who holds a seat acts, and no seat holder is from HR. So at
      least two people act, and at least three when the deputy seat is filled. */
  lemma SeparationOfDuties(c: Case, moves: seq<Move>, roles: UserId -> Role) returns (k: nat)
    requires c.status == Draft && NotRedundant(c.seats)
    requires Run(c, moves, roles) && End(c, moves, roles).status == Finalized
    ensures FinalRound(c, moves, k, roles)
    ensures SeatHolders(c.seats) + {moves[k + 1].actor} <= Actors(moves[k..])
    ensures |Actors(moves[k..])| >= if c.seats.deputy.Some? then 3 else 2
    ensures forall u :: u in SeatHolders(c.seats) ==> roles(u) != HrRole
  {
    var last := LastDraft(c, moves, roles);
    assert StateAt(c, moves, 0, roles) == c;
    k := last;
    SplitRun(c, moves, k, roles);
    SplitEnd(c, moves, k, roles);
    StaysOnChainThroughout(c, moves, k, roles);
    var d, round := StateAt(c, moves, k, roles), moves[k..];
    forall j | 0 < j <= |round| ensures StateAt(d, round, j, roles).status != Draft {
      SplitState(c, moves, k, j, roles);
    }
    RoundActs(d, round, roles);
    assert round[0] == moves[k] && round[1] == moves[k + 1];
    PeopleInRound(c.seats, round[1].actor, Actors(round), roles);
  }

  /** Two is all there need be: with the CEO on the supervisor seat and no deputy, the CEO and one HR
      user take the case from draft to `Finalized`. */
  lemma TwoPeopleCanSuffice(ceo: UserId, hr: UserId, roles: UserId -> Role) returns (moves: seq<Move>)
    requires roles(ceo) == CeoRole && roles(hr) == HrRole
    ensures var c := Case(Seats(Some(ceo), None, ceo), None, Draft);
      && NotRedundant(c.seats) && Run(c, moves, roles) && End(c, moves, roles).status == Finalized
    ensures Actors(moves) == {ceo, hr}
  {
    var c := Case(Seats(Some(ceo), None, ceo), None, Draft);
    moves := [Move(Submit, ceo), Move(HrApprove, hr), Move(CeoFinalize, ceo)];
    var c1 := Next(c, moves[0], roles);
    var c2 := Next(c1, moves[1], roles);
    var c3 := Next(c2, moves[2], roles);
    assert moves[1..] == [moves[1], moves[2]] && moves[1..][1..] == [moves[2]] && moves[1..][1..][1..] == [];
    assert Run(c2, [moves[2]], roles) && End(c2, [moves[2]], roles) == c3;
    assert Run(c1, moves[1..], roles) && End(c1, moves[1..], roles) == c3;
    ActorsTail(moves);
    ActorsTail(moves[1..]);
    ActorsTail(moves[1..][1..]);
    assert Actors([]) == {};
  }
}
