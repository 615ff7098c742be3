/** Runs in which HR users also take cases from the queue and hand them over to each other. The owner of
    the HR stage then changes between transitions; the run theorems hold all the same, because nothing in
    them depends on which HR user acts. */
module HrOwnership {
  import opened Domain
  import opened Workflow
  import opened WorkflowRuns

  datatype Event = Act(move: Move) | Claim(user: UserId) | HandOver(giver: UserId, to: UserId)

  /** Taking an unowned open case, and giving an open case to another HR user, are for HR users. */
  predicate Possible(c: Case, e: Event, roles: UserId -> Role) {
    match e
    case Act(m) => Enabled(c, m, roles)
    case Claim(u) => roles(u) == HrRole && c.status in OPEN_STATUSES && c.hr == None
    case HandOver(giver, to) =>
      roles(giver) == HrRole && roles(to) == HrRole && c.status in OPEN_STATUSES && c.hr != Some(to)
  }

  function Then(c: Case, e: Event, roles: UserId -> Role): Case {
    match e
    case Act(m) => Next(c, m, roles)
    case Claim(u) => c.(hr := Some(u))
    case HandOver(_, to) => c.(hr := Some(to))
  }

  predicate HrRun(c: Case, events: seq<Event>, roles: UserId -> Role)
    decreases |events|
  {
    events == [] || (Possible(c, events[0], roles) && HrRun(Then(c, events[0], roles), events[1..], roles))
  }

  function CaseAfter(c: Case, events: seq<Event>, roles: UserId -> Role): Case
    decreases |events|
  {
    if events == [] then c else CaseAfter(Then(c, events[0], roles), events[1..], roles)
  }

  lemma {:induction false} FirstPart(c: Case, events: seq<Event>, k: nat, roles: UserId -> Role)
    requires HrRun(c, events, roles) && k <= |events|
    ensures HrRun(c, events[..k], roles)
    decreases |events|
  {
    if k > 0 {
      var c', rest := Then(c, events[0], roles), events[1..];
      FirstPart(c', rest, k - 1, roles);
      assert events[..k][1..] == rest[..k - 1];
    }
  }

  lemma {:induction false} SecondPart(c: Case, events: seq<Event>, k: nat, roles: UserId -> Role)
    requires HrRun(c, events, roles) && k <= |events|
    ensures HrRun(CaseAfter(c, events[..k], roles), events[k..], roles)
    decreases |events|
  {
    if k == 0 {
      assert events[..0] == [] && events[0..] == events;
    } else {
      var c', rest := Then(c, events[0], roles), events[1..];
      SecondPart(c', rest, k - 1, roles);
      assert events[..k][0] == events[0] && events[..k][1..] == rest[..k - 1];
      assert CaseAfter(c, events[..k], roles) == CaseAfter(c', rest[..k - 1], roles);
      assert rest[k - 1..] == events[k..];
    }
  }

  // ---------------------------------------------------------------- who acts for HR

  /** Whoever was given the case last. */
  function Responsible(first: UserId, events: seq<Event>): UserId
    decreases |events|
  {
    if events == [] then first
    else Responsible(if events[0].HandOver? then events[0].to else first, events[1..])
  }

  lemma {:induction false} OwnerIsResponsible(c: Case, events: seq<Event>, owner: UserId, roles: UserId -> Role)
    requires HrRun(c, events, roles) && c.hr == Some(owner)
    ensures CaseAfter(c, events, roles).hr == Some(Responsible(owner, events))
    decreases |events|
  {
    if events != [] {
      if events[0].Act? { ActingTakesTheCase(c, events[0].move, roles); }
      OwnerIsResponsible(Then(c, events[0], roles), events[1..],
                         if events[0].HandOver? then events[0].to else owner, roles);
    }
  }

  lemma {:induction false} NobodyElseResponsible(first: UserId, events: seq<Event>)
    requires forall e :: e in events ==> !e.HandOver?
    ensures Responsible(first, events) == first
  {
    if events != [] { NobodyElseResponsible(first, events[1..]); }
  }

  /** Approving and returning for HR is tied to a person: over a whole run, returns included, the next one
      to do it is whoever the case was handed over to last, and without a hand-over the same as before. */
  lemma HrActorFollowsHandOvers(c: Case, events: seq<Event>, i: nat, j: nat, roles: UserId -> Role)
    requires HrRun(c, events, roles) && i < j < |events|
    requires events[i].Act? && IsHrStage(events[i].move.action) && events[j].Act? && IsHrStage(events[j].move.action)
    ensures events[j].move.actor == Responsible(events[i].move.actor, events[i + 1..j])
    ensures (forall e :: e in events[i + 1..j] ==> !e.HandOver?) ==> events[j].move.actor == events[i].move.actor
  {
    SecondPart(c, events, i, roles);
    var before := CaseAfter(c, events[..i], roles);
    var rest := events[i..];
    ActingTakesTheCase(before, events[i].move, roles);
    var owned := Then(before, events[i], roles);
    assert rest[1..] == events[i + 1..];
    FirstPart(owned, events[i + 1..], j - i - 1, roles);
    SecondPart(owned, events[i + 1..], j - i - 1, roles);
    var between := events[i + 1..j];
    assert events[i + 1..][..j - i - 1] == between && events[i + 1..][j - i - 1..] == events[j..];
    OwnerIsResponsible(owned, between, events[i].move.actor, roles);
    ActingTakesTheCase(CaseAfter(owned, between, roles), events[j].move, roles);
    if forall e :: e in between ==> !e.HandOver? { NobodyElseResponsible(events[i].move.actor, between); }
  }

  // ---------------------------------------------------------------- which HR user it is does not matter

  /** The transitions of a run. */
  function Acts(events: seq<Event>): seq<Move> {
    if events == [] then []
    else (if events[0].Act? then [events[0].move] else []) + Acts(events[1..])
  }

  /** The same move, made by one and the same HR user. */
  function Renamed(m: Move, hr: UserId, roles: UserId -> Role): Move {
    if roles(m.actor) == HrRole then m.(actor := hr) else m
  }

  function AllRenamed(moves: seq<Move>, hr: UserId, roles: UserId -> Role): seq<Move> {
    seq(|moves|, i requires 0 <= i < |moves| => Renamed(moves[i], hr, roles))
  }

  /** The same place, owned by nobody or by that user. */
  predicate Follows(c: Case, p: Case, hr: UserId) {
    p.seats == c.seats && p.status == c.status && (p.hr == None || p.hr == Some(hr))
  }

  lemma ActIsFollowed(c: Case, p: Case, m: Move, hr: UserId, roles: UserId -> Role)
    requires Follows(c, p, hr) && Enabled(c, m, roles) && (roles(m.actor) == HrRole ==> roles(hr) == HrRole)
    ensures Enabled(p, Renamed(m, hr, roles), roles)
    ensures Follows(Next(c, m, roles), Next(p, Renamed(m, hr, roles), roles), hr)
  {
  }

  lemma RunGrows(p: Case, m: Move, moves: seq<Move>, roles: UserId -> Role)
    requires Enabled(p, m, roles) && Run(Next(p, m, roles), moves, roles)
    ensures Run(p, [m] + moves, roles) && End(p, [m] + moves, roles) == End(Next(p, m, roles), moves, roles)
  {
    assert ([m] + moves)[1..] == moves;
  }

  lemma RenamedGrows(m: Move, moves: seq<Move>, hr: UserId, roles: UserId -> Role)
    ensures AllRenamed([m] + moves, hr, roles) == [Renamed(m, hr, roles)] + AllRenamed(moves, hr, roles)
  {
  }

  /** Without the claims and hand-overs, and with one user in the place of all of HR, a run is a run of
      transitions alone. */
  lemma {:induction false} RunIsFollowed(c: Case, p: Case, events: seq<Event>, hr: UserId, roles: UserId -> Role)
    requires HrRun(c, events, roles) && Follows(c, p, hr)
    requires forall m :: m in Acts(events) && roles(m.actor) == HrRole ==> roles(hr) == HrRole
    ensures Run(p, AllRenamed(Acts(events), hr, roles), roles)
    ensures Follows(CaseAfter(c, events, roles), End(p, AllRenamed(Acts(events), hr, roles), roles), hr)
    decreases |events|
  {
    if events != [] {
      var e, rest := events[0], events[1..];
      var c' := Then(c, e, roles);
      if e.Act? {
        var m := Renamed(e.move, hr, roles);
        assert Acts(events) == [e.move] + Acts(rest);
        ActIsFollowed(c, p, e.move, hr, roles);
        RunIsFollowed(c', Next(p, m, roles), rest, hr, roles);
        RunGrows(p, m, AllRenamed(Acts(rest), hr, roles), roles);
        RenamedGrows(e.move, Acts(rest), hr, roles);
      } else {
        assert Acts(events) == Acts(rest);
        RunIsFollowed(c', p, rest, hr, roles);
      }
    }
  }

  /** An HR user who acts in the run, if there is one. */
  lemma SomeHrActor(moves: seq<Move>, roles: UserId -> Role) returns (hr: UserId)
    ensures forall m :: m in moves && roles(m.actor) == HrRole ==> roles(hr) == HrRole
  {
    if m :| m in moves && roles(m.actor) == HrRole { hr := m.actor; } else { hr := 0; }
  }

  lemma {:induction false} ReturnsRenamed(moves: seq<Move>, hr: UserId, roles: UserId -> Role)
    ensures Returns(AllRenamed(moves, hr, roles)) == Returns(moves)
  {
    if moves != [] {
      assert AllRenamed(moves, hr, roles)[1..] == AllRenamed(moves[1..], hr, roles);
      ReturnsRenamed(moves[1..], hr, roles);
    }
  }

  /** The bound on the number of transitions, whatever claims and hand-overs there are. */
  lemma BoundedWithOwners(c: Case, events: seq<Event>, roles: UserId -> Role)
    requires c.status == Draft && HrRun(c, events, roles)
    ensures |Acts(events)|
      <= (if c.seats.supervisor.Some? && c.seats.deputy.Some? then 4 else 3) + 2 * Returns(Acts(events))
  {
    var hr := SomeHrActor(Acts(events), roles);
    RunIsFollowed(c, c.(hr := None), events, hr, roles);
    BoundedRuns(c.(hr := None), AllRenamed(Acts(events), hr, roles), roles);
    ReturnsRenamed(Acts(events), hr, roles);
  }

  lemma SeatHoldersActThemselves(moves: seq<Move>, hr: UserId, roles: UserId -> Role, u: UserId)
    requires u in Actors(AllRenamed(moves, hr, roles)) && roles(u) != HrRole
    requires forall m :: m in moves && roles(m.actor) == HrRole ==> roles(hr) == HrRole
    ensures u in Actors(moves)
  {
    var i :| 0 <= i < |moves| && AllRenamed(moves, hr, roles)[i].actor == u;
    assert moves[i] in moves;
    assert moves[i].actor == u;
  }

  /** No draft again from this transition on. */
  predicate NeverBackToDraft(moves: seq<Move>) {
    forall i :: 0 <= i < |moves| ==> Table(moves[i].action).to != Draft
  }

  lemma RoundStaysOut(c: Case, moves: seq<Move>, k: nat, roles: UserId -> Role)
    requires Run(c, moves, roles) && FinalRound(c, moves, k, roles)
    ensures NeverBackToDraft(moves[k..])
  {
    forall i | 0 <= i < |moves[k..]| ensures Table(moves[k..][i].action).to != Draft {
      EnabledAt(c, moves, k + i, roles);
      assert StateAt(c, moves, k + i + 1, roles).status != Draft;
    }
  }

  /** Separation of duties with claims and hand-overs anywhere in the run: the last transitions that are
      not undone begin with the scorer's submit, an HR user's approval is the next, every seat holder acts
      and none of them is from HR. */
  lemma DutiesSeparatedWithOwners(c: Case, events: seq<Event>, roles: UserId -> Role) returns (k: nat)
    requires c.status == Draft && NotRedundant(c.seats)
    requires HrRun(c, events, roles) && CaseAfter(c, events, roles).status == Finalized
    ensures var acts := Acts(events);
      && k + 1 < |acts| && NeverBackToDraft(acts[k..])
      && IsSubmit(acts[k].action) && acts[k].actor == Scorer(c.seats)
      && IsHrApproval(acts[k + 1].action) && roles(acts[k + 1].actor) == HrRole
      && SeatHolders(c.seats) + {acts[k + 1].actor} <= Actors(acts[k..])
      && |Actors(acts[k..])| >= if c.seats.deputy.Some? then 3 else 2
  {
    var acts := Acts(events);
    var hr := SomeHrActor(acts, roles);
    var p, renamed := c.(hr := None), AllRenamed(acts, hr, roles);
    RunIsFollowed(c, p, events, hr, roles);
    k := SeparationOfDuties(p, renamed, roles);
    RoundStaysOut(p, renamed, k, roles);
    ActsOfTheRound(c.seats, acts, hr, k, roles);
  }

  lemma ActsOfTheRound(seats: Seats, acts: seq<Move>, hr: UserId, k: nat, roles: UserId -> Role)
    requires forall m :: m in acts && roles(m.actor) == HrRole ==> roles(hr) == HrRole
    requires k + 1 < |acts| && NotRedundant(seats) && forall u :: u in SeatHolders(seats) ==> roles(u) != HrRole
    requires var renamed := AllRenamed(acts, hr, roles);
      && NeverBackToDraft(renamed[k..]) && renamed[k].actor == Scorer(seats) && roles(renamed[k + 1].actor) == HrRole
      && SeatHolders(seats) <= Actors(renamed[k..])
    ensures NeverBackToDraft(acts[k..]) && acts[k].actor == Scorer(seats) && roles(acts[k + 1].actor) == HrRole
    ensures SeatHolders(seats) + {acts[k + 1].actor} <= Actors(acts[k..])
    ensures |Actors(acts[k..])| >= if seats.deputy.Some? then 3 else 2
  {
    var renamed, round := AllRenamed(acts, hr, roles), acts[k..];
    assert AllRenamed(round, hr, roles) == renamed[k..];
    assert acts[k] in acts && acts[k + 1] in acts;
    assert Scorer(seats) in SeatHolders(seats);
    forall i | 0 <= i < |round| ensures Table(round[i].action).to != Draft {
      assert renamed[k..][i].action == round[i].action;
    }
    forall u | u in SeatHolders(seats) ensures u in Actors(round) {
      SeatHoldersActThemselves(round, hr, roles, u);
    }
    assert round[1] == acts[k + 1];
    PeopleInRound(seats, acts[k + 1].actor, Actors(round), roles);
  }
}
