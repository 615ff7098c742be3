/** What the invariant of `EvaluationCoherence` gives over whole runs. */
module EvaluationTheorems {
  import opened Domain
  import opened Workflow
  import opened WorkflowRuns
  import opened Scoring
  import opened ScoringLaws
  import opened ScoreChecks
  import opened EvaluationDb
  import opened EvaluationRuns
  import opened EvaluationCoherence

  ghost function Played(db: Db, run: seq<Timed>): (end: Db)
    requires Good(db)
    ensures Good(end)
    decreases |run|
  {
    if run == [] then db
    else
      StepKeepsGood(db, run[0].event, run[0].at);
      Played(Step(db, run[0].event, run[0].at), run[1..])
  }

  // ---------------------------------------------------------------- stability

  predicate Touches(e: Event, id: Id) {
    (e.Transit? || e.ClaimCase? || e.HandOverCase? || e.SaveScores? || e.SetBonus?) && e.record == id
  }

  lemma CasesLeftAlone(db: Db, e: Event, now: Time)
    requires SchemesOk(db) && LeavesCasesAlone(e)
    ensures Step(db, e, now).records == db.records && Step(db, e, now).log == db.log
  {
    match e
    case ActivateScheme(id, actor) => ActivateKeepsRules(db, id, actor);
    case OpenSelfAssessment(subject, contract) => PinLeavesCasesAlone(db, subject, contract, false);
    case SubmitSelfAssessment(subject, contract) => PinLeavesCasesAlone(db, subject, contract, true);
    case _ =>
  }

  lemma PinLeavesCasesAlone(db: Db, subject: Id, contract: Time, submitted: bool)
    ensures PinAssessment(db, subject, contract, submitted).records == db.records
    ensures PinAssessment(db, subject, contract, submitted).log == db.log
  {
  }

  /** Only the people working on a scored case change it, and nobody changes a finalized one. */
  lemma RecordStays(db: Db, e: Event, now: Time, id: Id)
    requires Good(db) && id in db.records && db.records[id].scores != []
    requires Touches(e, id) ==> db.records[id].flow.status == Finalized
    ensures id in Step(db, e, now).records && Step(db, e, now).records[id] == db.records[id]
  {
    if LeavesCasesAlone(e) {
      CasesLeftAlone(db, e, now);
    } else if e.RebindUntouched? {
      RebindSparesScored(db, e.framework, id);
    } else if e.Transit? && e.record == id {
      TerminalStatus(db.records[id].flow, Move(e.action, e.user.id), _ => e.user.role);
    }
  }

  lemma RebindSparesScored(db: Db, framework: Id, id: Id)
    requires id in db.records && db.records[id].scores != []
    ensures id in Rebind(db, framework).records && Rebind(db, framework).records[id] == db.records[id]
  {
  }

  lemma IndicatorStepIsLater(db: Db, e: Event)
    requires Good(db) && (e.AddIndicator? || e.SetActive? || e.DeleteIndicator?)
    ensures Later(db, Step(db, e, 0))
  {
  }

  lemma SameTablesAreLater(db: Db, middle: Db, db': Db)
    requires Later(db, middle)
    requires db'.frameworks == middle.frameworks && db'.schemes == middle.schemes && db'.indicators == middle.indicators
    ensures Later(db, db')
  {
  }

  lemma CaseStepIsLater(db: Db, e: Event, now: Time)
    requires Good(db) && !LeavesCasesAlone(e) && !e.OpenCase?
    ensures Later(db, Step(db, e, now))
  {
    SameTablesAreLater(db, db, Step(db, e, now));
  }

  lemma PinIsLater(db: Db, subject: Id, contract: Time, submitted: bool)
    requires Good(db)
    ensures Later(db, PinAssessment(db, subject, contract, submitted))
  {
    EnsureKeepsGood(db);
    SameTablesAreLater(db, EnsureFramework(db), PinAssessment(db, subject, contract, submitted));
  }

  lemma OpenIsLater(db: Db, id: Id, user: User, subject: Id, contractStart: Option<Time>, seats: Seats, now: Time)
    requires Good(db)
    ensures Later(db, Open(db, id, user, subject, contractStart, seats, now))
  {
    EnsureKeepsGood(db);
    var (middle, _) := FrameworkForNewCase(db, subject, contractStart);
    SameTablesAreLater(db, middle, Open(db, id, user, subject, contractStart, seats, now));
  }

  lemma SchemeStepIsLater(db: Db, e: Event)
    requires Good(db) && (e.CreateScheme? || e.ActivateScheme? || e.DeleteScheme?)
    ensures Later(db, Step(db, e, 0))
  {
    if e.ActivateScheme? { ActivateKeepsRules(db, e.scheme, e.actor); }
  }

  lemma TableStepIsLater(db: Db, e: Event, now: Time)
    requires Good(db) && LeavesCasesAlone(e)
    ensures Later(db, Step(db, e, now))
  {
    match e
    case AddIndicator(_) => IndicatorStepIsLater(db, e);
    case SetActive(_, _) => IndicatorStepIsLater(db, e);
    case DeleteIndicator(_) => IndicatorStepIsLater(db, e);
    case PublishFramework => BumpKeepsGood(db);
    case RenewFramework => EnsureKeepsGood(db);
    case OpenSelfAssessment(subject, contract) => PinIsLater(db, subject, contract, false);
    case SubmitSelfAssessment(subject, contract) => PinIsLater(db, subject, contract, true);
    case _ => SchemeStepIsLater(db, e);
  }

  lemma StepIsLater(db: Db, e: Event, now: Time)
    requires Good(db)
    ensures Later(db, Step(db, e, now))
  {
    if LeavesCasesAlone(e) {
      TableStepIsLater(db, e, now);
    } else if e.OpenCase? {
      OpenIsLater(db, e.record, e.user, e.subject, e.contractStart, e.seats, now);
    } else {
      CaseStepIsLater(db, e, now);
    }
  }

  /** The questions and the rules of a case, and the result it would get or has got, as one value. */
  ghost predicate SameGround(db: Db, db': Db, r: Record)
    requires SchemesOk(db) && SchemesOk(db')
  {
    && HasFramework(db', r) && IndicatorIds(db', r) == IndicatorIds(db, r)
    && HasScheme(db', r) && RulesFor(db', r) == RulesFor(db, r)
    && (FormComplete(db, r) ==>
          Form(db', r) == Form(db, r) && FinalizeScoring(db', r) == FinalizeScoring(db, r))
  }

  lemma LaterSameGround(db: Db, db': Db, r: Record)
    requires TablesOk(db) && Later(db, db') && Stamped(db, r) && SchemesOk(db')
    requires RecordOk(db, r) && RecordOk(db', r)
    ensures SameGround(db, db', r)
  {
    FormOnlyShrinks(db, db', r);
    RulesKept(db, db', r);
    if FormComplete(db, r) { CompleteFormKept(db, db', r); }
  }

  /** Once a stamped case has one score, no run of indicator changes, new versions, rebinding,
      activations or work on other cases alters its questions or its rules: a complete draft stays
      complete and would get the same result, and a finalized case is exactly what it was. */
  lemma {:induction false} ScoredCaseIsStable(db: Db, run: seq<Timed>, id: Id)
    requires Good(db) && id in db.records && Stamped(db, db.records[id]) && db.records[id].scores != []
    requires db.records[id].flow.status == Finalized || forall i :: 0 <= i < |run| ==> !Touches(run[i].event, id)
    ensures var end := Played(db, run);
      id in end.records && end.records[id] == db.records[id] && SameGround(db, end, db.records[id])
    decreases |run|
  {
    var r := db.records[id];
    if run != [] {
      var db' := Step(db, run[0].event, run[0].at);
      StepKeepsGood(db, run[0].event, run[0].at);
      assert !Touches(run[0].event, id) || r.flow.status == Finalized;
      RecordStays(db, run[0].event, run[0].at, id);
      StepIsLater(db, run[0].event, run[0].at);
      assert RecordOk(db, r) && RecordOk(db', db'.records[id]);
      LaterSameGround(db, db', r);
      ScoredCaseIsStable(db', run[1..], id);
    }
  }

  // ---------------------------------------------------------------- one open case per person

  ghost predicate OneOpenEach(db: Db) {
    forall a, b :: a in db.records && b in db.records && a != b && IsOpen(db.records[a]) && IsOpen(db.records[b])
      ==> db.records[a].subject != db.records[b].subject
  }

  /** No case is opened, or opened again. */
  ghost predicate CasesOnlyClose(db: Db, db': Db) {
    forall id :: id in db'.records ==>
      && id in db.records && db'.records[id].subject == db.records[id].subject
      && (IsOpen(db'.records[id]) ==> IsOpen(db.records[id]))
  }

  /** What no work on a case changes: whose it is, for which contract, by which questions and rules. */
  predicate SameBinding(r: Record, r': Record) {
    && r'.scheme == r.scheme && r'.framework == r.framework
    && r'.subject == r.subject && r'.contractStart == r.contractStart
  }

  /** Work on cases leaves them whose they are and opens none. */
  ghost predicate OnlyWork(db: Db, db': Db) {
    && db'.records.Keys == db.records.Keys && db'.assessments == db.assessments
    && forall id :: id in db.records ==>
      SameBinding(db.records[id], db'.records[id]) && (IsOpen(db'.records[id]) ==> IsOpen(db.records[id]))
  }

  lemma OneWorkedOn(db: Db, db': Db, id: Id)
    requires id in db.records && id in db'.records && db'.records == db.records[id := db'.records[id]]
    requires db'.assessments == db.assessments && SameBinding(db.records[id], db'.records[id])
    requires IsOpen(db'.records[id]) ==> IsOpen(db.records[id])
    ensures OnlyWork(db, db')
  {
  }

  lemma TransitIsWork(db: Db, id: Id, action: Action, user: User, now: Time)
    requires Good(db)
    ensures OnlyWork(db, ApplyTransition(db, id, action, user, now))
  {
    if TransitionSucceeds(db, id, action, user) {
      assert db.records[id].flow.status in Table(action).from;
      OneWorkedOn(db, ApplyTransition(db, id, action, user, now), id);
    }
  }

  lemma CaseWork(db: Db, e: Event, now: Time)
    requires Good(db) && !LeavesCasesAlone(e) && !e.OpenCase? && !e.RebindUntouched?
    ensures OnlyWork(db, Step(db, e, now))
  {
    if e.Transit? {
      TransitIsWork(db, e.record, e.action, e.user, now);
    } else if Step(db, e, now) != db {
      OneWorkedOn(db, Step(db, e, now), e.record);
    }
  }

  lemma StepOnlyCloses(db: Db, e: Event, now: Time)
    requires Good(db) && !e.OpenCase?
    ensures CasesOnlyClose(db, Step(db, e, now))
  {
    if LeavesCasesAlone(e) {
      CasesLeftAlone(db, e, now);
    } else if !e.RebindUntouched? {
      CaseWork(db, e, now);
    }
  }

  lemma StepKeepsOneOpen(db: Db, e: Event, now: Time)
    requires Good(db) && OneOpenEach(db)
    ensures OneOpenEach(Step(db, e, now))
  {
    if !e.OpenCase? {
      StepOnlyCloses(db, e, now);
    } else if Step(db, e, now) != db {
      forall id | id in db.records && IsOpen(db.records[id]) ensures db.records[id].subject != e.subject {
        assert !HasOpenCase(db, e.subject);
      }
    }
  }

  /** Nobody ever has two open cases. */
  lemma {:induction false} NobodyHasTwoOpenCases(db: Db, run: seq<Timed>)
    requires Good(db) && OneOpenEach(db)
    ensures OneOpenEach(Played(db, run))
    decreases |run|
  {
    if run != [] {
      StepKeepsGood(db, run[0].event, run[0].at);
      StepKeepsOneOpen(db, run[0].event, run[0].at);
      NobodyHasTwoOpenCases(Step(db, run[0].event, run[0].at), run[1..]);
    }
  }

  // ---------------------------------------------------------------- what the employee has answered

  ghost predicate Assessed(db: Db, r: Record) {
    r.contractStart.Some? && (r.subject, r.contractStart.value) in db.assessments
  }

  lemma StepKeepsBinding(db: Db, e: Event, now: Time, id: Id)
    requires Good(db) && id in db.records && Assessed(db, db.records[id])
    ensures var db' := Step(db, e, now);
      id in db'.records && SameBinding(db.records[id], db'.records[id]) && Assessed(db', db'.records[id])
  {
    if LeavesCasesAlone(e) {
      CasesLeftAlone(db, e, now);
      StepKeepsAssessments(db, e, now);
    } else if !e.OpenCase? && !e.RebindUntouched? {
      CaseWork(db, e, now);
    }
  }

  lemma StepKeepsAssessments(db: Db, e: Event, now: Time)
    requires Good(db) && LeavesCasesAlone(e)
    ensures db.assessments.Keys <= Step(db, e, now).assessments.Keys
  {
    if e.ActivateScheme? { ActivateKeepsRules(db, e.scheme, e.actor); }
  }

  /** From the moment the employee has opened the self-assessment of a contract, its case keeps its
      version of the questions for good, scored or not. */
  lemma {:induction false} AssessedCaseKeepsItsFramework(db: Db, run: seq<Timed>, id: Id)
    requires Good(db) && id in db.records && Assessed(db, db.records[id])
    ensures id in Played(db, run).records && SameBinding(db.records[id], Played(db, run).records[id])
    decreases |run|
  {
    if run != [] {
      StepKeepsGood(db, run[0].event, run[0].at);
      StepKeepsBinding(db, run[0].event, run[0].at, id);
      AssessedCaseKeepsItsFramework(Step(db, run[0].event, run[0].at), run[1..], id);
    }
  }

  /** The current framework has the greatest version. */
  lemma {:induction false} CurrentHasTheGreatestVersion(frameworks: seq<Framework>, i: nat)
    requires i < |frameworks|
    ensures var current := CurrentFramework(frameworks);
      current.Some? && 0 <= current.value < |frameworks| && frameworks[i].version <= frameworks[current.value].version
    decreases |frameworks|
  {
    var n := |frameworks| - 1;
    CurrentExists(frameworks[..n]);
    if i < n { CurrentHasTheGreatestVersion(frameworks[..n], i); }
  }

  /** A published version is the current one, so that publishing settles `ensure_framework`. */
  lemma PublishedIsCurrent(db: Db)
    ensures CurrentFramework(Bump(db).frameworks) == Some(|db.frameworks|)
    ensures EnsureFramework(Bump(db)) == Bump(db)
  {
    assert Bump(db).frameworks[..|db.frameworks|] == db.frameworks;
  }

  /** The one pair of stamps nothing keeps together: submitting a self-assessment binds it once more.
      Employee and scorer answer the same version exactly if, just before the submission, the case is on
      the current version and that version matches the active indicators. */
  lemma SubmissionAgreesWithTheCase(db: Db, id: Id, contract: Time)
    requires Good(db) && id in db.records && HasFramework(db, db.records[id])
    ensures var r := db.records[id]; var db' := PinAssessment(db, r.subject, contract, true);
      && db'.records == db.records && (r.subject, contract) in db'.assessments
      && (r.framework == Some(db'.assessments[(r.subject, contract)].framework)
          <==> !FrameworkOutdated(db) && CurrentFramework(db.frameworks) == r.framework)
  {
    PublishedIsCurrent(db);
  }

  /** The case cannot follow: an opened self-assessment keeps it out of every rebinding, so that whatever HR
      publishes before the submission sets the two apart. */
  lemma SelfAssessmentCanDrift(db: Db, id: Id, contract: Time)
    requires Good(db) && id in db.records && HasFramework(db, db.records[id])
    requires db.records[id].contractStart == Some(contract) && (db.records[id].subject, contract) in db.assessments
    ensures var published := Rebind(Bump(db), |db.frameworks|);
      && published.records[id] == db.records[id]
      && (var subject := db.records[id].subject;
          PinAssessment(published, subject, contract, true).assessments[(subject, contract)].framework
            == |db.frameworks|)
      && db.records[id].framework != Some(|db.frameworks|)
  {
    var published := Rebind(Bump(db), |db.frameworks|);
    BumpKeepsGood(db);
    RebindKeepsGood(Bump(db), |db.frameworks|);
    assert !Untouched(Bump(db), db.records[id]);
    SubmissionAgreesWithTheCase(published, id, contract);
    PublishedIsCurrent(db);
    assert published.frameworks == Bump(db).frameworks;
  }

  // ---------------------------------------------------------------- cases can be finished

  /** Stamped and scored, and ready to be submitted while still a draft. */
  ghost predicate ReadyToMove(db: Db, id: Id, hrUser: UserId, roles: UserId -> Role)
    requires SchemesOk(db)
  {
    && id in db.records
    && var r := db.records[id];
      && IsOpen(r) && OnChain(r.flow) && SeatsCompatible(r.flow, hrUser, roles)
      && Stamped(db, r) && r.scores != []
      && (r.flow.status == Draft ==> FinalizeScoring(db, r).Some?)
  }

  /** The same case with the same answers and stamps, at whatever place. */
  predicate SameCase(r: Record, r': Record) {
    r'.subject == r.subject && r'.scheme == r.scheme && r'.framework == r.framework
    && r'.scores == r.scores && r'.bonus == r.bonus && r'.flow.seats == r.flow.seats
  }

  ghost predicate SameTables(db: Db, db': Db) {
    db'.frameworks == db.frameworks && db'.indicators == db.indicators && db'.schemes == db.schemes
  }

  /** One place forward along the chain, with everything `apply_transition` asks for in place. */
  lemma ForwardStep(db: Db, id: Id, hrUser: UserId, roles: UserId -> Role, now: Time) returns (e: Event)
    requires Good(db) && ReadyToMove(db, id, hrUser, roles)
    ensures e.Transit? && e.record == id
    ensures var r, db' := db.records[id], Step(db, e, now);
      && id in db'.records && Good(db')
      && Place(r.flow.seats, r.flow.status) + 1 < |Chain(r.flow.seats)|
      && SameCase(r, db'.records[id]) && SameTables(db, db')
      && db'.records[id].flow.status == Chain(r.flow.seats)[Place(r.flow.seats, r.flow.status) + 1]
      && (db'.records[id].flow.status != Finalized ==> ReadyToMove(db', id, hrUser, roles))
  {
    var r := db.records[id];
    PlaceOnChain(r.flow);
    PlaceOfStage(r.flow.seats, Place(r.flow.seats, r.flow.status));
    var next := Place(r.flow.seats, r.flow.status) + 1;
    PlaceOfStage(r.flow.seats, next);
    var m := ForwardMove(r.flow, Chain(r.flow.seats)[next], hrUser, roles);
    var user := Actor(m, roles);
    e := Transit(id, m.action, user);
    StaysOnChain(r.flow, m.action, user);
    StillCompatible(r.flow, m, hrUser, roles);
    MoveLeavesDraftBySubmit(r.flow, m.action, user);
    assert RecordOk(db, r);
    assert TransitionSucceeds(db, id, m.action, user);
    StepKeepsGood(db, e, now);
    var r' := Step(db, e, now).records[id];
    assert r' == Moved(r, m.action, user, now, SettledBy(db, r, m.action));
  }

  /** No scored case is ever stuck: by the seat holders' and HR's transitions alone it reaches
      `Finalized` in as many moves as it has places left. */
  lemma {:induction false} CaseCanBeFinalized(db: Db, id: Id, hrUser: UserId, roles: UserId -> Role, now: Time)
    returns (run: seq<Timed>)
    requires Good(db) && ReadyToMove(db, id, hrUser, roles)
    ensures forall t :: t in run ==> t.event.Transit? && t.event.record == id
    ensures var r, end := db.records[id], Played(db, run);
      && id in end.records && end.records[id].flow.status == Finalized && SameCase(r, end.records[id])
      && SameTables(db, end)
      && |run| == |Chain(r.flow.seats)| - 1 - Place(r.flow.seats, r.flow.status)
    decreases |Chain(db.records[id].flow.seats)| - Place(db.records[id].flow.seats, db.records[id].flow.status)
  {
    var flow := db.records[id].flow;
    var e := ForwardStep(db, id, hrUser, roles, now);
    var db' := Step(db, e, now);
    PlaceOfStage(flow.seats, Place(flow.seats, flow.status) + 1);
    var rest := [];
    if db'.records[id].flow.status != Finalized {
      rest := CaseCanBeFinalized(db', id, hrUser, roles, now);
    }
    run := [Timed(e, now)] + rest;
    assert run[1..] == rest;
  }

  // ---------------------------------------------------------------- what HR is shown

  lemma SplitCount(whole: set<Id>, part: set<Id>)
    requires part <= whole
    ensures |part| + |whole - part| == |whole|
  {
    assert whole == part + (whole - part);
  }

  /** The two numbers HR is shown cover every open case once. */
  lemma FrozenPlusMovable(db: Db)
    ensures Impact(db).0 + Impact(db).1 == |OpenIds(db)|
  {
    var movable := set id | id in OpenIds(db) && Untouched(db, db.records[id]);
    SplitCount(OpenIds(db), movable);
    assert OpenIds(db) - movable == set id | id in OpenIds(db) && !Untouched(db, db.records[id]);
  }

  /** Publishing moves at most as many cases as announced, and exactly as many when every open case is
      stamped and none has the new version already. */
  lemma RebindMovesTheMovable(db: Db, framework: Id)
    ensures |MovableIds(db, framework)| <= Impact(db).1
    ensures (forall id :: id in OpenIds(db) ==>
        db.records[id].framework.Some? && db.records[id].framework.value != framework)
      ==> |MovableIds(db, framework)| == Impact(db).1
  {
    var movable := set id | id in OpenIds(db) && Untouched(db, db.records[id]);
    forall id | id in MovableIds(db, framework) ensures id in movable {
      assert id in OpenIds(db);
    }
    SplitCount(movable, MovableIds(db, framework));
    if forall id :: id in OpenIds(db) ==>
        db.records[id].framework.Some? && db.records[id].framework.value != framework {
      forall id | id in movable ensures id in MovableIds(db, framework) {
        assert id in OpenIds(db);
      }
      assert movable == MovableIds(db, framework);
    }
  }
}
