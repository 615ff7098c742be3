/** What stays true of results, clocks, versions and bonuses over whole runs. */
module EvaluationHistory {
  import opened Domain
  import opened Rounding
  import opened Workflow
  import opened WorkflowRuns
  import opened Scoring
  import opened ScoringLaws
  import opened ScoreChecks
  import opened EvaluationDb
  import opened EvaluationRuns
  import opened EvaluationCoherence
  import opened EvaluationTheorems
  import opened EvaluationStamps
  import opened EvaluationSteps

  // ---------------------------------------------------------------- what only a transition changes

  /** Place, clocks and result are as they were. */
  predicate SamePlace(r: Record, r': Record) {
    && r'.flow.status == r.flow.status && r'.stageEnteredAt == r.stageEnteredAt
    && r'.finalizedAt == r.finalizedAt && r'.stored == r.stored
  }

  lemma OtherTransitsKeepPlace(db: Db, of: Id, action: Action, user: User, now: Time, id: Id)
    requires SchemesOk(db) && id in db.records && id != of
    ensures var db' := ApplyTransition(db, of, action, user, now);
      id in db'.records && db'.records[id] == db.records[id]
  {
  }

  lemma WritingKeepsPlace(db: Db, e: Event, now: Time, id: Id)
    requires SchemesOk(db) && id in db.records
    requires e.ClaimCase? || e.HandOverCase? || e.SaveScores? || e.SetBonus?
    ensures id in Step(db, e, now).records && SamePlace(db.records[id], Step(db, e, now).records[id])
  {
  }

  lemma OpeningKeepsPlace(db: Db, e: Event, now: Time, id: Id)
    requires SchemesOk(db) && id in db.records && (e.OpenCase? || e.RebindUntouched?)
    ensures id in Step(db, e, now).records && SamePlace(db.records[id], Step(db, e, now).records[id])
  {
  }

  lemma OtherStepsKeepPlace(db: Db, e: Event, now: Time, id: Id)
    requires Good(db) && id in db.records && !(e.Transit? && e.record == id)
    ensures id in Step(db, e, now).records && SamePlace(db.records[id], Step(db, e, now).records[id])
  {
    if LeavesCasesAlone(e) {
      CasesLeftAlone(db, e, now);
    } else if e.Transit? {
      OtherTransitsKeepPlace(db, e.record, e.action, e.user, now, id);
    } else if e.OpenCase? || e.RebindUntouched? {
      OpeningKeepsPlace(db, e, now, id);
    } else {
      WritingKeepsPlace(db, e, now, id);
    }
  }

  lemma NoNewCase(db: Db, e: Event, now: Time, id: Id)
    requires Good(db) && id !in db.records && id in Step(db, e, now).records
    ensures e.OpenCase? && e.record == id
    ensures var r := Step(db, e, now).records[id];
      r.flow.status == Draft && r.finalizedAt == None && r.stored == None && r.bonus == None
  {
    if LeavesCasesAlone(e) { CasesLeftAlone(db, e, now); }
  }

  // ---------------------------------------------------------------- the time of the end

  /** A finalized case has the time at which it entered that stage, any other has none. */
  ghost predicate EndIsDated(db: Db) {
    forall id :: id in db.records ==>
      db.records[id].finalizedAt
        == if db.records[id].flow.status == Finalized then Some(db.records[id].stageEnteredAt) else None
  }

  lemma OnlyOpenCasesMove(c: Case, action: Action, user: User)
    requires TransitionAllowed(c, action, user)
    ensures c.status != Finalized && c.status != Cancelled
  {
  }

  lemma StepKeepsEndDated(db: Db, e: Event, now: Time)
    requires Good(db) && EndIsDated(db)
    ensures EndIsDated(Step(db, e, now))
  {
    var db' := Step(db, e, now);
    forall id | id in db'.records
      ensures db'.records[id].finalizedAt
        == if db'.records[id].flow.status == Finalized then Some(db'.records[id].stageEnteredAt) else None
    {
      if id !in db.records {
        NoNewCase(db, e, now, id);
      } else if e.Transit? && e.record == id {
        if TransitionSucceeds(db, id, e.action, e.user) {
          OnlyOpenCasesMove(db.records[id].flow, e.action, e.user);
          TransitInWords(db, id, e.action, e.user, now);
          ActionGroups(e.action);
        }
      } else {
        OtherStepsKeepPlace(db, e, now, id);
      }
    }
  }

  lemma {:induction false} EndIsAlwaysDated(db: Db, run: seq<Timed>)
    requires Good(db) && EndIsDated(db)
    ensures EndIsDated(Played(db, run))
    decreases |run|
  {
    if run != [] {
      StepKeepsGood(db, run[0].event, run[0].at);
      StepKeepsEndDated(db, run[0].event, run[0].at);
      EndIsAlwaysDated(Step(db, run[0].event, run[0].at), run[1..]);
    }
  }

  // ---------------------------------------------------------------- the result in the log

  /** The result the log holds last for a case. */
  function LastResult(log: seq<Entry>, id: Id): Option<Result> {
    if log == [] then None
    else
      var e := log[|log| - 1];
      if e.record == id && e.what.ScoreSubmitted? then Some(e.what.result) else LastResult(log[..|log| - 1], id)
  }

  ghost predicate LogHoldsResults(db: Db) {
    && (forall id :: id in db.records ==> LogHolds(db.log, id, db.records[id]))
    && (forall e :: e in db.log ==> e.record in db.records)
  }

  ghost predicate LogHolds(log: seq<Entry>, id: Id, r: Record) {
    r.stored == match LastResult(log, id) case None => None case Some(result) => Some(StoredOf(result))
  }

  lemma {:induction false} OtherEntries(log: seq<Entry>, more: seq<Entry>, id: Id)
    requires forall i :: 0 <= i < |more| ==> more[i].record != id || !more[i].what.ScoreSubmitted?
    ensures LastResult(log + more, id) == LastResult(log, id)
  {
    if more == [] {
      assert log + more == log;
    } else {
      OtherEntries(log, more[..|more| - 1], id);
      assert (log + more)[..|log + more| - 1] == log + more[..|more| - 1];
    }
  }

  lemma NewResult(log: seq<Entry>, e: Entry)
    requires e.what.ScoreSubmitted?
    ensures LastResult(log + [e], e.record) == Some(e.what.result)
  {
  }

  lemma NeverMentioned(log: seq<Entry>, id: Id)
    requires forall e :: e in log ==> e.record != id
    ensures LastResult(log, id) == None
  {
    OtherEntries([], log, id);
    assert [] + log == log;
  }

  /** What is appended to the log: about a case that exists, and a result only by a submit. */
  lemma LogGrows(db: Db, e: Event, now: Time) returns (more: seq<Entry>)
    requires Good(db) && !e.Transit?
    ensures Step(db, e, now).log == db.log + more
    ensures forall i :: 0 <= i < |more| ==> !more[i].what.ScoreSubmitted? && more[i].record in Step(db, e, now).records
  {
    var db' := Step(db, e, now);
    if LeavesCasesAlone(e) {
      CasesLeftAlone(db, e, now);
      more := [];
    } else {
      more := db'.log[|db.log|..];
    }
  }

  /** What a transition that succeeds appends to the log, by `TransitInWords`. */
  ghost function Appended(db: Db, id: Id, action: Action, user: User, now: Time): seq<Entry>
    requires SchemesOk(db) && id in db.records && TransitionSucceeds(db, id, action, user)
  {
    TransitInWords(db, id, action, user, now);
    var r := db.records[id];
    (if ByHr(action) && r.flow.hr == None then [Entry(id, user.id, now, Claimed)] else [])
    + (if Submits(action) then [Entry(id, user.id, now, ScoreSubmitted(FinalizeScoring(db, r).value))] else [])
    + [Entry(id, user.id, now, StatusChanged(r.flow.status, After(r.flow, action, user).status))]
  }

  lemma TransitAppends(db: Db, id: Id, action: Action, user: User, now: Time)
    requires SchemesOk(db) && id in db.records && TransitionSucceeds(db, id, action, user)
    ensures Step(db, Transit(id, action, user), now).log == db.log + Appended(db, id, action, user, now)
  {
    TransitInWords(db, id, action, user, now);
  }

  lemma AppendedHolds(db: Db, id: Id, action: Action, user: User, now: Time)
    requires Good(db) && id in db.records && LogHolds(db.log, id, db.records[id])
    requires TransitionSucceeds(db, id, action, user)
    ensures Submits(action) ==> FinalizeScoring(db, db.records[id]).Some?
    ensures LastResult(db.log + Appended(db, id, action, user, now), id)
      == if Submits(action) then FinalizeScoring(db, db.records[id]) else LastResult(db.log, id)
  {
    TransitInWords(db, id, action, user, now);
    var r := db.records[id];
    var claim := if ByHr(action) && r.flow.hr == None then [Entry(id, user.id, now, Claimed)] else [];
    var move := [Entry(id, user.id, now, StatusChanged(r.flow.status, After(r.flow, action, user).status))];
    var settled :=
      if Submits(action) then Some(Entry(id, user.id, now, ScoreSubmitted(FinalizeScoring(db, r).value))) else None;
    PartsOfATransit(db.log, claim, settled, move, id);
    assert db.log + Appended(db, id, action, user, now)
      == db.log + claim + (if settled.Some? then [settled.value] else []) + move;
  }

  lemma TransitWritesOne(db: Db, id: Id, action: Action, user: User, now: Time)
    requires SchemesOk(db) && id in db.records && TransitionSucceeds(db, id, action, user)
    ensures var r, db' := db.records[id], Step(db, Transit(id, action, user), now);
      && db'.records.Keys == db.records.Keys
      && (forall other :: other in db.records && other != id ==> db'.records[other] == db.records[other])
      && (Submits(action) ==> FinalizeScoring(db, r).Some?)
      && db'.records[id].stored
          == if Submits(action) then Some(StoredOf(FinalizeScoring(db, r).value)) else r.stored
  {
    ActionGroups(action);
  }

  lemma TransitKeepsResults(db: Db, id: Id, action: Action, user: User, now: Time)
    requires Good(db) && LogHoldsResults(db) && id in db.records && TransitionSucceeds(db, id, action, user)
    ensures LogHoldsResults(Step(db, Transit(id, action, user), now))
  {
    var db' := Step(db, Transit(id, action, user), now);
    assert LogHolds(db.log, id, db.records[id]);
    TransitWritesOne(db, id, action, user, now);
    TransitAppends(db, id, action, user, now);
    AppendedHolds(db, id, action, user, now);
    OthersKeepResults(db, db', id, Appended(db, id, action, user, now));
  }

  lemma OthersKeepResults(db: Db, db': Db, id: Id, more: seq<Entry>)
    requires LogHoldsResults(db) && id in db.records && db'.log == db.log + more
    requires db'.records.Keys == db.records.Keys && forall other :: other in db.records && other != id ==>
      db'.records[other] == db.records[other]
    requires forall i :: 0 <= i < |more| ==> more[i].record == id
    requires LogHolds(db'.log, id, db'.records[id])
    ensures LogHoldsResults(db')
  {
    forall other | other in db.records && other != id ensures LogHolds(db'.log, other, db'.records[other]) {
      assert LogHolds(db.log, other, db.records[other]);
      OtherEntries(db.log, more, other);
    }
  }

  /** The entries of a transition, in three parts. */
  lemma PartsOfATransit(log: seq<Entry>, claim: seq<Entry>, settled: Option<Entry>, move: seq<Entry>, id: Id)
    requires forall i :: 0 <= i < |claim| ==> !claim[i].what.ScoreSubmitted?
    requires forall i :: 0 <= i < |move| ==> !move[i].what.ScoreSubmitted?
    requires settled.Some? ==> settled.value.what.ScoreSubmitted? && settled.value.record == id
    ensures LastResult(log + claim + (if settled.Some? then [settled.value] else []) + move, id)
      == if settled.Some? then Some(settled.value.what.result) else LastResult(log, id)
  {
    OtherEntries(log, claim, id);
    if settled.Some? {
      NewResult(log + claim, settled.value);
      OtherEntries(log + claim + [settled.value], move, id);
    } else {
      assert log + claim + [] == log + claim;
      OtherEntries(log + claim, move, id);
    }
  }

  lemma StepKeepsResults(db: Db, e: Event, now: Time)
    requires Good(db) && LogHoldsResults(db)
    ensures LogHoldsResults(Step(db, e, now))
  {
    var db' := Step(db, e, now);
    if e.Transit? {
      if TransitionSucceeds(db, e.record, e.action, e.user) {
        TransitKeepsResults(db, e.record, e.action, e.user, now);
      }
    } else {
      var more := LogGrows(db, e, now);
      forall id | id in db'.records ensures LogHolds(db'.log, id, db'.records[id]) {
        OtherEntries(db.log, more, id);
        if id in db.records {
          OtherStepsKeepPlace(db, e, now, id);
          assert LogHolds(db.log, id, db.records[id]);
        } else {
          NoNewCase(db, e, now, id);
          NeverMentioned(db.log, id);
        }
      }
      forall id | id in db.records ensures id in db'.records {
        OtherStepsKeepPlace(db, e, now, id);
      }
    }
  }

  /** The log always tells where a stored result comes from: the last result it holds for the case. */
  lemma {:induction false} LogAlwaysHoldsResults(db: Db, run: seq<Timed>)
    requires Good(db) && LogHoldsResults(db)
    ensures LogHoldsResults(Played(db, run))
    decreases |run|
  {
    if run != [] {
      StepKeepsGood(db, run[0].event, run[0].at);
      StepKeepsResults(db, run[0].event, run[0].at);
      LogAlwaysHoldsResults(Step(db, run[0].event, run[0].at), run[1..]);
    }
  }

  // ---------------------------------------------------------------- versions

  /** The versions are numbered from 1 without a gap. */
  ghost predicate Numbered(db: Db) {
    forall i :: 0 <= i < |db.frameworks| ==> db.frameworks[i].version == i + 1
  }

  lemma LastIsCurrent(db: Db)
    requires Numbered(db)
    ensures CurrentVersion(db.frameworks) == |db.frameworks|
    ensures db.frameworks != [] ==> CurrentFramework(db.frameworks) == Some(|db.frameworks| - 1)
  {
    if db.frameworks != [] {
      var n := |db.frameworks| - 1;
      CurrentExists(db.frameworks[..n]);
      var earlier := CurrentFramework(db.frameworks[..n]);
      assert earlier.Some? ==> db.frameworks[earlier.value].version < db.frameworks[n].version;
    }
  }

  lemma BumpNumbers(db: Db)
    requires Numbered(db)
    ensures Numbered(Bump(db)) && Numbered(EnsureFramework(db))
  {
    LastIsCurrent(db);
  }

  lemma FrameworksGrowByBumps(db: Db, e: Event, now: Time)
    requires Good(db)
    ensures Step(db, e, now).frameworks in {db.frameworks, Bump(db).frameworks}
  {
    if LeavesCasesAlone(e) {
      TablesGrowByBumps(db, e, now);
    } else if !e.OpenCase? {
      CaseStepKeepsFrameworks(db, e, now);
    }
  }

  lemma TablesGrowByBumps(db: Db, e: Event, now: Time)
    requires Good(db) && LeavesCasesAlone(e)
    ensures Step(db, e, now).frameworks in {db.frameworks, Bump(db).frameworks}
  {
    if e.ActivateScheme? { ActivateKeepsRules(db, e.scheme, e.actor); }
  }

  lemma CaseStepKeepsFrameworks(db: Db, e: Event, now: Time)
    requires Good(db) && !LeavesCasesAlone(e) && !e.OpenCase?
    ensures Step(db, e, now).frameworks == db.frameworks
  {
  }

  /** Whatever happens, in whatever order, the versions are 1, 2, 3 and so on, and the last is the current
      one. */
  lemma {:induction false} VersionsAreNumbered(db: Db, run: seq<Timed>)
    requires Good(db) && Numbered(db)
    ensures Numbered(Played(db, run))
    ensures var frameworks := Played(db, run).frameworks;
      frameworks != [] ==> CurrentFramework(frameworks) == Some(|frameworks| - 1)
    decreases |run|
  {
    if run == [] {
      LastIsCurrent(db);
    } else {
      StepKeepsGood(db, run[0].event, run[0].at);
      BumpNumbers(db);
      FrameworksGrowByBumps(db, run[0].event, run[0].at);
      VersionsAreNumbered(Step(db, run[0].event, run[0].at), run[1..]);
    }
  }

  /** All of this holds of the empty database and of the one the migrations set up. */
  lemma HistoriesBegin()
    ensures EndIsDated(EMPTY) && LogHoldsResults(EMPTY) && Numbered(EMPTY)
    ensures EndIsDated(SEEDED) && LogHoldsResults(SEEDED) && Numbered(SEEDED)
  {
  }

  // ---------------------------------------------------------------- the bonus

  /** Nobody but those working on a case changes its answers, its bonus, its place and its rules. */
  lemma {:induction false} LeftAlone(db: Db, run: seq<Timed>, id: Id)
    requires Good(db) && id in db.records
    requires forall i :: 0 <= i < |run| ==> !Touches(run[i].event, id)
    ensures id in Played(db, run).records
    ensures Played(db, run).records[id] == db.records[id].(framework := Played(db, run).records[id].framework)
    decreases |run|
  {
    if run != [] {
      assert !Touches(run[0].event, id);
      StepKeepsGood(db, run[0].event, run[0].at);
      NotTouched(db, run[0].event, run[0].at, id);
      LeftAlone(Step(db, run[0].event, run[0].at), run[1..], id);
    }
  }

  lemma NotTouched(db: Db, e: Event, now: Time, id: Id)
    requires Good(db) && id in db.records && !Touches(e, id)
    ensures id in Step(db, e, now).records
    ensures Step(db, e, now).records[id] == db.records[id].(framework := Step(db, e, now).records[id].framework)
  {
    if LeavesCasesAlone(e) { CasesLeftAlone(db, e, now); }
  }

  /** From the scorer's entry to the stored result: whatever others do in between, once the case is submitted
      the stored final percentage is the stored base plus what counts of the bonus, rounded; and for two
      decimals that is the bonus as it was entered. */
  lemma EnteredBonusIsStored(db: Db, id: Id, scorer: User, points: real, reason: Option<string>, at: Time,
                             run: seq<Timed>, action: Action, user: User, now: Time)
    returns (counted: real)
    requires Good(db) && id in db.records && MayScore(db.records[id], scorer)
    requires ValidateBonus(points, reason, RulesFor(db, db.records[id])) == None
    requires forall i :: 0 <= i < |run| ==> !Touches(run[i].event, id)
    requires var entered := Step(db, SetBonus(id, scorer, points, reason), at);
      Good(entered) && Submits(action) && TransitionSucceeds(Played(entered, run), id, action, user)
    ensures var before := Played(Step(db, SetBonus(id, scorer, points, reason), at), run);
      var after := Step(before, Transit(id, action, user), now);
      && id in before.records && id in after.records && after.records[id].stored.Some?
      && var stored := after.records[id].stored.value;
        && Counts(counted, Some(StoredPoints(points)), RulesFor(before, before.records[id]).bonusMaxPoints,
                  100.0 - stored.basePct)
        && -0.05 <= stored.finalPct - (stored.basePct + counted) <= 0.05
    ensures IsHundredth(points) ==> StoredPoints(points) == points
  {
    var entered := Step(db, SetBonus(id, scorer, points, reason), at);
    var before := Played(entered, run);
    BonusInWords(points, reason, RulesFor(db, db.records[id]));
    StoredPointsNearest(points);
    LeftAlone(entered, run, id);
    var r := before.records[id];
    assert r.bonus == Some(StoredPoints(points));
    TransitWritesOne(before, id, action, user, now);
    BonusReachesTheResult(before, r);
    counted := FinalizeScoring(before, r).value.appliedBonus;
  }
}
