/** What the stamps are for: a database whose records all carry them keeps every stored result its own,
    whatever HR activates; without them it does not. */
module EvaluationStamps {
  import opened Domain
  import opened Rounding
  import opened Workflow
  import opened Scoring
  import opened ScoringLaws
  import opened ScoreChecks
  import opened EvaluationDb
  import opened EvaluationRuns
  import opened EvaluationCoherence
  import opened EvaluationTheorems

  // ---------------------------------------------------------------- a database in service

  ghost predicate SomeActive(db: Db) {
    exists id :: IsActiveScheme(db, id)
  }

  ghost predicate AllStamped(db: Db) {
    forall id :: id in db.records ==> Stamped(db, db.records[id])
  }

  ghost predicate InService(db: Db) {
    SomeActive(db) && AllStamped(db)
  }

  predicate OnSchemes(e: Event) {
    e.CreateScheme? || e.ActivateScheme? || e.DeleteScheme?
  }

  /** A new database as the migrations set it up. */
  const SEEDED :=
    EMPTY.(frameworks := [Framework(1, {})], schemes := map[1 := Scheme(LEGACY_RULES, ActiveScheme, None)])

  lemma SeededIsInService()
    ensures Good(SEEDED) && InService(SEEDED) && AtMostOneActive(SEEDED)
  {
    LegacyRulesValid();
    assert IsActiveScheme(SEEDED, 1);
  }

  lemma SameSchemes(db: Db, db': Db)
    requires db'.schemes == db.schemes
    ensures SomeActive(db) ==> SomeActive(db')
    ensures AtMostOneActive(db) ==> AtMostOneActive(db')
  {
    forall id ensures IsActiveScheme(db', id) == IsActiveScheme(db, id) {
    }
  }

  lemma TableStepLeavesSchemes(db: Db, e: Event, now: Time)
    requires Good(db) && LeavesCasesAlone(e) && !OnSchemes(e)
    ensures Step(db, e, now).schemes == db.schemes
  {
  }

  lemma CaseStepLeavesSchemes(db: Db, e: Event, now: Time)
    requires Good(db) && !LeavesCasesAlone(e)
    ensures Step(db, e, now).schemes == db.schemes
  {
  }

  lemma SchemeStepKeepsActive(db: Db, e: Event, now: Time)
    requires Good(db) && OnSchemes(e)
    ensures SomeActive(db) ==> SomeActive(Step(db, e, now))
    ensures AtMostOneActive(db) ==> AtMostOneActive(Step(db, e, now))
  {
    var db' := Step(db, e, now);
    if e.ActivateScheme? {
      if AtMostOneActive(db) { ActivateKeepsOneActive(db, e.scheme, e.actor); }
      if ActivationAllowed(db, e.scheme, e.actor) { assert IsActiveScheme(db', e.scheme); }
    } else {
      forall id ensures IsActiveScheme(db', id) == IsActiveScheme(db, id) {
      }
    }
  }

  /** Activating is the only way to retire a scheme, and drafts are the only ones to be deleted. */
  lemma StepKeepsActive(db: Db, e: Event, now: Time)
    requires Good(db)
    ensures SomeActive(db) ==> SomeActive(Step(db, e, now))
    ensures AtMostOneActive(db) ==> AtMostOneActive(Step(db, e, now))
  {
    if OnSchemes(e) {
      SchemeStepKeepsActive(db, e, now);
    } else {
      if LeavesCasesAlone(e) { TableStepLeavesSchemes(db, e, now); } else { CaseStepLeavesSchemes(db, e, now); }
      SameSchemes(db, Step(db, e, now));
    }
  }

  lemma StampsLast(db: Db, db': Db, r: Record)
    requires Later(db, db') && RecordOk(db, r) && Stamped(db, r)
    ensures Stamped(db', r)
  {
    RulesKept(db, db', r);
  }

  lemma NewCaseIsStamped(db: Db, id: Id, user: User, subject: Id, contractStart: Option<Time>, seats: Seats, now: Time)
    requires Good(db) && SomeActive(db)
    ensures var db' := Open(db, id, user, subject, contractStart, seats, now); Stamped(db', db'.records[id])
  {
    if !HasAssessment(db, subject, contractStart) {
      CurrentExists(EnsureFramework(db).frameworks);
    }
  }

  /** Each record of the new database is one of the old with its stamps, a rebound or a new one. */
  lemma StepKeepsStamped(db: Db, e: Event, now: Time)
    requires Good(db) && InService(db)
    ensures AllStamped(Step(db, e, now))
  {
    var db' := Step(db, e, now);
    StepIsLater(db, e, now);
    forall id | id in db.records ensures Stamped(db', db.records[id]) {
      assert RecordOk(db, db.records[id]);
      StampsLast(db, db', db.records[id]);
    }
    if LeavesCasesAlone(e) {
      CasesLeftAlone(db, e, now);
    } else if e.OpenCase? {
      if db' != db { NewCaseIsStamped(db, e.record, e.user, e.subject, e.contractStart, e.seats, now); }
    } else if !e.RebindUntouched? {
      CaseWork(db, e, now);
    }
  }

  /** Once in service, always in service. */
  lemma {:induction false} StaysInService(db: Db, run: seq<Timed>)
    requires Good(db) && InService(db)
    ensures InService(Played(db, run))
    decreases |run|
  {
    if run != [] {
      StepKeepsGood(db, run[0].event, run[0].at);
      StepKeepsActive(db, run[0].event, run[0].at);
      StepKeepsStamped(db, run[0].event, run[0].at);
      StaysInService(Step(db, run[0].event, run[0].at), run[1..]);
    }
  }

  /** There are never two active schemes. */
  lemma {:induction false} NeverTwoActive(db: Db, run: seq<Timed>)
    requires Good(db) && AtMostOneActive(db)
    ensures AtMostOneActive(Played(db, run))
    decreases |run|
  {
    if run != [] {
      StepKeepsGood(db, run[0].event, run[0].at);
      StepKeepsActive(db, run[0].event, run[0].at);
      NeverTwoActive(Step(db, run[0].event, run[0].at), run[1..]);
    }
  }

  // ---------------------------------------------------------------- the stored result is the record's own

  function WeightSum(rules: Rules): real {
    rules.generalWeight + rules.specializedWeight
  }

  /** What is stored is what the record's scores give by its own questions and its own rules. */
  ghost predicate OwnResult(db: Db, r: Record) {
    && ScoredIds(r.scores) <= Form(db, r).Keys && RulesFor(db, r).thresholds != []
    && r.stored == Some(StoredOf(ResultUnder(r, Form(db, r), RulesFor(db, r))))
  }

  lemma InServiceStamped(db: Db, run: seq<Timed>, id: Id)
    requires Good(db)
    requires var end := Played(db, run); id in end.records && (InService(db) || Stamped(end, end.records[id]))
    ensures var end := Played(db, run); RecordOk(end, end.records[id]) && Stamped(end, end.records[id])
  {
    if InService(db) { StaysInService(db, run); }
  }

  /** Whatever happens to a database in service: past the scoring, a case stores exactly the result of its
      current scores under its own scheme and its own framework, and a finalized one has scored exactly
      those of its framework's questions that still exist. On any other database this holds of the
      stamped cases. The result is a percentage if the stored weights do not exceed 1
      (`PercentageIffWeightsFit`). */
  lemma StoredResultIsItsOwn(db: Db, run: seq<Timed>, id: Id)
    requires Good(db)
    requires var end := Played(db, run);
      id in end.records && Settled(end.records[id]) && (InService(db) || Stamped(end, end.records[id]))
    ensures var end := Played(db, run); var r := end.records[id];
      && OwnResult(end, r)
      && (WeightSum(RulesFor(end, r)) <= 1.0 ==> 0.0 <= r.stored.value.finalPct <= 100.0)
      && (r.flow.status == Finalized ==> r.scores != [] && ScoredIds(r.scores) == Form(end, r).Keys)
  {
    var end := Played(db, run);
    var r := end.records[id];
    InServiceStamped(db, run, id);
    RulesForStored(end, r);
    ScoredAreKnown(r.scores, Form(end, r));
    if WeightSum(RulesFor(end, r)) <= 1.0 { FinalIsPercentage(r.scores, Form(end, r), RulesFor(end, r), BonusOf(r)); }
  }

  /** All questions of the framework are scored exactly if none of them was deleted, as HR may do with
      those nobody has scored yet. */
  lemma AllQuestionsScored(db: Db, run: seq<Timed>, id: Id)
    requires Good(db)
    requires var end := Played(db, run);
      && id in end.records && end.records[id].flow.status == Finalized
      && (InService(db) || Stamped(end, end.records[id]))
    ensures var end := Played(db, run); var r := end.records[id];
      ScoredIds(r.scores) == IndicatorIds(end, r) <==> IndicatorIds(end, r) <= end.indicators.Keys
  {
    var end := Played(db, run);
    var r := end.records[id];
    InServiceStamped(db, run, id);
    assert Form(end, r).Keys == IndicatorIds(end, r) * end.indicators.Keys;
  }

  // ---------------------------------------------------------------- why every record is stamped

  /** Activating a scheme, the first one or in place of another, puts every record without a stamp under
      its rules. */
  lemma ActivatedRulesApply(db: Db, scheme: Id, actor: UserId, r: Record)
    requires SchemesOk(db) && AtMostOneActive(db) && r.scheme == None && ActivationAllowed(db, scheme, actor)
    ensures RulesFor(Activate(db, scheme, actor), r) == db.schemes[scheme].rules
  {
    var db' := Activate(db, scheme, actor);
    assert IsActiveScheme(db', scheme);
    forall k | IsActiveScheme(db', k) ensures k == scheme {
      assert k != scheme ==> IsActiveScheme(db, k) && ActiveScheme?(db) == Some(k);
    }
  }

  /** One of HR creates a scheme that passes every check and another one activates it. */
  datatype Reform = Reform(scheme: Id, rules: Rules, author: UserId, actor: UserId)

  predicate Possible(db: Db, change: Reform) {
    && change.scheme !in db.schemes && change.author != change.actor
    && SchemeCheck(change.rules) && FieldBounds(change.rules)
  }

  function Reforming(change: Reform): seq<Timed> {
    [Timed(CreateScheme(change.scheme, change.rules, Some(change.author)), 0),
     Timed(ActivateScheme(change.scheme, change.actor), 0)]
  }

  ghost function Reformed(db: Db, change: Reform): Db
    requires Good(db)
  {
    Played(db, Reforming(change))
  }

  ghost function Created(db: Db, change: Reform): (db': Db)
    requires Good(db)
    ensures Good(db')
  {
    StepKeepsGood(db, Reforming(change)[0].event, 0);
    Step(db, Reforming(change)[0].event, 0)
  }

  lemma ReformedIsActivated(db: Db, change: Reform)
    requires Good(db)
    ensures Reformed(db, change) == Activate(Created(db, change), change.scheme, change.actor)
  {
    var run := Reforming(change);
    var middle := Created(db, change);
    assert Played(db, run) == Played(middle, run[1..]);
    assert run[1..][0] == run[1] && run[1..][1..] == [];
    assert Played(middle, run[1..]) == Played(Step(middle, run[1].event, 0), []);
  }

  lemma CreatedIsDraft(db: Db, change: Reform)
    requires Good(db) && Possible(db, change)
    ensures Created(db, change)
      == db.(schemes := db.schemes[change.scheme := Scheme(StoredForm(change.rules), DraftScheme, Some(change.author))])
    ensures ActivationAllowed(Created(db, change), change.scheme, change.actor)
    ensures AtMostOneActive(db) ==> AtMostOneActive(Created(db, change))
  {
    SchemeStepKeepsActive(db, Reforming(change)[0].event, 0);
  }

  lemma ReformIsLater(db: Db, change: Reform)
    requires Good(db)
    ensures Later(db, Reformed(db, change))
    ensures Reformed(db, change) == db.(schemes := Reformed(db, change).schemes)
  {
    var middle := Created(db, change);
    SchemeStepIsLater(db, Reforming(change)[0].event);
    SchemeStepIsLater(middle, Reforming(change)[1].event);
    ActivateKeepsRules(middle, change.scheme, change.actor);
    ReformedIsActivated(db, change);
  }

  lemma StampKeepsResult(db: Db, r: Record, change: Reform)
    requires Good(db) && RecordOk(db, r) && HasScheme(db, r) && OwnResult(db, r)
    ensures OwnResult(Reformed(db, change), r)
  {
    ReformIsLater(db, change);
    RulesKept(db, Reformed(db, change), r);
    assert IndicatorIds(Reformed(db, change), r) == IndicatorIds(db, r);
  }

  /** The legacy rules with one band only. */
  function OneBand(text: string): Rules {
    LEGACY_RULES.(thresholds := [Threshold(101.0, text)])
  }

  lemma OneBandPasses(text: string)
    requires 1 <= |text| <= 200
    ensures SchemeCheck(OneBand(text)) && FieldBounds(OneBand(text))
  {
    HalfEvenFixesIntegers(1000000);
  }

  lemma OneBandLabels(db: Db, r: Record, text: string)
    requires RulesFor(db, r) == StoredForm(OneBand(text)) && OwnResult(db, r)
    ensures r.stored.value.recommendation == text
  {
  }

  lemma {:induction false} Above(ids: set<Id>) returns (bound: Id)
    ensures forall id :: id in ids ==> id < bound
    decreases |ids|
  {
    bound := 0;
    HasMember(ids);
    if ids != {} {
      var one :| one in ids;
      bound := Above(ids - {one});
      assert forall id :: id in ids ==> id in ids - {one} || id == one;
      if bound <= one { bound := one + 1; }
    }
  }

  /** Without a stamp, a scheme with one label, other than the one stored, takes the result over. */
  lemma NewLabelDrifts(db: Db, r: Record) returns (change: Reform)
    requires Good(db) && AtMostOneActive(db) && r.scheme == None && OwnResult(db, r)
    ensures Possible(db, change) && !OwnResult(Reformed(db, change), r)
  {
    var text := if r.stored.value.recommendation == "a" then "b" else "a";
    var scheme := Above(db.schemes.Keys);
    change := Reform(scheme, OneBand(text), 1, 2);
    OneBandPasses(text);
    CreatedIsDraft(db, change);
    ReformedIsActivated(db, change);
    ActivatedRulesApply(Created(db, change), change.scheme, change.actor, r);
    if OwnResult(Reformed(db, change), r) {
      OneBandLabels(Reformed(db, change), r, text);
      assert false;
    }
  }

  ghost predicate Survives(db: Db, r: Record, change: Reform)
    requires Good(db)
  {
    Possible(db, change) ==> OwnResult(Reformed(db, change), r)
  }

  /** A stored result survives every change of the rules exactly if the record is stamped: this is what the
      stamps, and the stamping of all earlier records by the migration, are needed for. */
  lemma ResultSurvivesExactlyIfStamped(db: Db, id: Id)
    requires Good(db) && AtMostOneActive(db) && id in db.records && OwnResult(db, db.records[id])
    ensures forall change :: Reformed(db, change).records == db.records
    ensures HasScheme(db, db.records[id]) <==> forall change :: Survives(db, db.records[id], change)
  {
    var r := db.records[id];
    assert RecordOk(db, r);
    forall change ensures Reformed(db, change).records == db.records {
      ReformIsLater(db, change);
    }
    if HasScheme(db, r) {
      forall change ensures Survives(db, r, change) {
        StampKeepsResult(db, r, change);
      }
    } else {
      var change := NewLabelDrifts(db, r);
      assert !Survives(db, r, change);
    }
  }
}
