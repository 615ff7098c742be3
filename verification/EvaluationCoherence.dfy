/** Result coherence: whatever people and HR do, and in whatever order, a case keeps the questions and
    rules it was stamped with, and its stored result is the result of its own scores under them. */
module EvaluationCoherence {
  import opened Domain
  import opened Workflow
  import opened WorkflowRuns
  import opened Scoring
  import opened ScoringLaws
  import opened ScoreChecks
  import opened EvaluationDb
  import opened EvaluationRuns

  // ---------------------------------------------------------------- what a record depends on

  /** Once activated, a scheme stays, and its rules stay as they are. */
  ghost predicate SchemesKept(db: Db, db': Db) {
    forall id :: id in db.schemes && db.schemes[id].status != DraftScheme ==>
      id in db'.schemes && db'.schemes[id].status != DraftScheme && db'.schemes[id].rules == db.schemes[id].rules
  }

  /** Later tables: frameworks and activated schemes are never edited, an indicator keeps its section,
      and a new indicator gets a new id. */
  ghost predicate Later(db: Db, db': Db) {
    && db.frameworks <= db'.frameworks
    && SchemesKept(db, db')
    && (forall k :: k in db.indicators && k in db'.indicators ==> db'.indicators[k].section == db.indicators[k].section)
    && (forall k :: k in db'.indicators && k !in db.indicators ==> k >= db.nextIndicator)
  }

  lemma NoScoresNoForm(form: map<Id, Section>, form': map<Id, Section>, rules: Rules, bonus: real)
    requires rules.thresholds != []
    ensures Compute([], form, rules, bonus) == Compute([], form', rules, bonus)
  {
  }

  /** The questions of a stamped record may only lose members, and only such as nobody has scored. */
  lemma FormOnlyShrinks(db: Db, db': Db, r: Record)
    requires Later(db, db') && TablesOk(db) && HasFramework(db, r)
    ensures HasFramework(db', r) && IndicatorIds(db', r) == IndicatorIds(db, r)
    ensures forall k :: k in Form(db', r) ==> k in Form(db, r) && Form(db', r)[k] == Form(db, r)[k]
    ensures forall k :: k in Form(db, r) && k in db'.indicators ==> k in Form(db', r)
  {
    var f := db.frameworks[r.framework.value];
    assert db'.frameworks[r.framework.value] == f;
    assert f in db.frameworks && MembersBelow(f, db.nextIndicator);
  }

  lemma RulesKept(db: Db, db': Db, r: Record)
    requires Later(db, db') && InForce(db, r)
    ensures InForce(db', r) && RulesFor(db', r) == RulesFor(db, r)
  {
    var id: Id := r.scheme.value;
    assert id in db.schemes;
  }

  /** A complete form loses nothing, because nothing scored disappears. */
  lemma CompleteFormKept(db: Db, db': Db, r: Record)
    requires Later(db, db') && TablesOk(db) && HasFramework(db, r)
    requires FormComplete(db, r) && ScoredIds(r.scores) <= db'.indicators.Keys
    ensures Form(db', r) == Form(db, r)
  {
    FormOnlyShrinks(db, db', r);
    var form, form' := Form(db, r), Form(db', r);
    forall k | k in form.Keys ensures k in form'.Keys {
      assert k in ScoredIds(r.scores) && k in db'.indicators;
    }
    forall k | k in form' ensures k in form && form'[k] == form[k] {
      assert k in Form(db', r);
    }
  }

  /** A record that is not touched stays coherent as long as none of its scored indicators disappears. */
  lemma RecordFramed(db: Db, db': Db, r: Record)
    requires Later(db, db') && TablesOk(db) && RecordOk(db, r) && ScoredIds(r.scores) <= db'.indicators.Keys
    ensures RecordOk(db', r)
  {
    if r.scheme.Some? { RulesKept(db, db', r); }
    if r.framework.Some? {
      FormOnlyShrinks(db, db', r);
      CoherentFramed(db, db', r);
    }
  }

  lemma CoherentFramed(db: Db, db': Db, r: Record)
    requires Later(db, db') && TablesOk(db) && HasFramework(db, r) && (r.scheme.Some? ==> InForce(db, r))
    requires Coherent(db, r) && ScoredIds(r.scores) <= db'.indicators.Keys
    ensures Coherent(db', r)
  {
    FormOnlyShrinks(db, db', r);
    forall k | k in ScoredIds(r.scores) ensures k in Form(db', r) {
      assert k in Form(db, r).Keys;
    }
    if Settled(r) && r.scheme.Some? {
      RulesKept(db, db', r);
      if r.scores == [] {
        NoScoresNoForm(Form(db, r), Form(db', r), RulesFor(db, r), BonusOf(r));
      } else {
        CompleteFormKept(db, db', r);
      }
    }
  }

  // ---------------------------------------------------------------- one step

  /** Untouched rows, or rows that were looked at one by one. */
  ghost predicate RowsAccounted(db: Db, db': Db) {
    forall id :: id in db'.records ==>
      || RecordOk(db', db'.records[id])
      || (id in db.records && db'.records[id] == db.records[id]
          && ScoredIds(db.records[id].scores) <= db'.indicators.Keys)
  }

  lemma GoodAgain(db: Db, db': Db)
    requires Good(db) && Later(db, db') && TablesOk(db') && RowsAccounted(db, db')
    ensures Good(db')
  {
    forall id | id in db'.records ensures RecordOk(db', db'.records[id]) {
      if !RecordOk(db', db'.records[id]) {
        assert RecordOk(db, db.records[id]);
        RecordFramed(db, db', db.records[id]);
      }
    }
  }

  /** Form and rules depend on the stamps alone. */
  lemma SameStamps(db: Db, r: Record, r': Record)
    requires r.framework == r'.framework && r.scheme == r'.scheme
    ensures Form(db, r') == Form(db, r) && RulesFor(db, r') == RulesFor(db, r)
    ensures HasFramework(db, r') == HasFramework(db, r) && HasScheme(db, r') == HasScheme(db, r)
  {
    assert IndicatorIds(db, r') == IndicatorIds(db, r);
  }

  /** A change of one record that leaves its stamps, and the tables, alone. */
  lemma OneRecordChanged(db: Db, db': Db, id: Id, r: Record)
    requires Good(db) && RecordOk(db, r)
    requires db' == db.(records := db.records[id := r], log := db'.log)
    ensures Good(db')
  {
    RecordFramed(db, db', r);
    forall other | other in db'.records && other != id
      ensures other in db.records && db'.records[other] == db.records[other]
        && ScoredIds(db.records[other].scores) <= db'.indicators.Keys
    {
      assert RecordOk(db, db.records[other]);
    }
    GoodAgain(db, db');
  }

  lemma SettlingSettles(db: Db, r: Record, r': Record)
    requires TablesOk(db) && RecordOk(db, r)
    requires r' == r.(flow := r'.flow, stageEnteredAt := r'.stageEnteredAt, stored := r'.stored)
    requires FinalizeScoring(db, r).Some? && r'.stored == Some(StoredOf(FinalizeScoring(db, r).value))
    requires r'.flow.status == Submitted
    ensures RecordOk(db, r')
  {
    SameStamps(db, r, r');
    RulesForStored(db, r);
  }

  /** After the scoring, moving a case changes nothing the result depends on; it is finalized only
      with scores. */
  lemma MovingOnKeeps(db: Db, r: Record, r': Record)
    requires TablesOk(db) && RecordOk(db, r)
    requires r' == r.(flow := r'.flow, stageEnteredAt := r'.stageEnteredAt, finalizedAt := r'.finalizedAt)
    requires Settled(r') ==> Settled(r)
    requires r'.flow.status == Finalized ==> r.scores != []
    ensures RecordOk(db, r')
  {
    SameStamps(db, r, r');
  }

  lemma MoveLeavesDraftBySubmit(c: Case, action: Action, user: User)
    requires TransitionAllowed(c, action, user) && After(c, action, user).status !in {Draft, Cancelled}
    ensures IsSubmit(action) <==> c.status == Draft
    ensures IsSubmit(action) ==> After(c, action, user).status == Submitted
    ensures c.status != Cancelled
  {
  }

  lemma TransitKeepsRecord(db: Db, id: Id, r: Record, action: Action, user: User, now: Time)
    requires TablesOk(db) && RecordOk(db, r) && id in db.records && db.records[id] == r
    requires TransitionSucceeds(db, id, action, user)
    ensures RecordOk(db, Moved(r, action, user, now, SettledBy(db, r, action)))
  {
    var r' := Moved(r, action, user, now, SettledBy(db, r, action));
    if Settled(r') { MoveLeavesDraftBySubmit(r.flow, action, user); }
    if IsSubmit(action) {
      SettlingSettles(db, r, r');
    } else {
      MovingOnKeeps(db, r, r');
    }
  }

  lemma TransitKeepsGood(db: Db, id: Id, action: Action, user: User, now: Time)
    requires Good(db)
    ensures Good(ApplyTransition(db, id, action, user, now))
  {
    if TransitionSucceeds(db, id, action, user) {
      var r := db.records[id];
      TransitKeepsRecord(db, id, r, action, user, now);
      OneRecordChanged(db, ApplyTransition(db, id, action, user, now), id,
                       Moved(r, action, user, now, SettledBy(db, r, action)));
    }
  }

  lemma OwnerKeepsGood(db: Db, id: Id, actor: User, owner: User, now: Time, what: What)
    requires Good(db) && id in db.records && IsOpen(db.records[id])
    ensures Good(WithOwner(db, id, actor, owner, now, what))
  {
    var r := db.records[id];
    assert RecordOk(db, r);
    MovingOnKeeps(db, r, r.(flow := r.flow.(hr := Some(owner.id))));
    OneRecordChanged(db, WithOwner(db, id, actor, owner, now, what), id, r.(flow := r.flow.(hr := Some(owner.id))));
  }

  lemma SaveScoresKeepsGood(db: Db, id: Id, user: User, rows: seq<Score>)
    requires Good(db) && id in db.records && MayScore(db.records[id], user) && Savable(db, db.records[id], rows)
    ensures Good(WithRecord(db, id, db.records[id].(scores := rows)))
  {
    var r := db.records[id];
    assert RecordOk(db, r);
    SameStamps(db, r, r.(scores := rows));
    OneRecordChanged(db, WithRecord(db, id, r.(scores := rows)), id, r.(scores := rows));
  }

  lemma SetBonusKeepsGood(db: Db, id: Id, user: User, points: real)
    requires Good(db) && id in db.records && MayScore(db.records[id], user) && points >= 0.0
    ensures Good(WithRecord(db, id, db.records[id].(bonus := Some(points))))
  {
    var r := db.records[id];
    assert RecordOk(db, r);
    SameStamps(db, r, r.(bonus := Some(points)));
    OneRecordChanged(db, WithRecord(db, id, r.(bonus := Some(points))), id, r.(bonus := Some(points)));
  }

  /** HR changes the tables but no record. */
  lemma TablesChanged(db: Db, db': Db)
    requires Good(db) && Later(db, db') && TablesOk(db') && db'.records == db.records
    requires forall id :: id in db.records ==> ScoredIds(db.records[id].scores) <= db'.indicators.Keys
    ensures Good(db')
  {
    GoodAgain(db, db');
  }

  lemma ScoredExist(db: Db, indicators: map<Id, Indicator>)
    requires Good(db) && db.indicators.Keys <= indicators.Keys
    ensures forall id :: id in db.records ==> ScoredIds(db.records[id].scores) <= indicators.Keys
  {
    forall id | id in db.records ensures ScoredIds(db.records[id].scores) <= indicators.Keys {
      assert RecordOk(db, db.records[id]);
    }
  }

  lemma AddIndicatorKeepsGood(db: Db, section: Section)
    requires Good(db)
    ensures Good(Step(db, AddIndicator(section), 0))
  {
    var db' := Step(db, AddIndicator(section), 0);
    ScoredExist(db, db'.indicators);
    forall f | f in db'.frameworks ensures MembersBelow(f, db'.nextIndicator) {
      assert MembersBelow(f, db.nextIndicator);
    }
    TablesChanged(db, db');
  }

  lemma SetActiveKeepsGood(db: Db, k: Id, active: bool)
    requires Good(db)
    ensures Good(Step(db, SetActive(k, active), 0))
  {
    var db' := Step(db, SetActive(k, active), 0);
    ScoredExist(db, db'.indicators);
    TablesChanged(db, db');
  }

  lemma DeleteIndicatorKeepsGood(db: Db, k: Id)
    requires Good(db)
    ensures Good(Step(db, DeleteIndicator(k), 0))
  {
    var db' := Step(db, DeleteIndicator(k), 0);
    ScoredExist(db, db.indicators);
    forall id | id in db.records ensures ScoredIds(db.records[id].scores) <= db'.indicators.Keys {
      assert ScoredIds(db.records[id].scores) <= db.indicators.Keys;
      assert db' != db ==> k !in ScoredIds(db.records[id].scores);
    }
    TablesChanged(db, db');
  }

  lemma ActiveMembersBelow(db: Db, version: int)
    requires TablesOk(db)
    ensures MembersBelow(Framework(version, ActiveMembers(db.indicators)), db.nextIndicator)
  {
  }

  lemma BumpKeepsTables(db: Db)
    requires TablesOk(db)
    ensures TablesOk(Bump(db)) && Later(db, Bump(db))
  {
    var db' := Bump(db);
    ActiveMembersBelow(db, CurrentVersion(db.frameworks) + 1);
    forall f | f in db'.frameworks ensures MembersBelow(f, db'.nextIndicator) {
      assert f in db.frameworks || f == db'.frameworks[|db.frameworks|];
    }
  }

  lemma BumpKeepsGood(db: Db)
    requires Good(db)
    ensures Good(Bump(db)) && Later(db, Bump(db))
  {
    BumpKeepsTables(db);
    ScoredExist(db, db.indicators);
    TablesChanged(db, Bump(db));
  }

  lemma EnsureKeepsGood(db: Db)
    requires Good(db)
    ensures Good(EnsureFramework(db)) && Later(db, EnsureFramework(db))
  {
    BumpKeepsGood(db);
  }

  lemma CurrentExists(frameworks: seq<Framework>)
    ensures CurrentFramework(frameworks).Some? ==> 0 <= CurrentFramework(frameworks).value < |frameworks|
    ensures frameworks != [] ==> CurrentFramework(frameworks).Some?
  {
  }

  /** An untouched record has no scores, so that it is coherent with any framework. */
  lemma RebindKeepsGood(db: Db, framework: Id)
    requires Good(db) && 0 <= framework < |db.frameworks|
    ensures Good(Rebind(db, framework))
  {
    var db' := Rebind(db, framework);
    forall id | id in db'.records && db'.records[id] != db.records[id] ensures RecordOk(db', db'.records[id]) {
      var r, r' := db.records[id], db'.records[id];
      assert RecordOk(db, r) && Movable(db, r, framework);
      MovedToFramework(db, db', r, r');
    }
    ScoredExist(db, db.indicators);
    GoodAgain(db, db');
  }

  lemma MovedToFramework(db: Db, db': Db, r: Record, r': Record)
    requires TablesOk(db) && RecordOk(db, r) && r.scores == [] && r.framework.Some?
    requires db' == db.(records := db'.records) && r' == r.(framework := r'.framework) && HasFramework(db', r')
    ensures RecordOk(db', r')
  {
    if r.scheme.Some? {
      RulesKept(db, db', r);
      assert HasScheme(db', r') && RulesFor(db', r') == RulesFor(db, r);
      if Settled(r) {
        NoScoresNoForm(Form(db, r), Form(db', r'), RulesFor(db, r), BonusOf(r));
      }
    }
  }

  lemma PinKeepsGood(db: Db, subject: Id, contract: Time, submitted: bool)
    requires Good(db)
    ensures Good(PinAssessment(db, subject, contract, submitted))
  {
    var db1, db' := EnsureFramework(db), PinAssessment(db, subject, contract, submitted);
    EnsureKeepsGood(db);
    CurrentExists(db1.frameworks);
    ScoredExist(db1, db1.indicators);
    TablesChanged(db1, db');
  }

  lemma SchemesChanged(db: Db, db': Db)
    requires Good(db) && db' == db.(schemes := db'.schemes) && SchemesOk(db')
    requires SchemesKept(db, db')
    ensures Good(db')
  {
    ScoredExist(db, db.indicators);
    TablesChanged(db, db');
  }

  lemma CreateSchemeKeepsGood(db: Db, id: Id, rules: Rules, author: Option<UserId>)
    requires Good(db)
    ensures Good(Step(db, CreateScheme(id, rules, author), 0))
  {
    if SchemeCheck(rules) && FieldBounds(rules) { CheckedSchemeIsStored(rules); }
    SchemesChanged(db, Step(db, CreateScheme(id, rules, author), 0));
  }

  /** Activating touches no rule. */
  lemma ActivateKeepsRules(db: Db, id: Id, actor: UserId)
    requires SchemesOk(db)
    ensures Activate(db, id, actor) == db.(schemes := Activate(db, id, actor).schemes)
    ensures SchemesOk(Activate(db, id, actor))
    ensures SchemesKept(db, Activate(db, id, actor))
  {
    forall k | k in db.schemes ensures StoredRules(db.schemes[k].rules) {
      SchemeRulesStored(db, k);
    }
  }

  lemma ActivateKeepsGood(db: Db, id: Id, actor: UserId)
    requires Good(db)
    ensures Good(Activate(db, id, actor))
  {
    ActivateKeepsRules(db, id, actor);
    SchemesChanged(db, Activate(db, id, actor));
  }

  lemma DeleteSchemeKeepsGood(db: Db, id: Id)
    requires Good(db)
    ensures Good(Step(db, DeleteScheme(id), 0))
  {
    SchemesChanged(db, Step(db, DeleteScheme(id), 0));
  }

  /** A new case has the stamps of the moment and no scores. */
  lemma OpenKeepsGood(db: Db, id: Id, user: User, subject: Id, contractStart: Option<Time>, seats: Seats, now: Time)
    requires Good(db) && id !in db.records
    ensures Good(Open(db, id, user, subject, contractStart, seats, now))
  {
    var (db1, framework) := FrameworkForNewCase(db, subject, contractStart);
    EnsureKeepsGood(db);
    CurrentExists(EnsureFramework(db).frameworks);
    var db' := Open(db, id, user, subject, contractStart, seats, now);
    ScoredExist(db1, db1.indicators);
    NewRecordOk(db', db'.records[id]);
    GoodAgain(db1, db');
  }

  lemma NewRecordOk(db: Db, r: Record)
    requires TablesOk(db) && r.scores == [] && r.bonus == None && !Settled(r)
    requires (r.scheme.Some? ==> InForce(db, r)) && (r.framework.Some? ==> HasFramework(db, r))
    ensures RecordOk(db, r)
  {
  }

  lemma CaseStepKeepsGood(db: Db, e: Event, now: Time)
    requires Good(db) && !LeavesCasesAlone(e)
    ensures Good(Step(db, e, now))
  {
    match e
    case Transit(id, action, user) => TransitKeepsGood(db, id, action, user, now);
    case ClaimCase(id, user) =>
      if Step(db, e, now) != db { OwnerKeepsGood(db, id, user, user, now, Claimed); }
    case HandOverCase(id, user, owner) =>
      if Step(db, e, now) != db { OwnerKeepsGood(db, id, user, owner, now, HandedOver); }
    case SaveScores(id, user, rows) =>
      if Step(db, e, now) != db { SaveScoresKeepsGood(db, id, user, rows); }
    case SetBonus(id, user, points, reason) =>
      if Step(db, e, now) != db { SetBonusKeepsGood(db, id, user, StoredPoints(points)); }
    case OpenCase(id, user, subject, contractStart, seats) =>
      if Step(db, e, now) != db { OpenKeepsGood(db, id, user, subject, contractStart, seats, now); }
    case RebindUntouched(framework) =>
      if 0 <= framework < |db.frameworks| { RebindKeepsGood(db, framework); }
  }

  lemma TableStepKeepsGood(db: Db, e: Event, now: Time)
    requires Good(db) && LeavesCasesAlone(e)
    ensures Good(Step(db, e, now))
  {
    match e
    case OpenSelfAssessment(subject, contract) => PinKeepsGood(db, subject, contract, false);
    case SubmitSelfAssessment(subject, contract) => PinKeepsGood(db, subject, contract, true);
    case AddIndicator(section) => AddIndicatorKeepsGood(db, section);
    case SetActive(k, active) => SetActiveKeepsGood(db, k, active);
    case DeleteIndicator(k) => DeleteIndicatorKeepsGood(db, k);
    case PublishFramework => BumpKeepsGood(db);
    case RenewFramework => EnsureKeepsGood(db);
    case CreateScheme(id, rules, author) => CreateSchemeKeepsGood(db, id, rules, author);
    case ActivateScheme(id, actor) => ActivateKeepsGood(db, id, actor);
    case DeleteScheme(id) => DeleteSchemeKeepsGood(db, id);
  }

  /** Every step, by whomever, keeps every record coherent. */
  lemma StepKeepsGood(db: Db, e: Event, now: Time)
    requires Good(db)
    ensures Good(Step(db, e, now))
  {
    if LeavesCasesAlone(e) { TableStepKeepsGood(db, e, now); } else { CaseStepKeepsGood(db, e, now); }
  }
}
