/** Everything that can happen to the evaluation database, in any order: people work on their cases
    while HR changes indicators, frameworks and schemes. A refused operation changes nothing. */
module EvaluationRuns {
  import opened Domain
  import opened Workflow
  import opened WorkflowRuns
  import opened Scoring
  import opened ScoreChecks
  import opened EvaluationDb

  datatype Event =
    | Transit(record: Id, action: Action, user: User)
    | ClaimCase(record: Id, user: User)
    | HandOverCase(record: Id, user: User, owner: User)
    | SaveScores(record: Id, user: User, rows: seq<Score>)
    | SetBonus(record: Id, user: User, points: real, reason: Option<string>)
    | OpenCase(record: Id, user: User, subject: Id, contractStart: Option<Time>, seats: Seats)
    | OpenSelfAssessment(subject: Id, contract: Time)
    | SubmitSelfAssessment(subject: Id, contract: Time)
    | AddIndicator(section: Section)
    | SetActive(indicator: Id, active: bool)
    | DeleteIndicator(indicator: Id)
    | PublishFramework
    | RenewFramework
    | RebindUntouched(framework: Id)
    | CreateScheme(scheme: Id, rules: Rules, author: Option<UserId>)
    | ActivateScheme(scheme: Id, actor: UserId)
    | DeleteScheme(scheme: Id)

  /** Only the scorer writes, and only into a draft. */
  predicate MayScore(r: Record, user: User) {
    r.flow.status == Draft && HoldsDesk(r.flow, user)
  }

  /** HR users take unowned open cases and hand open cases over to each other. */
  predicate MayBeGiven(r: Record, user: User, owner: User) {
    IsOpen(r) && user.role == HrRole && owner.role == HrRole && r.flow.hr != Some(owner.id)
  }

  function WithOwner(db: Db, id: Id, actor: User, owner: User, now: Time, what: What): Db
    requires id in db.records
  {
    var r := db.records[id];
    db.(records := db.records[id := r.(flow := r.flow.(hr := Some(owner.id)))],
        log := db.log + [Entry(id, actor.id, now, what)])
  }

  predicate DistinctIds(rows: seq<Score>) {
    forall i, j :: 0 <= i < j < |rows| ==> rows[i].indicator != rows[j].indicator
  }

  ghost predicate Savable(db: Db, r: Record, rows: seq<Score>) {
    ValidScores(rows) && DistinctIds(rows) && ScoredIds(rows) <= Form(db, r).Keys
  }

  function WithRecord(db: Db, id: Id, r: Record): Db {
    db.(records := db.records[id := r])
  }

  predicate HasOpenCase(db: Db, subject: Id) {
    exists id :: id in db.records && IsOpen(db.records[id]) && db.records[id].subject == subject
  }

  predicate IsScored(db: Db, indicator: Id) {
    exists id :: id in db.records && indicator in ScoredIds(db.records[id].scores)
  }

  predicate HasAssessment(db: Db, subject: Id, contractStart: Option<Time>) {
    contractStart.Some? && (subject, contractStart.value) in db.assessments
  }

  /** The framework a new case is stamped with: that of the person's self-assessment for this
      contract, or else the current one. */
  function FrameworkForNewCase(db: Db, subject: Id, contractStart: Option<Time>): (Db, Option<Id>) {
    if HasAssessment(db, subject, contractStart)
    then (db, Some(db.assessments[(subject, contractStart.value)].framework))
    else (EnsureFramework(db), CurrentFramework(EnsureFramework(db).frameworks))
  }

  /** A new draft, stamped with the scheme and the framework of the moment. */
  ghost function Open(
      db: Db, id: Id, user: User, subject: Id, contractStart: Option<Time>, seats: Seats, now: Time): Db {
    var (db', framework) := FrameworkForNewCase(db, subject, contractStart);
    var r := Record(subject, contractStart, false, Case(seats, None, Draft), ActiveScheme?(db), framework,
                    [], None, None, now, now, None);
    db'.(records := db'.records[id := r], log := db'.log + [Entry(id, user.id, now, Opened)])
  }

  /** Opening and, once more, submitting a self-assessment binds it to the current framework. */
  function PinAssessment(db: Db, subject: Id, contract: Time, submitted: bool): Db {
    var db' := EnsureFramework(db);
    var current := CurrentFramework(db'.frameworks);
    if current == None then db'
    else db'.(assessments := db'.assessments[(subject, contract) := Assessment(current.value, submitted)])
  }

  ghost function Step(db: Db, e: Event, now: Time): Db
    requires SchemesOk(db)
  {
    match e
    case Transit(id, action, user) =>
      ApplyTransition(db, id, action, user, now)
    case ClaimCase(id, user) =>
      if id in db.records && MayBeGiven(db.records[id], user, user) && db.records[id].flow.hr == None
      then WithOwner(db, id, user, user, now, Claimed) else db
    case HandOverCase(id, user, owner) =>
      if id in db.records && MayBeGiven(db.records[id], user, owner)
      then WithOwner(db, id, user, owner, now, HandedOver) else db
    case SaveScores(id, user, rows) =>
      if id in db.records && MayScore(db.records[id], user) && Savable(db, db.records[id], rows)
      then WithRecord(db, id, db.records[id].(scores := rows)) else db
    case SetBonus(id, user, points, reason) =>
      if id in db.records && MayScore(db.records[id], user)
        && ValidateBonus(points, reason, RulesFor(db, db.records[id])) == None
      then WithRecord(db, id, db.records[id].(bonus := Some(StoredPoints(points)))) else db
    case OpenCase(id, user, subject, contractStart, seats) =>
      if id in db.records || HasOpenCase(db, subject)
        || !(HoldsDesk(Case(seats, None, Draft), user) || user.role == HrRole) then db
      else Open(db, id, user, subject, contractStart, seats, now)
    case OpenSelfAssessment(subject, contract) =>
      if (subject, contract) in db.assessments then db else PinAssessment(db, subject, contract, false)
    case SubmitSelfAssessment(subject, contract) =>
      if (subject, contract) in db.assessments && db.assessments[(subject, contract)].submitted then db
      else PinAssessment(db, subject, contract, true)
    case AddIndicator(section) =>
      db.(indicators := db.indicators[db.nextIndicator := Indicator(section, true)],
          nextIndicator := db.nextIndicator + 1)
    case SetActive(k, active) =>
      if k in db.indicators then db.(indicators := db.indicators[k := db.indicators[k].(active := active)]) else db
    case DeleteIndicator(k) =>
      if k in db.indicators && !IsScored(db, k) then db.(indicators := db.indicators - {k}) else db
    case PublishFramework => Bump(db)
    case RenewFramework => EnsureFramework(db)
    case RebindUntouched(framework) => if 0 <= framework < |db.frameworks| then Rebind(db, framework) else db
    case CreateScheme(id, rules, author) =>
      if id in db.schemes || !SchemeCheck(rules) || !FieldBounds(rules) then db
      else db.(schemes := db.schemes[id := Scheme(StoredForm(rules), DraftScheme, author)])
    case ActivateScheme(id, actor) => Activate(db, id, actor)
    case DeleteScheme(id) =>
      if id in db.schemes && db.schemes[id].status == DraftScheme then db.(schemes := db.schemes - {id}) else db
  }

  /** Steps that concern the tables around the cases. */
  predicate LeavesCasesAlone(e: Event) {
    && !e.Transit? && !e.ClaimCase? && !e.HandOverCase? && !e.SaveScores? && !e.SetBonus? && !e.OpenCase?
    && !e.RebindUntouched?
  }

  datatype Timed = Timed(event: Event, at: Time)

  // ---------------------------------------------------------------- what every step keeps

  /** Past the scoring: the result has been settled and the case was not cancelled. */
  predicate Settled(r: Record) {
    r.flow.status != Draft && r.flow.status != Cancelled
  }

  /** Bound to a scheme version and a framework version that exist. */
  predicate Stamped(db: Db, r: Record) {
    HasScheme(db, r) && HasFramework(db, r)
  }

  /** What is stored belongs together: the scores answer the record's own questions, and past the
      scoring the result is the one its own scheme gives them. */
  ghost predicate Coherent(db: Db, r: Record) {
    && ScoredIds(r.scores) <= Form(db, r).Keys
    && (Settled(r) && HasScheme(db, r) ==>
      && (r.scores != [] ==> FormComplete(db, r))
      && RulesFor(db, r).thresholds != []
      && r.stored == Some(StoredOf(ResultUnder(r, Form(db, r), RulesFor(db, r))))
      && (r.flow.status == Finalized ==> r.scores != []))
  }

  /** Stamped with a scheme that has been activated. */
  predicate InForce(db: Db, r: Record) {
    HasScheme(db, r) && db.schemes[r.scheme.value].status != DraftScheme
  }

  ghost predicate RecordOk(db: Db, r: Record) {
    && (r.scheme.Some? ==> InForce(db, r)) && (r.framework.Some? ==> HasFramework(db, r))
    && ValidScores(r.scores) && DistinctIds(r.scores) && BonusOf(r) >= 0.0
    && ScoredIds(r.scores) <= db.indicators.Keys
    && (HasFramework(db, r) ==> Coherent(db, r))
  }

  ghost predicate RecordsOk(db: Db) {
    forall id :: id in db.records ==> RecordOk(db, db.records[id])
  }

  /** Versions and self-assessments refer to what exists or has existed. */
  ghost predicate TablesOk(db: Db) {
    && SchemesOk(db)
    && (forall k :: k in db.indicators ==> k < db.nextIndicator)
    && (forall f :: f in db.frameworks ==> MembersBelow(f, db.nextIndicator))
    && (forall key :: key in db.assessments ==> 0 <= db.assessments[key].framework < |db.frameworks|)
  }

  ghost predicate MembersBelow(f: Framework, bound: Id) {
    forall k :: k in f.members ==> k < bound
  }

  ghost predicate Good(db: Db) {
    TablesOk(db) && RecordsOk(db)
  }

  const EMPTY := Db(map[], map[], 0, [], map[], map[], [])
}
