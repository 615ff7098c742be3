/** The evaluation back end as one database: records bound to a scheme version and a framework
    version, the indicators HR switches on and off, and the log. The ghost functions say what each
    operation does to the whole database; the class below carries the operations out in place. */
module EvaluationDb {
  import opened Domain
  import opened Workflow
  import opened WorkflowRuns
  import opened Scoring
  import opened ScoringLaws
  import opened ScoreChecks

  datatype Indicator = Indicator(section: Section, active: bool)

  /** One version of the set of questions. */
  datatype Framework = Framework(version: int, members: set<Id>)

  datatype SchemeStatus = DraftScheme | ActiveScheme | RetiredScheme

  datatype Scheme = Scheme(rules: Rules, status: SchemeStatus, author: Option<UserId>)

  /** The columns `finalize_scoring` fills; the applied bonus and the scheme version go to the log only. */
  datatype Stored = Stored(
      generalPct: real, specializedPct: real, basePct: real, finalPct: real, recommendation: string)

  function StoredOf(result: Result): Stored {
    Stored(result.generalPct, result.specializedPct, result.basePct, result.finalPct, result.recommendation)
  }

  /** `flow` holds seats, HR owner and status. */
  datatype Record = Record(
    subject: Id, contractStart: Option<Time>, selfAssessed: bool,
    flow: Case, scheme: Option<Id>, framework: Option<Id>,
    scores: seq<Score>, bonus: Option<real>, stored: Option<Stored>,
    createdAt: Time, stageEnteredAt: Time, finalizedAt: Option<Time>)

  datatype What =
    | Opened | Claimed | HandedOver | ScoreSubmitted(result: Result) | StatusChanged(from: Status, to: Status)

  datatype Entry = Entry(record: Id, actor: UserId, at: Time, what: What)

  /** The self-assessment a person fills in for one contract, and the questions it is bound to. */
  datatype Assessment = Assessment(framework: Id, submitted: bool)

  /** A framework's id is its position; an indicator id is never given out twice. `assessments` is keyed
      by person and contract. */
  datatype Db = Db(
    records: map<Id, Record>,
    indicators: map<Id, Indicator>, nextIndicator: Id,
    frameworks: seq<Framework>,
    schemes: map<Id, Scheme>,
    assessments: map<(Id, Time), Assessment>,
    log: seq<Entry>)

  // ---------------------------------------------------------------- what a record is asked and by which rules

  function ActiveMembers(indicators: map<Id, Indicator>): set<Id> {
    set k | k in indicators && indicators[k].active
  }

  predicate HasFramework(db: Db, r: Record) {
    r.framework.Some? && 0 <= r.framework.value < |db.frameworks|
  }

  /** The questions of this record: from its stamp, and only without one from today's active set. */
  function IndicatorIds(db: Db, r: Record): set<Id> {
    if HasFramework(db, r) then db.frameworks[r.framework.value].members else ActiveMembers(db.indicators)
  }

  /** The same questions with their sections, as far as the indicators still exist. */
  function Form(db: Db, r: Record): map<Id, Section> {
    map k | k in db.indicators && k in IndicatorIds(db, r) :: db.indicators[k].section
  }

  /** The rules from before schemes existed. */
  const LEGACY_RULES := Rules(
    0.6, 0.4, {1, 5}, 3, 40,
    [Threshold(60.0, "reject"), Threshold(75.0, "conditional"),
     Threshold(90.0, "standard"), Threshold(101.0, "premium")],
    map[], None, 5.0)

  predicate HasScheme(db: Db, r: Record) {
    r.scheme.Some? && r.scheme.value in db.schemes
  }

  ghost predicate IsActiveScheme(db: Db, id: Id) {
    id in db.schemes && db.schemes[id].status == ActiveScheme
  }

  ghost function ActiveScheme?(db: Db): (active: Option<Id>)
    ensures active.Some? ==> IsActiveScheme(db, active.value)
    ensures active == None ==> forall id :: !IsActiveScheme(db, id)
  {
    if id :| IsActiveScheme(db, id) then Some(id) else None
  }

  /** The rules of this record: from its stamp, and only without one from the active scheme. */
  ghost function RulesFor(db: Db, r: Record): Rules {
    if HasScheme(db, r) then db.schemes[r.scheme.value].rules
    else if ActiveScheme?(db).Some? then db.schemes[ActiveScheme?(db).value].rules
    else LEGACY_RULES
  }

  // ---------------------------------------------------------------- scoring a record

  function ScoredIds(rows: seq<Score>): set<Id> {
    set i | 0 <= i < |rows| :: rows[i].indicator
  }

  function BonusOf(r: Record): real {
    if r.bonus.Some? then r.bonus.value else 0.0
  }

  /** Every scheme was checked when it was created, and its rules are those that were stored. */
  ghost predicate SchemesOk(db: Db) {
    forall id :: id in db.schemes ==> StoredRules(db.schemes[id].rules)
  }

  /** The partial unique index on the scheme table. */
  ghost predicate AtMostOneActive(db: Db) {
    forall a, b :: IsActiveScheme(db, a) && IsActiveScheme(db, b) ==> a == b
  }

  lemma LegacyRulesValid()
    ensures ValidRules(LEGACY_RULES)
  {
    assert 0.6 * 1000.0 == 600.0 && 0.4 * 1000.0 == 400.0;
  }

  /** Whatever a record falls back to has bands for its result. */
  lemma RulesForStored(db: Db, r: Record)
    requires SchemesOk(db)
    ensures StoredRules(RulesFor(db, r))
  {
    LegacyRulesValid();
    if HasScheme(db, r) {
      SchemeRulesStored(db, r.scheme.value);
    } else if ActiveScheme?(db).Some? {
      SchemeRulesStored(db, ActiveScheme?(db).value);
    }
  }

  lemma SchemeRulesStored(db: Db, id: Id)
    requires SchemesOk(db) && id in db.schemes
    ensures StoredRules(db.schemes[id].rules)
  {
  }

  ghost predicate FormComplete(db: Db, r: Record) {
    ScoredIds(r.scores) == Form(db, r).Keys
  }

  /** The result of a complete, evidenced record under its own form and rules; `None` is a refusal. */
  ghost function FinalizeScoring(db: Db, r: Record): Option<Result>
    requires SchemesOk(db)
  {
    RulesForStored(db, r);
    var rules := RulesFor(db, r);
    if FormComplete(db, r) && EvidenceOk(r.scores, rules)
    then Some(ResultUnder(r, Form(db, r), rules))
    else None
  }

  ghost function ResultUnder(r: Record, form: map<Id, Section>, rules: Rules): Result
    requires ScoredIds(r.scores) <= form.Keys && rules.thresholds != []
  {
    ScoredAreKnown(r.scores, form);
    Compute(r.scores, form, rules, BonusOf(r))
  }

  lemma ScoredAreKnown(rows: seq<Score>, form: map<Id, Section>)
    requires ScoredIds(rows) <= form.Keys
    ensures Known(rows, form)
  {
    forall i | 0 <= i < |rows| ensures rows[i].indicator in form {
      assert rows[i].indicator in ScoredIds(rows);
    }
  }

  // ---------------------------------------------------------------- transitions

  /** What `apply_transition` does before the status changes: scoring is settled on the submits. */
  ghost function SettledBy(db: Db, r: Record, action: Action): Option<Result>
    requires SchemesOk(db)
  {
    if IsSubmit(action) then FinalizeScoring(db, r) else None
  }

  ghost predicate TransitionSucceeds(db: Db, id: Id, action: Action, user: User)
    requires SchemesOk(db)
  {
    && id in db.records
    && var r := db.records[id];
      && TransitionAllowed(r.flow, action, user)
      && (Table(action).to == Finalized ==> r.stored.Some? && r.scores != [])
      && (IsSubmit(action) ==> FinalizeScoring(db, r).Some?)
  }

  function ClaimEntries(id: Id, r: Record, action: Action, user: User, now: Time): seq<Entry> {
    if Table(action).claimable && r.flow.hr == None then [Entry(id, user.id, now, Claimed)] else []
  }

  function ScoreEntries(id: Id, user: User, now: Time, settled: Option<Result>): seq<Entry> {
    if settled.Some? then [Entry(id, user.id, now, ScoreSubmitted(settled.value))] else []
  }

  /** The log entries of a transition, given what the scoring has just settled. */
  function Entries(id: Id, r: Record, action: Action, user: User, now: Time, settled: Option<Result>): seq<Entry> {
    ClaimEntries(id, r, action, user, now)
    + ScoreEntries(id, user, now, settled)
    + [Entry(id, user.id, now, StatusChanged(r.flow.status, Table(action).to))]
  }

  function Moved(r: Record, action: Action, user: User, now: Time, settled: Option<Result>): Record {
    r.(flow := After(r.flow, action, user), stageEnteredAt := now,
       stored := if settled.Some? then Some(StoredOf(settled.value)) else r.stored,
       finalizedAt := if Table(action).to == Finalized && r.finalizedAt == None then Some(now) else r.finalizedAt)
  }

  function CommitTransition(db: Db, id: Id, action: Action, user: User, now: Time, settled: Option<Result>): Db
    requires id in db.records
  {
    var r := db.records[id];
    db.(records := db.records[id := Moved(r, action, user, now, settled)],
        log := db.log + Entries(id, r, action, user, now, settled))
  }

  /** A refused transition is rolled back and leaves no trace. */
  ghost function ApplyTransition(db: Db, id: Id, action: Action, user: User, now: Time): Db
    requires SchemesOk(db)
  {
    if !TransitionSucceeds(db, id, action, user) then db
    else CommitTransition(db, id, action, user, now, SettledBy(db, db.records[id], action))
  }

  // ---------------------------------------------------------------- frameworks

  /** `ORDER BY version DESC LIMIT 1`. */
  function CurrentFramework(frameworks: seq<Framework>): Option<Id> {
    if frameworks == [] then None
    else
      var n := |frameworks| - 1;
      var earlier := CurrentFramework(frameworks[..n]);
      if earlier.Some? && 0 <= earlier.value < n && frameworks[earlier.value].version > frameworks[n].version
      then earlier else Some(n)
  }

  function CurrentVersion(frameworks: seq<Framework>): int {
    var current := CurrentFramework(frameworks);
    if current.Some? && 0 <= current.value < |frameworks| then frameworks[current.value].version else 0
  }

  /** A new version holding today's active indicators. */
  function Bump(db: Db): Db {
    db.(frameworks := db.frameworks + [Framework(CurrentVersion(db.frameworks) + 1, ActiveMembers(db.indicators))])
  }

  predicate FrameworkOutdated(db: Db) {
    var current := CurrentFramework(db.frameworks);
    !(current.Some? && 0 <= current.value < |db.frameworks|
      && db.frameworks[current.value].members == ActiveMembers(db.indicators))
  }

  /** The current version if it still matches today's active set, a new one otherwise. */
  function EnsureFramework(db: Db): Db {
    if FrameworkOutdated(db) then Bump(db) else db
  }

  /** Nobody has written anything into the record: neither the scorer nor the employee. */
  predicate Untouched(db: Db, r: Record) {
    && r.scores == []
    && !(r.contractStart.Some? && (r.subject, r.contractStart.value) in db.assessments)
    && !r.selfAssessed
  }

  predicate IsOpen(r: Record) {
    r.flow.status in OPEN_STATUSES
  }

  /** An unstamped record is not matched: in SQL, NULL is not unequal to anything. */
  predicate Movable(db: Db, r: Record, framework: Id) {
    IsOpen(r) && r.framework.Some? && r.framework.value != framework && Untouched(db, r)
  }

  function MovableIds(db: Db, framework: Id): set<Id> {
    set id | id in db.records && Movable(db, db.records[id], framework)
  }

  function Rebind(db: Db, framework: Id): Db {
    db.(records := map id | id in db.records ::
      if Movable(db, db.records[id], framework) then db.records[id].(framework := Some(framework)) else db.records[id])
  }

  function OpenIds(db: Db): set<Id> {
    set id | id in db.records && IsOpen(db.records[id])
  }

  /** What HR is shown before changing the set of questions: (frozen, movable). */
  function Impact(db: Db): (nat, nat) {
    (|set id | id in OpenIds(db) && !Untouched(db, db.records[id])|,
     |set id | id in OpenIds(db) && Untouched(db, db.records[id])|)
  }

  // ---------------------------------------------------------------- schemes

  /** The author of a scheme may not activate it; activating retires the previous one. */
  ghost predicate ActivationAllowed(db: Db, id: Id, actor: UserId) {
    id in db.schemes && db.schemes[id].status == DraftScheme && db.schemes[id].author != Some(actor)
  }

  ghost function Activate(db: Db, id: Id, actor: UserId): Db {
    if !ActivationAllowed(db, id, actor) then db
    else
      db.(schemes := map k | k in db.schemes ::
        if k == id then db.schemes[k].(status := ActiveScheme)
        else if ActiveScheme?(db) == Some(k) then db.schemes[k].(status := RetiredScheme)
        else db.schemes[k])
  }

  /** Activating one scheme retires the other, so there is never a second active one; rules do not
      change. */
  lemma ActivateKeepsOneActive(db: Db, id: Id, actor: UserId)
    requires AtMostOneActive(db) && SchemesOk(db)
    ensures AtMostOneActive(Activate(db, id, actor)) && SchemesOk(Activate(db, id, actor))
  {
    var after := Activate(db, id, actor);
    if ActivationAllowed(db, id, actor) {
      forall k | IsActiveScheme(db, k) ensures ActiveScheme?(db) == Some(k) {
      }
      forall k | k in db.schemes && k != id ensures !IsActiveScheme(after, k) {
        assert after.schemes[k].status == ActiveScheme ==> IsActiveScheme(db, k);
      }
      forall k | k in after.schemes ensures StoredRules(after.schemes[k].rules) {
        SchemeRulesStored(db, k);
      }
    }
  }
}
