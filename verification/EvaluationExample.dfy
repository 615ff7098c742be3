/** Cases played from the empty database, so that the theorems are seen to speak of something and the
    failures to happen. */
module EvaluationExample {
  import opened Domain
  import opened Workflow
  import opened WorkflowRuns
  import opened Rounding
  import opened Scoring
  import opened ScoringLaws
  import opened ScoreChecks
  import opened EvaluationDb
  import opened EvaluationRuns
  import opened EvaluationCoherence
  import opened EvaluationTheorems
  import opened EvaluationStamps

  ghost predicate Reachable(db: Db) {
    exists run :: Played(EMPTY, run) == db
  }

  lemma PlayedStep(db: Db, t: Timed, rest: seq<Timed>)
    requires Good(db)
    ensures Good(Step(db, t.event, t.at)) && Played(db, [t] + rest) == Played(Step(db, t.event, t.at), rest)
  {
    StepKeepsGood(db, t.event, t.at);
    assert ([t] + rest)[1..] == rest;
  }

  lemma {:induction false} PlayedConcat(db: Db, a: seq<Timed>, b: seq<Timed>)
    requires Good(db)
    ensures Played(db, a + b) == Played(Played(db, a), b)
    decreases |a|
  {
    if a == [] {
      assert a + b == b;
    } else {
      var t, rest := a[0], a[1..];
      PlayedStep(db, t, rest);
      PlayedStep(db, t, rest + b);
      PlayedConcat(Step(db, t.event, t.at), rest, b);
      assert a == [t] + rest && a + b == [t] + (rest + b);
    }
  }

  lemma RunReaches(db: Db, run: seq<Timed>)
    requires Reachable(db)
    ensures Good(db) && Reachable(Played(db, run))
  {
    var before :| Played(EMPTY, before) == db;
    PlayedConcat(EMPTY, before, run);
  }

  lemma StepReaches(db: Db, e: Event, now: Time)
    requires Reachable(db)
    ensures Good(db) && Reachable(Step(db, e, now))
  {
    RunReaches(db, [Timed(e, now)]);
    StepKeepsGood(db, e, now);
    assert Played(db, [Timed(e, now)]) == Played(Step(db, e, now), []);
  }

  const CEO := User(7, CeoRole)

  const HR_USER: UserId := 8

  const RULES := SchemeOf(0.6, 0.4)

  const SEATS := Seats(None, None, 7)

  function Roles(): UserId -> Role {
    u => if u == HR_USER then HrRole else CeoRole
  }

  lemma RulesAreStoredAsTheyAre()
    ensures SchemeCheck(RULES) && FieldBounds(RULES) && StoredForm(RULES) == RULES && ValidRules(RULES)
  {
    HalfEvenFixesIntegers(1000000);
    assert (0.6 * 1000.0 + 0.5).Floor == 600 && (0.4 * 1000.0 + 0.5).Floor == 400 && (5.0 * 100.0 + 0.5).Floor == 500;
    assert 0.6 * 1000.0 == 600.0 && 0.4 * 1000.0 == 400.0;
    assert SchemeCheck(RULES) && FieldBounds(RULES);
    CheckedSchemeIsStored(RULES);
  }

  // ---------------------------------------------------------------- one indicator per section, one scheme

  const QUESTIONS: map<Id, Indicator> := map[0 := Indicator(General, true), 1 := Indicator(Specialized, true)]

  function WithQuestions(): Db {
    EMPTY.(indicators := QUESTIONS, nextIndicator := 2)
  }

  function Prepared(): Db {
    WithQuestions().(schemes := map[1 := Scheme(RULES, ActiveScheme, None)])
  }

  lemma QuestionsReached()
    ensures Reachable(WithQuestions())
  {
    assert Played(EMPTY, []) == EMPTY;
    StepReaches(EMPTY, AddIndicator(General), 0);
    StepReaches(Step(EMPTY, AddIndicator(General), 0), AddIndicator(Specialized), 0);
    assert Step(Step(EMPTY, AddIndicator(General), 0), AddIndicator(Specialized), 0) == WithQuestions();
  }

  function Drafted(): Db {
    WithQuestions().(schemes := map[1 := Scheme(RULES, DraftScheme, None)])
  }

  lemma DraftedReached()
    ensures Reachable(Drafted())
  {
    QuestionsReached();
    RulesAreStoredAsTheyAre();
    StepReaches(WithQuestions(), CreateScheme(1, RULES, None), 1);
  }

  lemma ActivatedIsPrepared()
    ensures Activate(Drafted(), 1, 9) == Prepared()
  {
    assert ActivationAllowed(Drafted(), 1, 9);
    assert Activate(Drafted(), 1, 9).schemes == Prepared().schemes;
  }

  lemma PreparedReached()
    ensures Reachable(Prepared())
  {
    DraftedReached();
    ActivatedIsPrepared();
    StepReaches(Drafted(), ActivateScheme(1, 9), 2);
  }

  lemma PreparedIsActive()
    ensures ActiveScheme?(Prepared()) == Some(1)
  {
    assert IsActiveScheme(Prepared(), 1);
  }

  // ---------------------------------------------------------------- a direct case of the CEO

  const CONTRACT: Time := 2

  function DraftWith(scores: seq<Score>): Record {
    Record(5, Some(CONTRACT), false, Case(SEATS, None, Draft), Some(1), Some(0), scores, None, None, 3, 3, None)
  }

  function OpenedWith(scores: seq<Score>): Db {
    Prepared().(frameworks := [Framework(1, {0, 1})], records := map[1 := DraftWith(scores)],
                log := [Entry(1, 7, 3, Opened)])
  }

  lemma FirstFramework(db: Db)
    requires db.indicators == QUESTIONS && db.frameworks == []
    ensures EnsureFramework(db) == db.(frameworks := [Framework(1, {0, 1})])
    ensures CurrentFramework([Framework(1, {0, 1})]) == Some(0)
  {
    assert ActiveMembers(QUESTIONS) == {0, 1};
  }

  lemma OpensTo()
    ensures Open(Prepared(), 1, CEO, 5, Some(CONTRACT), SEATS, 3) == OpenedWith([])
  {
    PreparedIsActive();
    FirstFramework(Prepared());
    assert FrameworkForNewCase(Prepared(), 5, Some(CONTRACT)) == (EnsureFramework(Prepared()), Some(0));
  }

  lemma OpenedReached()
    ensures Reachable(OpenedWith([]))
  {
    PreparedReached();
    OpensTo();
    StepReaches(Prepared(), OpenCase(1, CEO, 5, Some(CONTRACT), SEATS), 3);
    assert !HasOpenCase(Prepared(), 5) && HoldsDesk(Case(SEATS, None, Draft), CEO);
  }

  lemma FormOfTheCase(scores: seq<Score>)
    ensures Form(OpenedWith(scores), DraftWith(scores)) == map[0 := General, 1 := Specialized]
    ensures HasScheme(OpenedWith(scores), DraftWith(scores)) && RulesFor(OpenedWith(scores), DraftWith(scores)) == RULES
  {
  }

  const FIRST := Score(0, 3, None)

  const BOTH := [FIRST, Score(1, 4, None)]

  lemma ScoredOnes()
    ensures ScoredIds([FIRST]) == {0} && ScoredIds(BOTH) == {0, 1}
  {
    assert [FIRST][0].indicator == 0 && BOTH[0].indicator == 0 && BOTH[1].indicator == 1;
  }

  lemma ScoredReached(scores: seq<Score>)
    requires scores == [FIRST] || scores == BOTH
    ensures Reachable(OpenedWith(scores))
  {
    OpenedReached();
    StepReaches(OpenedWith([]), SaveScores(1, CEO, scores), 4);
    FormOfTheCase([]);
    ScoredOnes();
    assert Savable(OpenedWith([]), DraftWith([]), scores);
  }

  /** A case that is stamped, scored in full and finalized, and by `StoredResultIsItsOwn` stores its own
      result. */
  lemma ACaseIsFinalized() returns (end: Db)
    ensures Reachable(end) && 1 in end.records && end.records[1].flow.status == Finalized
    ensures Stamped(end, end.records[1])
    ensures ScoredIds(end.records[1].scores) == IndicatorIds(end, end.records[1]) == {0, 1}
  {
    var db := OpenedWith(BOTH);
    ScoredReached(BOTH);
    RunReaches(db, []);
    FormOfTheCase(BOTH);
    ScoredOnes();
    assert EvidenceOk(BOTH, RULES) && FormComplete(db, DraftWith(BOTH));
    var run := CaseCanBeFinalized(db, 1, HR_USER, Roles(), 5);
    RunReaches(db, run);
    end := Played(db, run);
  }

  // ---------------------------------------------------------------- a question is deleted under way

  const WITHOUT: seq<Framework> := [Framework(1, {0, 1}), Framework(2, {0})]

  function Deleted(): Db {
    OpenedWith([FIRST]).(indicators := QUESTIONS - {1})
  }

  function Halved(): Db {
    Deleted().(frameworks := WITHOUT)
  }

  lemma DeletedReached()
    ensures Reachable(Deleted())
  {
    var db := OpenedWith([FIRST]);
    ScoredReached([FIRST]);
    ScoredOnes();
    StepReaches(db, DeleteIndicator(1), 5);
    assert !IsScored(db, 1);
  }

  /** The scored draft is not touched by the publication and the rebinding that come with a deletion. */
  lemma HalvedReached()
    ensures Reachable(Halved())
  {
    DeletedReached();
    assert CurrentFramework(Deleted().frameworks) == Some(0) && ActiveMembers(Deleted().indicators) == {0};
    StepReaches(Deleted(), PublishFramework, 5);
    assert Bump(Deleted()) == Halved();
    StepReaches(Halved(), RebindUntouched(1), 5);
    assert !Untouched(Halved(), DraftWith([FIRST]));
    assert Rebind(Halved(), 1).records == Halved().records;
  }

  lemma HalvedIsComplete()
    ensures Form(Halved(), DraftWith([FIRST])) == map[0 := General]
    ensures RulesFor(Halved(), DraftWith([FIRST])) == RULES && FormComplete(Halved(), DraftWith([FIRST]))
  {
    ScoredOnes();
  }

  /** The scorer has answered the first question when HR deletes the second, which nobody has scored. A new
      version is published, but the case keeps its framework of two questions and is finalized with one. */
  lemma FinalizedWithoutADeletedQuestion() returns (end: Db)
    ensures Reachable(end) && 1 in end.records && end.records[1].flow.status == Finalized
    ensures Stamped(end, end.records[1])
    ensures ScoredIds(end.records[1].scores) == {0} && IndicatorIds(end, end.records[1]) == {0, 1}
  {
    HalvedReached();
    RunReaches(Halved(), []);
    HalvedIsComplete();
    ScoredOnes();
    assert EvidenceOk([FIRST], RULES);
    var run := CaseCanBeFinalized(Halved(), 1, HR_USER, Roles(), 6);
    RunReaches(Halved(), run);
    end := Played(Halved(), run);
  }

  // ---------------------------------------------------------------- a question is switched off

  function SwitchedOff(): Db {
    Prepared().(indicators := QUESTIONS[1 := Indicator(Specialized, false)])
  }

  function ShortVersion(): Db {
    SwitchedOff().(frameworks := [Framework(1, {0})])
  }

  function ShortCase(scores: seq<Score>): Db {
    ShortVersion().(records := map[1 := DraftWith(scores)], log := [Entry(1, 7, 3, Opened)])
  }

  lemma ShortVersionReached()
    ensures Reachable(ShortVersion())
  {
    PreparedReached();
    StepReaches(Prepared(), SetActive(1, false), 2);
    StepReaches(SwitchedOff(), PublishFramework, 2);
    assert ActiveMembers(SwitchedOff().indicators) == {0};
    assert Bump(SwitchedOff()) == ShortVersion();
  }

  lemma ShortVersionIsCurrent()
    ensures EnsureFramework(ShortVersion()) == ShortVersion() && CurrentFramework(ShortVersion().frameworks) == Some(0)
    ensures ActiveScheme?(ShortVersion()) == Some(1)
  {
    assert ActiveMembers(ShortVersion().indicators) == {0};
    assert IsActiveScheme(ShortVersion(), 1);
  }

  lemma OpensShort()
    ensures Open(ShortVersion(), 1, CEO, 5, Some(CONTRACT), SEATS, 3) == ShortCase([])
  {
    ShortVersionIsCurrent();
    assert FrameworkForNewCase(ShortVersion(), 5, Some(CONTRACT)) == (ShortVersion(), Some(0));
  }

  lemma ShortCaseReached()
    ensures Reachable(ShortCase([]))
  {
    var db := ShortVersion();
    ShortVersionReached();
    OpensShort();
    StepReaches(db, OpenCase(1, CEO, 5, Some(CONTRACT), SEATS), 3);
    assert !HasOpenCase(db, 5) && HoldsDesk(Case(SEATS, None, Draft), CEO);
  }

  lemma ShortForm(scores: seq<Score>)
    ensures Form(ShortCase(scores), DraftWith(scores)) == map[0 := General]
    ensures RulesFor(ShortCase(scores), DraftWith(scores)) == RULES
  {
  }

  lemma ShortCaseScored()
    ensures Reachable(ShortCase([FIRST]))
  {
    ShortCaseReached();
    ShortForm([]);
    ScoredOnes();
    assert Savable(ShortCase([]), DraftWith([]), [FIRST]);
    StepReaches(ShortCase([]), SaveScores(1, CEO, [FIRST]), 4);
  }

  /** HR switches a question off and publishes; a case opened then does not ask it and is finalized with the
      other one alone. */
  lemma ASwitchedOffQuestionIsNotAsked() returns (end: Db)
    ensures Reachable(end) && 1 in end.records && end.records[1].flow.status == Finalized
    ensures 1 in end.indicators && !end.indicators[1].active
    ensures IndicatorIds(end, end.records[1]) == ScoredIds(end.records[1].scores) == {0}
  {
    var db := ShortCase([FIRST]);
    ShortCaseScored();
    RunReaches(db, []);
    ShortForm([FIRST]);
    ScoredOnes();
    assert EvidenceOk([FIRST], RULES) && FormComplete(db, DraftWith([FIRST]));
    var run := CaseCanBeFinalized(db, 1, HR_USER, Roles(), 5);
    RunReaches(db, run);
    end := Played(db, run);
  }

  // ---------------------------------------------------------------- a self-assessment is overtaken

  function Assessed0(): Db {
    OpenedWith([]).(assessments := map[(5, CONTRACT) := Assessment(0, false)])
  }

  lemma AssessedReached()
    ensures Reachable(Assessed0())
  {
    var db := OpenedWith([]);
    OpenedReached();
    StepReaches(db, OpenSelfAssessment(5, CONTRACT), 4);
    assert CurrentFramework(db.frameworks) == Some(0) && ActiveMembers(db.indicators) == {0, 1};
  }

  function Added(): Db {
    Assessed0().(indicators := QUESTIONS[2 := Indicator(General, true)], nextIndicator := 3)
  }

  const NEWEST := Framework(2, {0, 1, 2})

  function Published(): Db {
    Added().(frameworks := [Framework(1, {0, 1}), NEWEST])
  }

  lemma AddedReached()
    ensures Reachable(Added())
  {
    AssessedReached();
    StepReaches(Assessed0(), AddIndicator(General), 5);
  }

  lemma PublishedReached()
    ensures Reachable(Published())
  {
    AddedReached();
    StepReaches(Added(), PublishFramework, 5);
    assert ActiveMembers(Added().indicators) == {0, 1, 2};
    assert CurrentFramework(Added().frameworks) == Some(0);
    assert Bump(Added()) == Published();
  }

  lemma RebindingPassesIt()
    ensures Rebind(Published(), 1) == Published()
  {
    assert !Untouched(Published(), DraftWith([]));
    assert Rebind(Published(), 1).records == Published().records;
  }

  lemma NewestIsCurrent()
    ensures CurrentFramework(Published().frameworks) == Some(1) && EnsureFramework(Published()) == Published()
  {
    var frameworks := Published().frameworks;
    assert frameworks[..1] == [Framework(1, {0, 1})];
    assert CurrentFramework(frameworks[..1]) == Some(0);
    assert ActiveMembers(Published().indicators) == {0, 1, 2};
  }

  /** The employee opens the self-assessment of the case; HR adds a question, publishes and rebinds; the
      employee submits. The case asks the old questions, the self-assessment has answered the new ones. */
  lemma ASelfAssessmentDrifts() returns (end: Db)
    ensures Reachable(end) && 1 in end.records && end.records[1] == DraftWith([])
    ensures (5, CONTRACT) in end.assessments && end.assessments[(5, CONTRACT)] == Assessment(1, true)
    ensures end.frameworks == [Framework(1, {0, 1}), NEWEST]
  {
    PublishedReached();
    RebindingPassesIt();
    NewestIsCurrent();
    StepReaches(Published(), RebindUntouched(1), 5);
    StepReaches(Published(), SubmitSelfAssessment(5, CONTRACT), 6);
    end := PinAssessment(Published(), 5, CONTRACT, true);
  }

  // ---------------------------------------------------------------- a case opened before there were schemes

  function UnstampedDraft(scores: seq<Score>): Record {
    DraftWith(scores).(scheme := None)
  }

  function Unstamped(r: Record, log: seq<Entry>): Db {
    WithQuestions().(frameworks := [Framework(1, {0, 1})], records := map[1 := r], log := log)
  }

  const BIRTH: seq<Entry> := [Entry(1, 7, 3, Opened)]

  lemma LegacyRulesApply(r: Record, log: seq<Entry>)
    requires r.scheme == None && r.framework == Some(0)
    ensures ActiveScheme?(Unstamped(r, log)) == None
    ensures RulesFor(Unstamped(r, log), r) == LEGACY_RULES
    ensures Form(Unstamped(r, log), r) == map[0 := General, 1 := Specialized]
  {
    NoneActive(Unstamped(r, log));
  }

  lemma NoneActive(db: Db)
    requires db.schemes == map[]
    ensures ActiveScheme?(db) == None
  {
    forall id ensures !IsActiveScheme(db, id) {
    }
  }

  lemma OpensUnstamped()
    ensures Open(WithQuestions(), 1, CEO, 5, Some(CONTRACT), SEATS, 3) == Unstamped(UnstampedDraft([]), BIRTH)
  {
    var db := WithQuestions();
    NoneActive(db);
    FirstFramework(db);
    assert FrameworkForNewCase(db, 5, Some(CONTRACT)) == (EnsureFramework(db), Some(0));
  }

  lemma UnstampedOpened()
    ensures Reachable(Unstamped(UnstampedDraft([]), BIRTH))
  {
    QuestionsReached();
    OpensUnstamped();
    StepReaches(WithQuestions(), OpenCase(1, CEO, 5, Some(CONTRACT), SEATS), 3);
    assert !HasOpenCase(WithQuestions(), 5) && HoldsDesk(Case(SEATS, None, Draft), CEO);
  }

  lemma UnstampedScored()
    ensures Reachable(Unstamped(UnstampedDraft(BOTH), BIRTH))
  {
    var db := Unstamped(UnstampedDraft([]), BIRTH);
    UnstampedOpened();
    LegacyRulesApply(UnstampedDraft([]), BIRTH);
    ScoredOnes();
    assert Savable(db, UnstampedDraft([]), BOTH);
    StepReaches(db, SaveScores(1, CEO, BOTH), 4);
    assert Step(db, SaveScores(1, CEO, BOTH), 4) == Unstamped(UnstampedDraft(BOTH), BIRTH);
  }

  lemma UnstampedCanBeSubmitted()
    ensures var before := Unstamped(UnstampedDraft(BOTH), BIRTH);
      SchemesOk(before) && TransitionSucceeds(before, 1, DirectCeoSubmit, CEO)
  {
    LegacyRulesApply(UnstampedDraft(BOTH), BIRTH);
    ScoredOnes();
    assert EvidenceOk(BOTH, LEGACY_RULES);
  }

  lemma SubmittedStoresItsOwn() returns (db: Db)
    ensures Reachable(db) && Good(db) && db.schemes == map[] && db.records.Keys == {1}
    ensures Settled(db.records[1]) && db.records[1].scheme == None && OwnResult(db, db.records[1])
  {
    var before, r := Unstamped(UnstampedDraft(BOTH), BIRTH), UnstampedDraft(BOTH);
    UnstampedScored();
    UnstampedCanBeSubmitted();
    StepReaches(before, Transit(1, DirectCeoSubmit, CEO), 5);
    db := ApplyTransition(before, 1, DirectCeoSubmit, CEO, 5);
    RunReaches(db, []);
    var r' := db.records[1];
    assert r' == Moved(r, DirectCeoSubmit, CEO, 5, FinalizeScoring(before, r)) && db == Unstamped(r', db.log);
    LegacyRulesApply(r, BIRTH);
    LegacyRulesApply(r', db.log);
  }

  /** Opened, scored and submitted before any scheme was active, a case stores its own result and keeps it
      only until a scheme with another label is created and activated. */
  lemma AnUnstampedResultIsLost() returns (db: Db, change: Reform)
    ensures Reachable(db) && Good(db) && 1 in db.records && Settled(db.records[1]) && OwnResult(db, db.records[1])
    ensures Possible(db, change) && Reachable(Reformed(db, change))
    ensures Reformed(db, change).records == db.records && !OwnResult(Reformed(db, change), db.records[1])
  {
    db := SubmittedStoresItsOwn();
    ResultSurvivesExactlyIfStamped(db, 1);
    change :| !Survives(db, db.records[1], change);
    RunReaches(db, Reforming(change));
  }
}
