/** Each step said of the columns it reads and writes: who may take it, what it needs, what it leaves. */
module EvaluationSteps {
  import opened Domain
  import opened Text
  import opened Rounding
  import opened Workflow
  import opened WorkflowRuns
  import opened Scoring
  import opened ScoringLaws
  import opened ScoreChecks
  import opened EvaluationDb
  import opened EvaluationRuns
  import opened EvaluationCoherence
  import opened EvaluationTheorems
  import HrOwnership

  // ---------------------------------------------------------------- which questions are asked

  /** Exists and is switched on. */
  predicate SwitchedOn(db: Db, k: Id) {
    k in db.indicators && db.indicators[k].active
  }

  /** The current version asks this question. */
  predicate Asked(db: Db, k: Id) {
    var current := CurrentFramework(db.frameworks);
    current.Some? && 0 <= current.value < |db.frameworks| && k in db.frameworks[current.value].members
  }

  /** Publishing and renewing leave a current version that asks exactly the questions that exist and are
      switched on. */
  lemma SwitchedOnAreAsked(db: Db, now: Time, k: Id)
    requires SchemesOk(db)
    ensures Asked(Step(db, PublishFramework, now), k) <==> SwitchedOn(db, k)
    ensures Asked(Step(db, RenewFramework, now), k) <==> SwitchedOn(db, k)
  {
    PublishedIsCurrent(db);
  }

  /** So what HR switches off is asked no more from the next version on, and what it switches on again is. */
  lemma SwitchingTakesEffect(db: Db, k: Id, active: bool, now: Time)
    requires SchemesOk(db) && k in db.indicators
    ensures var switched := Step(db, SetActive(k, active), now);
      && SchemesOk(switched)
      && (Asked(Step(switched, PublishFramework, now), k) <==> active)
      && (Asked(Step(switched, RenewFramework, now), k) <==> active)
  {
    SwitchedOnAreAsked(Step(db, SetActive(k, active), now), now, k);
  }

  /** A stamped case asks the questions of its version that still exist, one without a stamp what is switched
      on today, each in the section of its indicator. */
  lemma FormInWords(db: Db, r: Record, k: Id)
    requires r.framework.Some? ==> 0 <= r.framework.value < |db.frameworks|
    ensures k in Form(db, r) <==>
      if r.framework.Some? then k in db.indicators && k in db.frameworks[r.framework.value].members
      else SwitchedOn(db, k)
    ensures k in Form(db, r) ==> Form(db, r)[k] == db.indicators[k].section
  {
  }

  /** The rules are those of the stamp, without one those of the active scheme, and without that the old ones. */
  lemma RulesInWords(db: Db, r: Record, active: Id)
    requires AtMostOneActive(db) && (r.scheme.Some? ==> r.scheme.value in db.schemes)
    ensures r.scheme.Some? ==> RulesFor(db, r) == db.schemes[r.scheme.value].rules
    ensures r.scheme == None && active in db.schemes && db.schemes[active].status == ActiveScheme
      ==> RulesFor(db, r) == db.schemes[active].rules
    ensures r.scheme == None && (forall id :: id in db.schemes ==> db.schemes[id].status != ActiveScheme)
      ==> RulesFor(db, r) == LEGACY_RULES
  {
    if active in db.schemes && db.schemes[active].status == ActiveScheme { assert IsActiveScheme(db, active); }
  }

  /** May open a case: whoever is to score it, or HR. */
  predicate MayOpen(seats: Seats, user: User) {
    user.role == HrRole || IsScorer(seats, user)
  }

  /** The lowest filled seat, held by somebody of sufficient rank. */
  predicate IsScorer(seats: Seats, user: User) {
    if seats.supervisor != None
    then seats.supervisor == Some(user.id) && user.role in {SupervisorRole, DeputyRole, CeoRole}
    else if seats.deputy != None then seats.deputy == Some(user.id) && user.role in {DeputyRole, CeoRole}
    else seats.ceo == user.id && user.role == CeoRole
  }

  lemma ScorerHoldsTheDraft(r: Record, user: User)
    ensures MayScore(r, user) <==> r.flow.status == Draft && IsScorer(r.flow.seats, user)
    ensures HoldsDesk(Case(r.flow.seats, None, Draft), user) <==> IsScorer(r.flow.seats, user)
  {
    WhoMaySit(user.role);
  }

  predicate NobodyHasOneOpen(db: Db, subject: Id) {
    forall id :: id in db.records && db.records[id].subject == subject
      ==> db.records[id].flow.status in {Finalized, Cancelled}
  }

  /** A case is opened exactly by its scorer or by HR, for somebody without an open case. It asks what the
      person's self-assessment for this contract asks, and otherwise what is switched on now. */
  lemma OpenInWords(db: Db, id: Id, user: User, subject: Id, start: Option<Time>, seats: Seats, now: Time)
    requires Good(db) && id !in db.records
    ensures var db' := Step(db, OpenCase(id, user, subject, start, seats), now);
      if !(MayOpen(seats, user) && NobodyHasOneOpen(db, subject)) then db' == db
      else
        && db'.records.Keys == db.records.Keys + {id}
        && (forall other :: other in db.records ==> db'.records[other] == db.records[other])
        && var r := db'.records[id];
          && r == Record(subject, start, false, Case(seats, None, Draft), r.scheme, r.framework, [], None, None,
                         now, now, None)
          && (if r.scheme.Some? then IsActiveScheme(db, r.scheme.value) else forall s :: !IsActiveScheme(db, s))
          && (if HasAssessment(db, subject, start)
              then r.framework == Some(db.assessments[(subject, start.value)].framework)
              else forall k :: k in Form(db', r) <==> SwitchedOn(db, k))
          && (forall k :: k in Form(db', r) ==> Form(db', r)[k] == db.indicators[k].section)
          && db'.log == db.log + [Entry(id, user.id, now, Opened)]
  {
    var r := Record(subject, start, false, Case(seats, None, Draft), None, None, [], None, None, now, now, None);
    ScorerHoldsTheDraft(r, user);
    OpenCondition(db, subject);
    if !HasAssessment(db, subject, start) {
      PublishedIsCurrent(db);
      CurrentExists(EnsureFramework(db).frameworks);
    }
  }

  lemma OpenCondition(db: Db, subject: Id)
    ensures NobodyHasOneOpen(db, subject) <==> !HasOpenCase(db, subject)
  {
    forall id | id in db.records
      ensures IsOpen(db.records[id]) <==> db.records[id].flow.status !in {Finalized, Cancelled}
    {
      OpenOrClosed(db.records[id].flow.status);
    }
  }

  // ---------------------------------------------------------------- scores and bonus

  /** One answer each, from 1 to 5, to questions of the case that still exist. */
  ghost predicate Answerable(db: Db, r: Record, rows: seq<Score>) {
    && (forall i :: 0 <= i < |rows| ==> 1 <= rows[i].score <= 5 && rows[i].indicator in Form(db, r))
    && (forall i, j :: 0 <= i < j < |rows| ==> rows[i].indicator != rows[j].indicator)
  }

  lemma AnswerableIsSavable(db: Db, r: Record, rows: seq<Score>)
    ensures Answerable(db, r, rows) <==> Savable(db, r, rows)
  {
    if Savable(db, r, rows) {
      forall i | 0 <= i < |rows| ensures rows[i].indicator in Form(db, r) {
        assert rows[i].indicator in ScoredIds(rows);
      }
    }
  }

  /** Scores and bonus are written by the scorer alone, into a draft alone, and nothing else is. */
  lemma ScoringInWords(db: Db, id: Id, user: User, rows: seq<Score>, points: real, reason: Option<string>, now: Time)
    requires Good(db) && id in db.records
    ensures var r := db.records[id]; var mine := r.flow.status == Draft && IsScorer(r.flow.seats, user);
      && Step(db, SaveScores(id, user, rows), now)
        == (if mine && Answerable(db, r, rows) then db.(records := db.records[id := r.(scores := rows)]) else db)
      && Step(db, SetBonus(id, user, points, reason), now)
        == (if mine && ValidateBonus(points, reason, RulesFor(db, r)) == None
            then db.(records := db.records[id := r.(bonus := Some(StoredPoints(points)))]) else db)
  {
    ScorerHoldsTheDraft(db.records[id], user);
    AnswerableIsSavable(db, db.records[id], rows);
  }

  // ---------------------------------------------------------------- settling the scoring

  /** The bonus that counts: nothing for a record without one, and otherwise the smallest of what was
      entered, the scheme's cap and the room up to 100. */
  ghost predicate Counts(applied: real, bonus: Option<real>, cap: real, room: real) {
    match bonus
    case None => applied == 0.0
    case Some(b) =>
      if room < 0.0 then applied == 0.0
      else applied <= b && applied <= cap && applied <= room && (applied == b || applied == cap || applied == room)
  }

  lemma BonusCounts(base: real, bonus: Option<real>, rules: Rules)
    requires IsTenth(base) && (bonus.Some? ==> bonus.value >= 0.0 && IsHundredth(bonus.value))
    requires rules.bonusMaxPoints >= 0.0 && IsHundredth(rules.bonusMaxPoints)
    ensures var applied := AppliedBonus(base, if bonus.Some? then bonus.value else 0.0, rules);
      Counts(applied, bonus, rules.bonusMaxPoints, 100.0 - base)
  {
    Round2Fixes(0.0);
    if base <= 100.0 && bonus.Some? { SmallestLimitApplies(base, bonus.value, rules); }
  }

  predicate Answered(r: Record, k: Id) {
    exists i :: 0 <= i < |r.scores| && r.scores[i].indicator == k
  }

  /** Exactly what is asked and still exists has been answered. */
  ghost predicate AllAnswered(db: Db, r: Record) {
    forall k :: k in Form(db, r) <==> Answered(r, k)
  }

  /** A number of words within the scheme's limits; the lower one is for the scores that need evidence. */
  predicate WithinLimits(words: int, score: int, rules: Rules) {
    words <= rules.evidenceMaxWords && (score in rules.evidenceRequiredScores ==> words >= rules.evidenceMinWords)
  }

  /** Enough evidence for the scores that need it, and not too much for any. */
  ghost predicate Evidenced(r: Record, rules: Rules) {
    forall i :: 0 <= i < |r.scores| ==>
      var evidence := r.scores[i].evidence;
      WithinLimits(if evidence == None then 0 else Words(evidence.value, false), r.scores[i].score, rules)
  }

  lemma AnsweredIsComplete(db: Db, r: Record)
    ensures AllAnswered(db, r) <==> FormComplete(db, r)
  {
    forall k ensures k in ScoredIds(r.scores) <==> Answered(r, k) {
    }
    if AllAnswered(db, r) {
      forall k ensures k in ScoredIds(r.scores) <==> k in Form(db, r).Keys {
        assert k in Form(db, r) <==> Answered(r, k);
      }
    } else {
      var k :| !(k in Form(db, r) <==> Answered(r, k));
      assert !(k in Form(db, r).Keys <==> k in ScoredIds(r.scores));
    }
  }

  lemma EvidencedIsOk(r: Record, rules: Rules)
    ensures Evidenced(r, rules) <==> EvidenceOk(r.scores, rules)
  {
  }

  /** Scoring is settled exactly if all questions are answered, with proper evidence. */
  lemma SettledExactly(db: Db, r: Record)
    requires SchemesOk(db)
    ensures FinalizeScoring(db, r).Some? <==> AllAnswered(db, r) && Evidenced(r, RulesFor(db, r))
  {
    AnsweredIsComplete(db, r);
    EvidencedIsOk(r, RulesFor(db, r));
  }

  lemma ComputedBonusCounts(r: Record, form: map<Id, Section>, rules: Rules)
    requires ScoredIds(r.scores) <= form.Keys && rules.thresholds != []
    requires r.bonus.Some? ==> r.bonus.value >= 0.0 && IsHundredth(r.bonus.value)
    requires rules.bonusMaxPoints >= 0.0 && IsHundredth(rules.bonusMaxPoints)
    ensures var result := ResultUnder(r, form, rules);
      && Counts(result.appliedBonus, r.bonus, rules.bonusMaxPoints, 100.0 - result.basePct)
      && -0.05 <= result.finalPct - (result.basePct + result.appliedBonus) <= 0.05
  {
    ScoredAreKnown(r.scores, form);
    var result := ResultUnder(r, form, rules);
    Round1Nearest(Times(result.generalPct, rules.generalWeight)
      + Times(result.specializedPct, rules.specializedWeight));
    BonusCounts(result.basePct, r.bonus, rules);
    Round1Nearest(result.basePct + result.appliedBonus);
  }

  /** The bonus on the record reaches the result: it counts as far as cap and room allow, and base and
      counted bonus make the final percentage, rounded. */
  lemma BonusReachesTheResult(db: Db, r: Record)
    requires SchemesOk(db) && FinalizeScoring(db, r).Some?
    requires r.bonus.Some? ==> r.bonus.value >= 0.0 && IsHundredth(r.bonus.value)
    ensures var result := FinalizeScoring(db, r).value;
      && Counts(result.appliedBonus, r.bonus, RulesFor(db, r).bonusMaxPoints, 100.0 - result.basePct)
      && -0.05 <= result.finalPct - (result.basePct + result.appliedBonus) <= 0.05
  {
    RulesForStored(db, r);
    ComputedBonusCounts(r, Form(db, r), RulesFor(db, r));
  }

  // ---------------------------------------------------------------- transitions

  predicate Submits(action: Action) {
    action in {Submit, ManagerSubmit, DirectCeoSubmit}
  }

  predicate Closes(action: Action) {
    action in {CeoFinalize, HrFinalizeDirectCeo}
  }

  predicate ByHr(action: Action) {
    action in {HrApprove, HrApproveManager, HrFinalizeDirectCeo, HrReturn}
  }

  lemma ActionGroups(action: Action)
    ensures Submits(action) <==> IsSubmit(action)
    ensures Closes(action) <==> Table(action).to == Finalized
    ensures ByHr(action) <==> Table(action).claimable
  {
  }

  /** Besides being allowed, a closing needs a result and scores, and a submit complete, evidenced answers. */
  lemma TransitCondition(db: Db, id: Id, action: Action, user: User)
    requires SchemesOk(db) && id in db.records
    ensures var r := db.records[id];
      TransitionSucceeds(db, id, action, user) <==>
        && TransitionAllowed(r.flow, action, user)
        && (Closes(action) ==> r.stored.Some? && r.scores != [])
        && (Submits(action) ==> AllAnswered(db, r) && Evidenced(r, RulesFor(db, r)))
  {
    ActionGroups(action);
    SettledExactly(db, db.records[id]);
  }

  /** What the record keeps of a result. */
  function Columns(result: Result): Stored {
    match result
    case Result(general, specialized, base, _, final, text, _) => Stored(general, specialized, base, final, text)
  }

  /** What it writes: place, owner, clock, on a submit the result, on a closing its time, and to the log the
      claim, the result and the change of status, in this order. */
  lemma TransitInWords(db: Db, id: Id, action: Action, user: User, now: Time)
    requires SchemesOk(db) && id in db.records && TransitionSucceeds(db, id, action, user)
    ensures var r, db' := db.records[id], Step(db, Transit(id, action, user), now);
      var flow := After(r.flow, action, user);
      && (Submits(action) ==> FinalizeScoring(db, r).Some?)
      && db'.records == db.records[id := r.(
          flow := flow, stageEnteredAt := now,
          stored := if Submits(action) then Some(Columns(FinalizeScoring(db, r).value)) else r.stored,
          finalizedAt := if Closes(action) && r.finalizedAt == None then Some(now) else r.finalizedAt)]
      && db'.log == db.log
          + (if ByHr(action) && r.flow.hr == None then [Entry(id, user.id, now, Claimed)] else [])
          + (if Submits(action) then [Entry(id, user.id, now, ScoreSubmitted(FinalizeScoring(db, r).value))] else [])
          + [Entry(id, user.id, now, StatusChanged(r.flow.status, flow.status))]
      && db' == db.(records := db'.records, log := db'.log)
  {
    ActionGroups(action);
  }

  /** Claims and hand-overs on the database are those of the runs with owners. */
  lemma OwnersAgree(db: Db, id: Id, user: User, owner: User, roles: UserId -> Role, now: Time)
    requires SchemesOk(db) && id in db.records && roles(user.id) == user.role && roles(owner.id) == owner.role
    ensures var r := db.records[id]; var claim := HrOwnership.Claim(user.id);
      Step(db, ClaimCase(id, user), now) ==
        if HrOwnership.Possible(r.flow, claim, roles)
        then db.(records := db.records[id := r.(flow := HrOwnership.Then(r.flow, claim, roles))],
                 log := db.log + [Entry(id, user.id, now, Claimed)])
        else db
    ensures var r := db.records[id]; var giving := HrOwnership.HandOver(user.id, owner.id);
      Step(db, HandOverCase(id, user, owner), now) ==
        if HrOwnership.Possible(r.flow, giving, roles)
        then db.(records := db.records[id := r.(flow := HrOwnership.Then(r.flow, giving, roles))],
                 log := db.log + [Entry(id, user.id, now, HandedOver)])
        else db
  {
  }

  /** HR users alone take an unowned open case or give an open case to another HR user. */
  lemma OwnersInWords(c: Case, user: UserId, owner: UserId, roles: UserId -> Role)
    ensures HrOwnership.Possible(c, HrOwnership.Claim(user), roles)
      <==> roles(user) == HrRole && c.hr == None && c.status !in {Finalized, Cancelled}
    ensures HrOwnership.Then(c, HrOwnership.Claim(user), roles) == Case(c.seats, Some(user), c.status)
    ensures HrOwnership.Possible(c, HrOwnership.HandOver(user, owner), roles)
      <==> roles(user) == HrRole && roles(owner) == HrRole && c.hr != Some(owner) && c.status !in {Finalized, Cancelled}
    ensures HrOwnership.Then(c, HrOwnership.HandOver(user, owner), roles) == Case(c.seats, Some(owner), c.status)
  {
    OpenOrClosed(c.status);
  }

  // ---------------------------------------------------------------- questions and rules

  /** A new version moves exactly the open cases of other versions in which neither scorer nor employee has
      written anything. */
  lemma RebindInWords(db: Db, framework: Id, id: Id, now: Time)
    requires SchemesOk(db) && id in db.records
    ensures var r := db.records[id]; var db' := Step(db, RebindUntouched(framework), now);
      && db'.records.Keys == db.records.Keys
      && db'.records[id] ==
          if && 0 <= framework < |db.frameworks| && r.framework != None && r.framework != Some(framework)
             && r.flow.status !in {Finalized, Cancelled}
             && r.scores == [] && !r.selfAssessed && !HasAssessment(db, r.subject, r.contractStart)
          then r.(framework := Some(framework)) else r
  {
    OpenOrClosed(db.records[id].flow.status);
  }

  /** So publishing and rebinding bring what is switched on into every case nobody has worked on. */
  lemma UntouchedCaseFollows(db: Db, id: Id, now: Time)
    requires Good(db) && id in db.records
    requires var r := db.records[id];
      && r.flow.status == Draft && r.framework != None && r.scores == [] && !r.selfAssessed
      && !HasAssessment(db, r.subject, r.contractStart)
    ensures var published := Step(db, PublishFramework, now);
      && SchemesOk(published)
      && var db' := Step(published, RebindUntouched(|db.frameworks|), now);
         id in db'.records && forall k :: k in Form(db', db'.records[id]) <==> SwitchedOn(db, k)
  {
    BumpKeepsGood(db);
    var published := Step(db, PublishFramework, now);
    assert RecordOk(db, db.records[id]);
    RebindInWords(published, |db.frameworks|, id, now);
    assert published.frameworks[|db.frameworks|].members == ActiveMembers(db.indicators);
  }

  /** A self-assessment is bound to what is switched on when it is opened, and once more when submitted. */
  lemma AssessmentInWords(db: Db, subject: Id, contract: Time, submitted: bool)
    ensures var db' := PinAssessment(db, subject, contract, submitted);
      && (subject, contract) in db'.assessments && db'.records == db.records && db'.log == db.log
      && db'.assessments[(subject, contract)].submitted == submitted
      && CurrentFramework(db'.frameworks) == Some(db'.assessments[(subject, contract)].framework)
      && forall k :: Asked(db', k) <==> SwitchedOn(db, k)
  {
    PublishedIsCurrent(db);
  }

  /** Only what nobody has scored can be deleted. */
  lemma DeleteInWords(db: Db, k: Id, now: Time)
    requires SchemesOk(db)
    ensures Step(db, DeleteIndicator(k), now) ==
      if k in db.indicators && forall id :: id in db.records ==> !Answered(db.records[id], k)
      then db.(indicators := map i | i in db.indicators && i != k :: db.indicators[i]) else db
  {
    forall id | id in db.records ensures k in ScoredIds(db.records[id].scores) <==> Answered(db.records[id], k) {
    }
  }

  /** Nobody activates a scheme of their own, and only drafts are activated; the active one is retired. */
  lemma ActivateInWords(db: Db, scheme: Id, actor: UserId, now: Time, other: Id)
    requires SchemesOk(db) && AtMostOneActive(db) && scheme in db.schemes && other in db.schemes && other != scheme
    ensures var db' := Step(db, ActivateScheme(scheme, actor), now);
      if db.schemes[scheme].status != DraftScheme || db.schemes[scheme].author == Some(actor) then db' == db
      else
        && db'.schemes.Keys == db.schemes.Keys
        && db'.schemes[scheme] == db.schemes[scheme].(status := ActiveScheme)
        && db'.schemes[other] ==
            if db.schemes[other].status == ActiveScheme then db.schemes[other].(status := RetiredScheme)
            else db.schemes[other]
  {
    if db.schemes[other].status == ActiveScheme { assert IsActiveScheme(db, other); }
  }

  /** A new scheme is a draft of its author, stored only if it passes the checks; only drafts are deleted. */
  lemma SchemesInWords(db: Db, scheme: Id, rules: Rules, author: Option<UserId>, now: Time)
    requires SchemesOk(db)
    ensures Step(db, CreateScheme(scheme, rules, author), now) ==
      if scheme !in db.schemes && SchemeCheck(rules) && FieldBounds(rules)
      then db.(schemes := db.schemes[scheme := Scheme(StoredForm(rules), DraftScheme, author)]) else db
    ensures Step(db, DeleteScheme(scheme), now) ==
      if scheme in db.schemes && db.schemes[scheme].status == DraftScheme
      then db.(schemes := map k | k in db.schemes && k != scheme :: db.schemes[k]) else db
  {
  }

  /** A new question is on and gets an id of its own; switching concerns one question and nothing else of it. */
  lemma IndicatorsInWords(db: Db, section: Section, k: Id, active: bool, now: Time)
    requires Good(db)
    ensures var added := Step(db, AddIndicator(section), now);
      && db.nextIndicator !in db.indicators && SwitchedOn(added, db.nextIndicator)
      && added.indicators == db.indicators[db.nextIndicator := Indicator(section, true)]
    ensures var switched := Step(db, SetActive(k, active), now);
      switched == if k !in db.indicators then db
        else db.(indicators := db.indicators[k := Indicator(db.indicators[k].section, active)])
  {
  }

  /** A self-assessment is opened once and submitted once; between the two it may be bound again. */
  lemma AssessmentSteps(db: Db, subject: Id, contract: Time, now: Time)
    requires SchemesOk(db)
    ensures var begun := Step(db, OpenSelfAssessment(subject, contract), now);
      && (subject, contract) in begun.assessments
      && (if (subject, contract) in db.assessments then begun == db
          else begun == PinAssessment(db, subject, contract, false))
    ensures var submitted := Step(db, SubmitSelfAssessment(subject, contract), now);
      && (subject, contract) in submitted.assessments && submitted.assessments[(subject, contract)].submitted
      && (if (subject, contract) in db.assessments && db.assessments[(subject, contract)].submitted
          then submitted == db else submitted == PinAssessment(db, subject, contract, true))
  {
    AssessmentInWords(db, subject, contract, false);
    AssessmentInWords(db, subject, contract, true);
  }

  // ---------------------------------------------------------------- a checked scheme can be met

  function Repeat(word: string, n: nat): (words: seq<string>)
    ensures |words| == n && forall i :: 0 <= i < n ==> words[i] == word
  {
    if n == 0 then [] else [word] + Repeat(word, n - 1)
  }

  lemma TextOfWords(n: nat) returns (text: string)
    ensures Words(text, false) == n
  {
    WordsAreCounted(Repeat("a", n), Repeat(" ", n + 1));
    text := Spaced(Repeat("a", n), Repeat(" ", n + 1));
  }

  /** No scheme that passes the checks makes a score impossible to give: there is evidence that fits it. */
  lemma EveryScoreCanBeEvidenced(rules: Rules, score: int) returns (evidence: string)
    requires SchemeCheck(rules) && FieldBounds(rules)
    ensures WithinLimits(Words(evidence, false), score, StoredForm(rules))
    ensures score in rules.evidenceRequiredScores ==> 1 <= score <= 5
  {
    evidence := TextOfWords(if rules.evidenceMinWords > 0 then rules.evidenceMinWords else 0);
  }
}
