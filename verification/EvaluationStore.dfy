/** The operations of `EvaluationDb` carried out in place on the tables. */
module EvaluationStore {
  import opened Domain
  import opened Workflow
  import opened WorkflowRuns
  import opened Scoring
  import opened ScoringLaws
  import opened ScoreChecks
  import Spec = EvaluationDb

  lemma SameRowsSameIds(a: seq<Score>, b: seq<Score>)
    requires multiset(a) == multiset(b)
    ensures Spec.ScoredIds(a) == Spec.ScoredIds(b)
  {
    forall k | k in Spec.ScoredIds(a) ensures k in Spec.ScoredIds(b) { IdMoves(a, b, k); }
    forall k | k in Spec.ScoredIds(b) ensures k in Spec.ScoredIds(a) { IdMoves(b, a, k); }
  }

  lemma IdMoves(a: seq<Score>, b: seq<Score>, k: Id)
    requires multiset(a) == multiset(b) && k in Spec.ScoredIds(a)
    ensures k in Spec.ScoredIds(b)
  {
    var i :| 0 <= i < |a| && a[i].indicator == k;
    assert a[i] in multiset(b);
    var j :| 0 <= j < |b| && b[j] == a[i];
  }

  lemma SameRowsSameEvidence(a: seq<Score>, b: seq<Score>, rules: Rules)
    requires multiset(a) == multiset(b) && EvidenceOk(a, rules)
    ensures EvidenceOk(b, rules)
  {
    forall j | 0 <= j < |b| ensures !TooLittleEvidence(b[j], rules) && !TooMuchEvidence(b[j], rules) {
      assert b[j] in multiset(a);
      var i :| 0 <= i < |a| && a[i] == b[j];
    }
  }

  lemma RebindMovesTheSelected(db: Spec.Db, framework: Id, after: map<Id, Spec.Record>)
    requires after.Keys == db.records.Keys
    requires forall id :: id in after ==>
      after[id] ==
        if id in Spec.MovableIds(db, framework) then db.records[id].(framework := Some(framework)) else db.records[id]
    ensures after == Spec.Rebind(db, framework).records
  {
    forall id | id in after ensures after[id] == Spec.Rebind(db, framework).records[id] {
      assert id in Spec.MovableIds(db, framework) <==> Spec.Movable(db, db.records[id], framework);
    }
  }

  /** Storing the result and then moving the status is one move of the record: a submit claims nothing and
      leads to `Submitted`. */
  lemma SubmitMoves(before: map<Id, Spec.Record>, id: Id, action: Action, user: User, now: Time, result: Option<Result>)
    requires id in before && IsSubmit(action) && result.Some?
    ensures Table(action).to == Submitted
    ensures var r := before[id].(stored := Some(Spec.StoredOf(result.value)));
      before[id := r][id := r.(flow := r.flow.(status := Submitted), stageEnteredAt := now)]
      == before[id := Spec.Moved(before[id], action, user, now, result)]
  {
  }

  lemma SubmitEntries(log: seq<Spec.Entry>, id: Id, r: Spec.Record, action: Action, user: User, now: Time,
                      result: Option<Result>)
    requires IsSubmit(action) && result.Some?
    ensures log + [Spec.Entry(id, user.id, now, Spec.ScoreSubmitted(result.value))]
        + [Spec.Entry(id, user.id, now, Spec.StatusChanged(r.flow.status, Submitted))]
      == log + Spec.Entries(id, r, action, user, now, result)
  {
  }

  class Store {
    var records: map<Id, Spec.Record>
    var indicators: map<Id, Spec.Indicator>
    var nextIndicator: Id
    var frameworks: seq<Spec.Framework>
    var schemes: map<Id, Spec.Scheme>
    var assessments: map<(Id, Time), Spec.Assessment>
    var log: seq<Spec.Entry>

    function State(): Spec.Db
      reads this
    {
      Spec.Db(records, indicators, nextIndicator, frameworks, schemes, assessments, log)
    }

    ghost predicate Valid()
      reads this
    {
      Spec.SchemesOk(State()) && Spec.AtMostOneActive(State())
    }

    /** The scheme row whose status is active. */
    method FindActiveScheme() returns (active: Option<Id>)
      requires Valid()
      ensures active == Spec.ActiveScheme?(State())
    {
      active := None;
      var todo := schemes.Keys;
      while todo != {}
        invariant todo <= schemes.Keys
        invariant active == None ==> forall k :: k in schemes.Keys - todo ==> schemes[k].status != Spec.ActiveScheme
        invariant active.Some? ==> Spec.IsActiveScheme(State(), active.value)
        decreases todo
      {
        HasMember(todo);
        var k :| k in todo;
        if schemes[k].status == Spec.ActiveScheme { active := Some(k); }
        todo := todo - {k};
      }
    }

    method RulesForRecord(r: Spec.Record) returns (rules: Rules)
      requires Valid()
      ensures rules == Spec.RulesFor(State(), r)
    {
      if r.scheme.Some? && r.scheme.value in schemes {
        return schemes[r.scheme.value].rules;
      }
      var active := FindActiveScheme();
      return if active.Some? then schemes[active.value].rules else Spec.LEGACY_RULES;
    }

    /** `rows` are the record's scores in the order the query happened to return them. */
    method FinalizeScoring(id: Id, user: User, now: Time, rows: seq<Score>)
      returns (ok: bool, ghost result: Option<Result>)
      requires Valid() && id in records && multiset(rows) == multiset(records[id].scores)
      modifies this`records, this`log
      ensures result == old(Spec.FinalizeScoring(State(), records[id])) && ok == result.Some?
      ensures ok ==> records == old(records)[id := old(records)[id].(stored := Some(Spec.StoredOf(result.value)))]
      ensures ok ==> log == old(log) + [Spec.Entry(id, user.id, now, Spec.ScoreSubmitted(result.value))]
      ensures !ok ==> records == old(records) && log == old(log)
    {
      var r := records[id];
      var form := Spec.Form(State(), r);
      SameRowsSameIds(rows, r.scores);
      if Spec.ScoredIds(rows) != form.Keys {
        return false, None;
      }
      var rules := RulesForRecord(r);
      Spec.RulesForStored(State(), r);
      var violations, tooLong := ValidateEvidence(rows, rules);
      if EvidenceOk(rows, rules) { SameRowsSameEvidence(rows, r.scores, rules); }
      if EvidenceOk(r.scores, rules) { SameRowsSameEvidence(r.scores, rows, rules); }
      if violations != [] || tooLong != [] {
        return false, None;
      }
      Spec.ScoredAreKnown(rows, form);
      Spec.ScoredAreKnown(r.scores, form);
      var computed := ComputeResult(rows, form, rules, Spec.BonusOf(r));
      ResultIgnoresOrder(rows, r.scores, form, rules, Spec.BonusOf(r));
      records := records[id := r.(stored := Some(Spec.StoredOf(computed)))];
      log := log + [Spec.Entry(id, user.id, now, Spec.ScoreSubmitted(computed))];
      return true, Some(computed);
    }

    /** A new framework version over today's active indicators. */
    method Bump()
      modifies this`frameworks
      ensures State() == Spec.Bump(old(State()))
    {
      var version := Spec.CurrentVersion(frameworks) + 1;
      frameworks := frameworks + [Spec.Framework(version, Spec.ActiveMembers(indicators))];
    }

    method EnsureFramework()
      modifies this`frameworks
      ensures State() == Spec.EnsureFramework(old(State()))
    {
      if Spec.FrameworkOutdated(State()) {
        Bump();
      }
    }

    /** The selected records are moved one by one; the number of moved records is returned. */
    method RebindUntouched(framework: Id) returns (moved: nat)
      modifies this`records
      ensures State() == Spec.Rebind(old(State()), framework)
      ensures moved == |Spec.MovableIds(old(State()), framework)|
    {
      var selected := Spec.MovableIds(State(), framework);
      var todo := selected;
      while todo != {}
        invariant todo <= selected <= records.Keys == old(records).Keys
        invariant forall id :: id in records ==>
          records[id] ==
            if id in selected - todo then old(records)[id].(framework := Some(framework)) else old(records)[id]
        decreases todo
      {
        HasMember(todo);
        var id :| id in todo;
        records := records[id := records[id].(framework := Some(framework))];
        todo := todo - {id};
      }
      moved := |selected|;
      assert selected - todo == selected;
      RebindMovesTheSelected(old(State()), framework, records);
    }

    /** Retires the active scheme, then activates the draft. */
    method Activate(id: Id, actor: UserId) returns (ok: bool)
      requires Valid()
      modifies this`schemes
      ensures ok == old(Spec.ActivationAllowed(State(), id, actor))
      ensures State() == old(Spec.Activate(State(), id, actor))
      ensures Valid()
    {
      if id !in schemes || schemes[id].status != Spec.DraftScheme || schemes[id].author == Some(actor) {
        return false;
      }
      var previous := FindActiveScheme();
      if previous.Some? {
        schemes := schemes[previous.value := schemes[previous.value].(status := Spec.RetiredScheme)];
      }
      schemes := schemes[id := schemes[id].(status := Spec.ActiveScheme)];
      assert schemes == old(Spec.Activate(State(), id, actor)).schemes;
      Spec.ActivateKeepsOneActive(old(State()), id, actor);
      return true;
    }

    /** Acting on an unowned HR case takes it. */
    method ClaimIfUnowned(id: Id, action: Action, user: User, now: Time)
      requires id in records
      modifies this`records, this`log
      ensures log == old(log) + Spec.ClaimEntries(id, old(records)[id], action, user, now)
      ensures records == old(records)[id := old(records)[id].(flow :=
        After(old(records)[id].flow, action, user).(status := old(records)[id].flow.status))]
    {
      var r := records[id];
      if Table(action).claimable && r.flow.hr == None {
        records := records[id := r.(flow := r.flow.(hr := Some(user.id)))];
        log := log + [Spec.Entry(id, user.id, now, Spec.Claimed)];
      }
    }

    /** The new status, the restarted stage clock and the log entry. */
    method MoveStatus(id: Id, to: Status, user: User, now: Time)
      requires id in records
      modifies this`records, this`log
      ensures log == old(log) + [Spec.Entry(id, user.id, now, Spec.StatusChanged(old(records)[id].flow.status, to))]
      ensures var r := old(records)[id];
        records == old(records)[id := r.(
          flow := r.flow.(status := to), stageEnteredAt := now,
          finalizedAt := if to == Finalized && r.finalizedAt == None then Some(now) else r.finalizedAt)]
    {
      var r := records[id];
      var oldStatus := r.flow.status;
      r := r.(flow := r.flow.(status := to), stageEnteredAt := now);
      if to == Finalized && r.finalizedAt == None {
        r := r.(finalizedAt := Some(now));
      }
      records := records[id := r];
      log := log + [Spec.Entry(id, user.id, now, Spec.StatusChanged(oldStatus, to))];
    }

    method SubmitCase(id: Id, action: Action, user: User, now: Time, rows: seq<Score>)
      returns (ok: bool, ghost result: Option<Result>)
      requires Valid() && id in records && multiset(rows) == multiset(records[id].scores) && IsSubmit(action)
      modifies this`records, this`log
      ensures result == old(Spec.FinalizeScoring(State(), records[id])) && ok == result.Some?
      ensures State() == if ok then Spec.CommitTransition(old(State()), id, action, user, now, result) else old(State())
    {
      ghost var r := records[id];
      ok, result := FinalizeScoring(id, user, now, rows);
      if ok {
        MoveStatus(id, Submitted, user, now);
        SubmitMoves(old(records), id, action, user, now, result);
        SubmitEntries(old(log), id, r, action, user, now, result);
      }
    }

    method MoveCase(id: Id, action: Action, user: User, now: Time)
      requires id in records && !IsSubmit(action)
      modifies this`records, this`log
      ensures State() == old(Spec.CommitTransition(State(), id, action, user, now, None))
    {
      ClaimIfUnowned(id, action, user, now);
      MoveStatus(id, Table(action).to, user, now);
      assert records == old(Spec.CommitTransition(State(), id, action, user, now, None)).records;
    }

    /** The validated transition: claim an unowned HR case, settle the scoring on a submit, move the
        status. A refusal leaves the tables as they were. */
    method ApplyTransition(id: Id, action: Action, user: User, now: Time, rows: seq<Score>) returns (ok: bool)
      requires Valid() && id in records && multiset(rows) == multiset(records[id].scores)
      modifies this`records, this`log
      ensures ok == old(Spec.TransitionSucceeds(State(), id, action, user))
      ensures State() == old(Spec.ApplyTransition(State(), id, action, user, now))
    {
      if !TransitionAllowed(records[id].flow, action, user) {
        return false;
      }
      if Table(action).to == Finalized && (records[id].stored == None || records[id].scores == []) {
        return false;
      }
      if IsSubmit(action) {
        ghost var result;
        ok, result := SubmitCase(id, action, user, now, rows);
      } else {
        MoveCase(id, action, user, now);
        ok := true;
      }
    }
  }
}
