/** The log tells the whole story of a case: replaying its status changes from the draft it started as
    gives the status it has, and the time of the last one is the time its stage clock was set. */
module LogReplay {
  import opened Domain
  import opened Workflow
  import opened WorkflowRuns
  import opened Scoring
  import opened EvaluationDb
  import opened EvaluationRuns
  import opened EvaluationCoherence
  import opened EvaluationTheorems

  datatype Change = Change(at: Time, from: Status, to: Status)

  function ChangeIn(e: Entry, id: Id): seq<Change> {
    if e.record == id && e.what.StatusChanged? then [Change(e.at, e.what.from, e.what.to)] else []
  }

  /** The status changes of one case, in log order; its opening is not one of them. */
  function Changes(log: seq<Entry>, id: Id): seq<Change> {
    if log == [] then [] else Changes(log[..|log| - 1], id) + ChangeIn(log[|log| - 1], id)
  }

  function StatusAfter(changes: seq<Change>): Status {
    if changes == [] then Draft else changes[|changes| - 1].to
  }

  function EnteredAt(created: Time, changes: seq<Change>): Time {
    if changes == [] then created else changes[|changes| - 1].at
  }

  /** Every change starts where the one before it ended. */
  ghost predicate Linked(changes: seq<Change>) {
    forall i :: 0 <= i < |changes| ==> changes[i].from == StatusAfter(changes[..i])
  }

  /** The changes lead from a fresh draft to the record as it stands. */
  ghost predicate Explains(changes: seq<Change>, r: Record) {
    && Linked(changes)
    && StatusAfter(changes) == r.flow.status
    && EnteredAt(r.createdAt, changes) == r.stageEnteredAt
    && forall c :: c in changes ==> c.from in OPEN_STATUSES
  }

  ghost predicate LogAgrees(db: Db) {
    && (forall id :: id in db.records ==> Explains(Changes(db.log, id), db.records[id]))
    && (forall e :: e in db.log ==> e.record in db.records)
  }

  lemma {:induction false} ChangesAppend(log: seq<Entry>, more: seq<Entry>, id: Id)
    ensures Changes(log + more, id) == Changes(log, id) + Changes(more, id)
  {
    if more == [] {
      assert log + more == log;
    } else {
      var init := more[..|more| - 1];
      assert (log + more)[..|log + more| - 1] == log + init;
      ChangesAppend(log, init, id);
    }
  }

  lemma {:induction false} NoChangesOfOthers(log: seq<Entry>, id: Id)
    requires forall e :: e in log ==> e.record != id
    ensures Changes(log, id) == []
  {
    if log != [] { NoChangesOfOthers(log[..|log| - 1], id); }
  }

  lemma {:induction false} NoChangesAtAll(log: seq<Entry>, id: Id)
    requires forall i :: 0 <= i < |log| ==> !log[i].what.StatusChanged?
    ensures Changes(log, id) == []
  {
    if log != [] { NoChangesAtAll(log[..|log| - 1], id); }
  }

  lemma OneChange(e: Entry, id: Id)
    ensures Changes([e], id) == ChangeIn(e, id)
  {
    assert [e][..0] == [];
  }

  /** A transition leaves exactly one status change, from where the case was to where it is. */
  lemma EntriesOfAMove(id: Id, r: Record, action: Action, user: User, now: Time, settled: Option<Result>, of: Id)
    ensures Changes(Entries(id, r, action, user, now, settled), of)
      == if of == id then [Change(now, r.flow.status, Table(action).to)] else []
    ensures forall e :: e in Entries(id, r, action, user, now, settled) ==> e.record == id
  {
    var before := ClaimEntries(id, r, action, user, now) + ScoreEntries(id, user, now, settled);
    var moved := Entry(id, user.id, now, StatusChanged(r.flow.status, Table(action).to));
    NoChangesAtAll(before, of);
    ChangesAppend(before, [moved], of);
    OneChange(moved, of);
  }

  lemma OneMoreExplains(changes: seq<Change>, r: Record, r': Record, c: Change)
    requires Explains(changes, r) && c.from == r.flow.status && c.from in OPEN_STATUSES
    requires r'.flow.status == c.to && r'.stageEnteredAt == c.at && r'.createdAt == r.createdAt
    ensures Explains(changes + [c], r')
  {
    forall i | 0 <= i < |changes + [c]| ensures (changes + [c])[i].from == StatusAfter((changes + [c])[..i]) {
      assert (changes + [c])[..i] == changes[..i];
      assert changes[..|changes|] == changes;
    }
  }

  lemma StoryOfOthers(log: seq<Entry>, more: seq<Entry>, id: Id, other: Id)
    requires other != id && forall e :: e in more ==> e.record == id
    ensures Changes(log + more, other) == Changes(log, other)
  {
    ChangesAppend(log, more, other);
    NoChangesOfOthers(more, other);
  }

  /** One case is written to and gets new log entries; the story of the others stays as it is. */
  lemma LogExtended(db: Db, db': Db, id: Id, more: seq<Entry>)
    requires LogAgrees(db) && id in db'.records && db'.records == db.records[id := db'.records[id]]
    requires db'.log == db.log + more && forall e :: e in more ==> e.record == id
    requires Explains(Changes(db.log, id) + Changes(more, id), db'.records[id])
    ensures LogAgrees(db')
  {
    ChangesAppend(db.log, more, id);
    forall other | other in db'.records && other != id
      ensures Changes(db'.log, other) == Changes(db.log, other) && db'.records[other] == db.records[other]
    {
      StoryOfOthers(db.log, more, id, other);
    }
    forall other | other in db'.records ensures Explains(Changes(db'.log, other), db'.records[other]) {
      assert other != id ==> Explains(Changes(db.log, other), db.records[other]);
    }
  }

  lemma TransitKeepsLog(db: Db, id: Id, action: Action, user: User, now: Time)
    requires Good(db) && LogAgrees(db)
    ensures LogAgrees(ApplyTransition(db, id, action, user, now))
  {
    if TransitionSucceeds(db, id, action, user) {
      var r := db.records[id];
      var settled := SettledBy(db, r, action);
      var db' := CommitTransition(db, id, action, user, now, settled);
      EntriesOfAMove(id, r, action, user, now, settled, id);
      OneMoreExplains(Changes(db.log, id), r, db'.records[id], Change(now, r.flow.status, Table(action).to));
      LogExtended(db, db', id, Entries(id, r, action, user, now, settled));
    }
  }

  lemma OpenKeepsLog(db: Db, id: Id, user: User, subject: Id, contractStart: Option<Time>, seats: Seats, now: Time)
    requires Good(db) && LogAgrees(db) && id !in db.records
    ensures LogAgrees(Open(db, id, user, subject, contractStart, seats, now))
  {
    var birth := Entry(id, user.id, now, Opened);
    NoChangesOfOthers(db.log, id);
    OneChange(birth, id);
    LogExtended(db, Open(db, id, user, subject, contractStart, seats, now), id, [birth]);
  }

  lemma OwnerKeepsLog(db: Db, id: Id, actor: User, owner: User, now: Time, what: What)
    requires Good(db) && LogAgrees(db) && id in db.records && !what.StatusChanged?
    ensures LogAgrees(WithOwner(db, id, actor, owner, now, what))
  {
    var e := Entry(id, actor.id, now, what);
    OneChange(e, id);
    assert Changes(db.log, id) + Changes([e], id) == Changes(db.log, id);
    LogExtended(db, WithOwner(db, id, actor, owner, now, what), id, [e]);
  }

  /** Neither log nor any record's place and clock are touched. */
  ghost predicate HistoryUntouched(db: Db, db': Db) {
    && db'.log == db.log && db'.records.Keys == db.records.Keys
    && forall id :: id in db.records ==>
      && db'.records[id].flow.status == db.records[id].flow.status
      && db'.records[id].createdAt == db.records[id].createdAt
      && db'.records[id].stageEnteredAt == db.records[id].stageEnteredAt
  }

  lemma RebindKeepsHistory(db: Db, framework: Id)
    ensures HistoryUntouched(db, Rebind(db, framework))
  {
  }

  lemma OtherStepsKeepHistory(db: Db, e: Event, now: Time)
    requires Good(db) && !e.Transit? && !e.ClaimCase? && !e.HandOverCase? && !e.OpenCase?
    ensures HistoryUntouched(db, Step(db, e, now))
  {
    if e.RebindUntouched? {
      RebindKeepsHistory(db, e.framework);
    } else if e.SaveScores? || e.SetBonus? {
      assert Step(db, e, now) != db ==> e.record in db.records;
    } else {
      CasesLeftAlone(db, e, now);
    }
  }

  lemma StepKeepsLog(db: Db, e: Event, now: Time)
    requires Good(db) && LogAgrees(db)
    ensures LogAgrees(Step(db, e, now))
  {
    match e
    case Transit(id, action, user) => TransitKeepsLog(db, id, action, user, now);
    case ClaimCase(id, user) =>
      if Step(db, e, now) != db { OwnerKeepsLog(db, id, user, user, now, Claimed); }
    case HandOverCase(id, user, owner) =>
      if Step(db, e, now) != db { OwnerKeepsLog(db, id, user, owner, now, HandedOver); }
    case OpenCase(id, user, subject, contractStart, seats) =>
      if Step(db, e, now) != db { OpenKeepsLog(db, id, user, subject, contractStart, seats, now); }
    case _ => OtherStepsKeepHistory(db, e, now);
  }

  /** Whatever people and HR do, the log explains every record. */
  lemma {:induction false} LogAlwaysAgrees(db: Db, run: seq<Timed>)
    requires Good(db) && LogAgrees(db)
    ensures LogAgrees(Played(db, run))
    decreases |run|
  {
    if run != [] {
      StepKeepsGood(db, run[0].event, run[0].at);
      StepKeepsLog(db, run[0].event, run[0].at);
      LogAlwaysAgrees(Step(db, run[0].event, run[0].at), run[1..]);
    }
  }
}
