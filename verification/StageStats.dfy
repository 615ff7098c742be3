/** How long cases sit in each stage, rebuilt from the log: the visits of one case, and the counters per
    stage accumulated over all of them. */
module StageStats {
  import opened Domain
  import opened Workflow
  import opened WorkflowRuns
  import opened EvaluationDb
  import opened EvaluationRuns
  import opened EvaluationCoherence
  import opened EvaluationTheorems
  import opened LogReplay

  /** What the query returns of a record. */
  datatype Row = Row(id: Id, createdAt: Time, stageEnteredAt: Time, status: Status)

  /** One stay of a record in one status; `current` if it is still there. */
  datatype Visit = Visit(record: Id, status: Status, seconds: int, current: bool)

  datatype Bucket = Bucket(
    passes: nat, active: nat, closed: nat, records: set<Id>, finished: seq<int>, longestActive: int)

  const NO_VISITS := Bucket(0, 0, 0, {}, [], 0)

  const STAGES: set<Status> := {Draft, Submitted, HrApproved, DeputyApproved, Finalized}

  // ---------------------------------------------------------------- the transitions, by record

  function ChangesOf(byRecord: map<Id, seq<Change>>, id: Id): seq<Change> {
    if id in byRecord then byRecord[id] else []
  }

  /** One pass over the log in order; the row that records a birth is skipped. */
  method TransitionsByRecord(log: seq<Entry>) returns (byRecord: map<Id, seq<Change>>)
    ensures forall id :: ChangesOf(byRecord, id) == Changes(log, id)
  {
    byRecord := map[];
    for i := 0 to |log|
      invariant forall id :: ChangesOf(byRecord, id) == Changes(log[..i], id)
    {
      var e := log[i];
      ghost var before := byRecord;
      if e.what.StatusChanged? {
        byRecord := byRecord[e.record := ChangesOf(byRecord, e.record) + [Change(e.at, e.what.from, e.what.to)]];
      }
      assert log[..i + 1][..i] == log[..i];
      forall id ensures ChangesOf(byRecord, id) == Changes(log[..i + 1], id) {
        assert Changes(log[..i + 1], id) == Changes(log[..i], id) + ChangeIn(e, id);
        assert ChangesOf(before, id) == Changes(log[..i], id);
      }
    }
    assert log[..|log|] == log;
  }

  // ---------------------------------------------------------------- the visits of one record

  function FinishedVisit(id: Id, created: Time, changes: seq<Change>, i: nat): Visit
    requires i < |changes|
  {
    Visit(id, changes[i].from, changes[i].at - EnteredAt(created, changes[..i]), false)
  }

  function FinishedVisits(id: Id, created: Time, changes: seq<Change>): seq<Visit> {
    seq(|changes|, i requires 0 <= i < |changes| => FinishedVisit(id, created, changes, i))
  }

  /** One finished stay per change, and the stay in progress as the record itself tells it. */
  function Visits(row: Row, changes: seq<Change>, now: Time): seq<Visit> {
    FinishedVisits(row.id, row.createdAt, changes)
    + [Visit(row.id, row.status, now - row.stageEnteredAt, true)]
  }

  method StageVisits(row: Row, changes: seq<Change>, now: Time) returns (visits: seq<Visit>)
    ensures visits == Visits(row, changes, now)
  {
    visits := [];
    var entered := row.createdAt;
    for i := 0 to |changes|
      invariant |visits| == i
      invariant forall j :: 0 <= j < i ==> visits[j] == FinishedVisit(row.id, row.createdAt, changes, j)
      invariant entered == EnteredAt(row.createdAt, changes[..i])
    {
      visits := visits + [Visit(row.id, changes[i].from, changes[i].at - entered, false)];
      entered := changes[i].at;
      assert changes[..i + 1][i] == changes[i];
    }
    assert visits == FinishedVisits(row.id, row.createdAt, changes);
    visits := visits + [Visit(row.id, row.status, now - row.stageEnteredAt, true)];
  }

  function Seconds(visits: seq<Visit>): int {
    if visits == [] then 0 else Seconds(visits[..|visits| - 1]) + visits[|visits| - 1].seconds
  }

  lemma {:induction false} DwellsTelescope(id: Id, created: Time, changes: seq<Change>)
    ensures Seconds(FinishedVisits(id, created, changes)) == EnteredAt(created, changes) - created
  {
    if changes != [] {
      var init := changes[..|changes| - 1];
      var visits := FinishedVisits(id, created, changes);
      forall i | 0 <= i < |init| ensures FinishedVisit(id, created, init, i) == FinishedVisit(id, created, changes, i) {
        assert init[..i] == changes[..i];
      }
      assert visits[..|visits| - 1] == FinishedVisits(id, created, init);
      DwellsTelescope(id, created, init);
    }
  }

  /** The stays of a case whose log explains it are the stages it really passed, and they share out its
      whole life: the finished ones add up to the time until its last transition, all of them to its
      age. */
  lemma LifeIsSharedOut(r: Record, id: Id, changes: seq<Change>, now: Time)
    requires Explains(changes, r)
    ensures var visits := Visits(Row(id, r.createdAt, r.stageEnteredAt, r.flow.status), changes, now);
      && |visits| == |changes| + 1
      && (forall i :: 0 <= i < |visits| ==> visits[i].status == StatusAfter(changes[..i]))
      && Seconds(visits[..|changes|]) == r.stageEnteredAt - r.createdAt
      && Seconds(visits) == now - r.createdAt
  {
    var finished := FinishedVisits(id, r.createdAt, changes);
    DwellsTelescope(id, r.createdAt, changes);
    var visits := Visits(Row(id, r.createdAt, r.stageEnteredAt, r.flow.status), changes, now);
    assert visits[..|changes|] == finished && changes[..|changes|] == changes;
    assert visits[..|visits| - 1] == finished;
  }

  // ---------------------------------------------------------------- the counters

  function Added(b: Bucket, v: Visit): Bucket {
    var seen := b.(passes := b.passes + 1, records := b.records + {v.record});
    if v.current
    then
      seen.(active := b.active + 1,
            longestActive := if v.seconds > b.longestActive then v.seconds else b.longestActive)
    else seen.(closed := b.closed + 1, finished := b.finished + [v.seconds])
  }

  /** The counters of one stage after some visits. */
  function Tally(visits: seq<Visit>, stage: Status): Bucket {
    if visits == [] then NO_VISITS
    else
      var v := visits[|visits| - 1];
      var before := Tally(visits[..|visits| - 1], stage);
      if v.status == stage then Added(before, v) else before
  }

  function AllVisits(rows: seq<Row>, log: seq<Entry>, now: Time): seq<Visit> {
    if rows == [] then []
    else
      var row := rows[|rows| - 1];
      AllVisits(rows[..|rows| - 1], log, now) + Visits(row, Changes(log, row.id), now)
  }

  /** Adds the visits of one record to the counters; a visit to a status that is no stage is dropped. */
  method Accumulate(before: map<Status, Bucket>, visits: seq<Visit>, ghost earlier: seq<Visit>)
    returns (buckets: map<Status, Bucket>)
    requires before.Keys == STAGES && forall s :: s in STAGES ==> before[s] == Tally(earlier, s)
    ensures buckets.Keys == STAGES && forall s :: s in STAGES ==> buckets[s] == Tally(earlier + visits, s)
  {
    buckets := before;
    assert earlier + visits[..0] == earlier;
    for i := 0 to |visits|
      invariant buckets.Keys == STAGES && forall s :: s in STAGES ==> buckets[s] == Tally(earlier + visits[..i], s)
    {
      var v := visits[i];
      ghost var seen := earlier + visits[..i + 1];
      assert seen[..|seen| - 1] == earlier + visits[..i] && seen[|seen| - 1] == v;
      if v.status in buckets {
        buckets := buckets[v.status := Added(buckets[v.status], v)];
      }
    }
    assert visits[..|visits|] == visits;
  }

  lemma VisitsOfOneMore(rows: seq<Row>, log: seq<Entry>, now: Time, i: nat)
    requires i < |rows|
    ensures AllVisits(rows[..i + 1], log, now)
      == AllVisits(rows[..i], log, now) + Visits(rows[i], Changes(log, rows[i].id), now)
  {
    assert rows[..i + 1][..i] == rows[..i];
  }

  method StageBuckets(rows: seq<Row>, log: seq<Entry>, now: Time) returns (buckets: map<Status, Bucket>)
    ensures buckets.Keys == STAGES && forall s :: s in STAGES ==> buckets[s] == Tally(AllVisits(rows, log, now), s)
  {
    var byRecord := TransitionsByRecord(log);
    buckets := map s | s in STAGES :: NO_VISITS;
    for i := 0 to |rows|
      invariant buckets.Keys == STAGES
      invariant forall s :: s in STAGES ==> buckets[s] == Tally(AllVisits(rows[..i], log, now), s)
    {
      var changes := ChangesOf(byRecord, rows[i].id);
      assert changes == Changes(log, rows[i].id);
      var visits := StageVisits(rows[i], changes, now);
      VisitsOfOneMore(rows, log, now, i);
      buckets := Accumulate(buckets, visits, AllVisits(rows[..i], log, now));
    }
    assert rows[..|rows|] == rows;
  }

  // ---------------------------------------------------------------- what the counters mean

  function CountStatus(rows: seq<Row>, s: Status): nat {
    if rows == [] then 0
    else CountStatus(rows[..|rows| - 1], s) + (if rows[|rows| - 1].status == s then 1 else 0)
  }

  function CountFrom(changes: seq<Change>, s: Status): nat {
    if changes == [] then 0
    else CountFrom(changes[..|changes| - 1], s) + (if changes[|changes| - 1].from == s then 1 else 0)
  }

  /** The transitions out of a status that the log holds for these rows. */
  function Departures(rows: seq<Row>, log: seq<Entry>, s: Status): nat {
    if rows == [] then 0
    else Departures(rows[..|rows| - 1], log, s) + CountFrom(Changes(log, rows[|rows| - 1].id), s)
  }

  function Transitions(rows: seq<Row>, log: seq<Entry>): nat {
    if rows == [] then 0 else Transitions(rows[..|rows| - 1], log) + |Changes(log, rows[|rows| - 1].id)|
  }

  lemma {:induction false} TallyOfSum(a: seq<Visit>, b: seq<Visit>, s: Status)
    ensures Tally(a + b, s).active == Tally(a, s).active + Tally(b, s).active
    ensures Tally(a + b, s).closed == Tally(a, s).closed + Tally(b, s).closed
  {
    if b == [] {
      assert a + b == a;
    } else {
      var init := b[..|b| - 1];
      assert (a + b)[..|a + b| - 1] == a + init && (a + b)[|a + b| - 1] == b[|b| - 1];
      TallyOfSum(a, init, s);
    }
  }

  lemma {:induction false} FinishedTally(id: Id, created: Time, changes: seq<Change>, s: Status)
    ensures var t := Tally(FinishedVisits(id, created, changes), s);
      t.active == 0 && t.closed == CountFrom(changes, s)
  {
    if changes != [] {
      var init := changes[..|changes| - 1];
      var visits := FinishedVisits(id, created, changes);
      forall i | 0 <= i < |init| ensures FinishedVisit(id, created, init, i) == FinishedVisit(id, created, changes, i) {
        assert init[..i] == changes[..i];
      }
      assert visits[..|visits| - 1] == FinishedVisits(id, created, init);
      FinishedTally(id, created, init, s);
    }
  }

  lemma VisitsTally(row: Row, changes: seq<Change>, now: Time, s: Status)
    ensures var t := Tally(Visits(row, changes, now), s);
      t.active == (if row.status == s then 1 else 0) && t.closed == CountFrom(changes, s)
  {
    var visits := Visits(row, changes, now);
    assert visits[..|visits| - 1] == FinishedVisits(row.id, row.createdAt, changes);
    FinishedTally(row.id, row.createdAt, changes, s);
  }

  /** `active` is the number of records that have this status now, whatever the log holds; `closed` the
      number of departures the log holds. */
  lemma {:induction false} ActiveAndClosed(rows: seq<Row>, log: seq<Entry>, now: Time, s: Status)
    ensures var t := Tally(AllVisits(rows, log, now), s);
      t.active == CountStatus(rows, s) && t.closed == Departures(rows, log, s)
  {
    if rows != [] {
      var init, row := rows[..|rows| - 1], rows[|rows| - 1];
      ActiveAndClosed(init, log, now, s);
      VisitsTally(row, Changes(log, row.id), now, s);
      TallyOfSum(AllVisits(init, log, now), Visits(row, Changes(log, row.id), now), s);
    }
  }

  /** A pass is either over or in progress, and only finished stays enter the average. */
  lemma {:induction false} PassesAreClosedOrActive(visits: seq<Visit>, s: Status)
    ensures var t := Tally(visits, s); t.passes == t.active + t.closed && |t.finished| == t.closed
  {
    if visits != [] { PassesAreClosedOrActive(visits[..|visits| - 1], s); }
  }

  predicate StaysIn(v: Visit, id: Id, s: Status) {
    v.record == id && v.status == s
  }

  /** The records counted are exactly those that have been in the stage; the longest stay in progress
      is the maximum over those in progress. */
  lemma {:induction false} RecordsAndLongest(visits: seq<Visit>, s: Status)
    ensures forall id :: id in Tally(visits, s).records <==> exists v :: v in visits && StaysIn(v, id, s)
    ensures forall v :: v in visits && v.current && v.status == s ==> v.seconds <= Tally(visits, s).longestActive
    ensures var longest := Tally(visits, s).longestActive;
      longest != 0 ==> longest > 0 && exists v :: v in visits && v.current && v.status == s && v.seconds == longest
  {
    if visits != [] {
      var init, last := visits[..|visits| - 1], visits[|visits| - 1];
      RecordsAndLongest(init, s);
      assert visits == init + [last];
      forall v ensures v in visits <==> v in init || v == last {
      }
      assert StaysIn(last, last.record, last.status);
      assert Tally(visits, s) == if last.status == s then Added(Tally(init, s), last) else Tally(init, s);
    }
  }

  /** The time of the finished stays in a status. */
  function FinishedSeconds(visits: seq<Visit>, s: Status): int {
    if visits == [] then 0
    else
      var v := visits[0];
      (if !v.current && v.status == s then v.seconds else 0) + FinishedSeconds(visits[1..], s)
  }

  function Sum(numbers: seq<int>): int {
    if numbers == [] then 0 else Sum(numbers[..|numbers| - 1]) + numbers[|numbers| - 1]
  }

  lemma {:induction false} SecondsOfOneMore(visits: seq<Visit>, v: Visit, s: Status)
    ensures FinishedSeconds(visits + [v], s)
      == FinishedSeconds(visits, s) + (if !v.current && v.status == s then v.seconds else 0)
  {
    if visits == [] {
      assert visits + [v] == [v];
    } else {
      assert (visits + [v])[1..] == visits[1..] + [v];
      SecondsOfOneMore(visits[1..], v, s);
    }
  }

  /** The average of a stage is taken over the time of its finished stays, all of it and nothing else. */
  lemma {:induction false} FinishedAreTheStays(visits: seq<Visit>, s: Status)
    ensures Sum(Tally(visits, s).finished) == FinishedSeconds(visits, s)
  {
    if visits != [] {
      var init, v := visits[..|visits| - 1], visits[|visits| - 1];
      FinishedAreTheStays(init, s);
      SecondsOfOneMore(init, v, s);
      assert visits == init + [v];
      var before := Tally(init, s).finished;
      assert (before + [v.seconds])[..|before|] == before;
    }
  }

  /** The finished time of all statuses together. */
  function AllFinished(visits: seq<Visit>): int {
    FinishedSeconds(visits, Draft) + FinishedSeconds(visits, Submitted) + FinishedSeconds(visits, HrApproved)
    + FinishedSeconds(visits, DeputyApproved) + FinishedSeconds(visits, Finalized) + FinishedSeconds(visits, Cancelled)
  }

  lemma {:induction false} FinishedOfSum(a: seq<Visit>, b: seq<Visit>)
    ensures AllFinished(a + b) == AllFinished(a) + AllFinished(b)
    decreases |a|
  {
    if a == [] {
      assert a + b == b;
    } else {
      assert (a + b)[1..] == a[1..] + b && (a + b)[0] == a[0];
      FinishedOfSum(a[1..], b);
    }
  }

  lemma SecondsOfOne(v: Visit, s: Status)
    ensures FinishedSeconds([v], s) == if !v.current && v.status == s then v.seconds else 0
  {
    assert [v][1..] == [];
  }

  lemma FinishedOfOne(v: Visit)
    ensures AllFinished([v]) == if v.current then 0 else v.seconds
  {
    SecondsOfOne(v, Draft);
    SecondsOfOne(v, Submitted);
    SecondsOfOne(v, HrApproved);
    SecondsOfOne(v, DeputyApproved);
    SecondsOfOne(v, Finalized);
    SecondsOfOne(v, Cancelled);
  }

  lemma {:induction false} FinishedOnly(visits: seq<Visit>)
    requires forall i :: 0 <= i < |visits| ==> !visits[i].current
    ensures AllFinished(visits) == Seconds(visits)
  {
    if visits != [] {
      var init, v := visits[..|visits| - 1], visits[|visits| - 1];
      FinishedOnly(init);
      FinishedOfSum(init, [v]);
      FinishedOfOne(v);
      assert visits == init + [v];
    }
  }

  lemma FinishedOfARow(row: Row, changes: seq<Change>, now: Time)
    ensures AllFinished(Visits(row, changes, now)) == EnteredAt(row.createdAt, changes) - row.createdAt
  {
    var finished := FinishedVisits(row.id, row.createdAt, changes);
    var current := Visit(row.id, row.status, now - row.stageEnteredAt, true);
    DwellsTelescope(row.id, row.createdAt, changes);
    FinishedOnly(finished);
    FinishedOfSum(finished, [current]);
    FinishedOfOne(current);
  }

  /** From the opening of each record to its last transition. */
  function LivesSoFar(rows: seq<Row>): int {
    if rows == [] then 0
    else LivesSoFar(rows[..|rows| - 1]) + rows[|rows| - 1].stageEnteredAt - rows[|rows| - 1].createdAt
  }

  /** Time is conserved too: what all stages book as finished is what the records have lived so far. */
  lemma {:induction false} TimeIsConserved(rows: seq<Row>, db: Db, now: Time)
    requires LogAgrees(db) && RowsOf(rows, db)
    ensures AllFinished(AllVisits(rows, db.log, now)) == LivesSoFar(rows)
  {
    if rows != [] {
      var init, row := rows[..|rows| - 1], rows[|rows| - 1];
      TimeIsConserved(init, db, now);
      assert Explains(Changes(db.log, row.id), db.records[row.id]) && row == RowOf(db, row.id);
      FinishedOfARow(row, Changes(db.log, row.id), now);
      FinishedOfSum(AllVisits(init, db.log, now), Visits(row, Changes(db.log, row.id), now));
    }
  }

  function TotalPasses(visits: seq<Visit>): nat {
    Tally(visits, Draft).passes + Tally(visits, Submitted).passes + Tally(visits, HrApproved).passes
    + Tally(visits, DeputyApproved).passes + Tally(visits, Finalized).passes
  }

  /** Every departure leaves one status, and only `Cancelled` is no stage. */
  lemma {:induction false} DeparturesAreTransitions(changes: seq<Change>)
    ensures CountFrom(changes, Draft) + CountFrom(changes, Submitted) + CountFrom(changes, HrApproved)
      + CountFrom(changes, DeputyApproved) + CountFrom(changes, Finalized) + CountFrom(changes, Cancelled) == |changes|
  {
    if changes != [] { DeparturesAreTransitions(changes[..|changes| - 1]); }
  }

  lemma {:induction false} DeparturesOfAll(rows: seq<Row>, log: seq<Entry>)
    ensures Departures(rows, log, Draft) + Departures(rows, log, Submitted) + Departures(rows, log, HrApproved)
      + Departures(rows, log, DeputyApproved) + Departures(rows, log, Finalized) + Departures(rows, log, Cancelled)
      == Transitions(rows, log)
  {
    if rows != [] {
      DeparturesOfAll(rows[..|rows| - 1], log);
      DeparturesAreTransitions(Changes(log, rows[|rows| - 1].id));
    }
  }

  lemma {:induction false} StatusesOfAll(rows: seq<Row>)
    ensures CountStatus(rows, Draft) + CountStatus(rows, Submitted) + CountStatus(rows, HrApproved)
      + CountStatus(rows, DeputyApproved) + CountStatus(rows, Finalized) + CountStatus(rows, Cancelled) == |rows|
  {
    if rows != [] { StatusesOfAll(rows[..|rows| - 1]); }
  }

  /** On any log: the passes of all stages are one per transition and one per record, less the visits
      to `Cancelled`, past and present. */
  lemma PassesAreConserved(rows: seq<Row>, log: seq<Entry>, now: Time)
    ensures TotalPasses(AllVisits(rows, log, now)) + CountStatus(rows, Cancelled) + Departures(rows, log, Cancelled)
      == Transitions(rows, log) + |rows|
  {
    var all := AllVisits(rows, log, now);
    StagePasses(rows, log, now, Draft);
    StagePasses(rows, log, now, Submitted);
    StagePasses(rows, log, now, HrApproved);
    StagePasses(rows, log, now, DeputyApproved);
    StagePasses(rows, log, now, Finalized);
    DeparturesOfAll(rows, log);
    StatusesOfAll(rows);
  }

  lemma StagePasses(rows: seq<Row>, log: seq<Entry>, now: Time, s: Status)
    ensures Tally(AllVisits(rows, log, now), s).passes == CountStatus(rows, s) + Departures(rows, log, s)
  {
    ActiveAndClosed(rows, log, now, s);
    PassesAreClosedOrActive(AllVisits(rows, log, now), s);
  }

  function RowOf(db: Db, id: Id): Row
    requires id in db.records
  {
    Row(id, db.records[id].createdAt, db.records[id].stageEnteredAt, db.records[id].flow.status)
  }

  ghost predicate RowsOf(rows: seq<Row>, db: Db) {
    forall i :: 0 <= i < |rows| ==> rows[i].id in db.records && rows[i] == RowOf(db, rows[i].id)
  }

  lemma ExplainedNeverFromCancelled(changes: seq<Change>, r: Record)
    requires Explains(changes, r)
    ensures CountFrom(changes, Cancelled) == 0
  {
    forall c | c in changes ensures c.from != Cancelled {
      assert c.from in OPEN_STATUSES;
    }
    NoneFrom(changes, Cancelled);
  }

  lemma RecordLeavesCancelledNever(db: Db, id: Id)
    requires LogAgrees(db) && id in db.records
    ensures CountFrom(Changes(db.log, id), Cancelled) == 0
  {
    assert Explains(Changes(db.log, id), db.records[id]);
    ExplainedNeverFromCancelled(Changes(db.log, id), db.records[id]);
  }

  lemma {:induction false} NothingLeavesCancelled(rows: seq<Row>, db: Db)
    requires LogAgrees(db) && RowsOf(rows, db)
    ensures Departures(rows, db.log, Cancelled) == 0
  {
    if rows != [] {
      NothingLeavesCancelled(rows[..|rows| - 1], db);
      RecordLeavesCancelledNever(db, rows[|rows| - 1].id);
    }
  }

  lemma {:induction false} NoneFrom(changes: seq<Change>, s: Status)
    requires forall c :: c in changes ==> c.from != s
    ensures CountFrom(changes, s) == 0
  {
    if changes != [] { NoneFrom(changes[..|changes| - 1], s); }
  }

  lemma EmptyLogAgrees()
    ensures LogAgrees(EMPTY)
  {
  }

  /** For whatever has happened since the empty database, the statistics add up: per record one pass
      more than transitions, except that the cancelled ones are nowhere. */
  lemma StatisticsAddUp(run: seq<Timed>, rows: seq<Row>, now: Time)
    requires RowsOf(rows, Played(EMPTY, run))
    ensures var log := Played(EMPTY, run).log;
      TotalPasses(AllVisits(rows, log, now)) == Transitions(rows, log) + |rows| - CountStatus(rows, Cancelled)
  {
    EmptyLogAgrees();
    LogAlwaysAgrees(EMPTY, run);
    NothingLeavesCancelled(rows, Played(EMPTY, run));
    PassesAreConserved(rows, Played(EMPTY, run).log, now);
  }

  // ---------------------------------------------------------------- who a stage is booked on

  /** The seat whose holder a stay is booked on. */
  function StageOwner(c: Case): Option<UserId> {
    match c.status
    case Draft => c.seats.supervisor
    case Submitted => c.hr
    case HrApproved => c.seats.deputy
    case DeputyApproved => Some(c.seats.ceo)
    case _ => None
  }

  /** A case is booked on the desk it lies on, except that a draft without a supervisor, a case in the
      shared HR queue and one waiting for the CEO without a deputy are booked on nobody. */
  lemma BookedOnTheDesk(c: Case, hrUser: UserId)
    requires c.status in OPEN_STATUSES && OnChain(c)
    ensures StageOwner(c) == Some(DeskHolder(c, hrUser)) <==> StageOwner(c) != None
    ensures StageOwner(c) == None <==>
      || (c.status == Draft && c.seats.supervisor == None)
      || (c.status == Submitted && c.hr == None)
      || (c.status == HrApproved && c.seats.deputy == None)
  {
  }
}
