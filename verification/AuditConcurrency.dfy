/** Transactions appending to the audit log at the same time. `log_event` is three steps: take the
    transaction-scoped advisory lock, read the newest visible row, insert. Any other transaction may
    step in between. The main result, `LogNeverForks`, is that whatever the interleaving, the
    committed rows stand in id order and form an accepted chain. */
module AuditConcurrency {
  import opened Domain
  import opened AuditChain

  type TxId = int

  /** How far the current `log_event` call of a transaction has come. */
  datatype Phase = Idle | Locked | HasRead(prev: Hash)

  /** `snapshot` is what a transaction sees of the others for good, if it was begun that way. */
  datatype Tx = Tx(pending: seq<Row>, phase: Phase, snapshot: Option<seq<Row>>)

  /** Whether the lock excludes anybody, and whether transactions keep to the snapshot they begin with. */
  datatype Mode = Mode(exclusive: bool, snapshots: bool)

  /** How the program runs: under the default isolation every statement sees what is committed by then. */
  const AS_BUILT := Mode(true, false)

  const NO_LOCK := Mode(false, false)

  const SNAPSHOTS := Mode(true, true)

  datatype World = World(committed: seq<Row>, nextId: Id, owner: Option<TxId>, txs: map<TxId, Tx>)

  datatype Step =
    | Begin(tx: TxId, snapshot: bool)
    | Lock(tx: TxId)
    | ReadLast(tx: TxId)
    | InsertRow(tx: TxId, event: Event)
    | Commit(tx: TxId)
    | Rollback(tx: TxId)

  /** What a transaction's query returns: committed rows and its own. */
  function Visible(w: World, t: TxId): seq<Row>
    requires t in w.txs
  {
    (if w.txs[t].snapshot.Some? then w.txs[t].snapshot.value else w.committed) + w.txs[t].pending
  }

  /** `ORDER BY id DESC LIMIT 1`, whatever order the rows stand in. */
  function NewestHash(rows: seq<Row>): Hash {
    if rows == [] then GENESIS_HASH else Newest(rows).entryHash
  }

  function Newest(rows: seq<Row>): Row
    requires rows != []
  {
    if |rows| == 1 then rows[0]
    else
      var rest := Newest(rows[1..]);
      if rows[0].id > rest.id then rows[0] else rest
  }

  /** The lock is granted when it is free or already held by the same transaction; if it does not
      exclude, it is granted to everybody. */
  predicate Enabled(w: World, step: Step, mode: Mode) {
    match step
    case Begin(t, snapshot) => t !in w.txs && snapshot == mode.snapshots
    case Lock(t) =>
      t in w.txs && w.txs[t].phase.Idle? && (mode.exclusive ==> w.owner == None || w.owner == Some(t))
    case ReadLast(t) => t in w.txs && w.txs[t].phase.Locked?
    case InsertRow(t, _) => t in w.txs && w.txs[t].phase.HasRead?
    case Commit(t) => t in w.txs && w.txs[t].phase.Idle?
    case Rollback(t) => t in w.txs
  }

  function Release(w: World, t: TxId): World {
    w.(txs := w.txs - {t}, owner := if w.owner == Some(t) then None else w.owner)
  }

  function Next(H: string -> Hash, w: World, step: Step): World
    requires step.tx in w.txs || step.Begin?
    requires step.InsertRow? ==> w.txs[step.tx].phase.HasRead?
  {
    match step
    case Begin(t, snapshot) => w.(txs := w.txs[t := Tx([], Idle, if snapshot then Some(w.committed) else None)])
    case Lock(t) => w.(owner := Some(t), txs := w.txs[t := w.txs[t].(phase := Locked)])
    case ReadLast(t) => w.(txs := w.txs[t := w.txs[t].(phase := HasRead(NewestHash(Visible(w, t))))])
    case InsertRow(t, e) =>
      var prev := w.txs[t].phase.prev;
      var row := Row(w.nextId, e, prev, ComputeHash(H, e, prev));
      w.(nextId := w.nextId + 1, txs := w.txs[t := w.txs[t].(pending := w.txs[t].pending + [row], phase := Idle)])
    case Commit(t) => Release(w.(committed := w.committed + w.txs[t].pending), t)
    case Rollback(t) => Release(w, t)
  }

  ghost predicate IdOrdered(rows: seq<Row>, bound: Id) {
    && (forall i, j :: 0 <= i < j < |rows| ==> rows[i].id < rows[j].id)
    && (forall i :: 0 <= i < |rows| ==> rows[i].id < bound)
  }

  ghost predicate GoodTx(H: string -> Hash, w: World, t: TxId)
    requires t in w.txs
  {
    var tx := w.txs[t];
    && tx.snapshot == None && (tx.pending != [] || !tx.phase.Idle? ==> w.owner == Some(t))
    && IdOrdered(Visible(w, t), w.nextId) && Accepted(H, Visible(w, t))
    && (tx.phase.HasRead? ==> tx.phase.prev == LastHash(Visible(w, t)))
  }

  ghost predicate Good(H: string -> Hash, w: World) {
    && IdOrdered(w.committed, w.nextId) && Accepted(H, w.committed)
    && forall t :: t in w.txs ==> GoodTx(H, w, t)
  }

  lemma {:induction false} NewestIsLast(rows: seq<Row>, bound: Id)
    requires IdOrdered(rows, bound) && rows != []
    ensures Newest(rows) == rows[|rows| - 1]
  {
    if |rows| > 1 {
      assert IdOrdered(rows[1..], bound);
      NewestIsLast(rows[1..], bound);
    }
  }

  /** A transaction that holds nothing sees exactly the committed rows. */
  lemma IdleTxIsGood(H: string -> Hash, w: World, t: TxId)
    requires t in w.txs && w.txs[t] == Tx([], Idle, None)
    requires IdOrdered(w.committed, w.nextId) && Accepted(H, w.committed)
    ensures GoodTx(H, w, t)
  {
    assert Visible(w, t) == w.committed;
  }

  /** Raising the id counter or touching other transactions leaves a transaction good. */
  lemma GoodTxFrame(H: string -> Hash, w: World, w': World, t: TxId)
    requires t in w.txs && t in w'.txs && w'.txs[t] == w.txs[t] && w'.committed == w.committed
    requires w'.nextId >= w.nextId && GoodTx(H, w, t)
    requires w.owner == Some(t) ==> w'.owner == Some(t)
    ensures GoodTx(H, w', t)
  {
    assert Visible(w', t) == Visible(w, t);
  }

  lemma InsertKeepsGood(H: string -> Hash, w: World, t: TxId, e: Event)
    requires t in w.txs && w.txs[t].phase.HasRead? && GoodTx(H, w, t)
    ensures GoodTx(H, Next(H, w, InsertRow(t, e)), t)
  {
    var seen := Visible(w, t);
    var w' := Next(H, w, InsertRow(t, e));
    AppendAccepted(H, seen, w.nextId, e);
    assert Visible(w', t) == seen + [NextRow(H, seen, w.nextId, e)];
  }

  lemma CommitKeepsGood(H: string -> Hash, w: World, t: TxId)
    requires Good(H, w) && t in w.txs && w.txs[t].phase.Idle?
    ensures Good(H, Next(H, w, Commit(t)))
  {
    var w' := Next(H, w, Commit(t));
    assert GoodTx(H, w, t);
    forall u | u in w'.txs ensures GoodTx(H, w', u) {
      assert GoodTx(H, w, u);
      if w.txs[t].pending == [] {
        assert w'.committed == w.committed;
        GoodTxFrame(H, w, w', u);
      } else {
        IdleTxIsGood(H, w', u);
      }
    }
  }

  lemma StepKeepsGood(H: string -> Hash, w: World, step: Step)
    requires Good(H, w) && Enabled(w, step, AS_BUILT)
    ensures Good(H, Next(H, w, step))
  {
    var w' := Next(H, w, step);
    if step.Commit? {
      CommitKeepsGood(H, w, step.tx);
    } else {
      forall u | u in w'.txs ensures GoodTx(H, w', u) {
        if u != step.tx {
          assert GoodTx(H, w, u);
          GoodTxFrame(H, w, w', u);
        } else {
          ActorStaysGood(H, w, step);
        }
      }
    }
  }

  lemma ActorStaysGood(H: string -> Hash, w: World, step: Step)
    requires Good(H, w) && Enabled(w, step, AS_BUILT) && !step.Commit? && !step.Rollback?
    ensures GoodTx(H, Next(H, w, step), step.tx)
  {
    var t := step.tx;
    var w' := Next(H, w, step);
    match step
    case Begin(_, _) => IdleTxIsGood(H, w', t);
    case Lock(_) => assert GoodTx(H, w, t) && Visible(w', t) == Visible(w, t);
    case ReadLast(_) =>
      assert GoodTx(H, w, t) && Visible(w', t) == Visible(w, t);
      if Visible(w, t) != [] { NewestIsLast(Visible(w, t), w.nextId); }
    case InsertRow(_, e) => assert GoodTx(H, w, t); InsertKeepsGood(H, w, t, e);
  }

  /** A run: every step enabled in the world the previous steps left. */
  ghost predicate Run(H: string -> Hash, w: World, steps: seq<Step>, end: World, mode: Mode)
    decreases |steps|
  {
    if steps == [] then end == w
    else Enabled(w, steps[0], mode) && Run(H, Next(H, w, steps[0]), steps[1..], end, mode)
  }

  const EMPTY_WORLD := World([], 1, None, map[])

  lemma {:induction false} RunKeepsGood(H: string -> Hash, w: World, steps: seq<Step>, end: World)
    requires Good(H, w) && Run(H, w, steps, end, AS_BUILT)
    ensures Good(H, end)
    decreases |steps|
  {
    if steps != [] {
      StepKeepsGood(H, w, steps[0]);
      RunKeepsGood(H, Next(H, w, steps[0]), steps[1..], end);
    }
  }

  /** Any number of transactions, any interleaving, any commits and rollbacks: the committed rows
      are in id order and the verifier accepts them. */
  lemma LogNeverForks(H: string -> Hash, steps: seq<Step>, end: World)
    requires Run(H, EMPTY_WORLD, steps, end, AS_BUILT)
    ensures IdOrdered(end.committed, end.nextId) && Accepted(H, end.committed)
  {
    RunKeepsGood(H, EMPTY_WORLD, steps, end);
  }

  lemma RunStep(H: string -> Hash, w: World, step: Step, w': World, rest: seq<Step>, end: World, mode: Mode)
    requires Enabled(w, step, mode) && Next(H, w, step) == w' && Run(H, w', rest, end, mode)
    ensures Run(H, w, [step] + rest, end, mode)
  {
    assert ([step] + rest)[1..] == rest;
  }

  function Twins(H: string -> Hash, e: Event): seq<Row> {
    var hash := ComputeHash(H, e, GENESIS_HASH);
    [Row(1, e, GENESIS_HASH, hash), Row(2, e, GENESIS_HASH, hash)]
  }

  function Readers(owner: TxId, first: Phase, second: Phase): World {
    World([], 1, Some(owner), map[1 := Tx([], first, None), 2 := Tx([], second, None)])
  }

  function BothWrite(e: Event): seq<Step> {
    [InsertRow(1, e)] + ([InsertRow(2, e)] + ([Commit(1)] + ([Commit(2)] + [])))
  }

  /** Both transactions have read the empty log and now insert and commit. */
  lemma TwoReadersOfTheEmptyLog(H: string -> Hash, e: Event) returns (end: World)
    ensures end.committed == Twins(H, e)
    ensures Run(H, Readers(2, HasRead(GENESIS_HASH), HasRead(GENESIS_HASH)), BothWrite(e), end, NO_LOCK)
  {
    var w0 := Readers(2, HasRead(GENESIS_HASH), HasRead(GENESIS_HASH));
    var w1 := Next(H, w0, InsertRow(1, e));
    var w2 := Next(H, w1, InsertRow(2, e));
    var w3 := Next(H, w2, Commit(1));
    end := Next(H, w3, Commit(2));
    RunStep(H, w3, Commit(2), end, [], end, NO_LOCK);
    RunStep(H, w2, Commit(1), w3, [Commit(2)] + [], end, NO_LOCK);
    RunStep(H, w1, InsertRow(2, e), w2, [Commit(1)] + ([Commit(2)] + []), end, NO_LOCK);
    RunStep(H, w0, InsertRow(1, e), w1, [InsertRow(2, e)] + ([Commit(1)] + ([Commit(2)] + [])), end, NO_LOCK);
  }

  function BothRead(tail: seq<Step>): seq<Step> {
    [Begin(1, false)] + ([Begin(2, false)] + ([Lock(1)] + ([ReadLast(1)] + ([Lock(2)] + ([ReadLast(2)] + tail)))))
  }

  lemma SecondReads(H: string -> Hash, tail: seq<Step>, end: World)
    requires Run(H, Readers(2, HasRead(GENESIS_HASH), HasRead(GENESIS_HASH)), tail, end, NO_LOCK)
    ensures Run(H, Readers(1, HasRead(GENESIS_HASH), Idle), [Lock(2)] + ([ReadLast(2)] + tail), end, NO_LOCK)
  {
    var w := Readers(1, HasRead(GENESIS_HASH), Idle);
    var w' := Next(H, w, Lock(2));
    RunStep(H, w', ReadLast(2), Readers(2, HasRead(GENESIS_HASH), HasRead(GENESIS_HASH)), tail, end, NO_LOCK);
    RunStep(H, w, Lock(2), w', [ReadLast(2)] + tail, end, NO_LOCK);
  }

  lemma FirstReads(H: string -> Hash, tail: seq<Step>, end: World)
    requires Run(H, Readers(1, HasRead(GENESIS_HASH), Idle), tail, end, NO_LOCK)
    ensures Run(H, EMPTY_WORLD, [Begin(1, false)] + ([Begin(2, false)] + ([Lock(1)] + ([ReadLast(1)] + tail))),
                end, NO_LOCK)
  {
    var w1 := Next(H, EMPTY_WORLD, Begin(1, false));
    var w2 := Next(H, w1, Begin(2, false));
    var w3 := Next(H, w2, Lock(1));
    var t2 := [Lock(1)] + ([ReadLast(1)] + tail);
    RunStep(H, w3, ReadLast(1), Readers(1, HasRead(GENESIS_HASH), Idle), tail, end, NO_LOCK);
    RunStep(H, w2, Lock(1), w3, [ReadLast(1)] + tail, end, NO_LOCK);
    RunStep(H, w1, Begin(2, false), w2, t2, end, NO_LOCK);
    RunStep(H, EMPTY_WORLD, Begin(1, false), w1, [Begin(2, false)] + t2, end, NO_LOCK);
  }

  /** Both begin, are granted the lock and read the empty log. */
  lemma BothReadTheEmptyLog(H: string -> Hash, tail: seq<Step>, end: World)
    requires Run(H, Readers(2, HasRead(GENESIS_HASH), HasRead(GENESIS_HASH)), tail, end, NO_LOCK)
    ensures Run(H, EMPTY_WORLD, BothRead(tail), end, NO_LOCK)
  {
    SecondReads(H, tail, end);
    FirstReads(H, [Lock(2)] + ([ReadLast(2)] + tail), end);
  }

  lemma TwinsAreRejected(H: string -> Hash, rows: seq<Row>)
    requires |rows| == 2 && rows[1].prevHash == GENESIS_HASH && rows[0].entryHash != GENESIS_HASH
    ensures !Accepted(H, rows)
  {
    assert rows[..1] == [rows[0]];
    assert !ConsistentAt(H, rows, 1);
  }

  /** The lock is what does it: granted to everybody, two transactions both read the empty log, and
      once both commit the verifier rejects the second row. */
  lemma WithoutTheLockTheLogForks(H: string -> Hash, e: Event) returns (end: World)
    requires ComputeHash(H, e, GENESIS_HASH) != GENESIS_HASH
    ensures Run(H, EMPTY_WORLD, BothRead(BothWrite(e)), end, NO_LOCK) && !Accepted(H, end.committed)
  {
    end := TwoReadersOfTheEmptyLog(H, e);
    TwinsAreRejected(H, end.committed);
    BothReadTheEmptyLog(H, BothWrite(e), end);
  }

  /** The second transaction begins before the first one commits, and waits for the lock. */
  function Interleaved(e: Event): seq<Step> {
    [Begin(1, true)] + ([Begin(2, true)] + FirstTurn(e, SecondTurn(e)))
  }

  function FirstTurn(e: Event, tail: seq<Step>): seq<Step> {
    [Lock(1)] + ([ReadLast(1)] + ([InsertRow(1, e)] + ([Commit(1)] + tail)))
  }

  function SecondTurn(e: Event): seq<Step> {
    [Lock(2)] + ([ReadLast(2)] + ([InsertRow(2, e)] + ([Commit(2)] + [])))
  }

  function FirstDone(H: string -> Hash, e: Event): World {
    World(Twins(H, e)[..1], 2, None, map[2 := Tx([], Idle, Some([]))])
  }

  lemma SecondReadsTheSnapshot(H: string -> Hash, e: Event) returns (end: World)
    ensures end.committed == Twins(H, e) && Run(H, FirstDone(H, e), SecondTurn(e), end, SNAPSHOTS)
  {
    var w0 := FirstDone(H, e);
    var w1 := Next(H, w0, Lock(2));
    var w2 := Next(H, w1, ReadLast(2));
    var w3 := Next(H, w2, InsertRow(2, e));
    end := Next(H, w3, Commit(2));
    RunStep(H, w3, Commit(2), end, [], end, SNAPSHOTS);
    RunStep(H, w2, InsertRow(2, e), w3, [Commit(2)] + [], end, SNAPSHOTS);
    RunStep(H, w1, ReadLast(2), w2, [InsertRow(2, e)] + ([Commit(2)] + []), end, SNAPSHOTS);
    RunStep(H, w0, Lock(2), w1, [ReadLast(2)] + ([InsertRow(2, e)] + ([Commit(2)] + [])), end, SNAPSHOTS);
  }

  function BothBegun(): World {
    World([], 1, None, map[1 := Tx([], Idle, Some([])), 2 := Tx([], Idle, Some([]))])
  }

  lemma BothBegin(H: string -> Hash, tail: seq<Step>, end: World)
    requires Run(H, BothBegun(), tail, end, SNAPSHOTS)
    ensures Run(H, EMPTY_WORLD, [Begin(1, true)] + ([Begin(2, true)] + tail), end, SNAPSHOTS)
  {
    var w := Next(H, EMPTY_WORLD, Begin(1, true));
    RunStep(H, w, Begin(2, true), BothBegun(), tail, end, SNAPSHOTS);
    RunStep(H, EMPTY_WORLD, Begin(1, true), w, [Begin(2, true)] + tail, end, SNAPSHOTS);
  }

  function FirstHasRead(): World {
    World([], 1, Some(1), map[1 := Tx([], HasRead(GENESIS_HASH), Some([])), 2 := Tx([], Idle, Some([]))])
  }

  lemma FirstWrites(H: string -> Hash, e: Event, tail: seq<Step>, end: World)
    requires Run(H, FirstDone(H, e), tail, end, SNAPSHOTS)
    ensures Run(H, FirstHasRead(), [InsertRow(1, e)] + ([Commit(1)] + tail), end, SNAPSHOTS)
  {
    var w := Next(H, FirstHasRead(), InsertRow(1, e));
    assert Next(H, w, Commit(1)) == FirstDone(H, e);
    RunStep(H, w, Commit(1), FirstDone(H, e), tail, end, SNAPSHOTS);
    RunStep(H, FirstHasRead(), InsertRow(1, e), w, [Commit(1)] + tail, end, SNAPSHOTS);
  }

  lemma FirstTakesItsTurn(H: string -> Hash, e: Event, tail: seq<Step>, end: World)
    requires Run(H, FirstHasRead(), [InsertRow(1, e)] + ([Commit(1)] + tail), end, SNAPSHOTS)
    ensures Run(H, BothBegun(), FirstTurn(e, tail), end, SNAPSHOTS)
  {
    var rest := [InsertRow(1, e)] + ([Commit(1)] + tail);
    var w := Next(H, BothBegun(), Lock(1));
    RunStep(H, w, ReadLast(1), FirstHasRead(), rest, end, SNAPSHOTS);
    RunStep(H, BothBegun(), Lock(1), w, [ReadLast(1)] + rest, end, SNAPSHOTS);
  }

  /** The lock alone does not do it: a transaction whose snapshot is older than the lock reads past what was
      committed while it waited. */
  lemma UnderSnapshotsTheLogForks(H: string -> Hash, e: Event) returns (end: World)
    requires ComputeHash(H, e, GENESIS_HASH) != GENESIS_HASH
    ensures Run(H, EMPTY_WORLD, Interleaved(e), end, SNAPSHOTS) && !Accepted(H, end.committed)
  {
    end := SecondReadsTheSnapshot(H, e);
    TwinsAreRejected(H, end.committed);
    FirstWrites(H, e, SecondTurn(e), end);
    FirstTakesItsTurn(H, e, SecondTurn(e), end);
    BothBegin(H, FirstTurn(e, SecondTurn(e)), end);
  }
}
