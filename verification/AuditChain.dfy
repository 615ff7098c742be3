/** The audit log as a hash chain: what a row stores, how `verify_chain` reads the table, and what
    its answer proves. The hash function is a parameter; nothing is assumed of it, so the theorems
    either give the property or exhibit the collision that broke it. */
module AuditChain {
  import opened Domain
  import opened Json
  import opened JsonLaws

  type Hash = string

  /** The chain's root: sixty-four zeros. */
  const GENESIS_HASH: Hash := "0000000000000000000000000000000000000000000000000000000000000000"

  datatype Event = Event(actor: int, kind: string, record: Option<int>, before: Option<Value>, after: Option<Value>)

  datatype Row = Row(id: Id, event: Event, prevHash: Hash, entryHash: Hash)

  /** `old_value` and `new_value` are dictionaries or absent. */
  ghost predicate ValidEvent(e: Event) {
    && (e.before.Some? ==> e.before.value.Obj? && IsDictionary(e.before.value))
    && (e.after.Some? ==> e.after.value.Obj? && IsDictionary(e.after.value))
  }

  ghost predicate ValidRows(rows: seq<Row>) {
    forall i :: 0 <= i < |rows| ==> ValidEvent(rows[i].event)
  }

  function OrNull(v: Option<Value>): Value {
    if v.Some? then v.value else Null
  }

  /** The payload whose canonical text is hashed. */
  function Payload(e: Event, prevHash: Hash): Value {
    Obj([
      Member("actor_user_id", Int(e.actor)),
      Member("event_type", Str(e.kind)),
      Member("evaluation_record_id", if e.record.Some? then Int(e.record.value) else Null),
      Member("old_value", OrNull(e.before)),
      Member("new_value", OrNull(e.after)),
      Member("prev_hash", Str(prevHash))])
  }

  function Text(e: Event, prevHash: Hash): string {
    Canonical(Payload(e, prevHash))
  }

  function ComputeHash(H: string -> Hash, e: Event, prevHash: Hash): Hash {
    H(Text(e, prevHash))
  }

  function LastHash(rows: seq<Row>): Hash {
    if rows == [] then GENESIS_HASH else rows[|rows| - 1].entryHash
  }

  /** The row `log_event` writes after `rows`. */
  function NextRow(H: string -> Hash, rows: seq<Row>, id: Id, e: Event): Row {
    Row(id, e, LastHash(rows), ComputeHash(H, e, LastHash(rows)))
  }

  // ---------------------------------------------------------------- verification

  /** Why a row breaks the chain: it does not point at its predecessor, or its stored hash is not
      the hash of its contents. */
  datatype Reason = BrokenLink | EditedContent

  datatype Report = Intact(checked: nat) | Broken(checked: nat, brokenAtId: Id, reason: Reason)

  predicate LinkedAt(rows: seq<Row>, i: nat)
    requires i < |rows|
  {
    rows[i].prevHash == LastHash(rows[..i])
  }

  predicate HashedAt(H: string -> Hash, rows: seq<Row>, i: nat)
    requires i < |rows|
  {
    ComputeHash(H, rows[i].event, rows[i].prevHash) == rows[i].entryHash
  }

  predicate ConsistentAt(H: string -> Hash, rows: seq<Row>, i: nat)
    requires i < |rows|
  {
    LinkedAt(rows, i) && HashedAt(H, rows, i)
  }

  ghost predicate Accepted(H: string -> Hash, rows: seq<Row>) {
    forall i :: 0 <= i < |rows| ==> ConsistentAt(H, rows, i)
  }

  ghost predicate LeastInconsistent(H: string -> Hash, rows: seq<Row>, k: nat) {
    k < |rows| && !ConsistentAt(H, rows, k) && forall i :: 0 <= i < k ==> ConsistentAt(H, rows, i)
  }

  /** The rows in id order are recomputed from the start; `limit` cuts the query short. */
  method VerifyChain(H: string -> Hash, table: seq<Row>, limit: Option<nat>) returns (report: Report)
    ensures
      var rows := if limit.Some? && limit.value < |table| then table[..limit.value] else table;
      match report
      case Intact(checked) => checked == |rows| && Accepted(H, rows)
      case Broken(checked, id, reason) =>
        && checked > 0 && LeastInconsistent(H, rows, checked - 1)
        && id == rows[checked - 1].id
        && (reason == BrokenLink <==> !LinkedAt(rows, checked - 1))
  {
    var rows := if limit.Some? && limit.value < |table| then table[..limit.value] else table;
    var checked := 0;
    var expectedPrev := GENESIS_HASH;
    while checked < |rows|
      invariant 0 <= checked <= |rows|
      invariant expectedPrev == LastHash(rows[..checked])
      invariant forall i :: 0 <= i < checked ==> ConsistentAt(H, rows, i)
    {
      var row := rows[checked];
      checked := checked + 1;
      var recomputed := ComputeHash(H, row.event, row.prevHash);
      if row.prevHash != expectedPrev {
        return Broken(checked, row.id, BrokenLink);
      }
      if recomputed != row.entryHash {
        return Broken(checked, row.id, EditedContent);
      }
      expectedPrev := row.entryHash;
    }
    return Intact(checked);
  }

  /** Appending with `log_event` keeps the log acceptable. */
  lemma AppendAccepted(H: string -> Hash, rows: seq<Row>, id: Id, e: Event)
    requires Accepted(H, rows)
    ensures Accepted(H, rows + [NextRow(H, rows, id, e)])
  {
    var longer := rows + [NextRow(H, rows, id, e)];
    forall i | 0 <= i < |longer| ensures ConsistentAt(H, longer, i) {
      assert longer[..i] == rows[..i];
      if i < |rows| {
        assert ConsistentAt(H, rows, i);
      } else {
        assert rows[..i] == rows;
      }
    }
  }

  lemma PrefixAccepted(H: string -> Hash, rows: seq<Row>, n: nat)
    requires Accepted(H, rows) && n <= |rows|
    ensures Accepted(H, rows[..n])
  {
    forall i | 0 <= i < n ensures ConsistentAt(H, rows[..n], i) {
      assert rows[..n][..i] == rows[..i];
      assert ConsistentAt(H, rows, i);
    }
  }

  /** The table as one transaction sees it. */
  class AuditTable {
    var rows: seq<Row>
    var nextId: Id

    /** The hash is computed over the last row's hash, and the new row is stored after it. */
    method LogEvent(H: string -> Hash, event: Event)
      modifies this
      ensures rows == old(rows) + [NextRow(H, old(rows), old(nextId), event)]
      ensures nextId == old(nextId) + 1
      ensures old(Accepted(H, rows)) ==> Accepted(H, rows)
    {
      var prevHash := if rows == [] then GENESIS_HASH else rows[|rows| - 1].entryHash;
      var entryHash := ComputeHash(H, event, prevHash);
      ghost var before := rows;
      rows := rows + [Row(nextId, event, prevHash, entryHash)];
      nextId := nextId + 1;
      if Accepted(H, before) {
        AppendAccepted(H, before, old(nextId), event);
      }
    }
  }

  // ---------------------------------------------------------------- tamper evidence

  /** The same logged contents: equal fields, and JSON values equal up to member order. */
  ghost predicate SameEvent(a: Event, b: Event) {
    && a.actor == b.actor && a.kind == b.kind && a.record == b.record
    && Same(OrNull(a.before), OrNull(b.before)) && Same(OrNull(a.after), OrNull(b.after))
  }

  ghost predicate SameRow(a: Row, b: Row) {
    SameEvent(a.event, b.event) && a.prevHash == b.prevHash && a.entryHash == b.entryHash
  }

  function RowText(r: Row): string {
    Text(r.event, r.prevHash)
  }

  /** The hash function was broken on the texts at hand: two of them share a hash. */
  ghost predicate Collide(H: string -> Hash, s: string, t: string) {
    s != t && H(s) == H(t)
  }

  ghost predicate CollisionAmong(H: string -> Hash, a: seq<Row>, b: seq<Row>) {
    exists i, j :: 0 <= i < |a| && 0 <= j < |b| && Collide(H, RowText(a[i]), RowText(b[j]))
  }

  ghost predicate HitsGenesis(H: string -> Hash, rows: seq<Row>) {
    exists i :: 0 <= i < |rows| && H(RowText(rows[i])) == GENESIS_HASH
  }

  lemma PayloadIsDictionary(e: Event, p: Hash)
    requires ValidEvent(e)
    ensures IsDictionary(Payload(e, p))
  {
  }

  ghost predicate PayloadKeys(ms: seq<Member>) {
    |ms| == 6 && ms[0].key == "actor_user_id" && ms[1].key == "event_type" && ms[2].key == "evaluation_record_id"
    && ms[3].key == "old_value" && ms[4].key == "new_value" && ms[5].key == "prev_hash"
  }

  lemma SamePayloadFields(xs: seq<Member>, ys: seq<Member>, i: nat)
    requires PayloadKeys(xs) && PayloadKeys(ys) && Covers(xs, ys) && i < 6
    ensures Same(xs[i].value, ys[i].value)
  {
    assert HasSame(xs[i], ys);
    var j :| 0 <= j < |ys| && SameMember(xs[i], ys[j]);
    assert xs[i].key == ys[j].key;
    assert |xs[i].key| == |ys[i].key|;
  }

  lemma {:induction false} MemberwiseSame(xs: seq<Member>, ys: seq<Member>)
    requires |xs| == |ys| && forall i :: 0 <= i < |xs| ==> xs[i].key == ys[i].key && Same(xs[i].value, ys[i].value)
    ensures Covers(xs, ys) && CoveredBy(xs, ys)
  {
    forall i | 0 <= i < |xs| ensures HasSame(xs[i], ys) {
      assert SameMember(xs[i], ys[i]);
    }
    forall j | 0 <= j < |ys| ensures IsSameAsSome(xs, ys[j]) {
      assert SameMember(xs[j], ys[j]);
    }
  }

  lemma PayloadFieldValues(e: Event, p: Hash)
    ensures var ms := Payload(e, p).members;
      && PayloadKeys(ms)
      && ms[0].value == Int(e.actor) && ms[1].value == Str(e.kind)
      && ms[2].value == (if e.record.Some? then Int(e.record.value) else Null)
      && ms[3].value == OrNull(e.before) && ms[4].value == OrNull(e.after) && ms[5].value == Str(p)
  {
  }

  lemma FieldsDecideEvent(xs: seq<Member>, a: Event, p: Hash, ys: seq<Member>, b: Event, q: Hash)
    requires PayloadKeys(xs) && PayloadKeys(ys)
    requires xs[0].value == Int(a.actor) && xs[1].value == Str(a.kind)
      && xs[2].value == (if a.record.Some? then Int(a.record.value) else Null)
      && xs[3].value == OrNull(a.before) && xs[4].value == OrNull(a.after) && xs[5].value == Str(p)
    requires ys[0].value == Int(b.actor) && ys[1].value == Str(b.kind)
      && ys[2].value == (if b.record.Some? then Int(b.record.value) else Null)
      && ys[3].value == OrNull(b.before) && ys[4].value == OrNull(b.after) && ys[5].value == Str(q)
    ensures (forall i :: 0 <= i < 6 ==> Same(xs[i].value, ys[i].value)) <==> SameEvent(a, b) && p == q
  {
    assert Same(xs[0].value, ys[0].value) <==> a.actor == b.actor;
    assert Same(xs[1].value, ys[1].value) <==> a.kind == b.kind;
    assert Same(xs[2].value, ys[2].value) <==> a.record == b.record;
    assert Same(xs[5].value, ys[5].value) <==> p == q;
    assert Same(xs[3].value, ys[3].value) && Same(xs[4].value, ys[4].value)
      <==> Same(OrNull(a.before), OrNull(b.before)) && Same(OrNull(a.after), OrNull(b.after));
  }

  /** For payload-shaped objects, equality as JSON objects is equality field by field. */
  lemma {:induction false} SameFieldByField(xs: seq<Member>, ys: seq<Member>)
    requires PayloadKeys(xs) && PayloadKeys(ys)
    ensures Same(Obj(xs), Obj(ys)) <==> forall i :: 0 <= i < 6 ==> Same(xs[i].value, ys[i].value)
  {
    assert Same(Obj(xs), Obj(ys)) <==> Covers(xs, ys) && CoveredBy(xs, ys);
    if forall i :: 0 <= i < 6 ==> Same(xs[i].value, ys[i].value) {
      SameValuesCover(xs, ys);
    } else if Covers(xs, ys) {
      CoverGivesValues(xs, ys);
    }
  }

  lemma CoverGivesValues(xs: seq<Member>, ys: seq<Member>)
    requires PayloadKeys(xs) && PayloadKeys(ys) && Covers(xs, ys)
    ensures forall i :: 0 <= i < 6 ==> Same(xs[i].value, ys[i].value)
  {
    forall i | 0 <= i < 6 ensures Same(xs[i].value, ys[i].value) {
      SamePayloadFields(xs, ys, i);
    }
  }

  lemma SameValuesCover(xs: seq<Member>, ys: seq<Member>)
    requires PayloadKeys(xs) && PayloadKeys(ys) && forall i :: 0 <= i < 6 ==> Same(xs[i].value, ys[i].value)
    ensures Covers(xs, ys) && CoveredBy(xs, ys)
  {
    forall i | 0 <= i < |xs| ensures xs[i].key == ys[i].key {
      SameKey(xs, ys, i);
    }
    MemberwiseSame(xs, ys);
  }

  lemma SameKey(xs: seq<Member>, ys: seq<Member>, i: nat)
    requires PayloadKeys(xs) && PayloadKeys(ys) && i < 6
    ensures xs[i].key == ys[i].key
  {
  }

  lemma SamePayloadIffSameEvent(a: Event, p: Hash, b: Event, q: Hash)
    ensures Same(Payload(a, p), Payload(b, q)) <==> SameEvent(a, b) && p == q
  {
    PayloadFieldValues(a, p);
    PayloadFieldValues(b, q);
    SameFieldByField(Payload(a, p).members, Payload(b, q).members);
    FieldsDecideEvent(Payload(a, p).members, a, p, Payload(b, q).members, b, q);
  }

  /** The text of a row determines its contents and its link. */
  lemma TextDeterminesRow(a: Event, p: Hash, b: Event, q: Hash)
    requires ValidEvent(a) && ValidEvent(b)
    ensures Text(a, p) == Text(b, q) <==> SameEvent(a, b) && p == q
  {
    PayloadIsDictionary(a, p);
    PayloadIsDictionary(b, q);
    CanonicalTextIsFaithful(Payload(a, p), Payload(b, q));
    SamePayloadIffSameEvent(a, p, b, q);
  }

  ghost predicate SameLogs(a: seq<Row>, b: seq<Row>) {
    |a| == |b| && forall i :: 0 <= i < |a| ==> SameRow(a[i], b[i])
  }

  lemma LastRowConsistent(H: string -> Hash, rows: seq<Row>)
    requires Accepted(H, rows) && rows != []
    ensures var last := rows[|rows| - 1];
      H(RowText(last)) == last.entryHash == LastHash(rows) && last.prevHash == LastHash(rows[..|rows| - 1])
  {
    assert ConsistentAt(H, rows, |rows| - 1);
  }

  /** Logs ending in the same hash end in the same row after logs ending in the same hash. */
  lemma LastRowsMatch(H: string -> Hash, a: seq<Row>, b: seq<Row>)
    requires Accepted(H, a) && Accepted(H, b) && ValidRows(a) && ValidRows(b)
    requires a != [] && b != [] && LastHash(a) == LastHash(b)
    ensures CollisionAmong(H, a, b) ||
      (SameRow(a[|a| - 1], b[|b| - 1]) && LastHash(a[..|a| - 1]) == LastHash(b[..|b| - 1]))
  {
    var x, y := a[|a| - 1], b[|b| - 1];
    LastRowConsistent(H, a);
    LastRowConsistent(H, b);
    TextDeterminesRow(x.event, x.prevHash, y.event, y.prevHash);
    if RowText(x) != RowText(y) {
      assert Collide(H, RowText(a[|a| - 1]), RowText(b[|b| - 1]));
    }
  }

  lemma SameLogsGrow(a: seq<Row>, b: seq<Row>)
    requires a != [] && b != [] && SameLogs(a[..|a| - 1], b[..|b| - 1]) && SameRow(a[|a| - 1], b[|b| - 1])
    ensures SameLogs(a, b)
  {
    forall i | 0 <= i < |a| - 1 ensures SameRow(a[i], b[i]) {
      assert SameRow(a[..|a| - 1][i], b[..|b| - 1][i]);
    }
  }

  lemma EmptyMeetsEmpty(H: string -> Hash, rows: seq<Row>)
    requires Accepted(H, rows) && rows != [] && LastHash(rows) == GENESIS_HASH
    ensures HitsGenesis(H, rows)
  {
    LastRowConsistent(H, rows);
    assert H(RowText(rows[|rows| - 1])) == GENESIS_HASH;
  }

  /** Two accepted logs with the same last hash are the same log, row by row, unless the hash
      function was broken. */
  lemma {:induction false} LastHashFixesTheLog(H: string -> Hash, a: seq<Row>, b: seq<Row>)
    requires Accepted(H, a) && Accepted(H, b) && ValidRows(a) && ValidRows(b)
    requires LastHash(a) == LastHash(b)
    ensures SameLogs(a, b) || HashBroken(H, a, b)
    decreases |a|
  {
    if a == [] && b != [] {
      EmptyMeetsEmpty(H, b);
    } else if b == [] && a != [] {
      EmptyMeetsEmpty(H, a);
    } else if a != [] {
      LastRowsMatch(H, a, b);
      if !HashBroken(H, a, b) {
        DropLast(H, a);
        DropLast(H, b);
        LastHashFixesTheLog(H, a[..|a| - 1], b[..|b| - 1]);
        ShorterWitnesses(H, a, b);
        SameLogsGrow(a, b);
      }
    }
  }

  ghost predicate HashBroken(H: string -> Hash, a: seq<Row>, b: seq<Row>) {
    CollisionAmong(H, a, b) || HitsGenesis(H, a) || HitsGenesis(H, b)
  }

  lemma DropLast(H: string -> Hash, rows: seq<Row>)
    requires Accepted(H, rows) && ValidRows(rows) && rows != []
    ensures Accepted(H, rows[..|rows| - 1]) && ValidRows(rows[..|rows| - 1])
  {
    PrefixAccepted(H, rows, |rows| - 1);
  }

  /** A collision or a hit on the root found among the first rows is one of the whole logs. */
  lemma ShorterWitnesses(H: string -> Hash, a: seq<Row>, b: seq<Row>)
    requires a != [] && b != []
    ensures HashBroken(H, a[..|a| - 1], b[..|b| - 1]) ==> HashBroken(H, a, b)
  {
    var p, q := a[..|a| - 1], b[..|b| - 1];
    if CollisionAmong(H, p, q) {
      var i, j :| 0 <= i < |p| && 0 <= j < |q| && Collide(H, RowText(p[i]), RowText(q[j]));
      assert Collide(H, RowText(a[i]), RowText(b[j]));
    }
    if HitsGenesis(H, p) {
      var i :| 0 <= i < |p| && H(RowText(p[i])) == GENESIS_HASH;
      assert H(RowText(a[i])) == GENESIS_HASH;
    }
    if HitsGenesis(H, q) {
      var i :| 0 <= i < |q| && H(RowText(q[i])) == GENESIS_HASH;
      assert H(RowText(b[i])) == GENESIS_HASH;
    }
  }

  /** Replacing a row that is not the last one is reported at that row or at the next, unless the
      replacement carries the very same contents or its text collides with the original's. */
  lemma EditIsReported(H: string -> Hash, rows: seq<Row>, k: nat, forged: Row)
    requires Accepted(H, rows) && ValidRows(rows) && k + 1 < |rows| && ValidEvent(forged.event)
    ensures SameRow(forged, rows[k]) ==> Accepted(H, rows[k := forged])
    ensures !SameRow(forged, rows[k]) ==>
      || LeastInconsistent(H, rows[k := forged], k)
      || LeastInconsistent(H, rows[k := forged], k + 1)
      || Collide(H, RowText(forged), RowText(rows[k]))
  {
    var edited := rows[k := forged];
    TextDeterminesRow(forged.event, forged.prevHash, rows[k].event, rows[k].prevHash);
    assert ConsistentAt(H, rows, k) && ConsistentAt(H, rows, k + 1);
    forall i | 0 <= i < k ensures ConsistentAt(H, edited, i) {
      assert edited[..i] == rows[..i] && ConsistentAt(H, rows, i);
    }
    assert edited[..k] == rows[..k];
    assert LastHash(edited[..k + 1]) == forged.entryHash && LastHash(rows[..k + 1]) == rows[k].entryHash;
    if SameRow(forged, rows[k]) {
      forall i | 0 <= i < |edited| ensures ConsistentAt(H, edited, i) {
        assert ConsistentAt(H, rows, i);
        assert LastHash(edited[..i]) == LastHash(rows[..i]);
      }
    }
  }

  /** A row that repeats the hash it points at has a predecessor that does so too. */
  lemma RepeatedHash(H: string -> Hash, rows: seq<Row>, k: nat)
    requires Accepted(H, rows) && ValidRows(rows) && 0 < k < |rows| && rows[k].entryHash == LastHash(rows[..k])
    ensures rows[k - 1].entryHash == LastHash(rows[..k - 1]) || CollisionAmong(H, rows, rows)
  {
    assert ConsistentAt(H, rows, k) && ConsistentAt(H, rows, k - 1);
    assert LastHash(rows[..k]) == rows[k - 1].entryHash;
    TextDeterminesRow(rows[k].event, rows[k].prevHash, rows[k - 1].event, rows[k - 1].prevHash);
    if RowText(rows[k]) != RowText(rows[k - 1]) {
      assert Collide(H, RowText(rows[k]), RowText(rows[k - 1]));
    }
  }

  /** In an accepted log no row repeats the hash it points at. */
  lemma {:induction false} HashesMoveOn(H: string -> Hash, rows: seq<Row>, k: nat)
    requires Accepted(H, rows) && ValidRows(rows) && k < |rows|
    ensures rows[k].entryHash != LastHash(rows[..k]) || CollisionAmong(H, rows, rows) || HitsGenesis(H, rows)
  {
    if rows[k].entryHash == LastHash(rows[..k]) {
      if k == 0 {
        assert ConsistentAt(H, rows, 0);
        assert H(RowText(rows[0])) == GENESIS_HASH;
      } else {
        RepeatedHash(H, rows, k);
        HashesMoveOn(H, rows, k - 1);
      }
    }
  }

  /** Removing a row that is not the last one is reported at the row that followed it; removing the
      last row (`PrefixAccepted`) is what the chain cannot see. */
  lemma DeletionIsReported(H: string -> Hash, rows: seq<Row>, k: nat)
    requires Accepted(H, rows) && ValidRows(rows) && k + 1 < |rows|
    ensures LeastInconsistent(H, rows[..k] + rows[k + 1..], k) || CollisionAmong(H, rows, rows) || HitsGenesis(H, rows)
  {
    var rest := rows[..k] + rows[k + 1..];
    HashesMoveOn(H, rows, k);
    assert ConsistentAt(H, rows, k + 1);
    assert LastHash(rows[..k + 1]) == rows[k].entryHash;
    assert rest[..k] == rows[..k] && rest[k] == rows[k + 1];
    forall i | 0 <= i < k ensures ConsistentAt(H, rest, i) {
      assert rest[..i] == rows[..i] && ConsistentAt(H, rows, i);
    }
  }
}
