/** Refresh-token sessions: each use of a token replaces its session by a new one, and the use of a token
    that was replaced or revoked ends all sessions of the user. */
module Sessions {
  import opened Domain

  type Jti = string

  datatype Session = Session(
    jti: Jti, user: Id, expiresAt: Time, rotatedAt: Option<Time>, replacedBy: Option<Jti>, revokedAt: Option<Time>)

  /** A new session, no new session because two tabs were quick, or a token that should not exist. */
  datatype Rotation = Rotated(jti: Jti) | InGrace | Reuse

  /** 60 seconds, in microseconds. */
  const ROTATION_GRACE := 60_000_000

  // ---------------------------------------------------------------- the table

  ghost predicate HasJti(rows: seq<Session>, jti: Jti) {
    exists i :: 0 <= i < |rows| && rows[i].jti == jti
  }

  /** The position of the row with this jti. */
  function Find(rows: seq<Session>, jti: Jti): Option<nat> {
    if rows == [] then None
    else if rows[|rows| - 1].jti == jti then Some(|rows| - 1)
    else Find(rows[..|rows| - 1], jti)
  }

  lemma {:induction false} FindFinds(rows: seq<Session>, jti: Jti)
    ensures Find(rows, jti).Some? ==> Find(rows, jti).value < |rows| && rows[Find(rows, jti).value].jti == jti
    ensures Find(rows, jti).Some? <==> HasJti(rows, jti)
  {
    if rows != [] {
      FindFinds(rows[..|rows| - 1], jti);
      forall i | 0 <= i < |rows| - 1 && rows[i].jti == jti ensures HasJti(rows[..|rows| - 1], jti) {
        assert rows[..|rows| - 1][i].jti == jti;
      }
      assert rows[|rows| - 1].jti == jti ==> HasJti(rows, jti);
    }
  }

  predicate Active(s: Session, now: Time) {
    s.revokedAt == None && s.rotatedAt == None && s.expiresAt > now
  }

  function NewSession(user: Id, jti: Jti, now: Time, lifetime: int): Session {
    Session(jti, user, now + lifetime, None, None, None)
  }

  function Revoked(s: Session, now: Time): Session {
    if s.revokedAt == None then s.(revokedAt := Some(now)) else s
  }

  function RevokedAll(rows: seq<Session>, user: Id, now: Time): seq<Session> {
    seq(|rows|, i requires 0 <= i < |rows| => if rows[i].user == user then Revoked(rows[i], now) else rows[i])
  }

  /** What presenting a token means. */
  function Judgement(rows: seq<Session>, user: Id, jti: Jti, newJti: Jti, now: Time): Rotation {
    var at := Find(rows, jti);
    if at == None || at.value >= |rows| then Reuse
    else
      var s := rows[at.value];
      if s.user != user || s.revokedAt.Some? || s.expiresAt <= now then Reuse
      else if s.rotatedAt == None then Rotated(newJti)
      else if now - s.rotatedAt.value <= ROTATION_GRACE then InGrace
      else Reuse
  }

  /** The table after a token was presented. */
  function AfterRotate(rows: seq<Session>, user: Id, jti: Jti, newJti: Jti, now: Time, lifetime: int): seq<Session> {
    match Judgement(rows, user, jti, newJti, now)
    case Reuse => RevokedAll(rows, user, now)
    case InGrace => rows
    case Rotated(_) =>
      var at := Find(rows, jti).value;
      if at >= |rows| then rows
      else
        rows[at := rows[at].(rotatedAt := Some(now), replacedBy := Some(newJti))]
        + [NewSession(user, newJti, now, lifetime)]
  }

  function AfterRevoke(rows: seq<Session>, jti: Jti, now: Time): seq<Session> {
    var at := Find(rows, jti);
    if at.Some? && at.value < |rows| then rows[at.value := Revoked(rows[at.value], now)] else rows
  }

  class Store {
    const lifetime: int
    var rows: seq<Session>

    constructor (lifetime: int)
      ensures this.lifetime == lifetime && rows == []
    {
      this.lifetime := lifetime;
      rows := [];
    }

    /** `jti` is drawn at random; the column is unique. */
    method CreateSession(user: Id, jti: Jti, now: Time)
      requires !HasJti(rows, jti)
      modifies this
      ensures rows == old(rows) + [NewSession(user, jti, now, lifetime)]
    {
      rows := rows + [Session(jti, user, now + lifetime, None, None, None)];
    }

    method Lookup(jti: Jti) returns (at: Option<nat>)
      ensures at == Find(rows, jti)
    {
      var n := |rows|;
      assert rows[..n] == rows;
      while n > 0
        invariant 0 <= n <= |rows| && Find(rows, jti) == Find(rows[..n], jti)
      {
        assert rows[..n][..n - 1] == rows[..n - 1];
        n := n - 1;
        if rows[n].jti == jti { return Some(n); }
      }
      assert rows[..0] == [];
      return None;
    }

    method RotateSession(user: Id, jti: Jti, newJti: Jti, now: Time) returns (outcome: Rotation)
      requires !HasJti(rows, newJti)
      modifies this
      ensures outcome == Judgement(old(rows), user, jti, newJti, now)
      ensures rows == AfterRotate(old(rows), user, jti, newJti, now, lifetime)
    {
      var at := Lookup(jti);
      FindFinds(rows, jti);
      if at == None || rows[at.value].user != user
        || rows[at.value].revokedAt.Some? || rows[at.value].expiresAt <= now {
        RevokeAllForUser(user, now);
        return Reuse;
      }
      var s := rows[at.value];
      if s.rotatedAt.Some? {
        if now - s.rotatedAt.value <= ROTATION_GRACE { return InGrace; }
        RevokeAllForUser(user, now);
        return Reuse;
      }
      CreateSession(user, newJti, now);
      rows := rows[at.value := s.(rotatedAt := Some(now), replacedBy := Some(newJti))];
      return Rotated(newJti);
    }

    method RevokeSession(jti: Jti, now: Time)
      modifies this
      ensures rows == AfterRevoke(old(rows), jti, now)
    {
      var at := Lookup(jti);
      FindFinds(rows, jti);
      if at.Some? && rows[at.value].revokedAt == None {
        rows := rows[at.value := rows[at.value].(revokedAt := Some(now))];
      }
    }

    method RevokeAllForUser(user: Id, now: Time)
      modifies this
      ensures rows == RevokedAll(old(rows), user, now)
    {
      rows := seq(|rows|, i requires 0 <= i < |rows| reads this =>
        if rows[i].user == user && rows[i].revokedAt == None then rows[i].(revokedAt := Some(now)) else rows[i]);
    }

    /** The user's living sessions, in table order. */
    method ActiveSessions(user: Id, now: Time) returns (active: seq<Session>)
      ensures forall s :: s in active <==> s in rows && s.user == user && Active(s, now)
      ensures |active| == CountActive(rows, user, now)
    {
      active := [];
      for i := 0 to |rows|
        invariant forall s :: s in active <==> s in rows[..i] && s.user == user && Active(s, now)
        invariant |active| == CountActive(rows[..i], user, now)
      {
        assert rows[..i + 1] == rows[..i] + [rows[i]] && rows[..i + 1][..i] == rows[..i];
        if rows[i].user == user && Active(rows[i], now) { active := active + [rows[i]]; }
      }
      assert rows[..|rows|] == rows;
    }
  }

  function CountActive(rows: seq<Session>, user: Id, now: Time): nat {
    if rows == [] then 0
    else
      CountActive(rows[..|rows| - 1], user, now)
      + (if rows[|rows| - 1].user == user && Active(rows[|rows| - 1], now) then 1 else 0)
  }

  function CountUnrotated(rows: seq<Session>, user: Id): nat {
    if rows == [] then 0
    else
      CountUnrotated(rows[..|rows| - 1], user)
      + (if rows[|rows| - 1].user == user && rows[|rows| - 1].rotatedAt == None then 1 else 0)
  }

  // ---------------------------------------------------------------- sequential runs

  datatype Event =
    | Create(user: Id, jti: Jti)
    | Rotate(user: Id, jti: Jti, newJti: Jti)
    | Revoke(jti: Jti)
    | RevokeAll(user: Id)

  datatype Timed = Timed(event: Event, at: Time)

  /** An insert that would repeat a jti fails and is rolled back. */
  ghost function Step(rows: seq<Session>, e: Event, now: Time, lifetime: int): seq<Session> {
    match e
    case Create(user, jti) => if HasJti(rows, jti) then rows else rows + [NewSession(user, jti, now, lifetime)]
    case Rotate(user, jti, newJti) =>
      if HasJti(rows, newJti) then rows else AfterRotate(rows, user, jti, newJti, now, lifetime)
    case Revoke(jti) => AfterRevoke(rows, jti, now)
    case RevokeAll(user) => RevokedAll(rows, user, now)
  }

  ghost function Played(rows: seq<Session>, run: seq<Timed>, lifetime: int): seq<Session>
    decreases |run|
  {
    if run == [] then rows else Played(Step(rows, run[0].event, run[0].at, lifetime), run[1..], lifetime)
  }

  /** The successful `create_session` calls for this user that are not part of a rotation. */
  ghost function Logins(rows: seq<Session>, run: seq<Timed>, user: Id, lifetime: int): nat
    decreases |run|
  {
    if run == [] then 0
    else
      var e := run[0].event;
      (if e.Create? && e.user == user && !HasJti(rows, e.jti) then 1 else 0)
      + Logins(Step(rows, e, run[0].at, lifetime), run[1..], user, lifetime)
  }

  // ---------------------------------------------------------------- the forest of replacements

  /** Row `i` was replaced by row `k`. */
  predicate Link(rows: seq<Session>, i: int, k: int) {
    0 <= i < |rows| && 0 <= k < |rows| && rows[i].replacedBy == Some(rows[k].jti)
  }

  ghost predicate HasSuccessor(rows: seq<Session>, i: nat)
    requires i < |rows|
  {
    exists k :: i < k < |rows| && Link(rows, i, k) && rows[k].user == rows[i].user
  }

  /** Links lead to later rows of the same user, one from each rotated row, at most one to each row. */
  ghost predicate Forest(rows: seq<Session>) {
    && (forall i, j :: 0 <= i < j < |rows| ==> rows[i].jti != rows[j].jti)
    && (forall i :: 0 <= i < |rows| ==> (rows[i].rotatedAt.Some? <==> rows[i].replacedBy.Some?))
    && (forall i :: 0 <= i < |rows| && rows[i].rotatedAt.Some? ==> HasSuccessor(rows, i))
    && (forall i, j :: 0 <= i < j < |rows| && rows[i].replacedBy.Some? ==> rows[i].replacedBy != rows[j].replacedBy)
  }

  lemma AppendKeepsForest(rows: seq<Session>, s: Session)
    requires Forest(rows) && !HasJti(rows, s.jti) && s.rotatedAt == None && s.replacedBy == None
    ensures Forest(rows + [s])
  {
    var rows' := rows + [s];
    forall i | 0 <= i < |rows'| && rows'[i].rotatedAt.Some? ensures HasSuccessor(rows', i) {
      assert HasSuccessor(rows, i);
      var k :| i < k < |rows| && Link(rows, i, k) && rows[k].user == rows[i].user;
      assert Link(rows', i, k);
    }
  }

  lemma RotationKeepsForest(rows: seq<Session>, at: nat, newJti: Jti, now: Time, lifetime: int)
    requires Forest(rows) && at < |rows| && rows[at].rotatedAt == None && !HasJti(rows, newJti)
    ensures Forest(rows[at := rows[at].(rotatedAt := Some(now), replacedBy := Some(newJti))]
                   + [NewSession(rows[at].user, newJti, now, lifetime)])
  {
    var rows' := rows[at := rows[at].(rotatedAt := Some(now), replacedBy := Some(newJti))]
      + [NewSession(rows[at].user, newJti, now, lifetime)];
    forall i | 0 <= i < |rows| && i != at && rows[i].rotatedAt.Some?
      ensures HasSuccessor(rows', i) && rows[i].replacedBy != Some(newJti)
    {
      assert HasSuccessor(rows, i);
      var k :| i < k < |rows| && Link(rows, i, k) && rows[k].user == rows[i].user;
      assert Link(rows', i, k);
    }
    assert Link(rows', at, |rows|);
    forall i | 0 <= i < |rows'| && rows'[i].rotatedAt.Some? ensures HasSuccessor(rows', i) {
    }
  }

  /** Revoking concerns neither identity nor links. */
  ghost predicate SameLinks(rows: seq<Session>, rows': seq<Session>) {
    |rows'| == |rows| && forall i :: 0 <= i < |rows| ==>
      rows'[i] == rows[i].(revokedAt := rows'[i].revokedAt)
  }

  lemma SameLinksKeepForest(rows: seq<Session>, rows': seq<Session>)
    requires Forest(rows) && SameLinks(rows, rows')
    ensures Forest(rows')
  {
    forall i | 0 <= i < |rows'| && rows'[i].rotatedAt.Some? ensures HasSuccessor(rows', i) {
      assert HasSuccessor(rows, i);
      var k :| i < k < |rows| && Link(rows, i, k) && rows[k].user == rows[i].user;
      assert Link(rows', i, k);
    }
  }

  lemma RotateCases(rows: seq<Session>, user: Id, jti: Jti, newJti: Jti, now: Time)
    requires Judgement(rows, user, jti, newJti, now).Rotated?
    ensures var at := Find(rows, jti);
      && at.Some? && at.value < |rows|
      && rows[at.value].user == user && rows[at.value].rotatedAt == None && Active(rows[at.value], now)
  {
  }

  lemma StepKeepsForest(rows: seq<Session>, e: Event, now: Time, lifetime: int)
    requires Forest(rows)
    ensures Forest(Step(rows, e, now, lifetime))
  {
    match e
    case Create(user, jti) => if !HasJti(rows, jti) { AppendKeepsForest(rows, NewSession(user, jti, now, lifetime)); }
    case Rotate(user, jti, newJti) =>
      if !HasJti(rows, newJti) {
        if Judgement(rows, user, jti, newJti, now).Rotated? {
          RotateCases(rows, user, jti, newJti, now);
          RotationKeepsForest(rows, Find(rows, jti).value, newJti, now, lifetime);
        } else {
          SameLinksKeepForest(rows, Step(rows, e, now, lifetime));
        }
      }
    case Revoke(jti) => SameLinksKeepForest(rows, Step(rows, e, now, lifetime));
    case RevokeAll(user) => SameLinksKeepForest(rows, Step(rows, e, now, lifetime));
  }

  /** Whatever is created, rotated and revoked, the replacements form a forest. */
  lemma {:induction false} AlwaysForest(rows: seq<Session>, run: seq<Timed>, lifetime: int)
    requires Forest(rows)
    ensures Forest(Played(rows, run, lifetime))
    decreases |run|
  {
    if run != [] {
      StepKeepsForest(rows, run[0].event, run[0].at, lifetime);
      AlwaysForest(Step(rows, run[0].event, run[0].at, lifetime), run[1..], lifetime);
    }
  }

  // ---------------------------------------------------------------- chains

  /** Row `e` came out of row `i` by a number of rotations. */
  ghost predicate Leads(rows: seq<Session>, i: nat, e: nat)
    decreases |rows| - i
  {
    i == e || exists k :: i < k < |rows| && Link(rows, i, k) && Leads(rows, k, e)
  }

  lemma {:induction false} LeadsForward(rows: seq<Session>, i: nat, e: nat)
    requires Leads(rows, i, e) && i < |rows|
    ensures i <= e < |rows|
    decreases |rows| - i
  {
    if i != e {
      var k :| i < k < |rows| && Link(rows, i, k) && Leads(rows, k, e);
      LeadsForward(rows, k, e);
    }
  }

  lemma OneSuccessor(rows: seq<Session>, i: nat, k: nat, k': nat)
    requires Forest(rows) && Link(rows, i, k) && Link(rows, i, k')
    ensures k == k'
  {
  }

  lemma OnePredecessor(rows: seq<Session>, i: nat, i': nat, k: nat)
    requires Forest(rows) && Link(rows, i, k) && Link(rows, i', k)
    ensures i == i'
  {
  }

  /** From every session, living or dead, the replacements lead to exactly one session that was not
      rotated, and it belongs to the same user. */
  lemma {:induction false} EveryChainHasOneEnd(rows: seq<Session>, i: nat) returns (e: nat)
    requires Forest(rows) && i < |rows|
    ensures e < |rows| && Leads(rows, i, e) && rows[e].rotatedAt == None && rows[e].user == rows[i].user
    ensures forall e': nat :: e' < |rows| && Leads(rows, i, e') && rows[e'].rotatedAt == None ==> e' == e
    decreases |rows| - i
  {
    if rows[i].rotatedAt == None {
      e := i;
      forall e': nat | e' < |rows| && Leads(rows, i, e') ensures e' == e {
      }
    } else {
      assert HasSuccessor(rows, i);
      var k :| i < k < |rows| && Link(rows, i, k) && rows[k].user == rows[i].user;
      e := EveryChainHasOneEnd(rows, k);
      forall e': nat | e' < |rows| && Leads(rows, i, e') && rows[e'].rotatedAt == None ensures e' == e {
        var k' :| i < k' < |rows| && Link(rows, i, k') && Leads(rows, k', e');
        OneSuccessor(rows, i, k, k');
      }
    }
  }

  lemma {:induction false} LastLink(rows: seq<Session>, j: nat, e: nat) returns (p: nat)
    requires Leads(rows, j, e) && j < |rows| && j != e
    ensures j <= p < e < |rows| && Link(rows, p, e)
    decreases |rows| - j
  {
    var k :| j < k < |rows| && Link(rows, j, k) && Leads(rows, k, e);
    LeadsForward(rows, k, e);
    if k == e { p := j; } else { p := LastLink(rows, k, e); }
  }

  /** Chains do not merge: two sessions with a common descendant are one the descendant of the other. */
  lemma {:induction false} ChainsAreDisjoint(rows: seq<Session>, i: nat, j: nat, e: nat)
    requires Forest(rows) && i <= j < |rows| && Leads(rows, i, e) && Leads(rows, j, e)
    ensures Leads(rows, i, j)
    decreases 2 * |rows| - i - j
  {
    if i < j {
      LeadsForward(rows, j, e);
      var k :| i < k < |rows| && Link(rows, i, k) && Leads(rows, k, e);
      if k <= j {
        ChainsAreDisjoint(rows, k, j, e);
      } else {
        ChainsAreDisjoint(rows, j, k, e);
        var p := LastLink(rows, j, k);
        OnePredecessor(rows, i, p, k);
        assert false;
      }
    }
  }

  // ---------------------------------------------------------------- how many sessions live

  lemma {:induction false} CountAppend(rows: seq<Session>, s: Session, user: Id)
    ensures CountUnrotated(rows + [s], user)
      == CountUnrotated(rows, user) + (if s.user == user && s.rotatedAt == None then 1 else 0)
  {
    assert (rows + [s])[..|rows|] == rows;
  }

  lemma {:induction false} CountUpdate(rows: seq<Session>, at: nat, s: Session, user: Id)
    requires at < |rows| && s.user == rows[at].user
    ensures CountUnrotated(rows[at := s], user) == CountUnrotated(rows, user)
      + (if s.user == user && s.rotatedAt == None then 1 else 0)
      - (if s.user == user && rows[at].rotatedAt == None then 1 else 0)
  {
    var n := |rows| - 1;
    if at == n {
      assert rows[at := s][..n] == rows[..n];
    } else {
      assert rows[at := s][..n] == rows[..n][at := s];
      CountUpdate(rows[..n], at, s, user);
    }
  }

  lemma {:induction false} CountSame(rows: seq<Session>, rows': seq<Session>, user: Id)
    requires SameLinks(rows, rows')
    ensures CountUnrotated(rows', user) == CountUnrotated(rows, user)
  {
    if rows != [] { CountSame(rows[..|rows| - 1], rows'[..|rows| - 1], user); }
  }

  lemma {:induction false} ActiveAreUnrotated(rows: seq<Session>, user: Id, now: Time)
    ensures CountActive(rows, user, now) <= CountUnrotated(rows, user)
  {
    if rows != [] { ActiveAreUnrotated(rows[..|rows| - 1], user, now); }
  }

  lemma StepCounts(rows: seq<Session>, e: Event, now: Time, lifetime: int, user: Id)
    ensures CountUnrotated(Step(rows, e, now, lifetime), user) == CountUnrotated(rows, user)
      + (if e.Create? && e.user == user && !HasJti(rows, e.jti) then 1 else 0)
  {
    match e
    case Create(u, jti) => CountAppend(rows, NewSession(u, jti, now, lifetime), user);
    case Rotate(u, jti, newJti) =>
      if Judgement(rows, u, jti, newJti, now).Rotated? {
        RotateCases(rows, u, jti, newJti, now);
        var at := Find(rows, jti).value;
        var s := rows[at].(rotatedAt := Some(now), replacedBy := Some(newJti));
        CountUpdate(rows, at, s, user);
        CountAppend(rows[at := s], NewSession(u, newJti, now, lifetime), user);
      } else {
        CountSame(rows, Step(rows, e, now, lifetime), user);
      }
    case Revoke(jti) => CountSame(rows, Step(rows, e, now, lifetime), user);
    case RevokeAll(u) => CountSame(rows, Step(rows, e, now, lifetime), user);
  }

  /** One unrotated session per login, however often tokens are rotated, replayed or revoked. */
  lemma {:induction false} OneEndPerLogin(rows: seq<Session>, run: seq<Timed>, lifetime: int, user: Id)
    ensures CountUnrotated(Played(rows, run, lifetime), user)
      == CountUnrotated(rows, user) + Logins(rows, run, user, lifetime)
    decreases |run|
  {
    if run != [] {
      StepCounts(rows, run[0].event, run[0].at, lifetime, user);
      OneEndPerLogin(Step(rows, run[0].event, run[0].at, lifetime), run[1..], lifetime, user);
    }
  }

  /** So a user never has more active sessions than logins. */
  lemma NeverMoreThanLogins(run: seq<Timed>, lifetime: int, user: Id, now: Time)
    ensures CountActive(Played([], run, lifetime), user, now) <= Logins([], run, user, lifetime)
  {
    OneEndPerLogin([], run, lifetime, user);
    ActiveAreUnrotated(Played([], run, lifetime), user, now);
  }

  // ---------------------------------------------------------------- reuse

  ghost predicate NoneActive(rows: seq<Session>, user: Id, now: Time) {
    forall i :: 0 <= i < |rows| && rows[i].user == user ==> !Active(rows[i], now)
  }

  /** A token is taken for stolen exactly when its session is missing, foreign, revoked or expired, or
      was rotated more than the grace period ago; then the user is left without any active session and
      nobody else is touched. */
  lemma ReuseEndsEverySession(rows: seq<Session>, user: Id, jti: Jti, newJti: Jti, now: Time, lifetime: int, i: nat)
    requires Forest(rows) && i < |rows| && rows[i].jti == jti
    ensures Judgement(rows, user, jti, newJti, now) == Reuse <==>
      (rows[i].user != user || rows[i].revokedAt.Some? || rows[i].expiresAt <= now
       || (rows[i].rotatedAt.Some? && now > rows[i].rotatedAt.value + ROTATION_GRACE))
    ensures Judgement(rows, user, jti, newJti, now) == Reuse ==>
      var rows' := AfterRotate(rows, user, jti, newJti, now, lifetime);
      && NoneActive(rows', user, now) && |rows'| == |rows|
      && forall k :: 0 <= k < |rows| && rows[k].user != user ==> rows'[k] == rows[k]
  {
    FindFinds(rows, jti);
    assert HasJti(rows, jti);
    assert Find(rows, jti) == Some(i);
  }

  /** A token is exchanged exactly while its session is the user's own and active; the new session takes
      its place among the active ones. Within the grace period the token of a session that is neither
      revoked nor expired changes nothing. */
  lemma LivingTokenRotates(rows: seq<Session>, user: Id, jti: Jti, newJti: Jti, now: Time, lifetime: int, i: nat)
    requires Forest(rows) && i < |rows| && rows[i].jti == jti
    ensures Judgement(rows, user, jti, newJti, now) == Rotated(newJti) <==> rows[i].user == user && Active(rows[i], now)
    ensures Judgement(rows, user, jti, newJti, now) == Rotated(newJti) ==>
      var rows' := AfterRotate(rows, user, jti, newJti, now, lifetime);
      && |rows'| == |rows| + 1 && rows'[i].rotatedAt == Some(now) && Link(rows', i, |rows|)
      && rows'[|rows|].user == user && rows'[|rows|].jti == newJti
      && (forall t :: !Active(rows'[i], t)) && (forall t :: Active(rows'[|rows|], t) <==> t < now + lifetime)
      && forall k :: 0 <= k < |rows| && k != i ==> rows'[k] == rows[k]
    ensures Judgement(rows, user, jti, newJti, now) == InGrace <==>
      rows[i].user == user && rows[i].revokedAt == None && rows[i].expiresAt > now
      && rows[i].rotatedAt.Some? && now <= rows[i].rotatedAt.value + ROTATION_GRACE
    ensures Judgement(rows, user, jti, newJti, now) == InGrace ==>
      AfterRotate(rows, user, jti, newJti, now, lifetime) == rows
  {
    FindFinds(rows, jti);
    assert HasJti(rows, jti);
    assert Find(rows, jti) == Some(i);
  }

  lemma MissingIsReuse(rows: seq<Session>, user: Id, jti: Jti, newJti: Jti, now: Time, lifetime: int)
    requires !HasJti(rows, jti)
    ensures Judgement(rows, user, jti, newJti, now) == Reuse
    ensures NoneActive(AfterRotate(rows, user, jti, newJti, now, lifetime), user, now)
  {
    FindFinds(rows, jti);
  }

  /** A login's session is active exactly for its lifetime. */
  lemma LoginLasts(rows: seq<Session>, user: Id, jti: Jti, now: Time, lifetime: int)
    requires !HasJti(rows, jti)
    ensures var rows' := Step(rows, Create(user, jti), now, lifetime);
      && |rows'| == |rows| + 1 && rows'[..|rows|] == rows && rows'[|rows|].user == user && rows'[|rows|].jti == jti
      && forall t :: Active(rows'[|rows|], t) <==> t < now + lifetime
  {
  }

  /** A logout ends the session for good, marks when, and touches no other. */
  lemma RevokeEndsTheSession(rows: seq<Session>, jti: Jti, now: Time, i: nat)
    requires Forest(rows) && i < |rows| && rows[i].jti == jti
    ensures var rows' := AfterRevoke(rows, jti, now);
      && |rows'| == |rows| && (forall k :: 0 <= k < |rows| && k != i ==> rows'[k] == rows[k])
      && rows'[i] == rows[i].(revokedAt := if rows[i].revokedAt == None then Some(now) else rows[i].revokedAt)
      && forall t :: !Active(rows'[i], t)
  {
    FindFinds(rows, jti);
    assert HasJti(rows, jti);
  }

  /** Ending all sessions marks those of the user that were not revoked yet, and no other. */
  lemma RevokeAllEndsThem(rows: seq<Session>, user: Id, now: Time, i: nat)
    requires i < |rows|
    ensures var rows' := RevokedAll(rows, user, now);
      && |rows'| == |rows|
      && rows'[i] == (if rows[i].user == user && rows[i].revokedAt == None then rows[i].(revokedAt := Some(now))
                      else rows[i])
      && (rows[i].user == user ==> forall t :: !Active(rows'[i], t))
  {
  }

  predicate Ordered(run: seq<Timed>, now: Time) {
    run == [] || (now <= run[0].at && Ordered(run[1..], run[0].at))
  }

  function LastTime(run: seq<Timed>, now: Time): Time {
    if run == [] then now else LastTime(run[1..], run[0].at)
  }

  lemma StepStaysDead(rows: seq<Session>, e: Event, now: Time, at: Time, lifetime: int, user: Id)
    requires NoneActive(rows, user, now) && now <= at && !(e.Create? && e.user == user)
    ensures NoneActive(Step(rows, e, at, lifetime), user, at)
  {
    if e.Rotate? && Judgement(rows, e.user, e.jti, e.newJti, at).Rotated? {
      RotateCases(rows, e.user, e.jti, e.newJti, at);
      assert e.user != user;
    }
  }

  /** And it stays that way: no token, however old, brings a session back; only a new login does. */
  lemma {:induction false} DeadStaysDead(rows: seq<Session>, run: seq<Timed>, now: Time, lifetime: int, user: Id)
    requires NoneActive(rows, user, now) && Ordered(run, now)
    requires forall i :: 0 <= i < |run| ==> !(run[i].event.Create? && run[i].event.user == user)
    ensures NoneActive(Played(rows, run, lifetime), user, LastTime(run, now))
    decreases |run|
  {
    if run != [] {
      StepStaysDead(rows, run[0].event, now, run[0].at, lifetime, user);
      DeadStaysDead(Step(rows, run[0].event, run[0].at, lifetime), run[1..], run[0].at, lifetime, user);
    }
  }
}
