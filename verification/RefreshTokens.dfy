/** Refresh-token rotation and session revocation of auth-svc: the `sessions` table, the two
    expiring Redis sets, and the handlers that move them. A request is one atomic step; the row
    writes of a request that raises are rolled back, its Redis writes are not. */
module RefreshTokens {
  import opened Basics

  // ---------- Data ----------

  /** Claims of a signed refresh token. Two tokens with the same claims are the same string. */
  datatype RefreshToken = RefreshToken(jti: nat, sid: nat, sub: nat, exp: int)

  datatype AccessToken = AccessToken(jti: nat, sid: nat, sub: nat, exp: int)

  /** SHA-256 taken as injective: a digest determines the token it was computed from. */
  datatype Digest = Sha256(token: RefreshToken)

  datatype SessionRow = SessionRow(userId: nat, refreshHash: Digest, refreshJti: nat, revokedAt: Option<real>)

  datatype Config = Config(refreshTtl: nat, accessTtl: nat, leeway: Duration)

  const SESSION_KEY_TTL := 2592000.0
  const LOGOUT_JTI_TTL := 2592000.0

  /** The whole state. `serial` stands for uuid4: every identifier below it has been drawn.
      `issued` (by jti) and `accessIssued` are the tokens that carry a genuine signature. */
  datatype Store = Store(
    now: real,
    serial: nat,
    sessions: map<nat, SessionRow>,
    revokedJti: Expiries,
    revokedSession: Expiries,
    issued: map<nat, RefreshToken>,
    accessIssued: set<AccessToken>)

  const EMPTY := Store(0.0, 0, map[], map[], map[], map[], {})

  datatype Op =
    | Wait(dt: Duration)
    | Login(user: nat)
    | Refresh(token: RefreshToken, userActive: bool)
    | Logout(token: RefreshToken)
    | LogoutAll(user: nat)
    | RevokeSession(sid: nat, user: nat)

  datatype Outcome =
    | Done
    | Issued(refresh: RefreshToken, access: AccessToken)
    | Rotated(spent: RefreshToken, refresh: RefreshToken, access: AccessToken)
    | Undecodable
    | ReplayDetected
    | SessionNotFound
    | Deactivated
    | Forbidden

  // ---------- Specification of one request ----------

  predicate Genuine(s: Store, t: RefreshToken) {
    t.jti in s.issued && s.issued[t.jti] == t
  }

  predicate Decodes(c: Config, s: Store, t: RefreshToken) {
    Genuine(s, t) && s.now - c.leeway < t.exp as real
  }

  function NewRefresh(c: Config, now: real, jti: nat, sid: nat, user: nat): RefreshToken {
    RefreshToken(jti, sid, user, now.Floor + c.refreshTtl)
  }

  function NewAccess(c: Config, now: real, jti: nat, sid: nat, user: nat): AccessToken {
    AccessToken(jti, sid, user, now.Floor + c.accessTtl)
  }

  predicate Holds(sessions: map<nat, SessionRow>, sid: nat, t: RefreshToken) {
    sid in sessions && sessions[sid].refreshHash == Sha256(t)
  }

  predicate Revoked(sessions: map<nat, SessionRow>, sid: nat) {
    sid in sessions && sessions[sid].revokedAt.Some?
  }

  ghost function LoginStep(c: Config, s: Store, user: nat): (Store, Outcome) {
    var t := NewRefresh(c, s.now, s.serial + 1, s.serial, user);
    var a := NewAccess(c, s.now, s.serial + 2, s.serial, user);
    (s.(serial := s.serial + 3,
        sessions := s.sessions[s.serial := SessionRow(user, Sha256(t), t.jti, None)],
        issued := s.issued[t.jti := t],
        accessIssued := s.accessIssued + {a}),
     Issued(t, a))
  }

  ghost function RefreshStep(c: Config, s: Store, t: RefreshToken, userActive: bool): (Store, Outcome) {
    if !Decodes(c, s, t) then (s, Undecodable)
    else if Live(s.revokedJti, t.jti, s.now) then
      // The row update of this branch is rolled back; the Redis key stays.
      (s.(revokedSession := s.revokedSession[t.sid := s.now + SESSION_KEY_TTL]), ReplayDetected)
    else if !exists sid :: Holds(s.sessions, sid, t) && !Revoked(s.sessions, sid) then (s, SessionNotFound)
    else if !userActive then (s, Deactivated)
    else
      var sid :| Holds(s.sessions, sid, t) && !Revoked(s.sessions, sid);
      var t' := NewRefresh(c, s.now, s.serial, t.sid, t.sub);
      var a' := NewAccess(c, s.now, s.serial + 1, t.sid, t.sub);
      (s.(serial := s.serial + 2,
          sessions := s.sessions[sid := s.sessions[sid].(refreshHash := Sha256(t'), refreshJti := t'.jti)],
          revokedJti := s.revokedJti[t.jti := s.now + c.refreshTtl as real],
          issued := s.issued[t'.jti := t'],
          accessIssued := s.accessIssued + {a'}),
       Rotated(t, t', a'))
  }

  ghost function LogoutStep(c: Config, s: Store, t: RefreshToken): Store {
    if Decodes(c, s, t) && exists sid :: Holds(s.sessions, sid, t) then
      var sid :| Holds(s.sessions, sid, t);
      if Revoked(s.sessions, sid) then s
      else s.(sessions := s.sessions[sid := s.sessions[sid].(revokedAt := Some(s.now))],
              revokedSession := s.revokedSession[t.sid := s.now + SESSION_KEY_TTL],
              revokedJti := s.revokedJti[t.jti := s.now + LOGOUT_JTI_TTL])
    else s
  }

  function OpenSessions(sessions: map<nat, SessionRow>, user: nat): set<nat> {
    set sid | sid in sessions && sessions[sid].userId == user && sessions[sid].revokedAt.None?
  }

  function RevokeAll(sessions: map<nat, SessionRow>, sids: set<nat>, at: real): map<nat, SessionRow> {
    map sid | sid in sessions :: if sid in sids then sessions[sid].(revokedAt := Some(at)) else sessions[sid]
  }

  function MarkAll(keys: Expiries, ids: set<nat>, expiry: real): Expiries {
    map k | k in keys.Keys + ids :: if k in ids then expiry else keys[k]
  }

  ghost function Step(c: Config, s: Store, op: Op): (Store, Outcome) {
    match op
    case Wait(dt) => (s.(now := s.now + dt), Done)
    case Login(user) => LoginStep(c, s, user)
    case Refresh(t, userActive) => RefreshStep(c, s, t, userActive)
    case Logout(t) => (LogoutStep(c, s, t), Done)
    case LogoutAll(user) =>
      var open := OpenSessions(s.sessions, user);
      (s.(sessions := RevokeAll(s.sessions, open, s.now),
          revokedSession := MarkAll(s.revokedSession, open, s.now + SESSION_KEY_TTL)), Done)
    case RevokeSession(sid, user) =>
      if sid !in s.sessions then (s, SessionNotFound)
      else if s.sessions[sid].userId != user then (s, Forbidden)
      else (s.(sessions := s.sessions[sid := s.sessions[sid].(revokedAt := Some(s.now))],
               revokedSession := s.revokedSession[sid := s.now + SESSION_KEY_TTL]), Done)
  }

  // ---------- Runs ----------

  ghost function Run(c: Config, s: Store, ops: seq<Op>): Store
    decreases |ops|
  {
    if ops == [] then s else Run(c, Step(c, s, ops[0]).0, ops[1..])
  }

  /** What each request of the run answered. */
  ghost function Answers(c: Config, s: Store, ops: seq<Op>): (r: seq<Outcome>)
    ensures |r| == |ops|
    decreases |ops|
  {
    if ops == [] then [] else [Step(c, s, ops[0]).1] + Answers(c, Step(c, s, ops[0]).0, ops[1..])
  }

  // ---------- Invariant ----------

  /** A row holds a genuine token of its own session; while open, that token is not marked. */
  ghost predicate RowOk(s: Store, sid: nat)
    requires sid in s.sessions
  {
    var row := s.sessions[sid];
    var t := row.refreshHash.token;
    && sid < s.serial
    && Genuine(s, t) && t.sid == sid && t.sub == row.userId && t.jti == row.refreshJti
    && (row.revokedAt.None? ==> t.jti !in s.revokedJti)
  }

  /** A token is no newer than the one its row holds, and once rotated out it is marked in Redis
      until at least its own expiry. */
  ghost predicate TokenOk(c: Config, s: Store, j: nat)
    requires j in s.issued
  {
    var t := s.issued[j];
    && t.jti == j < s.serial
    && t.sid in s.sessions
    && j <= s.sessions[t.sid].refreshJti
    && t.exp as real <= s.now + c.refreshTtl as real
    && (j != s.sessions[t.sid].refreshJti ==> j in s.revokedJti && t.exp as real <= s.revokedJti[j])
  }

  ghost predicate Inv(c: Config, s: Store) {
    && (forall sid :: sid in s.sessions ==> RowOk(s, sid))
    && (forall j :: j in s.issued ==> TokenOk(c, s, j))
    && (forall j :: j in s.revokedJti ==> j < s.serial)
  }

  /** In a consistent store only a token's own session can hold it. */
  lemma {:induction false} HolderIsOwn(c: Config, s: Store, t: RefreshToken)
    requires Inv(c, s)
    ensures forall sid :: Holds(s.sessions, sid, t) ==> sid == t.sid && Genuine(s, t)
  {
    forall sid | Holds(s.sessions, sid, t) ensures sid == t.sid && Genuine(s, t) {
      assert RowOk(s, sid);
    }
  }

  lemma {:induction false} SerialIsFresh(c: Config, s: Store)
    requires Inv(c, s)
    ensures s.serial !in s.sessions && s.serial !in s.issued
  {
    forall sid | sid in s.sessions ensures sid < s.serial { assert RowOk(s, sid); }
    forall j | j in s.issued ensures j < s.serial { assert TokenOk(c, s, j); }
  }

  lemma {:induction false} LoginKeepsInv(c: Config, s: Store, user: nat)
    requires Inv(c, s)
    ensures Inv(c, LoginStep(c, s, user).0)
  {
    var s' := LoginStep(c, s, user).0;
    forall sid | sid in s'.sessions ensures RowOk(s', sid) {
      assert sid != s.serial ==> RowOk(s, sid);
    }
    forall j | j in s'.issued ensures TokenOk(c, s', j) {
      assert j in s.issued ==> TokenOk(c, s, j);
    }
  }

  lemma {:induction false} RefreshKeepsInv(c: Config, s: Store, t: RefreshToken, userActive: bool)
    requires Inv(c, s)
    ensures Inv(c, RefreshStep(c, s, t, userActive).0)
  {
    var (s', out) := RefreshStep(c, s, t, userActive);
    HolderIsOwn(c, s, t);
    if out.Rotated? {
      forall sid | sid in s'.sessions ensures RowOk(s', sid) {
        assert RowOk(s, sid);
      }
      forall j | j in s'.issued ensures TokenOk(c, s', j) {
        assert j in s.issued ==> TokenOk(c, s, j);
      }
    }
  }

  lemma {:induction false} LogoutKeepsInv(c: Config, s: Store, t: RefreshToken)
    requires Inv(c, s)
    ensures Inv(c, LogoutStep(c, s, t))
  {
    var s' := LogoutStep(c, s, t);
    HolderIsOwn(c, s, t);
    forall sid | sid in s'.sessions ensures RowOk(s', sid) { assert RowOk(s, sid); }
    forall j | j in s'.issued ensures TokenOk(c, s', j) { assert TokenOk(c, s, j); }
  }

  lemma {:induction false} StepKeepsInv(c: Config, s: Store, op: Op)
    requires Inv(c, s)
    ensures Inv(c, Step(c, s, op).0)
  {
    match op
    case Wait(dt) =>
    case Login(user) => LoginKeepsInv(c, s, user);
    case Refresh(t, userActive) => RefreshKeepsInv(c, s, t, userActive);
    case Logout(t) => LogoutKeepsInv(c, s, t);
    case LogoutAll(user) =>
    case RevokeSession(sid, user) =>
  }

  lemma {:induction false} RunKeepsInv(c: Config, s: Store, ops: seq<Op>)
    requires Inv(c, s)
    ensures Inv(c, Run(c, s, ops))
    decreases |ops|
  {
    if ops != [] {
      StepKeepsInv(c, s, ops[0]);
      RunKeepsInv(c, Step(c, s, ops[0]).0, ops[1..]);
    }
  }

  // ---------- Acceptance ----------

  /** The token of its session that was minted last. */
  ghost predicate Newest(s: Store, t: RefreshToken) {
    Genuine(s, t) && forall j :: j in s.issued && s.issued[j].sid == t.sid ==> j <= t.jti
  }

  lemma {:induction false} HeldIffNewest(c: Config, s: Store, t: RefreshToken)
    requires Inv(c, s)
    ensures Holds(s.sessions, t.sid, t) <==> Newest(s, t)
  {
    HolderIsOwn(c, s, t);
    if Holds(s.sessions, t.sid, t) {
      assert RowOk(s, t.sid);
      forall j | j in s.issued && s.issued[j].sid == t.sid ensures j <= t.jti { assert TokenOk(c, s, j); }
    }
    if Newest(s, t) {
      assert TokenOk(c, s, t.jti);
      assert RowOk(s, t.sid);
    }
  }

  /** Whatever the history, the row of a session holds the newest token of its chain. */
  lemma {:induction false} RowHoldsNewestToken(c: Config, ops: seq<Op>, sid: nat)
    ensures var s := Run(c, EMPTY, ops);
            sid in s.sessions ==>
              var t := s.sessions[sid].refreshHash.token;
              t.sid == sid && Newest(s, t) && s.sessions[sid].refreshJti == t.jti
  {
    var s := Run(c, EMPTY, ops);
    RunKeepsInv(c, EMPTY, ops);
    if sid in s.sessions {
      assert RowOk(s, sid);
      HeldIffNewest(c, s, s.sessions[sid].refreshHash.token);
    }
  }

  lemma {:induction false} AcceptedInStore(c: Config, s: Store, t: RefreshToken, userActive: bool)
    requires Inv(c, s)
    ensures RefreshStep(c, s, t, userActive).1.Rotated? <==>
            Decodes(c, s, t) && Newest(s, t) && !Revoked(s.sessions, t.sid) && userActive
  {
    HolderIsOwn(c, s, t);
    HeldIffNewest(c, s, t);
    if Newest(s, t) { assert RowOk(s, t.sid); }
  }

  /** After any run, a refresh is accepted exactly when the token is genuine, unexpired, the newest
      of an open session, and its user active: the replay check never turns away a rightful holder. */
  lemma {:induction false} AcceptedIffNewestOfOpenSession(c: Config, ops: seq<Op>, t: RefreshToken, userActive: bool)
    ensures var s := Run(c, EMPTY, ops);
            Step(c, s, Refresh(t, userActive)).1.Rotated? <==>
            Decodes(c, s, t) && Newest(s, t) && !Revoked(s.sessions, t.sid) && userActive
  {
    RunKeepsInv(c, EMPTY, ops);
    AcceptedInStore(c, Run(c, EMPTY, ops), t, userActive);
  }

  /** The same in terms of the stored tokens, rows and the clock alone, with the answer to every other
      refresh: a token is accepted only before its expiry and the leeway have passed. */
  lemma {:induction false} RefreshAnswers(c: Config, ops: seq<Op>, t: RefreshToken, userActive: bool)
    ensures var s := Run(c, EMPTY, ops);
            var out := Step(c, s, Refresh(t, userActive)).1;
            var valid := t.jti in s.issued && s.issued[t.jti] == t && s.now < t.exp as real + c.leeway;
            var marked := t.jti in s.revokedJti && s.now < s.revokedJti[t.jti];
            var newest := forall j :: j in s.issued && s.issued[j].sid == t.sid ==> j <= t.jti;
            var open := t.sid in s.sessions && s.sessions[t.sid].revokedAt.None?;
            && (out == Undecodable <==> !valid)
            && (out == ReplayDetected <==> valid && marked)
            && (out == SessionNotFound <==> valid && !marked && !(newest && open))
            && (out == Deactivated <==> valid && newest && open && !userActive)
            && (out.Rotated? <==> valid && newest && open && userActive)
  {
    var s := Run(c, EMPTY, ops);
    RunKeepsInv(c, EMPTY, ops);
    AcceptedInStore(c, s, t, userActive);
    HolderIsOwn(c, s, t);
    HeldIffNewest(c, s, t);
    if Genuine(s, t) {
      assert TokenOk(c, s, t.jti);
      assert RowOk(s, t.sid);
      assert t.sid in s.sessions;
    }
  }

  /** A token's life from its login on: left alone it is accepted until its lifetime and the leeway
      have passed, and not from then on. */
  lemma {:induction false} TokenLivesItsLifetime(c: Config, user: nat, dt: Duration)
    ensures var (s, login) := Step(c, EMPTY, Login(user));
            login.Issued? && (Step(c, Run(c, s, [Wait(dt)]), Refresh(login.refresh, true)).1.Rotated?
                              <==> dt < c.refreshTtl as real + c.leeway)
  {
    var (s, login) := Step(c, EMPTY, Login(user));
    assert Run(c, EMPTY, [Login(user), Wait(dt)]) == Run(c, s, [Login(user), Wait(dt)][1..]);
    assert [Login(user), Wait(dt)][1..] == [Wait(dt)];
    var s' := Step(c, s, Wait(dt)).0;
    assert Run(c, s, [Wait(dt)]) == s';
    RefreshAnswers(c, [Login(user), Wait(dt)], login.refresh, true);
  }

  predicate HandsOut(out: Outcome, t: RefreshToken) {
    (out.Issued? || out.Rotated?) && out.refresh == t
  }

  predicate HandedOutIn(answers: seq<Outcome>, t: RefreshToken) {
    exists k :: 0 <= k < |answers| && HandsOut(answers[k], t)
  }

  lemma {:induction false} StepHandsOut(c: Config, s: Store, op: Op, t: RefreshToken)
    requires t in Step(c, s, op).0.issued.Values && t !in s.issued.Values
    ensures HandsOut(Step(c, s, op).1, t)
  {
    var s' := Step(c, s, op).0;
    var j :| j in s'.issued && s'.issued[j] == t;
    assert j !in s.issued || s.issued[j] != t;
  }

  /** Every token that carries a genuine signature was handed out by a login or a refresh of the run. */
  lemma {:induction false} TokensWereHandedOut(c: Config, s: Store, ops: seq<Op>, t: RefreshToken)
    requires t in Run(c, s, ops).issued.Values
    ensures t in s.issued.Values || HandedOutIn(Answers(c, s, ops), t)
    decreases |ops|
  {
    if ops != [] && t !in s.issued.Values {
      var (s', out) := Step(c, s, ops[0]);
      var rest, all := Answers(c, s', ops[1..]), Answers(c, s, ops);
      TokensWereHandedOut(c, s', ops[1..], t);
      assert all == [out] + rest;
      if t in s'.issued.Values {
        StepHandsOut(c, s, ops[0], t);
        assert HandsOut(all[0], t);
      } else {
        var k :| 0 <= k < |rest| && HandsOut(rest[k], t);
        assert HandsOut(all[k + 1], t);
      }
    }
  }

  /** What an accepted refresh hands out: tokens of the same session and user, unused before, and
      the new refresh token is the newest one from then on. */
  lemma {:induction false} RotationHandsOutNewest(c: Config, ops: seq<Op>, t: RefreshToken, userActive: bool)
    ensures var s := Run(c, EMPTY, ops);
            var (s', out) := Step(c, s, Refresh(t, userActive));
            out.Rotated? ==>
              && out.spent == t && out.refresh.jti !in s.issued
              && out.refresh.sid == out.access.sid == t.sid
              && out.refresh.sub == out.access.sub == t.sub
              && out.refresh.exp == s.now.Floor + c.refreshTtl && out.access.exp == s.now.Floor + c.accessTtl
              && Newest(s', out.refresh) && !Newest(s', t)
              && out.refresh in s'.issued.Values && out.access in s'.accessIssued
  {
    var s := Run(c, EMPTY, ops);
    RunKeepsInv(c, EMPTY, ops);
    var (s', out) := Step(c, s, Refresh(t, userActive));
    StepKeepsInv(c, s, Refresh(t, userActive));
    HolderIsOwn(c, s, t);
    if out.Rotated? {
      SerialIsFresh(c, s);
      assert RowOk(s, t.sid);
      HeldIffNewest(c, s', out.refresh);
      HeldIffNewest(c, s', t);
    }
  }

  lemma {:induction false} SpentAfterStep(c: Config, s: Store, op: Op, t: RefreshToken)
    requires Inv(c, s) && Genuine(s, t) && !Holds(s.sessions, t.sid, t)
    ensures var (s', out) := Step(c, s, op);
            && Genuine(s', t) && !Holds(s'.sessions, t.sid, t)
            && !(out.Rotated? && out.spent == t)
  {
    assert TokenOk(c, s, t.jti);
    HolderIsOwn(c, s, t);
    if op.Refresh? { HolderIsOwn(c, s, op.token); }
  }

  /** A login opens a session of its own, held by the token it hands out. */
  lemma {:induction false} LoginHandsOutNewest(c: Config, ops: seq<Op>, user: nat)
    ensures var s := Run(c, EMPTY, ops);
            var (s', out) := Step(c, s, Login(user));
            && out.Issued? && out.refresh.sid !in s.sessions && out.refresh.sid == out.access.sid
            && out.refresh.sub == out.access.sub == user
            && out.refresh.exp == s.now.Floor + c.refreshTtl && out.access.exp == s.now.Floor + c.accessTtl
            && Newest(s', out.refresh) && !Revoked(s'.sessions, out.refresh.sid)
            && out.refresh !in s.issued.Values
            && out.refresh in s'.issued.Values && out.access in s'.accessIssued
  {
    var s := Run(c, EMPTY, ops);
    RunKeepsInv(c, EMPTY, ops);
    SerialIsFresh(c, s);
    StepKeepsInv(c, s, Login(user));
    var (s', out) := Step(c, s, Login(user));
    HeldIffNewest(c, s', out.refresh);
    forall j | j in s.issued ensures s.issued[j] != out.refresh { assert TokenOk(c, s, j); }
  }

  /** A token out of its row stays out, and no later request accepts it. */
  lemma {:induction false} SpentStaysSpent(c: Config, s: Store, ops: seq<Op>, t: RefreshToken)
    requires Inv(c, s) && Genuine(s, t) && !Holds(s.sessions, t.sid, t)
    ensures Genuine(Run(c, s, ops), t) && !Holds(Run(c, s, ops).sessions, t.sid, t)
    ensures forall k :: 0 <= k < |ops| ==>
              !(Answers(c, s, ops)[k].Rotated? && Answers(c, s, ops)[k].spent == t)
    decreases |ops|
  {
    if ops != [] {
      SpentAfterStep(c, s, ops[0], t);
      StepKeepsInv(c, s, ops[0]);
      SpentStaysSpent(c, Step(c, s, ops[0]).0, ops[1..], t);
    }
  }

  /** No row ever again holds a token that was rotated out, however the run goes on. */
  lemma {:induction false} NeverHeldAgain(c: Config, ops: seq<Op>, more: seq<Op>, t: RefreshToken, sid: nat)
    ensures var s := Run(c, EMPTY, ops);
            Genuine(s, t) && !Newest(s, t) ==> !Holds(Run(c, s, more).sessions, sid, t)
  {
    var s := Run(c, EMPTY, ops);
    RunKeepsInv(c, EMPTY, ops);
    RunKeepsInv(c, s, more);
    HeldIffNewest(c, s, t);
    if Genuine(s, t) && !Newest(s, t) {
      SpentStaysSpent(c, s, more, t);
      HolderIsOwn(c, Run(c, s, more), t);
    }
  }

  lemma {:induction false} AcceptedOnceFrom(c: Config, s: Store, ops: seq<Op>, i: nat, j: nat)
    requires Inv(c, s) && i < j < |ops|
    ensures var a := Answers(c, s, ops);
            a[i].Rotated? && a[j].Rotated? ==> a[i].spent != a[j].spent
    decreases |ops|
  {
    var s' := Step(c, s, ops[0]).0;
    StepKeepsInv(c, s, ops[0]);
    if i > 0 {
      AcceptedOnceFrom(c, s', ops[1..], i - 1, j - 1);
    } else if Answers(c, s, ops)[0].Rotated? {
      var t := Answers(c, s, ops)[0].spent;
      HolderIsOwn(c, s, t);
      assert TokenOk(c, s, t.jti);
      SpentStaysSpent(c, s', ops[1..], t);
    }
  }

  /** Over every run each refresh token is accepted at most once. */
  lemma {:induction false} AcceptedAtMostOnce(c: Config, ops: seq<Op>, i: nat, j: nat)
    requires i < j < |ops|
    ensures var a := Answers(c, EMPTY, ops);
            a[i].Rotated? && a[j].Rotated? ==> a[i].spent != a[j].spent
  {
    AcceptedOnceFrom(c, EMPTY, ops, i, j);
  }

  // ---------- Replay ----------

  /** A rotated-out token that still decodes is answered by the replay branch exactly while its
      Redis key lives. Without leeway it always does, however long the chain has grown. */
  lemma {:induction false} RotatedOutTokenIsReplay(c: Config, ops: seq<Op>, t: RefreshToken, userActive: bool)
    ensures var s := Run(c, EMPTY, ops);
            var out := Step(c, s, Refresh(t, userActive)).1;
            Decodes(c, s, t) && !Newest(s, t) ==>
              && out == (if Live(s.revokedJti, t.jti, s.now) then ReplayDetected else SessionNotFound)
              && (c.leeway == 0.0 ==> out == ReplayDetected)
  {
    var s := Run(c, EMPTY, ops);
    RunKeepsInv(c, EMPTY, ops);
    HolderIsOwn(c, s, t);
    HeldIffNewest(c, s, t);
    if Decodes(c, s, t) { assert TokenOk(c, s, t.jti); assert RowOk(s, t.sid); }
  }

  /** With any leeway at all the replay branch can be missed: a token rotated at the instant it was
      minted still decodes when its key has gone. It is refused, but as an unknown session. */
  lemma {:induction false} LeewayOpensReplayGap(c: Config) returns (ops: seq<Op>, t: RefreshToken)
    requires c.leeway > 0.0
    ensures var s := Run(c, EMPTY, ops);
            && Decodes(c, s, t) && !Newest(s, t)
            && Step(c, s, Refresh(t, true)).1 == SessionNotFound
  {
    t := NewRefresh(c, 0.0, 1, 0, 0);
    var wait: Duration := c.refreshTtl as real;
    ops := [Login(0), Refresh(t, true), Wait(wait)];
    var s1 := Step(c, EMPTY, ops[0]).0;
    assert Holds(s1.sessions, 0, t);
    var s2 := Step(c, s1, ops[1]).0;
    assert ops[1..][1..] == [Wait(wait)];
    var s3 := Step(c, s2, ops[2]).0;
    assert Run(c, EMPTY, ops) == Run(c, s1, ops[1..]) == Run(c, s2, [Wait(wait)]) == s3;
    RotatedOutTokenIsReplay(c, ops, t, true);
    assert s3.issued[3].sid == t.sid;
  }

  /** The rollback in the replay branch keeps every row: after a detected replay the newest token of
      the very same session is still accepted. */
  lemma {:induction false} ReplayLeavesChainAlive(c: Config, ops: seq<Op>, t: RefreshToken, u: RefreshToken)
    ensures var s := Run(c, EMPTY, ops);
            var (s', out) := Step(c, s, Refresh(t, true));
            out == ReplayDetected ==>
              && s'.sessions == s.sessions && Live(s'.revokedSession, t.sid, s'.now)
              && (Step(c, s', Refresh(u, true)).1.Rotated? <==>
                  Decodes(c, s, u) && Newest(s, u) && !Revoked(s.sessions, u.sid))
  {
    var s := Run(c, EMPTY, ops);
    RunKeepsInv(c, EMPTY, ops);
    StepKeepsInv(c, s, Refresh(t, true));
    AcceptedInStore(c, Step(c, s, Refresh(t, true)).0, u, true);
  }

  /** The case arises at once: log in, refresh, present the first token again, and the session goes on
      with the second one. */
  lemma {:induction false} ReplayedSessionGoesOn(c: Config) returns (ops: seq<Op>, u: RefreshToken)
    requires c.refreshTtl > 0
    ensures |ops| == 3 && Answers(c, EMPTY, ops)[2] == ReplayDetected
    ensures Step(c, Run(c, EMPTY, ops), Refresh(u, true)).1.Rotated?
  {
    var t := NewRefresh(c, 0.0, 1, 0, 0);
    u := NewRefresh(c, 0.0, 3, 0, 0);
    ops := [Login(0), Refresh(t, true), Refresh(t, true)];
    var s1 := Step(c, EMPTY, ops[0]).0;
    assert Holds(s1.sessions, 0, t);
    var s2 := Step(c, s1, ops[1]).0;
    assert ops[1..][1..] == [ops[2]];
    var s3 := Step(c, s2, ops[2]).0;
    assert Run(c, EMPTY, ops) == Run(c, s1, ops[1..]) == Run(c, s2, [ops[2]]) == s3;
    assert Answers(c, EMPTY, ops)[2] == Answers(c, s1, ops[1..])[1] == Answers(c, s2, [ops[2]])[0];
    assert Holds(s3.sessions, 0, u);
  }

  // ---------- Revocation ----------

  /** Logout closes the token's own session, and only with its newest token. */
  lemma {:induction false} LogoutClosesWithNewestToken(c: Config, ops: seq<Op>, t: RefreshToken)
    ensures var s := Run(c, EMPTY, ops);
            var s' := Step(c, s, Logout(t)).0;
            if Decodes(c, s, t) && Newest(s, t) && !Revoked(s.sessions, t.sid)
            then s'.sessions == RevokeAll(s.sessions, {t.sid}, s.now) && Live(s'.revokedSession, t.sid, s.now)
            else s' == s
  {
    var s := Run(c, EMPTY, ops);
    RunKeepsInv(c, EMPTY, ops);
    HolderIsOwn(c, s, t);
    HeldIffNewest(c, s, t);
  }

  /** Logout in terms of the stored tokens, rows and the clock alone: it closes the session, marks it
      and the token for thirty days, exactly with an unexpired newest token of an open session. */
  lemma {:induction false} LogoutEffect(c: Config, ops: seq<Op>, t: RefreshToken)
    ensures var s := Run(c, EMPTY, ops);
            var s' := Step(c, s, Logout(t)).0;
            if && t.jti in s.issued && s.issued[t.jti] == t && s.now < t.exp as real + c.leeway
               && (forall j :: j in s.issued && s.issued[j].sid == t.sid ==> j <= t.jti)
               && t.sid in s.sessions && s.sessions[t.sid].revokedAt.None?
            then && s'.sessions == s.sessions[t.sid := s.sessions[t.sid].(revokedAt := Some(s.now))]
                 && s'.revokedSession == s.revokedSession[t.sid := s.now + 2592000.0]
                 && s'.revokedJti == s.revokedJti[t.jti := s.now + 2592000.0]
                 && s'.now == s.now && s'.issued == s.issued && s'.accessIssued == s.accessIssued
            else s' == s
  {
    var s := Run(c, EMPTY, ops);
    RunKeepsInv(c, EMPTY, ops);
    HolderIsOwn(c, s, t);
    HeldIffNewest(c, s, t);
    if Newest(s, t) { assert RowOk(s, t.sid); }
  }

  /** Logout-all closes every session of the user and touches no one else's. */
  lemma {:induction false} LogoutAllClosesEverySession(c: Config, s: Store, user: nat, sid: nat)
    requires sid in s.sessions
    ensures var s' := Step(c, s, LogoutAll(user)).0;
            && sid in s'.sessions
            && (if s.sessions[sid].userId == user
                then s'.sessions[sid].revokedAt.Some? &&
                     (s.sessions[sid].revokedAt.None? ==> s'.revokedSession[sid] == s.now + 2592000.0)
                else s'.sessions[sid] == s.sessions[sid])
            && s' == s.(sessions := s'.sessions, revokedSession := s'.revokedSession)
  {
    assert sid in OpenSessions(s.sessions, user) <==> s.sessions[sid].userId == user && !Revoked(s.sessions, sid);
  }

  /** A delete closes the session named if its owner asks, and otherwise changes nothing. */
  lemma {:induction false} DeleteClosesOwnSession(c: Config, s: Store, sid: nat, user: nat)
    ensures var (s', out) := Step(c, s, RevokeSession(sid, user));
            && (if sid in s.sessions && s.sessions[sid].userId == user
                then s' == s.(sessions := s.sessions[sid := s.sessions[sid].(revokedAt := Some(s.now))],
                              revokedSession := s.revokedSession[sid := s.now + 2592000.0])
                else s' == s)
            && (out == SessionNotFound <==> sid !in s.sessions)
            && (out == Forbidden <==> sid in s.sessions && s.sessions[sid].userId != user)
  {
  }

  lemma {:induction false} ClosedAfterStep(c: Config, s: Store, op: Op, sid: nat)
    requires Inv(c, s) && Revoked(s.sessions, sid)
    ensures var (s', out) := Step(c, s, op);
            Revoked(s'.sessions, sid) && !(out.Rotated? && out.spent.sid == sid)
  {
    SerialIsFresh(c, s);
    if op.Refresh? { HolderIsOwn(c, s, op.token); }
  }

  lemma {:induction false} ClosedFrom(c: Config, s: Store, ops: seq<Op>, sid: nat)
    requires Inv(c, s) && Revoked(s.sessions, sid)
    ensures Revoked(Run(c, s, ops).sessions, sid)
    ensures forall k :: 0 <= k < |ops| ==>
              !(Answers(c, s, ops)[k].Rotated? && Answers(c, s, ops)[k].spent.sid == sid)
    decreases |ops|
  {
    if ops != [] {
      ClosedAfterStep(c, s, ops[0], sid);
      StepKeepsInv(c, s, ops[0]);
      ClosedFrom(c, Step(c, s, ops[0]).0, ops[1..], sid);
    }
  }

  /** No token of a closed session, past or present, is accepted at any later point. */
  lemma {:induction false} ClosedSessionStaysClosed(c: Config, ops: seq<Op>, more: seq<Op>, sid: nat)
    ensures var s := Run(c, EMPTY, ops);
            Revoked(s.sessions, sid) ==>
              && Revoked(Run(c, s, more).sessions, sid)
              && forall k :: 0 <= k < |more| ==>
                   !(Answers(c, s, more)[k].Rotated? && Answers(c, s, more)[k].spent.sid == sid)
  {
    RunKeepsInv(c, EMPTY, ops);
    if Revoked(Run(c, EMPTY, ops).sessions, sid) { ClosedFrom(c, Run(c, EMPTY, ops), more, sid); }
  }

  /** The requests that close a session: logout with its newest token, logout-all or a delete by its
      user. */
  ghost predicate Closes(c: Config, s: Store, op: Op, sid: nat) {
    match op
    case Logout(t) => t.sid == sid && Decodes(c, s, t) && Newest(s, t)
    case LogoutAll(user) => sid in s.sessions && s.sessions[sid].userId == user
    case RevokeSession(i, user) => i == sid && sid in s.sessions && s.sessions[sid].userId == user
    case _ => false
  }

  lemma {:induction false} ClosedExactlyBy(c: Config, s: Store, op: Op, sid: nat)
    requires Inv(c, s)
    ensures Revoked(Step(c, s, op).0.sessions, sid) <==> Revoked(s.sessions, sid) || Closes(c, s, op, sid)
  {
    SerialIsFresh(c, s);
    if op.Refresh? { HolderIsOwn(c, s, op.token); }
    if op.Logout? {
      HolderIsOwn(c, s, op.token);
      HeldIffNewest(c, s, op.token);
    }
  }

  /** Exactly these requests close a session, and once one of them has been served no refresh token of
      the session, past or present, is accepted ever again. */
  lemma {:induction false} RevocationIsForGood(c: Config, ops: seq<Op>, op: Op, more: seq<Op>, sid: nat)
    ensures var s := Run(c, EMPTY, ops);
            var s' := Step(c, s, op).0;
            && (Revoked(s'.sessions, sid) <==> Revoked(s.sessions, sid) || Closes(c, s, op, sid))
            && (Closes(c, s, op, sid) ==>
                  forall k :: 0 <= k < |more| ==>
                    !(Answers(c, s', more)[k].Rotated? && Answers(c, s', more)[k].spent.sid == sid))
  {
    var s := Run(c, EMPTY, ops);
    RunKeepsInv(c, EMPTY, ops);
    StepKeepsInv(c, s, op);
    ClosedExactlyBy(c, s, op, sid);
    if Closes(c, s, op, sid) { ClosedFrom(c, Step(c, s, op).0, more, sid); }
  }

  /** An access token's session exists, and once that is closed its Redis key outlives the token. */
  ghost predicate AccessOk(c: Config, s: Store, a: AccessToken) {
    && a.sid in s.sessions
    && a.exp as real <= s.now + c.accessTtl as real
    && (Revoked(s.sessions, a.sid) ==> a.sid in s.revokedSession && a.exp as real <= s.revokedSession[a.sid])
  }

  lemma {:induction false} StepKeepsAccessOk(c: Config, s: Store, op: Op)
    requires c.accessTtl as real <= SESSION_KEY_TTL && Inv(c, s)
    requires forall a :: a in s.accessIssued ==> AccessOk(c, s, a)
    ensures forall a :: a in Step(c, s, op).0.accessIssued ==> AccessOk(c, Step(c, s, op).0, a)
  {
    var s' := Step(c, s, op).0;
    if op.Refresh? || op.Logout? { HolderIsOwn(c, s, op.token); }
    SerialIsFresh(c, s);
    forall a | a in s'.accessIssued ensures AccessOk(c, s', a) {
      if a in s.accessIssued { assert AccessOk(c, s, a); }
    }
  }

  lemma {:induction false} RunKeepsAccessOk(c: Config, s: Store, ops: seq<Op>)
    requires c.accessTtl as real <= SESSION_KEY_TTL && Inv(c, s)
    requires forall a :: a in s.accessIssued ==> AccessOk(c, s, a)
    ensures forall a :: a in Run(c, s, ops).accessIssued ==> AccessOk(c, Run(c, s, ops), a)
    decreases |ops|
  {
    if ops != [] {
      StepKeepsInv(c, s, ops[0]);
      StepKeepsAccessOk(c, s, ops[0]);
      RunKeepsAccessOk(c, Step(c, s, ops[0]).0, ops[1..]);
    }
  }

  /** The session key of a closed session is there for as long as any of its access tokens is
      unexpired, given that access tokens live no longer than the key's fixed thirty days. */
  lemma {:induction false} SessionKeyOutlivesAccessTokens(c: Config, ops: seq<Op>, a: AccessToken)
    requires c.accessTtl as real <= 2592000.0
    ensures var s := Run(c, EMPTY, ops);
            a in s.accessIssued && Revoked(s.sessions, a.sid) && s.now < a.exp as real ==>
              Live(s.revokedSession, a.sid, s.now)
  {
    RunKeepsAccessOk(c, EMPTY, ops);
    if a in Run(c, EMPTY, ops).accessIssued { assert AccessOk(c, Run(c, EMPTY, ops), a); }
  }

  /** The bound on the access lifetime is exact: any longer one lets a token outlive the key. */
  lemma {:induction false} LongAccessTokensOutliveKey(c: Config) returns (ops: seq<Op>, a: AccessToken)
    requires c.accessTtl as real > 2592000.0
    ensures var s := Run(c, EMPTY, ops);
            && a in s.accessIssued && Revoked(s.sessions, a.sid) && s.now < a.exp as real
            && !Live(s.revokedSession, a.sid, s.now)
  {
    a := NewAccess(c, 0.0, 2, 0, 0);
    ops := [Login(0), RevokeSession(0, 0), Wait(SESSION_KEY_TTL)];
    var s1 := Step(c, EMPTY, ops[0]).0;
    var s2 := Step(c, s1, ops[1]).0;
    assert ops[1..][1..] == [Wait(SESSION_KEY_TTL)];
    assert Run(c, EMPTY, ops) == Run(c, s1, ops[1..]) == Run(c, s2, [Wait(SESSION_KEY_TTL)]) == Step(c, s2, ops[2]).0;
  }

  // ---------- The handlers ----------

  /** The service's stores, updated in place by its handlers. */
  class AuthService {
    const config: Config
    var now: real
    var serial: nat
    var sessions: map<nat, SessionRow>
    var revokedJti: Expiries
    var revokedSession: Expiries
    var issued: map<nat, RefreshToken>
    var accessIssued: set<AccessToken>

    function View(): Store
      reads this
    {
      Store(now, serial, sessions, revokedJti, revokedSession, issued, accessIssued)
    }

    ghost predicate Valid()
      reads this
    {
      Inv(config, View())
    }

    constructor (config: Config)
      ensures this.config == config && Valid() && View() == EMPTY
    {
      this.config := config;
      now, serial, sessions, revokedJti, revokedSession, issued, accessIssued :=
        0.0, 0, map[], map[], map[], map[], {};
    }

    method Wait(dt: Duration)
      requires Valid()
      modifies this
      ensures Valid() && View() == Step(config, old(View()), Op.Wait(dt)).0
    {
      StepKeepsInv(config, View(), Op.Wait(dt));
      now := now + dt;
    }

    method MintRefresh(user: nat, sid: nat) returns (t: RefreshToken)
      modifies this`serial, this`issued
      ensures t == NewRefresh(config, now, old(serial), sid, user)
      ensures serial == old(serial) + 1 && issued == old(issued)[t.jti := t]
    {
      t := RefreshToken(serial, sid, user, now.Floor + config.refreshTtl);
      serial := serial + 1;
      issued := issued[t.jti := t];
    }

    method MintAccess(user: nat, sid: nat) returns (a: AccessToken)
      modifies this`serial, this`accessIssued
      ensures a == NewAccess(config, now, old(serial), sid, user)
      ensures serial == old(serial) + 1 && accessIssued == old(accessIssued) + {a}
    {
      a := AccessToken(serial, sid, user, now.Floor + config.accessTtl);
      serial := serial + 1;
      accessIssued := accessIssued + {a};
    }

    method IssueTokenPair(user: nat) returns (out: Outcome)
      requires Valid()
      modifies this
      ensures (View(), out) == Step(config, old(View()), Login(user))
      ensures Valid()
    {
      var sid := serial;
      serial := serial + 1;
      var t := MintRefresh(user, sid);
      var a := MintAccess(user, sid);
      sessions := sessions[sid := SessionRow(user, Sha256(t), t.jti, None)];
      out := Issued(t, a);
      assert (View(), out) == LoginStep(config, old(View()), user);
      StepKeepsInv(config, old(View()), Login(user));
    }

    /** The row whose unique hash column equals the digest, if there is one. */
    method FindByHash(h: Digest) returns (found: Option<nat>)
      ensures found.None? ==> forall sid :: sid in sessions ==> sessions[sid].refreshHash != h
      ensures found.Some? ==> found.value in sessions && sessions[found.value].refreshHash == h
    {
      if sid :| sid in sessions && sessions[sid].refreshHash == h {
        return Some(sid);
      }
      return None;
    }

    method RotateToken(t: RefreshToken, userActive: bool) returns (out: Outcome)
      requires Valid()
      modifies this
      ensures (View(), out) == Step(config, old(View()), Refresh(t, userActive))
      ensures Valid()
    {
      HolderIsOwn(config, View(), t);
      if !Decodes(config, View(), t) {
        return Undecodable;
      }
      var tx := sessions;  // rows as the open transaction sees them
      if Live(revokedJti, t.jti, now) {
        revokedSession := revokedSession[t.sid := now + SESSION_KEY_TTL];
        if t.sid in tx {
          tx := tx[t.sid := tx[t.sid].(revokedAt := Some(now))];
        }
        StepKeepsInv(config, old(View()), Refresh(t, userActive));
        return ReplayDetected;  // raising drops tx
      }
      var found := FindByHash(Sha256(t));
      if found.None? || tx[found.value].revokedAt.Some? {
        return SessionNotFound;
      }
      var sid := found.value;
      assert Holds(sessions, sid, t);
      if !userActive {
        return Deactivated;
      }
      revokedJti := revokedJti[t.jti := now + config.refreshTtl as real];
      var t' := MintRefresh(t.sub, t.sid);
      var a' := MintAccess(t.sub, t.sid);
      tx := tx[sid := tx[sid].(refreshHash := Sha256(t'))];
      tx := tx[sid := tx[sid].(refreshJti := t'.jti)];
      sessions := tx;
      out := Rotated(t, t', a');
      assert sessions == old(sessions)[sid := old(sessions)[sid].(refreshHash := Sha256(t'), refreshJti := t'.jti)];
      assert (View(), out) == Step(config, old(View()), Refresh(t, userActive));
      StepKeepsInv(config, old(View()), Refresh(t, userActive));
    }

    method Logout(t: RefreshToken)
      requires Valid()
      modifies this
      ensures View() == Step(config, old(View()), Op.Logout(t)).0
      ensures Valid()
    {
      HolderIsOwn(config, View(), t);
      if !Decodes(config, View(), t) {
        return;
      }
      var found := FindByHash(Sha256(t));
      if found.Some? && sessions[found.value].revokedAt.None? {
        assert Holds(sessions, found.value, t);
        sessions := sessions[found.value := sessions[found.value].(revokedAt := Some(now))];
        revokedSession := revokedSession[t.sid := now + SESSION_KEY_TTL];
        revokedJti := revokedJti[t.jti := now + LOGOUT_JTI_TTL];
      }
      assert View() == Step(config, old(View()), Op.Logout(t)).0;
      StepKeepsInv(config, old(View()), Op.Logout(t));
    }

    method CloseSessions(open: set<nat>)
      requires open <= sessions.Keys
      modifies this`sessions, this`revokedSession
      ensures sessions == RevokeAll(old(sessions), open, now)
      ensures revokedSession == MarkAll(old(revokedSession), open, now + SESSION_KEY_TTL)
    {
      var todo, done := open, {};
      while todo != {}
        invariant done + todo == open && done !! todo
        invariant sessions == RevokeAll(old(sessions), done, now)
        invariant revokedSession == MarkAll(old(revokedSession), done, now + SESSION_KEY_TTL)
        decreases todo
      {
        var sid :| sid in todo;
        sessions := sessions[sid := sessions[sid].(revokedAt := Some(now))];
        revokedSession := revokedSession[sid := now + SESSION_KEY_TTL];
        todo, done := todo - {sid}, done + {sid};
      }
      assert done == open;
    }

    method LogoutAll(user: nat)
      requires Valid()
      modifies this
      ensures Valid() && View() == Step(config, old(View()), Op.LogoutAll(user)).0
    {
      var open := set sid | sid in sessions && sessions[sid].userId == user && sessions[sid].revokedAt.None?;
      CloseSessions(open);
      assert open == OpenSessions(old(sessions), user);
      assert View() == Step(config, old(View()), Op.LogoutAll(user)).0;
      StepKeepsInv(config, old(View()), Op.LogoutAll(user));
    }

    method RevokeSession(sid: nat, user: nat) returns (out: Outcome)
      requires Valid()
      modifies this
      ensures Valid() && (View(), out) == Step(config, old(View()), Op.RevokeSession(sid, user))
    {
      StepKeepsInv(config, View(), Op.RevokeSession(sid, user));
      if sid !in sessions {
        return SessionNotFound;
      }
      if sessions[sid].userId != user {
        return Forbidden;
      }
      sessions := sessions[sid := sessions[sid].(revokedAt := Some(now))];
      revokedSession := revokedSession[sid := now + SESSION_KEY_TTL];
      out := Done;
    }
  }
}
