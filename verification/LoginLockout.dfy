/** Brute-force protection of auth-svc for one (email, ip): a failure counter and a lock in Redis
    with coupled expiries, and the order in which the login handler uses them. */
module LoginLockout {
  import opened Basics

  const MAX_ATTEMPTS := 10
  const WINDOW := 900.0
  const LOCKOUT := 900.0

  datatype Counter = Counter(count: nat, expiresAt: real)

  datatype Guard = Guard(attempts: Option<Counter>, lockedUntil: Option<real>)

  /** What the password step of an attempt that is not locked out finds. */
  datatype Credentials = Wrong | Deactivated | Right

  datatype Attempt = Attempt(at: real, credentials: Credentials)

  datatype Answer = Locked | Invalid | BackOff(seconds: nat) | NowLocked | AccountOff | LoggedIn

  // ---------- Specification ----------

  predicate IsLocked(g: Guard, at: real) {
    g.lockedUntil.Some? && at < g.lockedUntil.value
  }

  /** Failures the live counter shows; an expired one starts over. */
  function Failures(g: Guard, at: real): nat {
    if g.attempts.Some? && at < g.attempts.value.expiresAt then g.attempts.value.count else 0
  }

  function Pow2(n: nat): nat {
    if n == 0 then 1 else 2 * Pow2(n - 1)
  }

  function Record(g: Guard, at: real): Guard {
    var count := Failures(g, at) + 1;
    Guard(Some(Counter(count, at + WINDOW)),
          if count >= MAX_ATTEMPTS then Some(at + LOCKOUT) else g.lockedUntil)
  }

  function RecordAnswer(count: nat): Answer {
    if count >= MAX_ATTEMPTS then NowLocked
    else if count >= 5 then BackOff(if Pow2(count - 5) <= 60 then Pow2(count - 5) else 60)
    else Invalid
  }

  /** An attempt counts as a recorded failure when it got past the lock with a wrong password. */
  predicate Records(g: Guard, a: Attempt) {
    !IsLocked(g, a.at) && a.credentials == Wrong
  }

  predicate Clears(g: Guard, a: Attempt) {
    !IsLocked(g, a.at) && a.credentials == Right
  }

  /** The guard after an attempt. */
  function After(g: Guard, a: Attempt): Guard {
    if Records(g, a) then Record(g, a.at) else if Clears(g, a) then FRESH else g
  }

  function Answered(g: Guard, a: Attempt): Answer {
    if IsLocked(g, a.at) then Locked
    else match a.credentials
      case Deactivated => AccountOff
      case Wrong => RecordAnswer(Failures(g, a.at) + 1)
      case Right => LoggedIn
  }

  const FRESH := Guard(None, None)

  /** The guard as attempt i of a run finds it. */
  function GuardAt(attempts: seq<Attempt>, i: nat): Guard
    requires i <= |attempts|
  {
    if i == 0 then FRESH else After(GuardAt(attempts, i - 1), attempts[i - 1])
  }

  predicate Failed(attempts: seq<Attempt>, k: nat)
    requires k < |attempts|
  {
    Records(GuardAt(attempts, k), attempts[k])
  }

  predicate Succeeded(attempts: seq<Attempt>, k: nat)
    requires k < |attempts|
  {
    Clears(GuardAt(attempts, k), attempts[k])
  }

  /** Recorded failures among the attempts from i up to and not including j. */
  function Recorded(attempts: seq<Attempt>, i: nat, j: nat): nat
    requires i <= j <= |attempts|
  {
    if i == j then 0
    else Recorded(attempts, i, j - 1) + (if Failed(attempts, j - 1) then 1 else 0)
  }

  ghost predicate InOrder(attempts: seq<Attempt>) {
    forall i, j :: 0 <= i <= j < |attempts| ==> attempts[i].at <= attempts[j].at
  }

  // ---------- Invariant ----------

  /** The counter is at most ten, and at ten the lock lives exactly as long as the counter. */
  predicate Inv(g: Guard) {
    g.attempts.Some? ==>
      && 1 <= g.attempts.value.count <= MAX_ATTEMPTS
      && (g.attempts.value.count == MAX_ATTEMPTS ==> g.lockedUntil == Some(g.attempts.value.expiresAt))
  }

  lemma {:induction false} GuardInv(attempts: seq<Attempt>, i: nat)
    requires i <= |attempts|
    ensures Inv(GuardAt(attempts, i))
    decreases i
  {
    if i > 0 { GuardInv(attempts, i - 1); }
  }

  lemma {:induction false} BackOffSeconds(count: nat)
    requires 5 <= count < MAX_ATTEMPTS
    ensures RecordAnswer(count) == BackOff(Pow2(count - 5)) && Pow2(count - 5) <= 16
  {
    assert Pow2(0) == 1 && Pow2(1) == 2 && Pow2(2) == 4 && Pow2(3) == 8 && Pow2(4) == 16;
    assert count - 5 in {0, 1, 2, 3, 4};
  }

  lemma {:induction false} AttemptFromInv(g: Guard, a: Attempt)
    requires Inv(g)
    ensures var g', answer, count := After(g, a), Answered(g, a), Failures(g, a.at) + 1;
            && Inv(g')
            && (answer == NowLocked <==> Records(g, a) && g'.attempts.value.count == MAX_ATTEMPTS)
            && (answer.BackOff? ==> 5 <= count < MAX_ATTEMPTS && answer.seconds == Pow2(count - 5) <= 16)
  {
    var count := Failures(g, a.at) + 1;
    if 5 <= count < MAX_ATTEMPTS { BackOffSeconds(count); }
  }

  /** In any run the counter never exceeds ten, whatever the clock does; the failure that makes it ten
      is the one that locks, and the advised back-off never reaches its cap of 60 seconds. */
  lemma {:induction false} CounterNeverExceedsTen(attempts: seq<Attempt>, i: nat)
    requires i < |attempts|
    ensures var g, a := GuardAt(attempts, i), attempts[i];
            var answer, count := Answered(g, a), Failures(g, a.at) + 1;
            var after := GuardAt(attempts, i + 1).attempts;
            && (after.Some? ==> after.value.count <= 10)
            && (answer == NowLocked <==> Failed(attempts, i) && after.value.count == 10)
            && (answer.BackOff? ==> 5 <= count < 10 && answer.seconds == Pow2(count - 5) <= 16)
  {
    GuardInv(attempts, i);
    AttemptFromInv(GuardAt(attempts, i), attempts[i]);
  }

  // ---------- Sliding window ----------

  lemma {:induction false} CountedOn(g: Guard, a: Attempt, end: real)
    requires Inv(g) && g.attempts.Some? && end <= g.attempts.value.expiresAt
    requires end - WINDOW <= a.at < end && !Clears(g, a)
    ensures var g' := After(g, a);
            && g'.attempts.Some? && end <= g'.attempts.value.expiresAt
            && g'.attempts.value.count == g.attempts.value.count + (if Records(g, a) then 1 else 0)
            && Inv(g')
  {
  }

  /** Within less than a window after the failure at i, with no success since: the counter still
      shows every failure recorded, so at most ten were. */
  lemma {:induction false} WindowCounts(attempts: seq<Attempt>, i: nat, j: nat)
    requires i < j <= |attempts| && InOrder(attempts)
    requires Failed(attempts, i)
    requires forall k :: i <= k < j ==> !Succeeded(attempts, k)
    requires attempts[j - 1].at < attempts[i].at + WINDOW
    ensures var g := GuardAt(attempts, j);
            && g.attempts.Some? && g.attempts.value.expiresAt >= attempts[i].at + WINDOW
            && Recorded(attempts, i, j) <= g.attempts.value.count <= MAX_ATTEMPTS
    decreases j
  {
    GuardInv(attempts, j - 1);
    if j == i + 1 {
      assert Recorded(attempts, i, i) == 0;
    } else {
      WindowCounts(attempts, i, j - 1);
      assert !Succeeded(attempts, j - 1);
      CountedOn(GuardAt(attempts, j - 1), attempts[j - 1], attempts[i].at + WINDOW);
    }
  }

  /** Any stretch of attempts that begins with a recorded failure, has no success in it and contains
      eleven recorded failures spans at least 900 seconds. */
  lemma {:induction false} ElevenFailuresSpanWindow(attempts: seq<Attempt>, i: nat, j: nat)
    requires i <= j < |attempts| && InOrder(attempts)
    requires Failed(attempts, i)
    requires forall k :: i <= k <= j ==> !Succeeded(attempts, k)
    requires Recorded(attempts, i, j + 1) >= 11
    ensures attempts[j].at - attempts[i].at >= 900.0
  {
    if attempts[j].at < attempts[i].at + WINDOW { WindowCounts(attempts, i, j + 1); }
  }

  lemma {:induction false} TenAtOnce(attempts: seq<Attempt>, k: nat)
    requires |attempts| == 11 && k <= 10
    requires forall i :: 0 <= i < 10 ==> attempts[i] == Attempt(0.0, Wrong)
    ensures GuardAt(attempts, k) ==
            if k == 0 then FRESH
            else Guard(Some(Counter(k, 900.0)), if k == 10 then Some(900.0) else None)
    decreases k
  {
    if k > 0 { TenAtOnce(attempts, k - 1); }
  }

  /** The bound is tight: ten failures at one instant and an eleventh 900 seconds later are all
      recorded. */
  lemma {:induction false} ElevenFailuresInExactlyWindow() returns (attempts: seq<Attempt>)
    ensures |attempts| == 11 && InOrder(attempts)
    ensures forall k :: 0 <= k < 11 ==> Failed(attempts, k)
    ensures attempts[10].at - attempts[0].at == 900.0
  {
    attempts := seq(10, _ => Attempt(0.0, Wrong)) + [Attempt(900.0, Wrong)];
    TenAtOnce(attempts, 10);
    forall k | 0 <= k < 11 ensures Failed(attempts, k) { TenAtOnce(attempts, k); }
  }

  /** After the failure that locks, every attempt in the next 900 seconds is refused as locked, right
      password or not, and leaves the guard as it is. */
  lemma {:induction false} LockHolds(attempts: seq<Attempt>, i: nat, j: nat)
    requires i < j < |attempts| && InOrder(attempts)
    requires Answered(GuardAt(attempts, i), attempts[i]) == NowLocked
    requires attempts[j].at < attempts[i].at + 900.0
    ensures Answered(GuardAt(attempts, j), attempts[j]) == Locked
    ensures GuardAt(attempts, j + 1) == GuardAt(attempts, i + 1)
    decreases j
  {
    if i + 1 < j { LockHolds(attempts, i, j - 1); }
  }

  // ---------- Answers ----------

  /** Who gets in, in every state of the guard: exactly the right password of an active account while the
      lock is not live, and that forgets all failures; a deactivated account and a locked-out attempt
      leave the guard as it is. */
  lemma {:induction false} WhoGetsIn(g: Guard, a: Attempt)
    ensures var locked := g.lockedUntil.Some? && a.at < g.lockedUntil.value;
            && (Answered(g, a) == LoggedIn <==> !locked && a.credentials == Right)
            && (Answered(g, a) == Locked <==> locked)
            && (Answered(g, a) == AccountOff <==> !locked && a.credentials == Deactivated)
            && (Answered(g, a) == LoggedIn ==> After(g, a) == Guard(None, None))
            && (locked || a.credentials == Deactivated ==> After(g, a) == g)
  {
  }

  /** Wrong passwords with gaps of less than 900 seconds, from a fresh guard on: four plain refusals,
      back-offs of 1, 2, 4, 8 and 16 seconds, and the tenth locks for 900 seconds. */
  lemma {:induction false} WrongInARow(attempts: seq<Attempt>, k: nat)
    requires k < 10 <= |attempts|
    requires forall i :: 0 <= i < 10 ==> attempts[i].credentials == Wrong
    requires forall i :: 0 <= i < 9 ==> attempts[i].at <= attempts[i + 1].at < attempts[i].at + 900.0
    ensures Answered(GuardAt(attempts, k), attempts[k]) ==
            [Invalid, Invalid, Invalid, Invalid,
             BackOff(1), BackOff(2), BackOff(4), BackOff(8), BackOff(16), NowLocked][k]
    ensures GuardAt(attempts, k + 1) ==
            Guard(Some(Counter(k + 1, attempts[k].at + 900.0)), if k == 9 then Some(attempts[k].at + 900.0) else None)
    decreases k
  {
    if k > 0 { WrongInARow(attempts, k - 1); }
    assert Pow2(0) == 1 && Pow2(1) == 2 && Pow2(2) == 4 && Pow2(3) == 8 && Pow2(4) == 16;
  }

  /** A gap of 900 seconds starts the count over. */
  lemma {:induction false} GapStartsOver(g: Guard, a: Attempt)
    requires a.credentials == Wrong && (g.lockedUntil.Some? ==> g.lockedUntil.value <= a.at)
    requires g.attempts.Some? ==> g.attempts.value.expiresAt <= a.at
    ensures Answered(g, a) == Invalid && After(g, a) == Guard(Some(Counter(1, a.at + 900.0)), g.lockedUntil)
  {
  }

  // ---------- The service ----------

  class BruteForceGuard {
    var attempts: Option<Counter>
    var lockedUntil: Option<real>

    function View(): Guard
      reads this
    {
      Guard(attempts, lockedUntil)
    }

    constructor ()
      ensures View() == FRESH
    {
      attempts, lockedUntil := None, None;
    }

    method CheckLoginLocked(at: real) returns (locked: bool)
      ensures locked <==> IsLocked(View(), at)
    {
      locked := lockedUntil.Some? && at < lockedUntil.value;
    }

    method RecordFailedLogin(at: real) returns (answer: Answer)
      modifies this
      ensures View() == Record(old(View()), at)
      ensures answer == RecordAnswer(Failures(old(View()), at) + 1)
    {
      if attempts.None? || attempts.value.expiresAt <= at {
        attempts := Some(Counter(1, at));  // INCR on a missing key
      } else {
        attempts := Some(attempts.value.(count := attempts.value.count + 1));
      }
      attempts := Some(attempts.value.(expiresAt := at + WINDOW));
      var count := attempts.value.count;
      if count >= MAX_ATTEMPTS {
        lockedUntil := Some(at + LOCKOUT);
        return NowLocked;
      }
      if count >= 5 {
        var backoff := Pow2(count - 5);
        return BackOff(if backoff <= 60 then backoff else 60);
      }
      answer := Invalid;
    }

    method ClearFailedLogins()
      modifies this
      ensures View() == FRESH
    {
      attempts, lockedUntil := None, None;
    }

    method LoginEmail(a: Attempt) returns (answer: Answer)
      modifies this
      ensures View() == After(old(View()), a) && answer == Answered(old(View()), a)
    {
      var locked := CheckLoginLocked(a.at);
      if locked {
        return Locked;
      }
      match a.credentials
      case Wrong => answer := RecordFailedLogin(a.at);
      case Deactivated => answer := AccountOff;
      case Right =>
        ClearFailedLogins();
        answer := LoggedIn;
    }
  }
}
