/** Sign-in with a password, and the lock an account gets after too many wrong ones. Times are
    whole microseconds, as `datetime` keeps them. */
module Authentication {
  import opened Common

  /** How many wrong passwords lock an account, and for how long; a threshold of 0 never does. */
  datatype Lockout = Lockout(threshold: int, lockTime: int)

  datatype Account = Account(failedLogins: nat, lockedUntil: Option<int>, active: bool, lastLogin: Option<int>)

  const NEW_ACCOUNT: Account := Account(0, None, true, None)

  datatype Answer = SignedIn | InvalidCredentials | AccountLocked | AccountDisabled

  predicate IsLocked(a: Account, now: int) {
    a.lockedUntil.Some? && a.lockedUntil.value > now
  }

  predicate Enforced(policy: Option<Lockout>) {
    policy.Some? && policy.value.threshold > 0
  }

  /** A wrong password, or a wrong second factor, is counted and may lock the account. */
  function Failed(a: Account, policy: Option<Lockout>, now: int): Account {
    var b := a.(failedLogins := a.failedLogins + 1);
    if Enforced(policy) && b.failedLogins >= policy.value.threshold && !IsLocked(b, now)
    then b.(lockedUntil := Some(now + policy.value.lockTime)) else b
  }

  /** A password attempt: the account afterwards and what the caller is told. */
  function Attempted(a: Account, policy: Option<Lockout>, passwordOk: bool, now: int): (Account, Answer) {
    if IsLocked(a, now) then (a, AccountLocked)
    else if !passwordOk then (Failed(a, policy, now), InvalidCredentials)
    else if !a.active then (a, AccountDisabled)
    else (a.(lastLogin := Some(now)), SignedIn)
  }

  class User {
    var failedLogins: nat
    var lockedUntil: Option<int>
    var isActive: bool
    var lastLogin: Option<int>

    ghost function State(): Account
      reads this
    {
      Account(failedLogins, lockedUntil, isActive, lastLogin)
    }

    constructor ()
      ensures State() == NEW_ACCOUNT
    {
      failedLogins, lockedUntil, isActive, lastLogin := 0, None, true, None;
    }

    method RegisterFailure(policy: Option<Lockout>, now: int) returns (locked: bool)
      modifies this
      ensures State() == Failed(old(State()), policy, now)
      ensures locked <==> !IsLocked(old(State()), now) && Enforced(policy) && failedLogins >= policy.value.threshold
    {
      failedLogins := failedLogins + 1;
      if policy.None? || policy.value.threshold <= 0 || failedLogins < policy.value.threshold { return false; }
      if lockedUntil.Some? && lockedUntil.value > now { return false; }
      lockedUntil := Some(now + policy.value.lockTime);
      locked := true;
    }

    method RegisterSuccess()
      modifies this
      ensures State() == old(State()).(failedLogins := 0, lockedUntil := None)
    {
      failedLogins, lockedUntil := 0, None;
    }

    method Authenticate(policy: Option<Lockout>, passwordOk: bool, now: int) returns (answer: Answer)
      modifies this
      ensures (State(), answer) == Attempted(old(State()), policy, passwordOk, now)
    {
      if lockedUntil.Some? && lockedUntil.value > now { return AccountLocked; }
      if !passwordOk {
        var _ := RegisterFailure(policy, now);
        return InvalidCredentials;
      }
      if !isActive { return AccountDisabled; }
      lastLogin := Some(now);
      answer := SignedIn;
    }
  }

  /** A sign-in by name; `null` when nobody has that name. An unknown name is answered like a wrong
      password and touches no account. */
  method SignIn(user: User?, policy: Option<Lockout>, passwordOk: bool, now: int) returns (answer: Answer)
    modifies user
    ensures user == null ==> answer == InvalidCredentials
    ensures user != null ==> (user.State(), answer) == Attempted(old(user.State()), policy, passwordOk, now)
  {
    if user == null { return InvalidCredentials; }
    answer := user.Authenticate(policy, passwordOk, now);
  }

  // ---- Runs without a success or an unlock --------------------------------------------------

  datatype Event = Password(ok: bool, now: int) | SecondFactorFailed(now: int)

  ghost function After(a: Account, policy: Option<Lockout>, run: seq<Event>): Account {
    if run == [] then a else
    var b := After(a, policy, DropLast(run));
    match Last(run)
    case Password(ok, now) => Attempted(b, policy, ok, now).0
    case SecondFactorFailed(now) => Failed(b, policy, now)
  }

  /** The run's last event was a password answered as wrong. */
  ghost predicate SaidWrong(a: Account, policy: Option<Lockout>, run: seq<Event>)
    requires run != []
  {
    var e := Last(run);
    e.Password? && Attempted(After(a, policy, DropLast(run)), policy, e.ok, e.now).1 == InvalidCredentials
  }

  /** How many passwords of the run were answered as wrong. */
  ghost function Guesses(a: Account, policy: Option<Lockout>, run: seq<Event>): nat {
    if run == [] then 0 else
    Guesses(a, policy, DropLast(run)) + if SaidWrong(a, policy, run) then 1 else 0
  }

  /** ... and how many of them came when the count had already reached the threshold. */
  ghost function LateGuesses(a: Account, p: Lockout, run: seq<Event>): nat {
    if run == [] then 0 else
    LateGuesses(a, p, DropLast(run)) +
    if SaidWrong(a, Some(p), run) && After(a, Some(p), run).failedLogins >= p.threshold then 1 else 0
  }

  /** Times do not run backwards and lie in `[start, start + length]`. */
  ghost predicate Within(run: seq<Event>, start: int, length: nat) {
    && (forall i, j :: 0 <= i < j < |run| ==> run[i].now <= run[j].now)
    && (forall i :: 0 <= i < |run| ==> start <= run[i].now <= start + length)
  }

  lemma WithinPrefix(run: seq<Event>, start: int, length: nat)
    requires run != [] && Within(run, start, length)
    ensures Within(DropLast(run), start, length)
  {
  }

  /** Early guesses each raise the count towards the threshold; a late one needs the account
      unlocked and locks it again. */
  ghost predicate Tally(a: Account, p: Lockout, run: seq<Event>, start: int) {
    var b, late := After(a, Some(p), run), LateGuesses(a, p, run);
    && Guesses(a, Some(p), run) <= Min(b.failedLogins, p.threshold - 1) + late
    && (late > 0 ==> b.lockedUntil.Some? && b.lockedUntil.value >= start + late * p.lockTime)
  }

  lemma FailedFacts(a: Account, p: Lockout, now: int)
    requires p.threshold >= 1 && p.lockTime >= 1
    ensures var b := Failed(a, Some(p), now);
            && b.failedLogins == a.failedLogins + 1
            && (a.lockedUntil.Some? ==> b.lockedUntil.Some? && b.lockedUntil.value >= a.lockedUntil.value)
            && (!IsLocked(a, now) ==>
                  b.lockedUntil == if b.failedLogins >= p.threshold then Some(now + p.lockTime) else a.lockedUntil)
  {
  }

  lemma TallyStep(a: Account, p: Lockout, run: seq<Event>, start: int)
    requires p.threshold >= 1 && p.lockTime >= 1 && run != [] && start <= Last(run).now
    requires Tally(a, p, DropLast(run), start)
    ensures Tally(a, p, run, start)
  {
    var b, e, late := After(a, Some(p), DropLast(run)), Last(run), LateGuesses(a, p, DropLast(run));
    FailedFacts(b, p, e.now);
    if SaidWrong(a, Some(p), run) {
      assert After(a, Some(p), run) == Failed(b, Some(p), e.now);
      assert (late + 1) * p.lockTime == late * p.lockTime + p.lockTime;
      if late > 0 { assert e.now >= b.lockedUntil.value; }
    }
  }

  lemma {:induction false} TallyHolds(a: Account, p: Lockout, run: seq<Event>, start: int, length: nat)
    requires p.threshold >= 1 && p.lockTime >= 1 && Within(run, start, length)
    ensures Tally(a, p, run, start)
  {
    if run != [] {
      WithinPrefix(run, start, length);
      TallyHolds(a, p, DropLast(run), start, length);
      TallyStep(a, p, run, start);
    }
  }

  /** The last late guess was made before the run ended. */
  lemma {:induction false} LateGuessesFit(a: Account, p: Lockout, run: seq<Event>, start: int, length: nat)
    requires p.threshold >= 1 && p.lockTime >= 1 && Within(run, start, length)
    requires LateGuesses(a, p, run) > 0
    ensures (LateGuesses(a, p, run) - 1) * p.lockTime <= length
  {
    WithinPrefix(run, start, length);
    var init, late := DropLast(run), LateGuesses(a, p, DropLast(run));
    if late == LateGuesses(a, p, run) {
      LateGuessesFit(a, p, init, start, length);
    } else {
      TallyHolds(a, p, init, start, length);
      assert late == LateGuesses(a, p, run) - 1;
      if late > 0 {
        assert Last(run).now >= After(a, Some(p), init).lockedUntil.value;
      }
    }
  }

  lemma MulMonotone(a: int, b: int, d: nat)
    requires a <= b
    ensures a * d <= b * d
  {
  }

  lemma QuotientBound(k: nat, d: nat, n: nat)
    requires d >= 1 && k * d <= n
    ensures k <= n / d
  {
    var q := n / d;
    assert n < q * d + d;
    if q + 1 <= k {
      MulMonotone(q + 1, k, d);
    }
  }

  /** Main result. However the account starts out, in a run of length T at most
      threshold + T / lockTime wrong passwords are answered as wrong; the rest are told that
      the account is locked. */
  lemma GuessBound(a: Account, p: Lockout, run: seq<Event>, start: int, length: nat)
    requires p.threshold >= 1 && p.lockTime >= 1 && Within(run, start, length)
    ensures Guesses(a, Some(p), run) <= p.threshold + length / p.lockTime
  {
    TallyHolds(a, p, run, start, length);
    var late := LateGuesses(a, p, run);
    if late > 0 {
      LateGuessesFit(a, p, run, start, length);
      QuotientBound(late - 1, p.lockTime, length);
    }
  }

  /** `n` wrong guesses at once. */
  ghost function Burst(n: nat): seq<Event> {
    if n == 0 then [] else Burst(n - 1) + [Password(false, 0)]
  }

  /** The guesses that get the most out of the policy: the threshold at once, then one each
      time the lock lapses. */
  ghost function Patient(p: Lockout, extra: nat): seq<Event>
    requires p.threshold >= 1
    decreases extra
  {
    if extra == 0 then Burst(p.threshold) else Patient(p, extra - 1) + [Password(false, extra * p.lockTime)]
  }

  /** One more wrong guess at a moment when the account is not locked. */
  lemma OneMoreGuess(p: Lockout, run: seq<Event>, now: int)
    requires !IsLocked(After(NEW_ACCOUNT, Some(p), run), now)
    ensures var more := run + [Password(false, now)];
            && Guesses(NEW_ACCOUNT, Some(p), more) == Guesses(NEW_ACCOUNT, Some(p), run) + 1
            && After(NEW_ACCOUNT, Some(p), more) == Failed(After(NEW_ACCOUNT, Some(p), run), Some(p), now)
  {
    assert DropLast(run + [Password(false, now)]) == run;
  }

  lemma {:induction false} BurstGuesses(p: Lockout, n: nat)
    requires p.threshold >= n && p.threshold >= 1 && p.lockTime >= 1
    ensures var b := After(NEW_ACCOUNT, Some(p), Burst(n));
            && Guesses(NEW_ACCOUNT, Some(p), Burst(n)) == n && b.failedLogins == n
            && b.lockedUntil == if n == p.threshold then Some(p.lockTime) else None
    ensures forall i :: 0 <= i < |Burst(n)| ==> Burst(n)[i].now == 0
  {
    if n > 0 {
      BurstGuesses(p, n - 1);
      OneMoreGuess(p, Burst(n - 1), 0);
      FailedFacts(After(NEW_ACCOUNT, Some(p), Burst(n - 1)), p, 0);
    }
  }

  lemma {:induction false} PatientGuesses(p: Lockout, extra: nat)
    requires p.threshold >= 1 && p.lockTime >= 1
    ensures var run := Patient(p, extra);
            && Guesses(NEW_ACCOUNT, Some(p), run) == p.threshold + extra
            && After(NEW_ACCOUNT, Some(p), run).failedLogins >= p.threshold
            && After(NEW_ACCOUNT, Some(p), run).lockedUntil == Some((extra + 1) * p.lockTime)
    decreases extra
  {
    if extra == 0 {
      BurstGuesses(p, p.threshold);
    } else {
      PatientGuesses(p, extra - 1);
      OneMoreGuess(p, Patient(p, extra - 1), extra * p.lockTime);
      assert (extra + 1) * p.lockTime == extra * p.lockTime + p.lockTime;
    }
  }

  lemma {:induction false} PatientTimes(p: Lockout, extra: nat)
    requires p.threshold >= 1 && p.lockTime >= 1
    ensures Within(Patient(p, extra), 0, extra * p.lockTime)
    decreases extra
  {
    if extra == 0 {
      BurstGuesses(p, p.threshold);
    } else {
      PatientTimes(p, extra - 1);
      MulMonotone(extra - 1, extra, p.lockTime);
    }
  }

  lemma DivideDown(n: nat, d: nat)
    requires d >= 1
    ensures (n / d) * d <= n
  {
  }

  /** The bound is attained: it cannot be improved for any length of run. */
  lemma GuessBoundAttained(p: Lockout, length: nat) returns (run: seq<Event>)
    requires p.threshold >= 1 && p.lockTime >= 1
    ensures Within(run, 0, length)
    ensures Guesses(NEW_ACCOUNT, Some(p), run) == p.threshold + length / p.lockTime
  {
    var extra := length / p.lockTime;
    run := Patient(p, extra);
    PatientGuesses(p, extra);
    PatientTimes(p, extra);
    DivideDown(length, p.lockTime);
  }

  /** While an account is locked every password, right or wrong, is answered the same, and
      none of them changes the account. */
  lemma {:induction false} LockedRefusesAll(a: Account, policy: Option<Lockout>, run: seq<Event>)
    requires a.lockedUntil.Some?
    requires forall i :: 0 <= i < |run| ==> run[i].Password? && run[i].now < a.lockedUntil.value
    ensures After(a, policy, run) == a
    ensures run != [] ==>
              Attempted(After(a, policy, DropLast(run)), policy, Last(run).ok, Last(run).now).1 == AccountLocked
  {
    if run != [] {
      assert forall i :: 0 <= i < |DropLast(run)| ==> DropLast(run)[i] == run[i];
      LockedRefusesAll(a, policy, DropLast(run));
    }
  }

  // ---- One attempt, and when accounts lock ------------------------------------------------------------

  /** Main result: the answer to a password and what it does, told from the account before. While the lock
      lasts nothing is checked or changed; a wrong password is counted, and locks from the threshold on; a
      right one signs in who is active. */
  lemma AttemptIs(a: Account, policy: Option<Lockout>, ok: bool, now: int)
    ensures var (b, answer) := Attempted(a, policy, ok, now);
            if a.lockedUntil.Some? && now < a.lockedUntil.value then b == a && answer == AccountLocked
            else if ok then
              && answer == (if a.active then SignedIn else AccountDisabled)
              && b.failedLogins == a.failedLogins && b.lockedUntil == a.lockedUntil && b.active == a.active
              && b.lastLogin == (if a.active then Some(now) else a.lastLogin)
            else
              && answer == InvalidCredentials && b.failedLogins == a.failedLogins + 1
              && b.lockedUntil == (if policy.Some? && 1 <= policy.value.threshold <= a.failedLogins + 1
                                   then Some(now + policy.value.lockTime) else a.lockedUntil)
              && b.active == a.active && b.lastLogin == a.lastLogin
  {
  }

  /** A wrong second factor counts like a wrong password, also while the lock lasts, but then it does not
      make the lock longer. */
  lemma SecondFactorIs(a: Account, policy: Option<Lockout>, now: int)
    ensures var b := Failed(a, policy, now);
            && b.failedLogins == a.failedLogins + 1 && b.active == a.active && b.lastLogin == a.lastLogin
            && b.lockedUntil ==
               if a.lockedUntil.Some? && now < a.lockedUntil.value then a.lockedUntil
               else if policy.Some? && 1 <= policy.value.threshold <= a.failedLogins + 1
               then Some(now + policy.value.lockTime) else a.lockedUntil
  {
  }

  /** Wrong passwords in a row lock an account if and only if there is a policy whose threshold they reach,
      together with those counted before. */
  lemma {:induction false} LocksIff(a: Account, policy: Option<Lockout>, run: seq<Event>)
    requires a.lockedUntil.None? && run != []
    requires forall i :: 0 <= i < |run| ==> run[i].Password? && !run[i].ok
    ensures After(a, policy, run).lockedUntil.Some?
       <==> policy.Some? && 1 <= policy.value.threshold <= a.failedLogins + |run|
    ensures After(a, policy, run).lockedUntil.None? ==> After(a, policy, run).failedLogins == a.failedLogins + |run|
  {
    var init := DropLast(run);
    assert forall i :: 0 <= i < |init| ==> init[i] == run[i];
    if init == [] {
      assert After(a, policy, init) == a;
    } else {
      LocksIff(a, policy, init);
    }
    AttemptIs(After(a, policy, init), policy, false, Last(run).now);
  }

  /** A new account is active and has no failures. */
  lemma NewAccountSignsIn(policy: Option<Lockout>, now: int)
    ensures Attempted(NEW_ACCOUNT, policy, true, now).1 == SignedIn && NEW_ACCOUNT.failedLogins == 0
  {
  }
}
