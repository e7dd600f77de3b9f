/** The failed-login counter and the thirty-minute account lock. */
module AuthLockout {
  import opened Common

  const MAX_FAILED_ATTEMPTS: nat := 5
  const LOCKOUT_DURATION_MS: nat := 1_800_000

  datatype Account = Account(failedCount: nat, lockedUntil: Option<int>)

  /** One wrong-password login: when the guard looked at the clock, when the failure was written, and
      whether the account was active and its email verified then. */
  datatype Attempt = Attempt(check: int, fail: int, active: bool, verified: bool)

  predicate IsLocked(a: Account, now: int) {
    a.lockedUntil.Some? && a.lockedUntil.value > now
  }

  /** The password is compared only if the guard lets the attempt through. */
  predicate Evaluated(a: Account, t: Attempt) {
    t.active && !IsLocked(a, t.check) && t.verified
  }

  function Failed(a: Account, now: int): Account {
    var count := a.failedCount + 1;
    Account(count, if count >= MAX_FAILED_ATTEMPTS then Some(now + LOCKOUT_DURATION_MS) else a.lockedUntil)
  }

  function After(a: Account, t: Attempt): Account {
    if Evaluated(a, t) then Failed(a, t.fail) else a
  }

  /** The times of the password comparisons in a run of attempts. */
  function Evaluations(a: Account, attempts: seq<Attempt>): seq<int>
    decreases |attempts|
  {
    if attempts == [] then []
    else
      var t := attempts[0];
      (if Evaluated(a, t) then [t.check] else []) + Evaluations(After(a, t), attempts[1..])
  }

  /** Attempts follow each other: each is over before the next begins. */
  ghost predicate Serial(attempts: seq<Attempt>) {
    && (forall i :: 0 <= i < |attempts| ==> attempts[i].check <= attempts[i].fail)
    && (forall i, j :: 0 <= i < j < |attempts| ==> attempts[i].fail <= attempts[j].check)
  }

  ghost predicate AllFrom(e: seq<int>, lo: int) {
    forall i :: 0 <= i < |e| ==> lo <= e[i]
  }

  ghost predicate Ascending(e: seq<int>) {
    forall i, j :: 0 <= i < j < |e| ==> e[i] <= e[j]
  }

  lemma StepEvaluations(a: Account, attempts: seq<Attempt>)
    requires attempts != []
    ensures var t, e := attempts[0], Evaluations(After(a, attempts[0]), attempts[1..]);
            Evaluations(a, attempts) == if Evaluated(a, t) then [t.check] + e else e
  {
  }

  /** Comparisons come in time order, not before `lo` if no attempt does, and not before a standing lock ends. */
  lemma {:induction false} EvaluationsOrdered(a: Account, attempts: seq<Attempt>, lo: int)
    requires Serial(attempts) && (attempts != [] ==> lo <= attempts[0].check)
    ensures var e := Evaluations(a, attempts);
            Ascending(e) && AllFrom(e, lo) && (a.lockedUntil.Some? ==> AllFrom(e, a.lockedUntil.value))
    decreases |attempts|
  {
    if attempts != [] {
      var t, rest := attempts[0], attempts[1..];
      StepEvaluations(a, attempts);
      assert rest != [] ==> t.check <= t.fail <= rest[0].check;
      EvaluationsOrdered(After(a, t), rest, t.check);
    }
  }

  /** From the fifth failure on, any two comparisons are at least thirty minutes apart. */
  lemma {:induction false} LockSpacesEvaluations(a: Account, attempts: seq<Attempt>)
    requires Serial(attempts)
    ensures var e := Evaluations(a, attempts);
            forall i, j :: 0 <= i < j < |e| && a.failedCount + i + 1 >= MAX_FAILED_ATTEMPTS ==>
              e[j] >= e[i] + LOCKOUT_DURATION_MS
    decreases |attempts|
  {
    if attempts != [] {
      var t, rest := attempts[0], attempts[1..];
      StepEvaluations(a, attempts);
      LockSpacesEvaluations(After(a, t), rest);
      if Evaluated(a, t) {
        assert rest != [] ==> t.fail <= rest[0].check;
        EvaluationsOrdered(After(a, t), rest, t.fail);
        var e, e' := Evaluations(a, attempts), Evaluations(After(a, t), rest);
        forall i, j | 0 <= i < j < |e| && a.failedCount + i + 1 >= MAX_FAILED_ATTEMPTS
          ensures e[j] >= e[i] + LOCKOUT_DURATION_MS
        {
          assert e[j] == e'[j - 1];
          if i > 0 {
            assert e[i] == e'[i - 1];
          }
        }
      }
    }
  }

  /** With no correct password, whatever the counter starts at, every half-open thirty-minute window
      holds at most five comparisons. */
  lemma AtMostFivePerWindow(a: Account, attempts: seq<Attempt>, w: int, i: nat, j: nat)
    requires Serial(attempts) && i <= j < |Evaluations(a, attempts)|
    requires w <= Evaluations(a, attempts)[i] && Evaluations(a, attempts)[j] < w + LOCKOUT_DURATION_MS
    ensures j - i + 1 <= 5
  {
    EvaluationsOrdered(a, attempts, if attempts == [] then 0 else attempts[0].check);
    LockSpacesEvaluations(a, attempts);
    assert j >= 1 ==> Evaluations(a, attempts)[j - 1] <= Evaluations(a, attempts)[j];
  }

  // ---------------------------------------------------------------------
  // When an attempt is turned away
  // ---------------------------------------------------------------------

  /** The account after a run of attempts. */
  function AfterAll(a: Account, attempts: seq<Attempt>): Account {
    if attempts == [] then a else After(AfterAll(a, attempts[..|attempts| - 1]), attempts[|attempts| - 1])
  }

  /** How many attempts of the run had their password compared, and when the last of them failed. */
  ghost function Compared(a: Account, attempts: seq<Attempt>): nat {
    if attempts == [] then 0
    else
      var n := |attempts| - 1;
      Compared(a, attempts[..n]) + if Evaluated(AfterAll(a, attempts[..n]), attempts[n]) then 1 else 0
  }

  ghost function LastFailure(a: Account, attempts: seq<Attempt>): int {
    if attempts == [] then 0
    else
      var n := |attempts| - 1;
      if Evaluated(AfterAll(a, attempts[..n]), attempts[n]) then attempts[n].fail else LastFailure(a, attempts[..n])
  }

  lemma {:induction false} LockFollowsFailures(attempts: seq<Attempt>)
    ensures var a, n := AfterAll(Account(0, None), attempts), Compared(Account(0, None), attempts);
            && a.failedCount == n
            && a.lockedUntil
               == if n >= 5 then Some(LastFailure(Account(0, None), attempts) + 1_800_000) else None
  {
    if attempts != [] {
      LockFollowsFailures(attempts[..|attempts| - 1]);
    }
  }

  /** From an account without failures, an attempt is turned away for a lock exactly when five passwords or more were
      compared before it and the last failure is less than thirty minutes old: the lock comes no earlier,
      and it ends. An active, verified user is let through otherwise. */
  lemma TurnedAwayIff(attempts: seq<Attempt>, t: Attempt)
    ensures var blank := Account(0, None);
            && (IsLocked(AfterAll(blank, attempts), t.check) <==>
                  Compared(blank, attempts) >= 5 && t.check < LastFailure(blank, attempts) + 1_800_000)
            && (Evaluated(AfterAll(blank, attempts), t) <==>
                  && t.active && t.verified
                  && (Compared(blank, attempts) < 5 || LastFailure(blank, attempts) + 1_800_000 <= t.check))
  {
    LockFollowsFailures(attempts);
  }

  datatype LoginReply = Inactive | Locked | Unverified | WrongPassword | Granted

  /** The user row, changed in place by login. */
  class LoginAccount {
    var failedCount: nat
    var lockedUntil: Option<int>

    constructor ()
      ensures View() == Account(0, None)
    {
      failedCount, lockedUntil := 0, None;
    }

    function View(): Account
      reads this
    {
      Account(failedCount, lockedUntil)
    }

    method Login(t: Attempt, passwordValid: bool) returns (r: LoginReply)
      modifies this
      ensures r == WrongPassword || r == Granted <==> Evaluated(old(View()), t)
      ensures !passwordValid ==> View() == After(old(View()), t) && r != Granted
      ensures r == Granted ==> View() == Account(0, None)
      ensures r == Inactive || r == Locked || r == Unverified ==> View() == old(View())
      ensures r == Locked <==> t.active && IsLocked(old(View()), t.check)
      ensures r == Inactive <==> !t.active
      ensures r == Granted <==> Evaluated(old(View()), t) && passwordValid
    {
      if !t.active { return Inactive; }
      if lockedUntil.Some? && lockedUntil.value > t.check { return Locked; }
      if !t.verified { return Unverified; }
      if !passwordValid {
        failedCount := failedCount + 1;
        if failedCount >= MAX_FAILED_ATTEMPTS {
          lockedUntil := Some(t.fail + LOCKOUT_DURATION_MS);
        }
        return WrongPassword;
      }
      failedCount, lockedUntil := 0, None;
      r := Granted;
    }
  }
}
