/** The login lockout of app/api/auth.py: failure counting, the lock, and the rate of guesses it leaves. */
module Lockout {
  import opened Common

  /** Times and durations are whole ticks of one clock. */
  datatype Policy = Policy(maxFailures: int, lock: int)

  datatype Account = Account(failedLoginCount: nat, lockedUntil: Option<int>)

  /** A login request: its time, and what the lookup, the password check and the second factor would say. */
  datatype Attempt = Attempt(now: int, active: bool, passwordOk: bool, totpOk: bool)

  datatype Outcome = Refused | Locked | Failed | Succeeded

  function Attempted(policy: Policy, account: Account, a: Attempt): (Outcome, Account)
  {
    if !a.active then (Refused, account)
    else if account.lockedUntil.Some? && account.lockedUntil.value > a.now then (Locked, account)
    else if !a.passwordOk || !a.totpOk then
      var count := account.failedLoginCount + 1;
      (Failed, Account(count, if count >= policy.maxFailures then Some(a.now + policy.lock) else account.lockedUntil))
    else (Succeeded, Account(0, None))
  }

  ghost predicate LockedAt(lockedUntil: Option<int>, now: int) { lockedUntil.Some? && now < lockedUntil.value }

  class LoginAccount {
    const policy: Policy
    var failedLoginCount: nat
    var lockedUntil: Option<int>

    constructor (policy: Policy)
      ensures this.policy == policy && Snapshot() == Account(0, None)
    {
      this.policy, failedLoginCount, lockedUntil := policy, 0, None;
    }

    function Snapshot(): Account
      reads this
    {
      Account(failedLoginCount, lockedUntil)
    }

    method Login(a: Attempt) returns (outcome: Outcome)
      modifies this
      ensures (outcome, Snapshot()) == Attempted(policy, old(Snapshot()), a)
      ensures outcome == Refused <==> !a.active
      ensures outcome == Locked <==> a.active && LockedAt(old(lockedUntil), a.now)
      ensures outcome == Failed <==> a.active && !LockedAt(old(lockedUntil), a.now) && !(a.passwordOk && a.totpOk)
      ensures outcome == Succeeded <==> a.active && !LockedAt(old(lockedUntil), a.now) && a.passwordOk && a.totpOk
      ensures outcome == Succeeded ==> failedLoginCount == 0 && lockedUntil == None
      ensures outcome == Failed ==> failedLoginCount == old(failedLoginCount) + 1
      ensures outcome == Failed && failedLoginCount >= policy.maxFailures ==> lockedUntil == Some(a.now + policy.lock)
      ensures outcome == Failed && failedLoginCount < policy.maxFailures ==> lockedUntil == old(lockedUntil)
      ensures outcome in {Refused, Locked} ==> Snapshot() == old(Snapshot())
    {
      if !a.active { return Refused; }
      if lockedUntil.Some? && lockedUntil.value > a.now { return Locked; }
      if !a.passwordOk {
        RecordFailure(a.now);
        return Failed;
      }
      if !a.totpOk {
        RecordFailure(a.now);
        return Failed;
      }
      failedLoginCount, lockedUntil := 0, None;
      return Succeeded;
    }

    method RecordFailure(now: int)
      modifies this
      ensures failedLoginCount == old(failedLoginCount) + 1
      ensures lockedUntil == if failedLoginCount >= policy.maxFailures then Some(now + policy.lock)
                else old(lockedUntil)
    {
      failedLoginCount := failedLoginCount + 1;
      if failedLoginCount >= policy.maxFailures {
        lockedUntil := Some(now + policy.lock);
      }
    }
  }

  // ----- runs

  function Outcomes(policy: Policy, account: Account, attempts: seq<Attempt>): (r: seq<Outcome>)
    ensures |r| == |attempts|
    decreases |attempts|
  {
    if attempts == [] then [] else
      var (outcome, next) := Attempted(policy, account, attempts[0]);
      [outcome] + Outcomes(policy, next, attempts[1..])
  }

  /** Attempts that got past the lock check, so that a guess was actually tested. */
  function Tested(outcomes: seq<Outcome>): nat
  {
    if outcomes == [] then 0 else (if outcomes[0] in {Failed, Succeeded} then 1 else 0) + Tested(outcomes[1..])
  }

  /** The clock never goes back, and every attempt lies in the window. */
  ghost predicate InWindow(attempts: seq<Attempt>, from: int, until: int)
  {
    && (forall i :: 0 <= i < |attempts| ==> from <= attempts[i].now <= until)
    && (forall i, j :: 0 <= i < j < |attempts| ==> attempts[i].now <= attempts[j].now)
  }

  lemma WindowTail(attempts: seq<Attempt>, from: int, until: int)
    requires InWindow(attempts, from, until) && attempts != []
    ensures InWindow(attempts[1..], attempts[0].now, until)
  {
  }

  lemma MultipleAtLeast(d: int, k: int)
    requires d > 0 && k >= 1
    ensures d * k >= d
  {
  }

  lemma QuotientMonotone(a: int, b: int, d: int)
    requires a <= b && d > 0
    ensures a / d <= b / d
  {
    var x, y := a / d, b / d;
    assert a == d * x + a % d && b == d * y + b % d;
    assert d * (x - y) == d * x - d * y;
    if y < x {
      MultipleAtLeast(d, x - y);
    }
  }

  lemma QuotientUnique(a: int, d: int, q: int, r: int)
    requires d > 0 && a == d * q + r && 0 <= r < d
    ensures a / d == q
  {
    var x := a / d;
    assert a == d * x + a % d;
    assert d * (q - x) == d * q - d * x;
    assert d * (x - q) == d * x - d * q;
    if x < q {
      MultipleAtLeast(d, q - x);
    } else if q < x {
      MultipleAtLeast(d, x - q);
    }
  }

  lemma QuotientStep(a: int, d: int)
    requires d > 0
    ensures (a - d) / d == a / d - 1
    ensures 0 <= a < d ==> a / d == 0
  {
    assert a == d * (a / d) + a % d;
    assert d * (a / d - 1) == d * (a / d) - d;
    QuotientUnique(a - d, d, a / d - 1, a % d);
    if 0 <= a < d { QuotientUnique(a, d, 0, a); }
  }

  /** The first instant at which the account can be tried again. */
  function NextChance(account: Account, from: int): int
  {
    if account.lockedUntil.Some? && account.lockedUntil.value > from then account.lockedUntil.value else from
  }

  /** How many guesses an account can still give away before the window closes. */
  function Budget(policy: Policy, account: Account, from: int, until: int): int
    requires policy.lock > 0
  {
    var free := if account.failedLoginCount < policy.maxFailures - 1
        then policy.maxFailures - 1 - account.failedLoginCount else 0;
    var chance := NextChance(account, from);
    free + if chance > until then 0 else 1 + (until - chance) / policy.lock
  }

  lemma BudgetSpent(policy: Policy, account: Account, a: Attempt, from: int, until: int)
    requires policy.lock > 0 && from <= a.now <= until
    ensures var (outcome, next) := Attempted(policy, account, a);
            outcome != Succeeded ==>
              Budget(policy, next, a.now, until) + (if outcome == Failed then 1 else 0)
              <= Budget(policy, account, from, until)
  {
    var (outcome, next) := Attempted(policy, account, a);
    var before, after := NextChance(account, from), NextChance(next, a.now);
    if outcome == Failed && next.failedLoginCount >= policy.maxFailures {
      QuotientStep(until - a.now, policy.lock);
      QuotientMonotone(until - a.now, until - before, policy.lock);
    } else if outcome != Succeeded {
      assert before <= after;
      if after <= until { QuotientMonotone(until - after, until - before, policy.lock); }
      if before <= until { QuotientMonotone(0, until - before, policy.lock); }
    }
  }

  lemma {:induction false} TestedWithinBudget(policy: Policy, account: Account, attempts: seq<Attempt>, from: int,
                                              until: int)
    requires policy.lock > 0 && InWindow(attempts, from, until)
    requires Succeeded !in Outcomes(policy, account, attempts)
    ensures attempts != [] ==> Tested(Outcomes(policy, account, attempts)) <= Budget(policy, account, from, until)
    decreases |attempts|
  {
    if attempts != [] {
      var (outcome, next) := Attempted(policy, account, attempts[0]);
      OutcomesStep(policy, account, attempts);
      WindowTail(attempts, from, until);
      BudgetSpent(policy, account, attempts[0], from, until);
      TestedWithinBudget(policy, next, attempts[1..], attempts[0].now, until);
      BudgetNotNegative(policy, next, attempts[0].now, until);
    }
  }

  lemma BudgetNotNegative(policy: Policy, account: Account, from: int, until: int)
    requires policy.lock > 0
    ensures Budget(policy, account, from, until) >= 0
  {
    var chance := NextChance(account, from);
    if chance <= until { QuotientMonotone(0, until - chance, policy.lock); }
  }

  /** The rate bound: from any account state, a window of length W without a successful login lets at most
      maxFailures + floor(W / lock) guesses through. */
  lemma GuessRateBound(policy: Policy, account: Account, attempts: seq<Attempt>, from: int, window: nat)
    requires policy.lock > 0 && policy.maxFailures >= 1
    requires InWindow(attempts, from, from + window)
    requires Succeeded !in Outcomes(policy, account, attempts)
    ensures Tested(Outcomes(policy, account, attempts)) <= policy.maxFailures + window / policy.lock
  {
    QuotientMonotone(0, window, policy.lock);
    if attempts != [] {
      TestedWithinBudget(policy, account, attempts, from, from + window);
      var chance := NextChance(account, from);
      QuotientMonotone(from + window - chance, window, policy.lock);
    }
  }

  // ----- the bound is exact

  function Guess(now: int): Attempt { Attempt(now, true, false, false) }

  /** n failing guesses at one instant. */
  function Burst(n: nat, now: int): (r: seq<Attempt>)
    ensures |r| == n && forall i :: 0 <= i < n ==> r[i] == Guess(now)
  {
    seq(n, _ => Guess(now))
  }

  /** One guess each time the lock runs out, k times. */
  function Drip(k: nat, from: int, lock: int): (r: seq<Attempt>)
    ensures |r| == k
  {
    if k == 0 then [] else [Guess(from + lock)] + Drip(k - 1, from + lock, lock)
  }

  lemma OutcomesStep(policy: Policy, account: Account, attempts: seq<Attempt>)
    requires attempts != []
    ensures var (outcome, next) := Attempted(policy, account, attempts[0]);
            var rest := Outcomes(policy, next, attempts[1..]);
            && Tested(Outcomes(policy, account, attempts)) ==
               (if outcome in {Failed, Succeeded} then 1 else 0) + Tested(rest)
            && (Succeeded in Outcomes(policy, account, attempts) <==> outcome == Succeeded || Succeeded in rest)
  {
    var (outcome, next) := Attempted(policy, account, attempts[0]);
    assert Outcomes(policy, account, attempts)[1..] == Outcomes(policy, next, attempts[1..]);
  }

  lemma {:induction false} BurstTested(policy: Policy, account: Account, n: nat, now: int, later: seq<Attempt>)
    requires account.failedLoginCount + n == policy.maxFailures && n > 0
    requires account.lockedUntil.None?
    ensures var locked := Account(policy.maxFailures, Some(now + policy.lock));
            && Tested(Outcomes(policy, account, Burst(n, now) + later)) == n + Tested(Outcomes(policy, locked, later))
            && (Succeeded !in Outcomes(policy, locked, later) ==>
                 Succeeded !in Outcomes(policy, account, Burst(n, now) + later))
    decreases n
  {
    var attempts := Burst(n, now) + later;
    var (outcome, next) := Attempted(policy, account, attempts[0]);
    assert attempts[1..] == Burst(n - 1, now) + later;
    OutcomesStep(policy, account, attempts);
    if n > 1 {
      BurstTested(policy, next, n - 1, now, later);
    } else {
      assert attempts[1..] == later;
    }
  }

  lemma {:induction false} DripTested(policy: Policy, count: nat, k: nat, from: int)
    requires policy.lock > 0 && count >= policy.maxFailures
    ensures var locked := Account(count, Some(from + policy.lock));
            && Tested(Outcomes(policy, locked, Drip(k, from, policy.lock))) == k
            && Succeeded !in Outcomes(policy, locked, Drip(k, from, policy.lock))
    decreases k
  {
    if k > 0 {
      var drip := Drip(k, from, policy.lock);
      var rest := Drip(k - 1, from + policy.lock, policy.lock);
      var locked := Account(count, Some(from + policy.lock));
      var (outcome, next) := Attempted(policy, locked, drip[0]);
      DripTested(policy, count + 1, k - 1, from + policy.lock);
      assert drip[1..] == rest;
      OutcomesStep(policy, locked, drip);
    }
  }

  lemma {:induction false} DripWindow(k: nat, from: int, lock: int)
    requires lock > 0
    ensures InWindow(Drip(k, from, lock), from, from + k * lock)
    decreases k
  {
    if k > 0 {
      var rest := Drip(k - 1, from + lock, lock);
      DripWindow(k - 1, from + lock, lock);
      assert from + lock + (k - 1) * lock == from + k * lock;
      assert lock <= k * lock by { MultipleAtLeast(lock, k); }
      assert Drip(k, from, lock) == [Guess(from + lock)] + rest;
    }
  }

  lemma QuotientBelow(a: nat, d: int)
    requires d > 0
    ensures 0 <= a / d && (a / d) * d <= a
  {
    QuotientMonotone(0, a, d);
    assert a == d * (a / d) + a % d;
  }

  /** No smaller bound holds: a fresh account gives exactly that many guesses away to someone who guesses
      maxFailures times at once and then each time the lock runs out. */
  lemma GuessRateBoundIsReached(policy: Policy, from: int, window: nat) returns (attempts: seq<Attempt>)
    requires policy.lock > 0 && policy.maxFailures >= 1
    ensures InWindow(attempts, from, from + window)
    ensures Succeeded !in Outcomes(policy, Account(0, None), attempts)
    ensures Tested(Outcomes(policy, Account(0, None), attempts)) == policy.maxFailures + window / policy.lock
  {
    QuotientBelow(window, policy.lock);
    var k := window / policy.lock;
    var drip := Drip(k, from, policy.lock);
    attempts := Burst(policy.maxFailures, from) + drip;
    DripTested(policy, policy.maxFailures, k, from);
    DripWindow(k, from, policy.lock);
    BurstTested(policy, Account(0, None), policy.maxFailures, from, drip);
    forall i | 0 <= i < |attempts| ensures from <= attempts[i].now <= from + window {
      if i >= policy.maxFailures { assert attempts[i] == drip[i - policy.maxFailures]; }
    }
  }

  /** The lock duration is not checked to be positive; without that the lock holds nobody back: every failing
      guess is tested, however many are made. */
  lemma {:induction false} NoLockWithoutDuration(policy: Policy, account: Account, n: nat, now: int)
    requires policy.lock <= 0
    requires account.lockedUntil.None? || account.lockedUntil.value <= now
    ensures Tested(Outcomes(policy, account, Burst(n, now))) == n
    ensures Succeeded !in Outcomes(policy, account, Burst(n, now))
    ensures InWindow(Burst(n, now), now, now)
    decreases n
  {
    if n > 0 {
      var attempts := Burst(n, now);
      var (outcome, next) := Attempted(policy, account, attempts[0]);
      assert attempts[1..] == Burst(n - 1, now);
      OutcomesStep(policy, account, attempts);
      NoLockWithoutDuration(policy, next, n - 1, now);
    }
  }

  /** So guesses in a single instant are bounded at all exactly when the lock duration is positive. */
  lemma BoundedIffPositiveLock(policy: Policy)
    requires policy.maxFailures >= 1
    ensures (exists bound: nat :: BoundedBy(policy, bound)) <==> policy.lock > 0
  {
    if policy.lock > 0 {
      forall account, attempts, now | InWindow(attempts, now, now) && Succeeded !in Outcomes(policy, account, attempts)
        ensures Tested(Outcomes(policy, account, attempts)) <= policy.maxFailures
      {
        GuessRateBound(policy, account, attempts, now, 0);
        QuotientStep(0, policy.lock);
      }
      assert BoundedBy(policy, policy.maxFailures);
    } else {
      forall bound: nat ensures !BoundedBy(policy, bound) {
        NoLockWithoutDuration(policy, Account(0, None), bound + 1, 0);
        assert InWindow(Burst(bound + 1, 0), 0, 0);
      }
    }
  }

  ghost predicate BoundedBy(policy: Policy, bound: nat)
  {
    forall account, attempts, now :: InWindow(attempts, now, now) && Succeeded !in Outcomes(policy, account, attempts)
      ==> Tested(Outcomes(policy, account, attempts)) <= bound
  }
}
