/** Login and recovery attempts: the budget, the cooldown tiers and what a whole run can achieve. */
module Lockout {
  import opened Prelude

  const ATTEMPT_BUDGET := 5
  const DAY := 86400.0
  const COOLDOWN_TIERS: seq<real> := [15.0, 60.0, 21600.0, DAY]

  /** One stored row; times are in seconds. */
  datatype Row = Row(count: nat, lockouts: nat, lockedUntil: Option<real>)

  datatype Verdict = Allowed(remaining: nat) | Denied(until: real)

  const INITIAL := Row(0, 0, None)

  function Cooldown(lockouts: nat): real {
    COOLDOWN_TIERS[if lockouts < 3 then lockouts else 3]
  }

  /** An expired lock clears the count before the attempt is counted. */
  function Unlocked(row: Row): Row {
    if row.lockedUntil.Some? then row.(count := 0, lockedUntil := None) else row
  }

  predicate IsLocked(row: Row, now: real) {
    row.lockedUntil.Some? && row.lockedUntil.value > now
  }

  function Check(row: Row, now: real): (Row, Verdict) {
    if IsLocked(row, now) then (row, Denied(row.lockedUntil.value))
    else
      var counted := Unlocked(row).(count := Unlocked(row).count + 1);
      if counted.count >= ATTEMPT_BUDGET then
        var until := now + Cooldown(row.lockouts);
        (counted.(lockedUntil := Some(until), lockouts := row.lockouts + 1), Denied(until))
      else
        (counted, Allowed(ATTEMPT_BUDGET - counted.count))
  }

  function Reset(row: Row): Row {
    row.(count := 0, lockedUntil := None)
  }

  class AttemptRow {
    var attemptCount: nat
    var lockoutCount: nat
    var lockedUntil: Option<real>

    function View(): Row
      reads this
    {
      Row(attemptCount, lockoutCount, lockedUntil)
    }

    constructor ()
      ensures View() == INITIAL
    {
      attemptCount, lockoutCount, lockedUntil := 0, 0, None;
    }

    /** `check_and_increment_attempt`, on the row it holds locked. */
    method CheckAndIncrement(now: real) returns (verdict: Verdict)
      modifies this
      ensures (View(), verdict) == Check(old(View()), now)
    {
      if lockedUntil.Some? {
        if lockedUntil.value > now {
          return Denied(lockedUntil.value);
        }
        attemptCount := 0;
        lockedUntil := None;
      }
      attemptCount := attemptCount + 1;
      var remaining := ATTEMPT_BUDGET - attemptCount;
      if remaining <= 0 {
        var until := now + Cooldown(lockoutCount);
        lockedUntil := Some(until);
        lockoutCount := lockoutCount + 1;
        return Denied(until);
      }
      return Allowed(remaining);
    }

    /** `reset_attempts` */
    method ResetAttempts()
      modifies this
      ensures View() == Reset(old(View()))
    {
      attemptCount, lockedUntil := 0, None;
    }
  }

  // ---- runs of checks --------------------------------------------------------------------------

  ghost predicate NonDecreasing(times: seq<real>) {
    forall i, j | 0 <= i <= j < |times| :: times[i] <= times[j]
  }

  /** The row after checks at the given times. */
  function After(row: Row, times: seq<real>): Row
    decreases times
  {
    if times == [] then row else After(Check(row, times[0]).0, times[1..])
  }

  /** How many of the checks allow the attempt. */
  function AllowedIn(row: Row, times: seq<real>): nat
    decreases times
  {
    if times == [] then 0
    else (if Check(row, times[0]).1.Allowed? then 1 else 0) + AllowedIn(Check(row, times[0]).0, times[1..])
  }

  ghost predicate RowOk(row: Row) {
    row.count <= ATTEMPT_BUDGET && (row.count == ATTEMPT_BUDGET <==> row.lockedUntil.Some?)
  }

  /** The count stays in 0..5 and is 5 exactly while a lock is stored; the lockout count never falls. */
  lemma StepKeepsRow(row: Row, now: real)
    requires RowOk(row)
    ensures RowOk(Check(row, now).0) && RowOk(Reset(row))
    ensures row.lockouts <= Check(row, now).0.lockouts <= row.lockouts + 1
    ensures Reset(row).lockouts == row.lockouts
    ensures Check(row, now).1.Allowed? ==> Check(row, now).1.remaining in {1, 2, 3, 4}
  {
  }

  datatype Action = Attempt(at: real) | SuccessfulLogin

  function Run(row: Row, actions: seq<Action>): Row {
    if actions == [] then row
    else
      var before := Run(row, actions[..|actions| - 1]);
      match actions[|actions| - 1]
      case Attempt(now) => Check(before, now).0
      case SuccessfulLogin => Reset(before)
  }

  /** ... over any run of attempts and resets, in any order of times. */
  lemma {:induction false} RunKeepsRow(row: Row, actions: seq<Action>)
    requires RowOk(row)
    ensures RowOk(Run(row, actions))
    ensures row.lockouts <= Run(row, actions).lockouts
  {
    if actions != [] {
      RunKeepsRow(row, actions[..|actions| - 1]);
      var before := Run(row, actions[..|actions| - 1]);
      match actions[|actions| - 1]
      case Attempt(now) => StepKeepsRow(before, now);
      case SuccessfulLogin =>
    }
  }

  function Pending(row: Row): nat {
    if row.lockedUntil.Some? then 0 else row.count
  }

  /**
   The exact price of attempts without a reset: every lockout buys four, and the current count the
   rest. In particular k lockouts allow at most 4 * (k + 1) attempts.
   */
  lemma {:induction false} AttemptsPerLockout(row: Row, times: seq<real>)
    requires RowOk(row)
    ensures
      var after := After(row, times);
      && RowOk(after)
      && AllowedIn(row, times) + Pending(row) + 4 * row.lockouts == 4 * after.lockouts + Pending(after)
    decreases times
  {
    if times != [] {
      StepKeepsRow(row, times[0]);
      AttemptsPerLockout(Check(row, times[0]).0, times[1..]);
    }
  }

  lemma LockoutsBoundAttempts(times: seq<real>)
    ensures AllowedIn(INITIAL, times) <= 4 * (After(INITIAL, times).lockouts + 1)
  {
    AttemptsPerLockout(INITIAL, times);
  }

  /** While a lock is in force nothing changes; so no lockout happens before it expires. */
  lemma {:induction false} NoLockoutWhileLocked(row: Row, times: seq<real>, until: real)
    requires RowOk(row) && row.lockedUntil == Some(until)
    requires forall i | 0 <= i < |times| :: times[i] < until
    ensures After(row, times) == row && AllowedIn(row, times) == 0
    decreases times
  {
    if times != [] {
      NoLockoutWhileLocked(row, times[1..], until);
    }
  }

  predicate LocksOut(row: Row, now: real) {
    Check(row, now).0.lockouts > row.lockouts
  }

  /**
   Two lockouts of a run are at least the cooldown of the earlier one apart: after a lockout at
   `first`, a further check at `last` that locks out again comes no sooner.
   */
  lemma {:induction false} LockoutsAreApart(row: Row, first: real, between: seq<real>, last: real)
    requires RowOk(row) && LocksOut(row, first)
    requires NonDecreasing([first] + between + [last])
    requires LocksOut(After(Check(row, first).0, between), last)
    ensures last >= first + Cooldown(row.lockouts)
  {
    var until := first + Cooldown(row.lockouts);
    if last < until {
      var all := [first] + between + [last];
      forall i | 0 <= i < |between| ensures between[i] < until {
        assert between[i] == all[i + 1] && all[i + 1] <= all[|all| - 1];
      }
      StepKeepsRow(row, first);
      NoLockoutWhileLocked(Check(row, first).0, between, until);
    }
  }

  // ---- what the answers promise ----------------------------------------------------------------

  /** A lock denies and changes nothing strictly before its time; from then on the budget is whole again. */
  lemma LockHoldsUntil(row: Row, until: real, now: real)
    requires RowOk(row) && row.lockedUntil == Some(until)
    ensures now < until ==> Check(row, now) == (row, Denied(until))
    ensures now >= until ==> Check(row, now) == (Row(1, row.lockouts, None), Allowed(4))
  {
  }

  /** A denial names the time of the lock that is stored, which lies ahead, and a new lock is a tier long. */
  lemma DenialNamesLock(row: Row, now: real)
    requires RowOk(row)
    ensures
      var (after, verdict) := Check(row, now);
      && (verdict.Denied? <==> after.lockedUntil.Some?)
      && (verdict.Denied? ==> after.lockedUntil == Some(verdict.until) && now < verdict.until)
      && (LocksOut(row, now) ==> verdict == Denied(now + Cooldown(row.lockouts)))
      && (LocksOut(row, now) <==> row.count == 4)
  {
  }

  /** Without a lock a row takes attempts up to the budget, whenever they come. */
  lemma {:induction false} OpenRowTakes(row: Row, times: seq<real>)
    requires RowOk(row) && row.lockedUntil.None? && row.count + |times| < ATTEMPT_BUDGET
    ensures After(row, times) == row.(count := row.count + |times|) && AllowedIn(row, times) == |times|
    decreases times
  {
    if times != [] {
      OpenRowTakes(Check(row, times[0]).0, times[1..]);
    }
  }

  /**
   "Remaining n" means what it says: whenever the next attempts come, all before the n-th are allowed,
   and the n-th is denied and locks.
   */
  lemma RemainingIsExact(row: Row, now: real, times: seq<real>, next: real)
    requires RowOk(row) && Check(row, now).1.Allowed?
    ensures
      var (after, n) := (Check(row, now).0, Check(row, now).1.remaining);
      && (|times| < n ==> AllowedIn(after, times) == |times|)
      && (|times| == n - 1 ==>
            LocksOut(After(after, times), next) && Check(After(after, times), next).1.Denied?)
  {
    StepKeepsRow(row, now);
    var (after, n) := (Check(row, now).0, Check(row, now).1.remaining);
    if |times| < n {
      OpenRowTakes(after, times);
    }
  }

  // ---- windows ---------------------------------------------------------------------------------

  lemma CooldownGrows(a: nat, b: nat)
    requires a <= b
    ensures 15.0 <= Cooldown(a) <= Cooldown(b) <= DAY
    ensures Cooldown(0) == 15.0 && Cooldown(1) == 60.0 && Cooldown(2) == 6.0 * 3600.0
    ensures b >= 3 ==> Cooldown(b) == DAY
  {
  }

  /** From when on attempts can be allowed, if the window starts at `start`. */
  function Base(row: Row, start: real): real {
    if row.lockedUntil.Some? && row.lockedUntil.value > start then row.lockedUntil.value else start
  }

  /** In `cycles` cooldowns of length `period` from there on, at most four attempts each are allowed. */
  lemma {:induction false} WindowBound(row: Row, times: seq<real>, start: real, period: real, cycles: nat)
    requires RowOk(row) && period > 0.0 && Cooldown(row.lockouts) >= period
    requires NonDecreasing(times)
    requires forall i | 0 <= i < |times| :: start <= times[i] < Base(row, start) + cycles as real * period
    ensures AllowedIn(row, times) <= (if 4 * cycles >= Pending(row) then 4 * cycles - Pending(row) else 0)
    decreases times
  {
    if times != [] {
      var t, rest := times[0], times[1..];
      var next := Check(row, t).0;
      StepKeepsRow(row, t);
      CooldownGrows(row.lockouts, next.lockouts);
      assert NonDecreasing(rest);
      if IsLocked(row, t) {
        WindowBound(row, rest, start, period, cycles);
      } else if next.lockedUntil.None? {
        assert cycles >= 1;
        WindowBound(next, rest, Base(row, start), period, cycles);
      } else {
        assert cycles >= 1;
        var until := next.lockedUntil.value;
        assert until >= Base(row, start) + period;
        assert (cycles - 1) as real * period == cycles as real * period - period;
        forall i | 0 <= i < |rest|
          ensures t <= rest[i] < until + (cycles - 1) as real * period
        {
          assert rest[i] == times[i + 1];
        }
        WindowBound(next, rest, t, period, cycles - 1);
      }
    }
  }

  /** The number of whole cooldowns in a window. */
  function Cycles(window: real, period: real): nat
    requires window >= 0.0 && period > 0.0
  {
    (window / period).Floor as nat
  }

  /**
   Any window of `window` seconds admits at most 4 * (window / cooldown + 1) attempts without a
   reset, with the quotient rounded down and the cooldown of the tier reached when it starts.
   */
  lemma AttemptsInWindow(row: Row, times: seq<real>, window: real)
    requires RowOk(row) && NonDecreasing(times) && window >= 0.0
    requires times != [] ==> times[|times| - 1] <= times[0] + window
    ensures AllowedIn(row, times) <= 4 * (Cycles(window, Cooldown(row.lockouts)) + 1)
  {
    if times != [] {
      var period, cycles := Cooldown(row.lockouts), Cycles(window, Cooldown(row.lockouts)) + 1;
      assert window < cycles as real * period by {
        assert window / period < cycles as real;
        assert (window / period) * period == window;
      }
      WindowBound(row, times, times[0], period, cycles);
    }
  }

  /** At the top tier: at most four attempts a day, plus four. */
  lemma AttemptsPerDay(row: Row, times: seq<real>, days: nat)
    requires RowOk(row) && NonDecreasing(times) && row.lockouts >= 3
    requires times != [] ==> times[|times| - 1] < times[0] + (days + 1) as real * DAY
    ensures AllowedIn(row, times) <= 4 * (days + 1)
  {
    if times != [] {
      WindowBound(row, times, times[0], DAY, days + 1);
    }
  }
}
