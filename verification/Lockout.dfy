/** Passphrase attempts against one account and the lockout after too many of them:
    `login` and `_register_failed_attempt` of src/auth/service.py. */
module Lockout {
  import opened Text

  /** `max_failed_attempts` and the lockout time; the settings reader keeps both positive. */
  datatype Limits = Limits(max: int, lockout: int)

  predicate Sensible(c: Limits) {
    c.max >= 1 && c.lockout >= 1
  }

  datatype Account = Account(failed: int, lockedUntil: Option<int>)

  const NEW_ACCOUNT := Account(0, None)

  /** One attempt: the clock when the lock is looked at, the clock after a failed check,
      and whether the passphrase is right. */
  datatype Attempt = Attempt(start: int, end: int, right: bool)

  datatype Outcome = Locked | Rejected | Granted

  function Try(c: Limits, a: Account, t: Attempt): (Account, Outcome) {
    if a.lockedUntil.Some? && t.start < a.lockedUntil.value then (a, Locked)
    else
      var failed := if a.lockedUntil.Some? then 0 else a.failed;
      if t.right then (NEW_ACCOUNT, Granted)
      else (Account(failed + 1, if failed + 1 >= c.max then Some(t.end + c.lockout) else None), Rejected)
  }

  /** The account after these attempts, first one first. */
  function TryAll(c: Limits, a: Account, ts: seq<Attempt>): Account
    decreases |ts|
  {
    if ts == [] then a else TryAll(c, Try(c, a, ts[0]).0, ts[1..])
  }

  /** How many of them had their passphrase checked. */
  function Checks(c: Limits, a: Account, ts: seq<Attempt>): nat
    decreases |ts|
  {
    if ts == [] then 0
    else (if Try(c, a, ts[0]).1.Locked? then 0 else 1) + Checks(c, Try(c, a, ts[0]).0, ts[1..])
  }

  predicate NoneGranted(c: Limits, a: Account, ts: seq<Attempt>)
    decreases |ts|
  {
    ts == [] || (!Try(c, a, ts[0]).1.Granted? && NoneGranted(c, Try(c, a, ts[0]).0, ts[1..]))
  }

  /** One after the other. */
  predicate InOrder(ts: seq<Attempt>) {
    && (forall i :: 0 <= i < |ts| ==> ts[i].start <= ts[i].end)
    && forall i, j :: 0 <= i < j < |ts| ==> ts[i].end <= ts[j].start
  }

  /** The counter never passes its limit, and the lock is set exactly at the limit. */
  predicate Sound(c: Limits, a: Account) {
    0 <= a.failed <= c.max && (a.lockedUntil.Some? <==> a.failed == c.max)
  }

  lemma {:induction false} AlwaysSound(c: Limits, a: Account, ts: seq<Attempt>)
    requires Sensible(c) && Sound(c, a)
    ensures Sound(c, TryAll(c, a, ts))
    decreases |ts|
  {
    if ts != [] {
      AlwaysSound(c, Try(c, a, ts[0]).0, ts[1..]);
    }
  }

  // ------------------------------------------------------------------ the guess bound

  /** How many lockouts fit between `from` and `until`. */
  function Rounds(c: Limits, from: int, until: int): nat
    requires Sensible(c)
  {
    if until < from then 0 else (until - from) / c.lockout + 1
  }

  lemma {:induction false} AtLeastOnce(k: int, d: int)
    requires k >= 1 && d >= 1
    ensures k * d >= d
  {
    if k > 1 {
      AtLeastOnce(k - 1, d);
      assert k * d == (k - 1) * d + d;
    }
  }

  /** Quotient and remainder are unique. */
  lemma DivUnique(x: int, d: int, q: int, r: int)
    requires d >= 1 && x == q * d + r && 0 <= r < d
    ensures x / d == q
  {
    var q', r' := Quotient(x, d);
    if q' > q {
      Apart(q', q, d);
      AtLeastOnce(q' - q, d);
    } else if q > q' {
      Apart(q, q', d);
      AtLeastOnce(q - q', d);
    }
  }

  lemma Apart(q: int, q': int, d: int)
    ensures q * d == q' * d + (q - q') * d
  {
  }

  lemma Quotient(x: int, d: int) returns (q: int, r: int)
    requires d >= 1
    ensures q == x / d && x == q * d + r && 0 <= r < d
  {
    q, r := x / d, x % d;
  }

  lemma DivStep(x: int, d: int)
    requires d >= 1 && x >= d
    ensures (x - d) / d + 1 == x / d
  {
    var q, r := Quotient(x, d);
    assert x - d == (q - 1) * d + r;
    DivUnique(x - d, d, q - 1, r);
  }

  lemma DivMonotone(x: int, y: int, d: int)
    requires d >= 1 && x <= y
    ensures x / d <= y / d
  {
    var q, r := Quotient(x, d);
    var q', r' := Quotient(y, d);
    if q > q' {
      Apart(q, q', d);
      AtLeastOnce(q - q', d);
    }
  }

  lemma RoundsStep(c: Limits, from: int, until: int)
    requires Sensible(c) && from <= until
    ensures Rounds(c, from, until) == 1 + Rounds(c, from + c.lockout, until)
  {
    if from + c.lockout <= until {
      DivStep(until - from, c.lockout);
    } else {
      DivUnique(until - from, c.lockout, 0, until - from);
    }
  }

  lemma RoundsLater(c: Limits, from: int, later: int, until: int)
    requires Sensible(c) && from <= later
    ensures Rounds(c, later, until) <= Rounds(c, from, until)
  {
    if later <= until {
      DivMonotone(until - later, until - from, c.lockout);
    }
  }

  function Later(x: int, y: int): int {
    if x < y then y else x
  }

  /** Checks still possible: an open account finishes its round, a locked one first
      waits; every further round costs a lockout. */
  function Budget(c: Limits, a: Account, now: int, until: int): int
    requires Sensible(c)
  {
    if a.lockedUntil.None? then c.max - a.failed + c.max * Rounds(c, now + c.lockout, until)
    else if until < a.lockedUntil.value then 0
    else c.max + c.max * Rounds(c, Later(now, a.lockedUntil.value) + c.lockout, until)
  }

  lemma MulMonotone(m: int, x: int, y: int)
    requires m >= 0 && x <= y
    ensures m * x <= m * y
  {
  }

  /** An open account: one failed check uses one unit of the budget. */
  lemma OpenPays(c: Limits, a: Account, t: Attempt, now: int, until: int)
    requires Sensible(c) && Sound(c, a) && a.lockedUntil.None? && !t.right
    requires t.start <= t.end && now <= t.end
    ensures 1 + Budget(c, Try(c, a, t).0, t.end, until) <= Budget(c, a, now, until)
  {
    RoundsLater(c, now + c.lockout, t.end + c.lockout, until);
    MulMonotone(c.max, Rounds(c, t.end + c.lockout, until), Rounds(c, now + c.lockout, until));
    if a.failed + 1 == c.max {
      var lock := t.end + c.lockout;
      if lock <= until {
        RoundsStep(c, lock, until);
        assert c.max * Rounds(c, lock, until) == c.max + c.max * Rounds(c, lock + c.lockout, until);
      }
    }
  }

  lemma AttemptPays(c: Limits, a: Account, t: Attempt, now: int, until: int)
    requires Sensible(c) && Sound(c, a) && !Try(c, a, t).1.Granted?
    requires t.start <= t.end && now <= t.end && t.start <= until
    ensures (if Try(c, a, t).1.Locked? then 0 else 1) + Budget(c, Try(c, a, t).0, t.end, until)
         <= Budget(c, a, now, until)
  {
    hide Rounds;
    if a.lockedUntil.None? {
      OpenPays(c, a, t, now, until);
    } else {
      var lock := a.lockedUntil.value;
      if t.start < lock {
        RoundsLater(c, Later(now, lock) + c.lockout, Later(t.end, lock) + c.lockout, until);
        MulMonotone(c.max, Rounds(c, Later(t.end, lock) + c.lockout, until),
                    Rounds(c, Later(now, lock) + c.lockout, until));
      } else {
        OpenPays(c, NEW_ACCOUNT, t, Later(now, lock), until);
      }
    }
  }

  lemma {:induction false} WithinBudget(c: Limits, a: Account, ts: seq<Attempt>, now: int, until: int)
    requires Sensible(c) && Sound(c, a) && InOrder(ts) && NoneGranted(c, a, ts)
    requires forall i :: 0 <= i < |ts| ==> now <= ts[i].end && ts[i].start <= until
    ensures Checks(c, a, ts) <= Budget(c, a, now, until)
    decreases |ts|
  {
    hide Rounds, Budget;
    BudgetNatural(c, a, now, until);
    if ts != [] {
      var a' := Try(c, a, ts[0]).0;
      AlwaysSound(c, a, ts[..1]);
      AttemptPays(c, a, ts[0], now, until);
      WithinBudget(c, a', ts[1..], ts[0].end, until);
    }
  }

  lemma BudgetNatural(c: Limits, a: Account, now: int, until: int)
    requires Sensible(c) && Sound(c, a)
    ensures Budget(c, a, now, until) >= 0
  {
  }

  /** The guess bound.  Whatever state the account is in, no more passphrases are checked
      in a window of length D without a success than max * (D div lockout + 1). */
  lemma GuessBound(c: Limits, a: Account, ts: seq<Attempt>, from: int, length: nat)
    requires Sensible(c) && Sound(c, a) && InOrder(ts) && NoneGranted(c, a, ts)
    requires forall i :: 0 <= i < |ts| ==> from <= ts[i].end && ts[i].start <= from + length
    ensures Checks(c, a, ts) <= c.max * (length / c.lockout + 1)
  {
    hide Rounds, Checks, NoneGranted;
    WithinBudget(c, a, ts, from, from + length);
    BudgetBound(c, a, from, length);
  }

  lemma BudgetBound(c: Limits, a: Account, from: int, length: nat)
    requires Sensible(c) && Sound(c, a)
    ensures Budget(c, a, from, from + length) <= c.max * (length / c.lockout + 1)
  {
    var q := length / c.lockout;
    RoundsAre(c, from, length);
    hide Rounds;
    var r := Rounds(c, from + c.lockout, from + length);
    var start := Later(from, if a.lockedUntil.Some? then a.lockedUntil.value else from);
    RoundsLater(c, from + c.lockout, start + c.lockout, from + length);
    MulMonotone(c.max, Rounds(c, start + c.lockout, from + length), r);
    MulMonotone(c.max, 0, r);
    MulPlusOne(c.max, q);
  }

  lemma MulPlusOne(m: int, q: int)
    ensures m * (q + 1) == m * q + m
  {
  }

  lemma RoundsAre(c: Limits, from: int, length: nat)
    requires Sensible(c)
    ensures Rounds(c, from + c.lockout, from + length) == length / c.lockout
  {
    RoundsStep(c, from, from + length);
  }

  // ------------------------------------------------------------- the bound is reached

  function Burst(n: nat, at: int): seq<Attempt> {
    if n == 0 then [] else [Attempt(at, at, false)] + Burst(n - 1, at)
  }

  /** `max` wrong guesses at once, again each time the lock runs out. */
  function Siege(c: Limits, rounds: nat, from: int): seq<Attempt>
    requires Sensible(c)
  {
    if rounds == 0 then [] else Burst(c.max, from) + Siege(c, rounds - 1, from + c.lockout)
  }

  /** The account accepts a guess at this time, with a clean counter. */
  predicate Clean(a: Account, at: int) {
    a == NEW_ACCOUNT || (a.lockedUntil.Some? && a.lockedUntil.value <= at)
  }

  lemma {:induction false} BurstLocks(c: Limits, a: Account, n: nat, at: int, rest: seq<Attempt>)
    requires Sensible(c) && 1 <= n <= c.max
    requires if n == c.max then Clean(a, at) else a == Account(c.max - n, None)
    ensures var locked := Account(c.max, Some(at + c.lockout));
            && Checks(c, a, Burst(n, at) + rest) == n + Checks(c, locked, rest)
            && (NoneGranted(c, a, Burst(n, at) + rest) <==> NoneGranted(c, locked, rest))
    decreases n
  {
    var ts := Burst(n, at) + rest;
    assert ts[0] == Attempt(at, at, false);
    assert ts[1..] == Burst(n - 1, at) + rest;
    if n > 1 {
      BurstLocks(c, Try(c, a, ts[0]).0, n - 1, at, rest);
    } else {
      assert ts[1..] == rest;
    }
  }

  lemma {:induction false} BurstTimes(n: nat, at: int)
    ensures forall i :: 0 <= i < |Burst(n, at)| ==> Burst(n, at)[i] == Attempt(at, at, false)
    ensures |Burst(n, at)| == n
  {
    if n > 0 {
      BurstTimes(n - 1, at);
    }
  }

  lemma {:induction false} SiegeTimes(c: Limits, rounds: nat, from: int)
    requires Sensible(c)
    ensures InOrder(Siege(c, rounds, from))
    ensures forall i :: 0 <= i < |Siege(c, rounds, from)| ==>
              && from <= Siege(c, rounds, from)[i].start
              && Siege(c, rounds, from)[i].end <= from + (rounds - 1) * c.lockout
    decreases rounds
  {
    if rounds > 0 {
      BurstTimes(c.max, from);
      SiegeTimes(c, rounds - 1, from + c.lockout);
      SpanStep(rounds - 1, c.lockout);
    }
  }

  lemma {:induction false} SpanStep(k: nat, d: int)
    requires d >= 1
    ensures k * d == (if k == 0 then 0 else d + (k - 1) * d) && k * d >= 0
  {
    if k > 0 {
      SpanStep(k - 1, d);
    }
  }

  lemma {:induction false} SiegeChecks(c: Limits, a: Account, rounds: nat, from: int)
    requires Sensible(c) && Clean(a, from)
    ensures Checks(c, a, Siege(c, rounds, from)) == c.max * rounds && NoneGranted(c, a, Siege(c, rounds, from))
    decreases rounds
  {
    if rounds > 0 {
      var rest := Siege(c, rounds - 1, from + c.lockout);
      BurstLocks(c, a, c.max, from, rest);
      SiegeChecks(c, Account(c.max, Some(from + c.lockout)), rounds - 1, from + c.lockout);
      assert c.max * rounds == c.max + c.max * (rounds - 1);
    }
  }

  /** The bound is exact: for a window of any length, and any account that takes a guess
      with a clean counter when it opens, there are attempts checked that often. */
  lemma GuessBoundIsReached(c: Limits, a: Account, from: int, length: nat)
    requires Sensible(c) && Clean(a, from)
    ensures var rounds := length / c.lockout + 1;
            var ts := Siege(c, rounds, from);
            && InOrder(ts) && NoneGranted(c, a, ts)
            && (forall i :: 0 <= i < |ts| ==> from <= ts[i].end && ts[i].start <= from + length)
            && Checks(c, a, ts) == c.max * rounds
  {
    var q, r := Quotient(length, c.lockout);
    SiegeTimes(c, q + 1, from);
    SiegeChecks(c, a, q + 1, from);
    hide Siege, Checks, NoneGranted;
  }
}
