/**
 The delay a vault imposes between rejected unlock attempts
 (internal/domain/unlock_throttle.go, internal/domain/recovery_throttle.go).
 Durations and instants are counted in nanoseconds; a duration is a signed
 64-bit integer, so the doubling shift wraps.
 */
module Throttle {
  import opened Basics

  const SECOND: int := 1_000_000_000

  datatype Policy = Policy(freeAttempts: int, baseDelay: int, maxDelay: int)

  const UNLOCK_POLICY := Policy(3, SECOND, 30 * SECOND)
  const RECOVERY_POLICY := Policy(1, 5 * SECOND, 300 * SECOND)

  const TWO_63: int := 0x8000_0000_0000_0000
  const TWO_64: int := 0x1_0000_0000_0000_0000

  predicate Fits64(x: int) { -TWO_63 <= x < TWO_63 }

  /** What is left of x in a signed 64-bit register. */
  function Wrap64(x: int): (w: int)
    ensures Fits64(w)
    ensures Fits64(x) ==> w == x
  {
    (x + TWO_63) % TWO_64 - TWO_63
  }

  function Min(a: int, b: int): int { if a <= b then a else b }

  // ----- the delay ------------------------------------------------------------------

  function DelayFor(failures: int, policy: Policy): int {
    var steps := failures - policy.freeAttempts;
    if steps < 0 then 0
    else if steps > 32 then policy.maxDelay
    else
      var delay := Wrap64(policy.baseDelay * Pow2(steps));
      if delay > policy.maxDelay || delay <= 0 then policy.maxDelay else delay
  }

  /** The schedule the documentation promises: nothing while free, then doubling up to the cap. */
  function Promised(failures: int, policy: Policy): int {
    var steps := failures - policy.freeAttempts;
    if steps < 0 then 0 else Min(policy.maxDelay, policy.baseDelay * Pow2(steps))
  }

  ghost predicate WellFormed(policy: Policy) {
    0 < policy.baseDelay < TWO_63 && 0 < policy.maxDelay < TWO_63
  }

  /** The shift overflowed to a positive value below the cap: the one mistake the guard misses. */
  predicate ShiftEscapes(policy: Policy, steps: nat) {
    && steps <= 32
    && policy.baseDelay * Pow2(steps) >= TWO_63
    && 0 < Wrap64(policy.baseDelay * Pow2(steps)) < policy.maxDelay
  }

  lemma {:induction false} Pow2Grows(m: nat, n: nat)
    requires m <= n
    ensures Pow2(m) <= Pow2(n)
    decreases n
  {
    if m < n {
      Pow2Grows(m, n - 1);
    }
  }

  lemma Pow2At32()
    ensures Pow2(8) == 256 && Pow2(16) == 65536 && Pow2(24) == 16777216
    ensures Pow2(30) == 1073741824 && Pow2(31) == 2147483648 && Pow2(32) == 4294967296
  {
    assert Pow2(4) == 16;
    assert Pow2(8) == 16 * Pow2(4);
    assert Pow2(12) == 16 * Pow2(8);
    assert Pow2(16) == 16 * Pow2(12);
    assert Pow2(20) == 16 * Pow2(16);
    assert Pow2(24) == 16 * Pow2(20);
    assert Pow2(28) == 16 * Pow2(24);
    assert Pow2(32) == 16 * Pow2(28);
  }

  /** Multiplying by a positive delay keeps an order. */
  lemma ScaledGrows(base: int, p: int, q: int)
    requires base > 0 && p <= q
    ensures base * p <= base * q
  {
  }

  /**
   Exactly when the code meets its documentation: for every policy and every
   failure count the delay is the promised one, unless the shift escapes or the
   policy is so flat that the cut-off after 32 doublings comes too early.
   */
  lemma DelayIsAsPromised(failures: int, policy: Policy)
    requires WellFormed(policy)
    ensures var steps := failures - policy.freeAttempts;
            DelayFor(failures, policy) == Promised(failures, policy)
            <==>
            !(0 <= steps <= 32 && ShiftEscapes(policy, steps))
            && !(steps > 32 && policy.baseDelay * Pow2(steps) < policy.maxDelay)
  {
    var steps := failures - policy.freeAttempts;
    if 0 <= steps <= 32 {
      var exact := policy.baseDelay * Pow2(steps);
      assert exact > 0 by { ScaledGrows(policy.baseDelay, 1, Pow2(steps)); }
    }
  }

  /** Both shipped schedules are the promised ones at every failure count, overflow included. */
  lemma ShippedDelays(failures: int, policy: Policy)
    requires policy == UNLOCK_POLICY || policy == RECOVERY_POLICY
    ensures DelayFor(failures, policy) == Promised(failures, policy)
  {
    var steps := failures - policy.freeAttempts;
    Pow2At32();
    DelayIsAsPromised(failures, policy);
    if steps > 32 {
      Pow2Grows(32, steps);
      ScaledGrows(policy.baseDelay, Pow2(32), Pow2(steps));
    } else if 0 <= steps <= 30 {
      Pow2Grows(steps, 30);
      ScaledGrows(policy.baseDelay, Pow2(steps), Pow2(30));
    }
  }

  /** For other constants the guard can be passed by a small positive remainder. */
  lemma OverflowCanShortenTheDelay()
    ensures var policy := Policy(1, 0x1_0000_0001, 0x100_0000_0000);
            && WellFormed(policy)
            && DelayFor(33, policy) == 0x1_0000_0000
            && Promised(33, policy) == 0x100_0000_0000
  {
    Pow2At32();
    var policy := Policy(1, 0x1_0000_0001, 0x100_0000_0000);
    assert policy.baseDelay * Pow2(32) == 0x1_0000_0001_0000_0000;
    assert Wrap64(0x1_0000_0001_0000_0000) == 0x1_0000_0000;
  }

  // ----- the throttle -----------------------------------------------------------------

  /** The fields of one throttle; an instant of 0 is the zero time, before every clock reading. */
  datatype State = State(failures: int, nextAllowed: int, policy: Policy) {
    function Effective(): Policy {
      if policy == Policy(0, 0, 0) then UNLOCK_POLICY else policy
    }

    predicate Allows(now: int) { nextAllowed - now <= 0 }

    function Failed(now: int): State {
      if failures + 1 < Effective().freeAttempts then this.(failures := failures + 1)
      else this.(failures := failures + 1, nextAllowed := now + DelayFor(failures + 1, Effective()))
    }

    function Succeeded(): State { this.(failures := 0, nextAllowed := 0) }
  }

  class UnlockThrottle {
    var failures: int
    var nextAllowed: int
    const policy: Policy

    ghost function View(): State
      reads this
    {
      State(failures, nextAllowed, policy)
    }

    constructor (policy: Policy)
      ensures View() == State(0, 0, policy)
    {
      this.policy := policy;
      failures, nextAllowed := 0, 0;
    }

    method Check(now: int) returns (retryAfter: int, allowed: bool)
      ensures allowed == View().Allows(now)
      ensures if allowed then retryAfter == 0 else retryAfter > 0 && now + retryAfter == nextAllowed
    {
      var remaining := nextAllowed - now;
      if remaining > 0 {
        return remaining, false;
      }
      return 0, true;
    }

    method RecordFailure(now: int)
      modifies this
      ensures View() == old(View()).Failed(now)
    {
      var effective := if policy == Policy(0, 0, 0) then UNLOCK_POLICY else policy;
      failures := failures + 1;
      if failures < effective.freeAttempts {
        return;
      }
      nextAllowed := now + DelayFor(failures, effective);
    }

    method RecordSuccess()
      modifies this
      ensures View() == old(View()).Succeeded()
    {
      failures, nextAllowed := 0, 0;
    }
  }

  // ----- whole runs -----------------------------------------------------------------------

  /** A check changes nothing; between a check and the failure it leads to anything may come. */
  datatype Event = Check(at: int) | Failure(at: int) | Success(at: int)

  function Apply(s: State, e: Event): State {
    match e
    case Check(_) => s
    case Failure(at) => s.Failed(at)
    case Success(_) => s.Succeeded()
  }

  function Run(s: State, events: seq<Event>): State {
    if events == [] then s else Apply(Run(s, events[..|events| - 1]), events[|events| - 1])
  }

  predicate Monotone(events: seq<Event>) {
    forall i, j :: 0 <= i < j < |events| ==> events[i].at <= events[j].at
  }

  function Fresh(policy: Policy): State { State(0, 0, policy) }

  /** However often and whenever attempts fail, nobody is ever told to wait longer than the cap. */
  lemma {:induction false} WaitIsCapped(policy: Policy, events: seq<Event>, now: int)
    requires WellFormed(Fresh(policy).Effective()) && now >= 0
    requires Monotone(events) && forall i :: 0 <= i < |events| ==> 0 <= events[i].at <= now
    ensures Run(Fresh(policy), events).nextAllowed - now <= Fresh(policy).Effective().maxDelay
    ensures Run(Fresh(policy), events).policy == policy
    decreases |events|
  {
    if events != [] {
      var n := |events| - 1;
      WaitIsCapped(policy, events[..n], events[n].at);
    }
  }

  /**
   A success wipes the slate: whatever came before it, an attempt is let through
   at once, and from there on the throttle goes exactly as a new one would.
   */
  lemma {:induction false} SuccessStartsAfresh(policy: Policy, before: seq<Event>, at: int, after: seq<Event>)
    ensures Run(Fresh(policy), before + [Success(at)] + after) == Run(Fresh(policy), after)
    ensures at >= 0 ==> Run(Fresh(policy), before + [Success(at)]).Allows(at)
    decreases |after|
  {
    var events := before + [Success(at)];
    PolicyStays(policy, before);
    assert events[..|before|] == before;
    if after == [] {
      assert events + after == events;
    } else {
      var n := |after| - 1;
      assert (events + after)[..|events| + n] == events + after[..n];
      SuccessStartsAfresh(policy, before, at, after[..n]);
    }
  }

  lemma {:induction false} PolicyStays(policy: Policy, events: seq<Event>)
    ensures Run(Fresh(policy), events).policy == policy
    decreases |events|
  {
    if events != [] {
      PolicyStays(policy, events[..|events| - 1]);
    }
  }

  /** The password throttle of the program is the zero value; the cap holds for it and for every policy in use. */
  lemma PoliciesInUse(policy: Policy)
    requires policy == Policy(0, 0, 0) || policy == UNLOCK_POLICY || policy == RECOVERY_POLICY
    ensures WellFormed(Fresh(policy).Effective())
    ensures policy != RECOVERY_POLICY ==> Fresh(policy).Effective() == UNLOCK_POLICY
  {
  }

  // ----- guessing ---------------------------------------------------------------------------

  function Fails(events: seq<Event>): nat {
    if events == [] then 0
    else Fails(events[..|events| - 1]) + if events[|events| - 1].Failure? then 1 else 0
  }

  /** The attempts let through: the checks that were answered with yes. */
  function Tries(s: State, events: seq<Event>): nat {
    if events == [] then 0
    else
      var n := |events| - 1;
      Tries(s, events[..n]) + if LetThrough(s, events, n) then 1 else 0
  }

  predicate LetThrough(s: State, events: seq<Event>, i: nat)
    requires i < |events|
  {
    events[i].Check? && Run(s, events[..i]).Allows(events[i].at)
  }

  /** Attempts that all fail, each recorded after the check that let it through, at most k at a time in between. */
  ghost predicate Guessing(s: State, events: seq<Event>, k: nat) {
    && Monotone(events)
    && (forall i :: 0 <= i < |events| ==> !events[i].Success?)
    && (forall i :: 0 <= i <= |events| ==> InFlight(s, events, i, k))
  }

  predicate InFlight(s: State, events: seq<Event>, i: nat, k: nat)
    requires i <= |events|
  {
    Fails(events[..i]) <= Tries(s, events[..i]) <= Fails(events[..i]) + k
  }

  /** Event i records the r-th failure. */
  predicate Records(events: seq<Event>, i: nat, r: nat) {
    i < |events| && events[i].Failure? && Fails(events[..i + 1]) == r
  }

  lemma FailsStep(events: seq<Event>, i: nat)
    requires i < |events|
    ensures Fails(events[..i + 1]) == Fails(events[..i]) + if events[i].Failure? then 1 else 0
  {
    assert events[..i + 1][..i] == events[..i];
  }

  lemma {:induction false} FailsGrow(events: seq<Event>, i: nat, j: nat)
    requires i <= j <= |events|
    ensures Fails(events[..i]) <= Fails(events[..j])
    decreases j
  {
    if i < j {
      FailsStep(events, j - 1);
      FailsGrow(events, i, j - 1);
    }
  }

  lemma RunStep(s: State, events: seq<Event>, i: nat)
    requires i < |events|
    ensures Run(s, events[..i + 1]) == Apply(Run(s, events[..i]), events[i])
    ensures Tries(s, events[..i + 1]) == Tries(s, events[..i]) + if LetThrough(s, events, i) then 1 else 0
  {
    assert events[..i + 1][..i] == events[..i];
  }

  /** The throttle counts exactly the failures recorded so far. */
  lemma {:induction false} FailuresCounted(policy: Policy, events: seq<Event>, i: nat)
    requires (forall j :: 0 <= j < |events| ==> !events[j].Success?) && i <= |events|
    ensures Run(Fresh(policy), events[..i]).failures == Fails(events[..i])
    ensures Run(Fresh(policy), events[..i]).policy == policy
    decreases i
  {
    if i > 0 {
      FailuresCounted(policy, events, i - 1);
      RunStep(Fresh(policy), events, i - 1);
      FailsStep(events, i - 1);
    }
  }

  predicate Shipped(policy: Policy) { policy == UNLOCK_POLICY || policy == RECOVERY_POLICY }

  /** The schedule a throttle made with the policy follows. */
  function InEffect(policy: Policy): Policy { Fresh(policy).Effective() }

  lemma PromisedGrows(policy: Policy, m: nat, n: nat)
    requires Shipped(policy) && m <= n
    ensures Promised(m, policy) <= Promised(n, policy)
  {
    if m >= policy.freeAttempts {
      Pow2Grows(m - policy.freeAttempts, n - policy.freeAttempts);
      ScaledGrows(policy.baseDelay, Pow2(m - policy.freeAttempts), Pow2(n - policy.freeAttempts));
    } else if n >= policy.freeAttempts {
      ScaledGrows(policy.baseDelay, 1, Pow2(n - policy.freeAttempts));
    }
  }

  /** Once the r-th failure is recorded, no later check is let through before its delay is over. */
  lemma {:induction false} DelayStands(policy: Policy, events: seq<Event>, i: nat, r: nat, j: nat)
    requires Shipped(InEffect(policy)) && Monotone(events)
    requires forall e :: 0 <= e < |events| ==> !events[e].Success?
    requires Records(events, i, r) && r >= InEffect(policy).freeAttempts && i < j <= |events|
    ensures Run(Fresh(policy), events[..j]).nextAllowed >= events[i].at + Promised(r, InEffect(policy))
    decreases j
  {
    var before := Run(Fresh(policy), events[..j - 1]);
    RunStep(Fresh(policy), events, j - 1);
    if j - 1 > i {
      DelayStands(policy, events, i, r, j - 1);
    }
    if events[j - 1].Failure? {
      FailuresCounted(policy, events, j - 1);
      FailsStep(events, j - 1);
      FailsGrow(events, i + 1, j);
      FailureBooksDelay(before, events[j - 1].at, r);
    }
  }

  lemma FailureBooksDelay(s: State, at: int, r: nat)
    requires Shipped(s.Effective()) && s.Effective().freeAttempts <= r <= s.failures + 1
    ensures s.Failed(at).nextAllowed >= at + Promised(r, s.Effective())
  {
    ShippedDelays(s.failures + 1, s.Effective());
    PromisedGrows(s.Effective(), r, s.failures + 1);
  }

  /** If more were let through by j than by i, one was let through in between. */
  lemma {:induction false} LetThroughBetween(s: State, events: seq<Event>, i: nat, j: nat) returns (c: nat)
    requires i <= j <= |events| && Tries(s, events[..i]) < Tries(s, events[..j])
    ensures i <= c < j && LetThrough(s, events, c)
    decreases j
  {
    RunStep(s, events, j - 1);
    if LetThrough(s, events, j - 1) {
      c := j - 1;
    } else {
      c := LetThroughBetween(s, events, i, j - 1);
    }
  }

  /**
   What the delay buys against k attempts at a time: k failures after the r-th,
   at least one of them was checked after the r-th was recorded, so the delay of
   the r-th has passed.
   */
  lemma DelayPerBatch(policy: Policy, events: seq<Event>, k: nat, i: nat, j: nat, r: nat)
    requires Shipped(InEffect(policy)) && Guessing(Fresh(policy), events, k)
    requires Records(events, i, r) && Records(events, j, r + k) && r >= InEffect(policy).freeAttempts && k > 0
    ensures events[j].at >= events[i].at + Promised(r, InEffect(policy))
  {
    var s := Fresh(policy);
    FailsStep(events, i);
    FailsStep(events, j);
    if j <= i {
      FailsGrow(events, j + 1, i + 1);
      assert false;
    }
    assert InFlight(s, events, i, k) && InFlight(s, events, j + 1, k);
    RunStep(s, events, i);
    RunStep(s, events, j);
    var c := LetThroughBetween(s, events, i + 1, j);
    DelayStands(policy, events, i, r, c);
  }

  lemma {:induction false} RecordsEarlier(events: seq<Event>, j: nat, n: nat, r: nat) returns (i: nat)
    requires Records(events, j, n) && 1 <= r <= n
    ensures Records(events, i, r)
    decreases j
  {
    if r == n {
      i := j;
    } else {
      FailsStep(events, j);
      var m := LastRecord(events, j);
      i := RecordsEarlier(events, m, n - 1, r);
    }
  }

  /** Nanoseconds that b batches of k guesses after the free attempts must have taken. */
  function LeastWait(policy: Policy, k: nat, b: nat): int {
    if b == 0 then 0 else LeastWait(policy, k, b - 1) + Promised(policy.freeAttempts + (b - 1) * k, policy)
  }

  /**
   Guessing is slow, for either schedule and any number of attempts at a time:
   with at most k in flight, the failure b batches of k after the last free one
   comes at least the sum of b delays later.
   */
  lemma {:induction false} GuessingIsSlow(policy: Policy, events: seq<Event>, k: nat, free: nat, j: nat, b: nat)
    requires Shipped(InEffect(policy)) && Guessing(Fresh(policy), events, k) && k > 0
    requires var f := InEffect(policy).freeAttempts; f >= 0 && Records(events, free, f) && Records(events, j, f + b * k)
    ensures events[j].at >= events[free].at + LeastWait(InEffect(policy), k, b)
    decreases b
  {
    var f: nat := InEffect(policy).freeAttempts;
    if b == 0 {
      SameRecord(events, free, j, f);
    } else {
      var r := f + (b - 1) * k;
      assert r + k == f + b * k;
      var i := RecordsEarlier(events, j, f + b * k, r);
      GuessingIsSlow(policy, events, k, free, i, b - 1);
      DelayPerBatch(policy, events, k, i, j, r);
    }
  }

  lemma SameRecord(events: seq<Event>, i: nat, j: nat, r: nat)
    requires Records(events, i, r) && Records(events, j, r)
    ensures i == j
  {
    FailsStep(events, i);
    FailsStep(events, j);
    if i < j {
      FailsGrow(events, i + 1, j);
    } else if j < i {
      FailsGrow(events, j + 1, i);
    }
  }

  /**
   One attempt at a time, seconds from the last free failure to the n-th attempt:
   for the password 1, 3, 7, 15, then 31 + 30 (n - 8); for the recovery key 5,
   15, 35, 75, 155, then 315 + 300 (n - 7).
   */
  function Seconds(policy: Policy, n: nat): nat {
    if policy == UNLOCK_POLICY then
      if n <= 3 then 0 else if n <= 7 then Pow2(n - 3) - 1 else 31 + 30 * (n - 8)
    else
      if n <= 1 then 0 else if n <= 6 then 5 * (Pow2(n - 1) - 1) else 315 + 300 * (n - 7)
  }

  lemma {:induction false} OneAtATime(policy: Policy, n: nat)
    requires Shipped(policy) && n >= policy.freeAttempts
    ensures LeastWait(policy, 1, n - policy.freeAttempts) == Seconds(policy, n) * SECOND
    decreases n
  {
    if n > policy.freeAttempts {
      OneAtATime(policy, n - 1);
      NextGap(policy, n - 1);
    }
  }

  lemma NextGap(policy: Policy, n: nat)
    requires Shipped(policy) && n >= policy.freeAttempts
    ensures Seconds(policy, n) * SECOND + Promised(n, policy) == Seconds(policy, n + 1) * SECOND
  {
    assert Pow2(1) == 2 && Pow2(2) == 4 && Pow2(3) == 8 && Pow2(4) == 16;
    assert Pow2(5) == 32 && Pow2(6) == 64;
    if policy == UNLOCK_POLICY && n >= 8 {
      Pow2Grows(5, n - 3);
    } else if policy == RECOVERY_POLICY && n >= 7 {
      Pow2Grows(6, n - 1);
    }
  }

  /**
   Where an attempt starts only after the one before is recorded, the n-th is
   let through no sooner than Seconds(n) after the last free failure.
   */
  lemma SequentialGuessingIsSlow(policy: Policy, events: seq<Event>, free: nat, c: nat, n: nat)
    requires Shipped(InEffect(policy)) && Guessing(Fresh(policy), events, 1)
    requires var f := InEffect(policy).freeAttempts; 0 <= f < n && Records(events, free, f)
    requires c < |events| && LetThrough(Fresh(policy), events, c) && Fails(events[..c]) == n - 1
    ensures events[c].at >= events[free].at + Seconds(InEffect(policy), n) * SECOND
  {
    var f: nat := InEffect(policy).freeAttempts;
    var i := LastRecord(events, c);
    GuessingIsSlow(policy, events, 1, free, i, n - 1 - f);
    OneAtATime(InEffect(policy), n - 1);
    NextGap(InEffect(policy), n - 1);
    DelayStands(policy, events, i, n - 1, c);
  }

  lemma {:induction false} LastRecord(events: seq<Event>, c: nat) returns (i: nat)
    requires c <= |events| && Fails(events[..c]) > 0
    ensures i < c && Records(events, i, Fails(events[..c]))
    decreases c
  {
    FailsStep(events, c - 1);
    if events[c - 1].Failure? {
      i := c - 1;
    } else {
      i := LastRecord(events, c - 1);
    }
  }

  // ----- what overlapping attempts get around --------------------------------------------------

  /** n checks at one instant, then their n failures. */
  function Volley(n: nat, at: int): seq<Event> {
    seq(2 * n, i => if i < n then Check(at) else Failure(at))
  }

  /**
   Nothing is held between a check and its failure, so any number of attempts
   started together are all let through at one instant: without a bound on the
   attempts in flight there is no bound on the rate.
   */
  lemma VolleyIsLetThrough(policy: Policy, n: nat, at: int)
    requires at >= 0
    ensures Monotone(Volley(n, at)) && Fails(Volley(n, at)) == n
    ensures forall i :: 0 <= i < n ==> LetThrough(Fresh(policy), Volley(n, at), i)
    ensures Tries(Fresh(policy), Volley(n, at)) == n
    ensures Guessing(Fresh(policy), Volley(n, at), n)
  {
    var all := Volley(n, at);
    forall i | 0 <= i <= 2 * n
      ensures i <= n ==> Run(Fresh(policy), all[..i]) == Fresh(policy)
      ensures Tries(Fresh(policy), all[..i]) == (if i <= n then i else n)
      ensures Fails(all[..i]) == (if i <= n then 0 else i - n)
    {
      VolleyPrefix(policy, n, at, i);
    }
    assert all[..2 * n] == all;
  }

  lemma {:induction false} VolleyPrefix(policy: Policy, n: nat, at: int, i: nat)
    requires at >= 0 && i <= 2 * n
    ensures i <= n ==> Run(Fresh(policy), Volley(n, at)[..i]) == Fresh(policy)
    ensures Tries(Fresh(policy), Volley(n, at)[..i]) == (if i <= n then i else n)
    ensures Fails(Volley(n, at)[..i]) == (if i <= n then 0 else i - n)
    decreases i
  {
    if i > 0 {
      VolleyPrefix(policy, n, at, i - 1);
      RunStep(Fresh(policy), Volley(n, at), i - 1);
      FailsStep(Volley(n, at), i - 1);
    }
  }
}
