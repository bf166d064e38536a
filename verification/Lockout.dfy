/**
 Sign-in throttling in AuthBasic: `assertNotLockedOut`, `recordFailedSignIn` and `clearLockout`
 around one user's counter row, for sign-ins that run one after the other.

 The clock is in whole milliseconds. The row's time-to-live is in whole seconds, as the store
 keeps it: the second of the write plus the longer window, rounded up; reads ignore a row whose
 second has come.
*/
module Lockout {
  import opened Maybe
  import Runs

  /** Resolved policy; the constructor of the source rejects anything that is not positive. */
  datatype Policy = Policy(maxAttempts: nat, windowSeconds: real, lockoutSeconds: real) {
    ghost predicate Valid() {
      maxAttempts >= 1 && windowSeconds > 0.0 && lockoutSeconds > 0.0
    }

    function WindowMs(): real { windowSeconds * 1000.0 }

    function LockoutMs(): real { lockoutSeconds * 1000.0 }

    function TtlSeconds(): int {
      Ceil(if windowSeconds < lockoutSeconds then lockoutSeconds else windowSeconds)
    }
  }

  function Ceil(x: real): (n: int)
    ensures (n - 1) as real < x <= n as real
  {
    -((-x).Floor)
  }

  /**
   The counter row. `window` names the counting window, by the position in the log of the failure
   that opened it; like `writtenAt` it is bookkeeping for the theorems.
  */
  datatype Row = Row(count: nat, firstFailAt: int, lockedAt: Option<int>, ttl: int, window: nat, writtenAt: int)

  /** A sign-in whose password was evaluated: it passed the lock check. */
  datatype Attempt = Attempt(at: int, valid: bool, window: nat, tripped: bool)

  datatype Outcome = Locked | Refused | SignedIn

  datatype Sys = Sys(now: int, row: Option<Row>, log: seq<Attempt>)

  datatype Action = Wait(ms: nat) | SignIn(valid: bool) | Reap

  ghost predicate Start(s: Sys) {
    s.row.None? && s.log == []
  }

  function Visible(row: Option<Row>, now: int): Option<Row> {
    if row.Some? && row.value.ttl <= now / 1000 then None else row
  }

  /** The lock check on the row that a read returned. */
  predicate IsLocked(policy: Policy, seen: Option<Row>, now: int) {
    && seen.Some?
    && seen.value.count >= policy.maxAttempts
    && var lockedAt := if seen.value.lockedAt.Some? then seen.value.lockedAt.value else seen.value.firstFailAt;
       now as real < lockedAt as real + policy.LockoutMs()
  }

  predicate WithinWindow(policy: Policy, seen: Option<Row>, now: int) {
    seen.Some? && (now - seen.value.firstFailAt) as real < policy.WindowMs()
  }

  /** The row after one more failure, on top of the row that a read returned. */
  function AfterFailure(policy: Policy, seen: Option<Row>, now: int, window: nat): Row {
    var same := WithinWindow(policy, seen, now);
    var count := if same then seen.value.count + 1 else 1;
    var stamp := if same then seen.value.lockedAt else None;
    Row(count,
        if same then seen.value.firstFailAt else now,
        if count >= policy.maxAttempts && stamp.None? then Some(now) else stamp,
        now / 1000 + policy.TtlSeconds(),
        if same then seen.value.window else window,
        now)
  }

  function OutcomeOf(policy: Policy, row: Option<Row>, now: int, valid: bool): Outcome {
    if IsLocked(policy, Visible(row, now), now) then Locked else if valid then SignedIn else Refused
  }

  /** The failure made the count reach the threshold. */
  predicate Trips(policy: Policy, seen: Option<Row>, now: int) {
    AfterFailure(policy, seen, now, 0).lockedAt == Some(now)
    && (WithinWindow(policy, seen, now) ==> seen.value.lockedAt.None?)
  }

  function Step(policy: Policy, s: Sys, a: Action): Sys {
    match a
    case Wait(ms) => s.(now := s.now + ms)
    case Reap => s.(row := Visible(s.row, s.now))
    case SignIn(valid) =>
      var seen := Visible(s.row, s.now);
      if IsLocked(policy, seen, s.now) then s
      else if valid then s.(row := None, log := s.log + [Attempt(s.now, true, |s.log|, false)])
      else
        var next := AfterFailure(policy, seen, s.now, |s.log|);
        s.(row := Some(next), log := s.log + [Attempt(s.now, false, next.window, Trips(policy, seen, s.now))])
  }

  function Stepper(policy: Policy): (Sys, Action) -> Sys {
    (s, a) => Step(policy, s, a)
  }

  function Run(policy: Policy, s: Sys, actions: seq<Action>): Sys {
    Runs.Run(Stepper(policy), s, actions)
  }

  /** Failure `i` reset the counter to one: it opened a counting window. */
  predicate Opens(log: seq<Attempt>, i: nat) {
    i < |log| && !log[i].valid && log[i].window == i
  }

  predicate Succeeded(log: seq<Attempt>, i: nat) {
    exists j :: i < j < |log| && log[j].valid
  }

  /** The last sign-in of the log is a failure less than `windowSeconds` after `i` with no success since. */
  predicate LastCounts(policy: Policy, log: seq<Attempt>, i: nat)
    requires i < |log|
  {
    var last := log[|log| - 1];
    !last.valid && (last.at - log[i].at) as real < policy.windowSeconds * 1000.0 && !Succeeded(log, i)
  }

  /** By the clock: the failures since `i`, itself included, within `windowSeconds` and before any success. */
  function InWindow(policy: Policy, log: seq<Attempt>, i: nat): nat {
    if |log| <= i then 0
    else InWindow(policy, log[..|log| - 1], i) + if LastCounts(policy, log, i) then 1 else 0
  }

  // ---------------------------------------------------------------- the invariant

  /** A lock that may still be running: nobody has been let in since it tripped. */
  ghost predicate LockHeld(policy: Policy, s: Sys, trippedAt: int) {
    && s.row.Some?
    && s.row.value.count >= policy.maxAttempts
    && s.row.value.lockedAt == Some(trippedAt)
    && s.row.value.ttl == trippedAt / 1000 + policy.TtlSeconds()
  }

  /** Whether a lock that tripped then is over: its duration has passed, or its row's second has come. */
  predicate LockOver(policy: Policy, trippedAt: int, now: int) {
    || now as real >= trippedAt as real + policy.LockoutMs()
    || now / 1000 >= trippedAt / 1000 + policy.TtlSeconds()
  }

  ghost predicate LocksOk(policy: Policy, s: Sys) {
    && (forall i | 0 <= i < |s.log| :: s.log[i].at <= s.now)
    && (forall i | 0 <= i < |s.log| && s.log[i].tripped ::
          LockOver(policy, s.log[i].at, s.now) || (i == |s.log| - 1 && LockHeld(policy, s, s.log[i].at)))
    && (forall i, j | 0 <= i < j < |s.log| && s.log[i].tripped :: LockOver(policy, s.log[i].at, s.log[j].at))
  }

  ghost predicate RowOk(policy: Policy, s: Sys) {
    s.row.Some? ==>
      var r := s.row.value;
      && r.firstFailAt <= r.writtenAt <= s.now
      && (r.lockedAt.Some? ==> r.firstFailAt <= r.lockedAt.value <= r.writtenAt)
      && (r.lockedAt.Some? <==> r.count >= policy.maxAttempts)
      && r.ttl == r.writtenAt / 1000 + policy.TtlSeconds()
  }

  lemma StepKeepsLocks(policy: Policy, s: Sys, a: Action)
    requires policy.Valid() && LocksOk(policy, s) && RowOk(policy, s)
    ensures LocksOk(policy, Step(policy, s, a)) && RowOk(policy, Step(policy, s, a))
  {
    var t := Step(policy, s, a);
    if a.SignIn? && t.log != s.log {
      forall i | 0 <= i < |s.log| && s.log[i].tripped ensures LockOver(policy, s.log[i].at, s.now) {
      }
    }
  }

  lemma LocksInRun(policy: Policy, s: Sys, actions: seq<Action>)
    requires policy.Valid() && Start(s)
    ensures LocksOk(policy, Run(policy, s, actions)) && RowOk(policy, Run(policy, s, actions))
  {
    var inv := (t: Sys) => LocksOk(policy, t) && RowOk(policy, t);
    forall t, a | inv(t) ensures inv(Stepper(policy)(t, a)) { StepKeepsLocks(policy, t, a); }
    Runs.Keeps(Stepper(policy), inv, s, actions);
  }

  // ------------------------------------------------------------------ theorems

  /**
   Failure `j` is counted in the window of the sign-in before it: that one failed too, its row is still
   there, and less than `windowSeconds` have passed since the window opened.
  */
  ghost predicate Continues(policy: Policy, log: seq<Attempt>, j: nat)
    requires j < |log|
  {
    && j > 0 && !log[j - 1].valid && log[j - 1].window < j
    && log[j].at / 1000 < log[j - 1].at / 1000 + policy.TtlSeconds()
    && (log[j].at - log[log[j - 1].window].at) as real < policy.windowSeconds * 1000.0
  }

  ghost predicate EntryOk(policy: Policy, log: seq<Attempt>, j: nat)
    requires j < |log|
  {
    && log[j].window <= j
    && (!log[j].valid ==> log[j].window == if Continues(policy, log, j) then log[j - 1].window else j)
    && (log[j].tripped <==> !log[j].valid && j + 1 == log[j].window + policy.maxAttempts)
  }

  ghost predicate LogOk(policy: Policy, log: seq<Attempt>) {
    forall j: nat | j < |log| :: EntryOk(policy, log, j)
  }

  /** The row that the last failures of the log leave: their number, the first of them, and the one that trips. */
  ghost function RowOf(policy: Policy, log: seq<Attempt>): Row
    requires policy.maxAttempts >= 1 && log != [] && log[|log| - 1].window < |log|
  {
    var last := log[|log| - 1];
    var count: nat := |log| - last.window;
    Row(count, log[last.window].at,
        if count >= policy.maxAttempts then Some(log[last.window + policy.maxAttempts - 1].at) else None,
        last.at / 1000 + policy.TtlSeconds(), last.window, last.at)
  }

  /** The row follows from the log: none after a success, and that of the last failures until it is dropped. */
  ghost predicate RowFollows(policy: Policy, s: Sys)
    requires policy.maxAttempts >= 1
  {
    && LogOk(policy, s.log)
    && (s.log == [] || s.log[|s.log| - 1].valid ==> s.row.None?)
    && (s.log != [] && !s.log[|s.log| - 1].valid ==>
          || (s.log[|s.log| - 1].window < |s.log| && s.row == Some(RowOf(policy, s.log)))
          || (s.row.None? && s.log[|s.log| - 1].at / 1000 + policy.TtlSeconds() <= s.now / 1000))
  }

  lemma LogGrows(policy: Policy, log: seq<Attempt>, last: Attempt)
    requires LogOk(policy, log) && EntryOk(policy, log + [last], |log|)
    ensures LogOk(policy, log + [last])
  {
    var more := log + [last];
    hide Policy.TtlSeconds;
    forall j: nat | j < |more| ensures EntryOk(policy, more, j) {
      if j < |log| {
        assert EntryOk(policy, log, j) && more[j] == log[j];
        assert j > 0 ==> more[j - 1] == log[j - 1];
        assert j > 0 && more[j - 1].window < j ==> more[more[j - 1].window] == log[log[j - 1].window];
      }
    }
  }

  lemma FailureFollows(policy: Policy, s: Sys)
    requires policy.maxAttempts >= 1 && RowFollows(policy, s) && !IsLocked(policy, Visible(s.row, s.now), s.now)
    ensures RowFollows(policy, Step(policy, s, SignIn(false)))
  {
    var n := |s.log|;
    var t := Step(policy, s, SignIn(false));
    var seen := Visible(s.row, s.now);
    hide Policy.TtlSeconds;
    if n > 0 { assert EntryOk(policy, s.log, n - 1); }
    assert t.log[..n] == s.log && t.log == s.log + [t.log[n]];
    assert Continues(policy, t.log, n) <==> WithinWindow(policy, seen, s.now);
    LogGrows(policy, s.log, t.log[n]);
    hide LogOk;
  }

  lemma SuccessFollows(policy: Policy, s: Sys)
    requires policy.maxAttempts >= 1 && RowFollows(policy, s) && !IsLocked(policy, Visible(s.row, s.now), s.now)
    ensures RowFollows(policy, Step(policy, s, SignIn(true)))
  {
    LogGrows(policy, s.log, Attempt(s.now, true, |s.log|, false));
  }

  lemma StepFollows(policy: Policy, s: Sys, a: Action)
    requires policy.maxAttempts >= 1 && RowFollows(policy, s)
    ensures RowFollows(policy, Step(policy, s, a))
  {
    hide LogOk;
    if a.SignIn? && !IsLocked(policy, Visible(s.row, s.now), s.now) {
      if a.valid { SuccessFollows(policy, s); } else { FailureFollows(policy, s); }
    }
  }

  lemma FollowsInRun(policy: Policy, s: Sys, actions: seq<Action>)
    requires policy.Valid() && Start(s)
    ensures RowFollows(policy, Run(policy, s, actions))
  {
    hide Step;
    var inv := (t: Sys) => RowFollows(policy, t);
    forall t, a | inv(t) ensures inv(Stepper(policy)(t, a)) { StepFollows(policy, t, a); }
    Runs.Keeps(Stepper(policy), inv, s, actions);
  }

  lemma {:induction false} WindowIsARunOfFailures(policy: Policy, log: seq<Attempt>, j: nat, k: nat)
    requires LogOk(policy, log) && policy.windowSeconds > 0.0
    requires j < |log| && !log[j].valid && log[j].window <= k <= j
    ensures !log[k].valid && log[k].window == log[j].window
    ensures (log[k].at - log[log[j].window].at) as real < policy.windowSeconds * 1000.0
    decreases j
  {
    hide Policy.TtlSeconds;
    assert EntryOk(policy, log, j);
    if k < j { WindowIsARunOfFailures(policy, log, j - 1, k); }
  }

  /** The sign-ins from `opener` to the last are failures, all of them within `windowSeconds` of it. */
  ghost predicate FailuresSince(policy: Policy, log: seq<Attempt>, opener: nat) {
    && opener < |log|
    && forall k | opener <= k < |log| ::
         !log[k].valid && (log[k].at - log[opener].at) as real < policy.windowSeconds * 1000.0
  }

  /**
   Over every run, the next sign-in is refused as locked if and only if the last window, which holds only
   failures, none later than `windowSeconds` after its first, holds at least `maxAttempts` of them, the one
   that reached `maxAttempts` is less than `lockoutSeconds` ago, and the row of the last one still lives.
  */
  lemma TheLogDecides(policy: Policy, s: Sys, actions: seq<Action>, valid: bool)
    requires policy.Valid() && Start(s)
    ensures var t := Run(policy, s, actions);
            var n := |t.log|;
            OutcomeOf(policy, t.row, t.now, valid) == Locked <==>
              && n > 0 && !t.log[n - 1].valid
              && var opener := t.log[n - 1].window;
                 && opener + policy.maxAttempts <= n && FailuresSince(policy, t.log, opener)
                 && t.now as real < t.log[opener + policy.maxAttempts - 1].at as real + policy.lockoutSeconds * 1000.0
                 && t.now / 1000 < t.log[n - 1].at / 1000 + policy.TtlSeconds()
  {
    FollowsInRun(policy, s, actions);
    var t := Run(policy, s, actions);
    var n := |t.log|;
    hide Run, Policy.TtlSeconds;
    if n > 0 && !t.log[n - 1].valid {
      assert EntryOk(policy, t.log, n - 1);
      forall k: nat | t.log[n - 1].window <= k < n
        ensures !t.log[k].valid && t.log[k].window == t.log[n - 1].window
                && (t.log[k].at - t.log[t.log[n - 1].window].at) as real < policy.windowSeconds * 1000.0
      {
        WindowIsARunOfFailures(policy, t.log, n - 1, k);
      }
    }
    hide LogOk, EntryOk;
  }

  /** Over every run, a failure trips the lock if and only if it is number `maxAttempts` of its window. */
  lemma TripsAtTheLastAttempt(policy: Policy, s: Sys, actions: seq<Action>, j: nat)
    requires policy.Valid() && Start(s) && j < |Run(policy, s, actions).log|
    ensures var log := Run(policy, s, actions).log;
            && log[j].window <= j
            && (log[j].tripped <==> !log[j].valid && j + 1 == log[j].window + policy.maxAttempts)
            && (!log[j].valid ==> log[j].window == if Continues(policy, log, j) then log[j - 1].window else j)
  {
    FollowsInRun(policy, s, actions);
    hide Run, Continues;
    assert EntryOk(policy, Run(policy, s, actions).log, j);
  }

  /** In particular a success clears the counter: after it, only `maxAttempts` new failures lock the user out. */
  lemma ASuccessClearsTheCounter(policy: Policy, s: Sys, actions: seq<Action>, valid: bool, j: nat)
    requires policy.Valid() && Start(s)
    requires var t := Run(policy, s, actions);
             j < |t.log| && t.log[j].valid && OutcomeOf(policy, t.row, t.now, valid) == Locked
    ensures |Run(policy, s, actions).log| >= j + 1 + policy.maxAttempts
  {
    TheLogDecides(policy, s, actions, valid);
    hide Run;
  }

  function Waited(actions: seq<Action>): nat {
    if actions == [] then 0
    else Waited(actions[..|actions| - 1]) + if actions[|actions| - 1].Wait? then actions[|actions| - 1].ms else 0
  }

  /** By the actions: when each sign-in that was not refused as locked came, and whether it was valid. */
  function Evaluated(policy: Policy, s: Sys, actions: seq<Action>): seq<(int, bool)> {
    if actions == [] then []
    else
      var front, t := actions[..|actions| - 1], Run(policy, s, actions[..|actions| - 1]);
      Evaluated(policy, s, front) +
        match actions[|actions| - 1]
        case SignIn(valid) =>
          if OutcomeOf(policy, t.row, t.now, valid) == Locked then [] else [(s.now + Waited(front), valid)]
        case _ => []
  }

  function Entries(log: seq<Attempt>): seq<(int, bool)> {
    seq(|log|, i requires 0 <= i < |log| => (log[i].at, log[i].valid))
  }

  /** The log holds exactly the sign-ins that were evaluated, in order, with their times. */
  lemma {:induction false} TheLogIsWhatWasEvaluated(policy: Policy, s: Sys, actions: seq<Action>)
    requires Start(s)
    ensures Entries(Run(policy, s, actions).log) == Evaluated(policy, s, actions)
    ensures Run(policy, s, actions).now == s.now + Waited(actions)
    decreases |actions|
  {
    if actions == [] {
    } else {
      var front := actions[..|actions| - 1];
      TheLogIsWhatWasEvaluated(policy, s, front);
      LogStep(policy, Run(policy, s, front), actions[|actions| - 1]);
      hide Step, OutcomeOf;
    }
  }

  lemma LogStep(policy: Policy, s: Sys, a: Action)
    ensures var t := Step(policy, s, a);
            && t.now == s.now + (if a.Wait? then a.ms else 0)
            && Entries(t.log) == Entries(s.log) + if a.SignIn? && OutcomeOf(policy, s.row, s.now, a.valid) != Locked
                                                  then [(s.now, a.valid)] else []
  {
    hide AfterFailure, Trips;
  }

  /** After the failure that trips the lock, no password is evaluated until that lock is over. */
  lemma NothingEvaluatedWhileLocked(policy: Policy, s: Sys, actions: seq<Action>, i: nat, j: nat)
    requires policy.Valid() && Start(s) && i < j < |Run(policy, s, actions).log|
    requires Run(policy, s, actions).log[i].tripped
    ensures LockOver(policy, Run(policy, s, actions).log[i].at, Run(policy, s, actions).log[j].at)
  {
    LocksInRun(policy, s, actions);
  }

  /** And the next attempt after it is over is evaluated: the lock holds exactly that long. */
  lemma LockedExactlyUntilOver(policy: Policy, s: Sys, trippedAt: int, valid: bool)
    requires LockHeld(policy, s, trippedAt)
    ensures OutcomeOf(policy, s.row, s.now, valid) == Locked <==> !LockOver(policy, trippedAt, s.now)
  {
  }

  /** The row is still there when the lock's, or the window's, last millisecond has passed, whenever it was written. */
  predicate OutlivesLock(policy: Policy) {
    Ceil(policy.LockoutMs()) + 999 <= 1000 * policy.TtlSeconds()
  }

  predicate OutlivesWindow(policy: Policy) {
    Ceil(policy.WindowMs()) + 999 <= 1000 * policy.TtlSeconds()
  }

  /** A lock lasts `lockoutSeconds` exactly when the row's whole-second time-to-live comes no earlier. */
  lemma LockLastsIff(policy: Policy, trippedAt: int)
    requires policy.Valid()
    ensures (forall now | now >= trippedAt && LockOver(policy, trippedAt, now) ::
               now as real >= trippedAt as real + policy.LockoutMs())
            <==> (trippedAt / 1000 + policy.TtlSeconds()) * 1000 >= trippedAt + Ceil(policy.LockoutMs())
  {
    var gone := (trippedAt / 1000 + policy.TtlSeconds()) * 1000;
    DurationsArePositive(policy);
    hide Policy.TtlSeconds;
    assert gone / 1000 == trippedAt / 1000 + policy.TtlSeconds() && gone >= trippedAt;
    assert LockOver(policy, trippedAt, gone);
  }

  /** In any case it lasts more than `lockoutSeconds` less one second. */
  lemma LockLasts(policy: Policy, trippedAt: int, now: int)
    requires policy.Valid() && LockOver(policy, trippedAt, now)
    ensures (now - trippedAt) as real > policy.LockoutMs() - 1000.0
  {
    if now / 1000 >= trippedAt / 1000 + policy.TtlSeconds() {
      SecondsApart(now, trippedAt, policy.TtlSeconds());
    }
  }

  lemma SecondsApart(now: int, since: int, seconds: int)
    requires now / 1000 >= since / 1000 + seconds
    ensures now - since >= seconds * 1000 - 999
  {
  }

  /** No whole millisecond lies after the lock and still inside the counting window. */
  predicate WindowInsideLock(policy: Policy) {
    policy.WindowMs() <= Ceil(policy.LockoutMs()) as real
  }

  /** The window neither outlasts the lock nor the row. */
  predicate Bounding(policy: Policy) {
    WindowInsideLock(policy) && OutlivesWindow(policy)
  }

  // The bound holds: while the window of a failure is open, the row counts its failures.

  ghost predicate Tracks(policy: Policy, s: Sys, i: nat)
    requires i < |s.log|
  {
    && s.row.Some? && s.row.value.window == i && s.row.value.firstFailAt == s.log[i].at
    && InWindow(policy, s.log, i) == s.row.value.count
  }

  ghost predicate OpenerOk(policy: Policy, s: Sys, i: nat)
    requires i < |s.log|
  {
    && InWindow(policy, s.log, i) <= policy.maxAttempts
    && ((s.now - s.log[i].at) as real >= policy.WindowMs() || Succeeded(s.log, i) || Tracks(policy, s, i))
  }

  ghost predicate OpenersOk(policy: Policy, s: Sys) {
    && (s.row.Some? ==> s.row.value.window < |s.log|)
    && forall i: nat | Opens(s.log, i) :: OpenerOk(policy, s, i)
  }

  lemma LapsedLockClosesTheWindow(policy: Policy, r: Row, now: int)
    requires policy.Valid() && WindowInsideLock(policy) && !IsLocked(policy, Some(r), now)
    requires r.lockedAt.Some? && r.firstFailAt <= r.lockedAt.value && r.count >= policy.maxAttempts
    ensures !WithinWindow(policy, Some(r), now)
  {
    var waited := now - r.lockedAt.value;
    assert waited as real >= policy.LockoutMs();
    assert waited >= Ceil(policy.LockoutMs());
  }

  lemma AliveInItsWindow(policy: Policy, r: Row, now: int)
    requires OutlivesWindow(policy) && WithinWindow(policy, Some(r), now)
    requires r.firstFailAt <= r.writtenAt && r.ttl == r.writtenAt / 1000 + policy.TtlSeconds()
    ensures Visible(Some(r), now) == Some(r)
  {
    assert now - r.firstFailAt < Ceil(policy.WindowMs());
    hide Policy.TtlSeconds;
    if now / 1000 >= r.ttl { SecondsApart(now, r.writtenAt, policy.TtlSeconds()); }
  }

  lemma CountAfter(policy: Policy, log: seq<Attempt>, last: Attempt, i: nat)
    requires i < |log|
    ensures InWindow(policy, log + [last], i)
         == InWindow(policy, log, i)
            + if !last.valid && (last.at - log[i].at) as real < policy.WindowMs() && !Succeeded(log, i) then 1 else 0
    ensures Succeeded(log + [last], i) <==> Succeeded(log, i) || last.valid
  {
    var more := log + [last];
    assert more[..|log|] == log;
    if Succeeded(log, i) {
      var j :| i < j < |log| && log[j].valid;
      assert more[j].valid;
    }
    if last.valid { assert more[|log|].valid; }
  }

  lemma FailureKeepsOpener(policy: Policy, s: Sys, i: nat)
    requires policy.Valid() && Bounding(policy) && RowOk(policy, s) && OpenersOk(policy, s) && Opens(s.log, i)
    requires !IsLocked(policy, Visible(s.row, s.now), s.now)
    ensures OpenerOk(policy, Step(policy, s, SignIn(false)), i)
  {
    var t := Step(policy, s, SignIn(false));
    assert OpenerOk(policy, s, i);
    CountAfter(policy, s.log, t.log[|s.log|], i);
    assert t.log[i] == s.log[i];
    if (s.now - s.log[i].at) as real < policy.WindowMs() && !Succeeded(s.log, i) {
      var r := s.row.value;
      AliveInItsWindow(policy, r, s.now);
      if r.count >= policy.maxAttempts { LapsedLockClosesTheWindow(policy, r, s.now); }
    }
    hide InWindow, Succeeded;
  }

  lemma FailureKeepsOpeners(policy: Policy, s: Sys)
    requires policy.Valid() && Bounding(policy) && RowOk(policy, s) && OpenersOk(policy, s)
    requires !IsLocked(policy, Visible(s.row, s.now), s.now)
    ensures OpenersOk(policy, Step(policy, s, SignIn(false)))
  {
    var t := Step(policy, s, SignIn(false));
    forall i: nat | Opens(t.log, i) ensures OpenerOk(policy, t, i) {
      if i < |s.log| {
        assert t.log[i] == s.log[i];
        FailureKeepsOpener(policy, s, i);
      } else {
        NewOpener(policy, s);
      }
    }
  }

  lemma NewOpener(policy: Policy, s: Sys)
    requires policy.Valid() && OpenersOk(policy, s) && !IsLocked(policy, Visible(s.row, s.now), s.now)
    requires Opens(Step(policy, s, SignIn(false)).log, |s.log|)
    ensures OpenerOk(policy, Step(policy, s, SignIn(false)), |s.log|)
  {
    var t := Step(policy, s, SignIn(false));
    assert t.log[..|s.log|] == s.log;
    assert !WithinWindow(policy, Visible(s.row, s.now), s.now);
  }

  lemma SuccessKeepsOpeners(policy: Policy, s: Sys)
    requires OpenersOk(policy, s) && !IsLocked(policy, Visible(s.row, s.now), s.now)
    ensures OpenersOk(policy, Step(policy, s, SignIn(true)))
  {
    var t := Step(policy, s, SignIn(true));
    forall i: nat | Opens(t.log, i) ensures OpenerOk(policy, t, i) {
      assert i < |s.log| && t.log[i] == s.log[i];
      assert OpenerOk(policy, s, i);
      CountAfter(policy, s.log, t.log[|s.log|], i);
    }
  }

  lemma StepKeepsOpeners(policy: Policy, s: Sys, a: Action)
    requires policy.Valid() && Bounding(policy) && RowOk(policy, s) && OpenersOk(policy, s)
    ensures OpenersOk(policy, Step(policy, s, a))
  {
    match a
    case SignIn(valid) =>
      if !IsLocked(policy, Visible(s.row, s.now), s.now) {
        if valid { SuccessKeepsOpeners(policy, s); } else { FailureKeepsOpeners(policy, s); }
      }
    case Wait(_) => TimeKeepsOpeners(policy, s, a);
    case Reap => TimeKeepsOpeners(policy, s, a);
  }

  lemma TimeKeepsOpeners(policy: Policy, s: Sys, a: Action)
    requires policy.Valid() && Bounding(policy) && RowOk(policy, s) && OpenersOk(policy, s) && !a.SignIn?
    ensures OpenersOk(policy, Step(policy, s, a))
  {
    var t := Step(policy, s, a);
    forall i: nat | Opens(t.log, i) ensures OpenerOk(policy, t, i) {
      assert OpenerOk(policy, s, i);
      if a.Reap? && (s.now - s.log[i].at) as real < policy.WindowMs() && !Succeeded(s.log, i) {
        AliveInItsWindow(policy, s.row.value, s.now);
      }
    }
  }

  lemma OpenersInRun(policy: Policy, s: Sys, actions: seq<Action>)
    requires policy.Valid() && Bounding(policy) && Start(s)
    ensures OpenersOk(policy, Run(policy, s, actions))
  {
    hide Step, OpenersOk, LocksOk, RowOk;
    var inv := (t: Sys) => LocksOk(policy, t) && RowOk(policy, t) && OpenersOk(policy, t);
    assert inv(s) by { StartIsOk(policy, s); }
    forall t, a | inv(t) ensures inv(Stepper(policy)(t, a)) {
      StepKeepsLocks(policy, t, a);
      StepKeepsOpeners(policy, t, a);
    }
    Runs.Keeps(Stepper(policy), inv, s, actions);
  }

  lemma StartIsOk(policy: Policy, s: Sys)
    requires Start(s)
    ensures LocksOk(policy, s) && RowOk(policy, s) && OpenersOk(policy, s)
  {
  }

  // The bound fails otherwise: fill the counter, wait, and fail once more inside the window.

  lemma DurationsArePositive(policy: Policy)
    requires policy.Valid()
    ensures policy.TtlSeconds() >= 1 && policy.WindowMs() > 0.0 && Ceil(policy.LockoutMs()) >= 0
  {
  }

  /** `k` failures in the same millisecond. */
  function Burst(k: nat): seq<Action> {
    if k == 0 then [] else Burst(k - 1) + [SignIn(false)]
  }

  /** The state after them. */
  ghost predicate Full(policy: Policy, t: Sys, now: int, k: nat) {
    && t.now == now && |t.log| == k
    && (forall j | 0 <= j < k :: !t.log[j].valid && t.log[j].at == now && t.log[j].window == 0)
    && (forall j | 0 <= j < k :: t.log[j].tripped == (j + 1 == policy.maxAttempts))
    && t.row == if k == 0 then None
                else Some(Row(k, now, if k == policy.maxAttempts then Some(now) else None,
                              now / 1000 + policy.TtlSeconds(), 0, now))
  }

  lemma NextOfBurst(policy: Policy, s: Sys, k: nat)
    requires policy.Valid() && 1 <= k <= policy.maxAttempts && Full(policy, s, s.now, k - 1)
    ensures Full(policy, Step(policy, s, SignIn(false)), s.now, k)
  {
    DurationsArePositive(policy);
    hide Policy.TtlSeconds, Policy.WindowMs, Policy.LockoutMs;
  }

  lemma {:induction false} BurstState(policy: Policy, s: Sys, k: nat)
    requires policy.Valid() && Start(s) && k <= policy.maxAttempts
    ensures Full(policy, Run(policy, s, Burst(k)), s.now, k)
  {
    if k == 0 {
    } else {
      Runs.Snoc(Stepper(policy), s, Burst(k - 1), SignIn(false));
      BurstState(policy, s, k - 1);
      NextOfBurst(policy, Run(policy, s, Burst(k - 1)), k);
      hide *;
    }
  }

  /** Fill the counter, wait, and fail once more. */
  function BurstAndOne(policy: Policy, wait: nat): seq<Action> {
    Burst(policy.maxAttempts) + [Wait(wait)] + [SignIn(false)]
  }

  lemma OneMoreFailure(policy: Policy, s: Sys, wait: nat)
    requires policy.Valid() && Start(s)
    requires !IsLocked(policy, Visible(Run(policy, s, Burst(policy.maxAttempts)).row, s.now + wait), s.now + wait)
    ensures var log := Run(policy, s, BurstAndOne(policy, wait)).log;
            var m := policy.maxAttempts;
            && |log| == m + 1 && log[m].at == s.now + wait && !log[m].valid
            && forall j | 0 <= j < m :: !log[j].valid && log[j].at == s.now && log[j].window == 0
                                        && log[j].tripped == (j + 1 == m)
  {
    var m := policy.maxAttempts;
    BurstState(policy, s, m);
    Runs.Snoc(Stepper(policy), s, Burst(m), Wait(wait));
    Runs.Snoc(Stepper(policy), s, Burst(m) + [Wait(wait)], SignIn(false));
    var t := Run(policy, s, Burst(m) + [Wait(wait)]);
    hide AfterFailure, IsLocked, Visible, Trips, Policy.TtlSeconds;
    assert !IsLocked(policy, Visible(t.row, t.now), t.now);
  }

  /** All the failures of a log without a success are in one window when the last is. */
  lemma {:induction false} AllInWindow(policy: Policy, log: seq<Attempt>, now: int)
    requires log != [] && (forall j | 0 <= j < |log| :: !log[j].valid)
    requires forall j | 0 <= j < |log| :: 0 <= log[j].at - log[0].at && (log[j].at - log[0].at) as real < policy.WindowMs()
    ensures InWindow(policy, log, 0) == |log|
    decreases |log|
  {
    if |log| == 1 {
    } else {
      AllInWindow(policy, log[..|log| - 1], now);
    }
  }

  lemma OneTooMany(policy: Policy, s: Sys, wait: nat)
    requires policy.Valid() && Start(s) && wait as real < policy.WindowMs()
    requires !IsLocked(policy, Visible(Run(policy, s, Burst(policy.maxAttempts)).row, s.now + wait), s.now + wait)
    ensures var log := Run(policy, s, BurstAndOne(policy, wait)).log;
            Opens(log, 0) && InWindow(policy, log, 0) > policy.maxAttempts
  {
    OneMoreFailure(policy, s, wait);
    hide Run, Burst, BurstAndOne;
    var log := Run(policy, s, BurstAndOne(policy, wait)).log;
    assert !log[0].valid && log[0].window == 0 && log[0].at == s.now;
    AllInWindow(policy, log, s.now);
  }

  /** The waits after which the lock no longer holds: its own duration, or the time to the row's last second. */
  lemma LockOverAfter(policy: Policy, s: Sys, wait: nat)
    requires policy.Valid() && Start(s)
    requires wait as real >= policy.LockoutMs() || (s.now + wait) / 1000 >= s.now / 1000 + policy.TtlSeconds()
    ensures !IsLocked(policy, Visible(Run(policy, s, Burst(policy.maxAttempts)).row, s.now + wait), s.now + wait)
  {
    BurstState(policy, s, policy.maxAttempts);
    hide Run, Policy.TtlSeconds, Policy.LockoutMs;
  }

  /** From one millisecond before a full second to the second the row is dropped. */
  function TimeToDrop(policy: Policy): (wait: nat)
    requires policy.Valid()
    ensures (999 + wait) / 1000 == 999 / 1000 + policy.TtlSeconds()
    ensures wait == 1000 * policy.TtlSeconds() - 999
  {
    DurationsArePositive(policy);
    1000 * policy.TtlSeconds() - 999
  }

  const LATE_IN_A_SECOND := Sys(999, None, [])

  /**
   In every run no password is evaluated within `lockoutSeconds` of the failure that tripped a lock,
   exactly when the row cannot be dropped before the lock's last millisecond.
  */
  lemma LocksLastIff(policy: Policy)
    requires policy.Valid()
    ensures OutlivesLock(policy) <==>
              forall s, actions, i: nat, j: nat | Start(s) && i < j < |Run(policy, s, actions).log|
                                                  && Run(policy, s, actions).log[i].tripped ::
                var log := Run(policy, s, actions).log;
                log[j].at as real >= log[i].at as real + policy.lockoutSeconds * 1000.0
  {
    if OutlivesLock(policy) {
      forall s, actions, i: nat, j: nat | Start(s) && i < j < |Run(policy, s, actions).log|
                                          && Run(policy, s, actions).log[i].tripped
        ensures var log := Run(policy, s, actions).log;
                log[j].at as real >= log[i].at as real + policy.lockoutSeconds * 1000.0
      {
        var log := Run(policy, s, actions).log;
        NothingEvaluatedWhileLocked(policy, s, actions, i, j);
        OverMeansFull(policy, log[i].at, log[j].at);
      }
    } else {
      ALockEndsEarly(policy);
    }
  }

  lemma OverMeansFull(policy: Policy, trippedAt: int, now: int)
    requires OutlivesLock(policy) && LockOver(policy, trippedAt, now)
    ensures now as real >= trippedAt as real + policy.LockoutMs()
  {
    if now / 1000 >= trippedAt / 1000 + policy.TtlSeconds() {
      SecondsApart(now, trippedAt, policy.TtlSeconds());
    }
  }

  /** Otherwise this run evaluates a password too early. */
  lemma ALockEndsEarly(policy: Policy)
    requires policy.Valid() && !OutlivesLock(policy)
    ensures var log := Run(policy, LATE_IN_A_SECOND, BurstAndOne(policy, TimeToDrop(policy))).log;
            var m := policy.maxAttempts;
            && |log| == m + 1 && log[m - 1].tripped
            && log[m].at as real < log[m - 1].at as real + policy.LockoutMs()
  {
    var wait := TimeToDrop(policy);
    LockOverAfter(policy, LATE_IN_A_SECOND, wait);
    OneMoreFailure(policy, LATE_IN_A_SECOND, wait);
    hide Run, BurstAndOne, Policy.TtlSeconds;
    assert wait < Ceil(policy.LockoutMs());
    assert wait as real < policy.LockoutMs();
  }

  lemma AWindowOverflows(policy: Policy)
    requires policy.Valid() && !Bounding(policy)
    ensures exists actions :: var log := Run(policy, LATE_IN_A_SECOND, actions).log;
                              Opens(log, 0) && InWindow(policy, log, 0) > policy.maxAttempts
  {
    DurationsArePositive(policy);
    var wait := if WindowInsideLock(policy) then TimeToDrop(policy) else Ceil(policy.LockoutMs());
    WaitIsShort(policy);
    LockOverAfter(policy, LATE_IN_A_SECOND, wait);
    OneTooMany(policy, LATE_IN_A_SECOND, wait);
    hide Run, InWindow;
    var actions := BurstAndOne(policy, wait);
    assert Opens(Run(policy, LATE_IN_A_SECOND, actions).log, 0);
  }

  lemma WaitIsShort(policy: Policy)
    requires policy.Valid()
    ensures !WindowInsideLock(policy) ==> Ceil(policy.LockoutMs()) as real < policy.WindowMs()
    ensures !OutlivesWindow(policy) ==> TimeToDrop(policy) as real < policy.WindowMs()
  {
    hide Policy.TtlSeconds;
    if !OutlivesWindow(policy) { assert TimeToDrop(policy) < Ceil(policy.WindowMs()); }
  }

  /**
   At most `maxAttempts` failures are evaluated in any `windowSeconds` from the failure that opened the
   window, success aside, in every run exactly when the window outlasts neither the lock nor the row.
  */
  lemma AtMostMaxFailuresPerWindowIff(policy: Policy)
    requires policy.Valid()
    ensures Bounding(policy) <==>
              forall s, actions, i: nat | Start(s) && Opens(Run(policy, s, actions).log, i) ::
                InWindow(policy, Run(policy, s, actions).log, i) <= policy.maxAttempts
  {
    if Bounding(policy) {
      forall s, actions, i: nat | Start(s) && Opens(Run(policy, s, actions).log, i)
        ensures InWindow(policy, Run(policy, s, actions).log, i) <= policy.maxAttempts
      {
        OpenersInRun(policy, s, actions);
        assert OpenerOk(policy, Run(policy, s, actions), i);
      }
    } else {
      AWindowOverflows(policy);
      assert Start(LATE_IN_A_SECOND);
    }
  }

  /**
   For a window of whole seconds that is the case exactly when the lock is longer than the window: with
   the two equal, as they are by default, one more failure fits in. A second more is always enough.
  */
  lemma BoundingIffLongerLock(policy: Policy)
    requires policy.Valid()
    ensures policy.windowSeconds == policy.windowSeconds.Floor as real ==>
              (Bounding(policy) <==> policy.lockoutSeconds > policy.windowSeconds)
    ensures policy.windowSeconds + 1.0 <= policy.lockoutSeconds ==> Bounding(policy)
  {
    if policy.lockoutSeconds <= policy.windowSeconds { EqualOrShorterLock(policy); }
    else { LongerLock(policy); }
  }

  lemma EqualOrShorterLock(policy: Policy)
    requires policy.Valid() && policy.lockoutSeconds <= policy.windowSeconds
    ensures policy.windowSeconds == policy.windowSeconds.Floor as real ==> !Bounding(policy)
  {
    var w := policy.windowSeconds.Floor;
    if policy.windowSeconds == w as real {
      assert Ceil(policy.WindowMs()) == 1000 * w;
      assert policy.TtlSeconds() == w;
    }
  }

  lemma LongerLock(policy: Policy)
    requires policy.Valid() && policy.windowSeconds < policy.lockoutSeconds
    ensures policy.windowSeconds == policy.windowSeconds.Floor as real || policy.windowSeconds + 1.0 <= policy.lockoutSeconds ==>
              Bounding(policy)
  {
    assert policy.WindowMs() <= policy.LockoutMs();
    assert policy.TtlSeconds() == Ceil(policy.lockoutSeconds);
    if policy.windowSeconds == policy.windowSeconds.Floor as real {
      assert Ceil(policy.WindowMs()) == 1000 * policy.windowSeconds.Floor;
      assert policy.TtlSeconds() >= policy.windowSeconds.Floor + 1;
    } else if policy.windowSeconds + 1.0 <= policy.lockoutSeconds {
      assert policy.TtlSeconds() as real >= policy.windowSeconds + 1.0;
    }
  }

  /** The row decides nothing for a sign-in at `now`: dropping it changes neither the lock nor the next row. */
  ghost predicate DecidesNothing(policy: Policy, seen: Row, now: int) {
    && IsLocked(policy, Some(seen), now) == IsLocked(policy, None, now)
    && forall window :: AfterFailure(policy, Some(seen), now, window) == AfterFailure(policy, None, now, window)
  }

  /**
   Dropping the row at its time-to-live changes no outcome, whatever row it is and whenever it was
   written, exactly when the row outlives both windows.
  */
  lemma DroppingDecidesNothingIff(policy: Policy)
    requires policy.Valid()
    ensures OutlivesWindow(policy) && OutlivesLock(policy) <==>
              forall s | RowOk(policy, s) && s.row.Some? && s.row.value.count >= 1 && s.row.value.ttl <= s.now / 1000 ::
                DecidesNothing(policy, s.row.value, s.now)
  {
    if OutlivesWindow(policy) && OutlivesLock(policy) {
      forall s | RowOk(policy, s) && s.row.Some? && s.row.value.count >= 1 && s.row.value.ttl <= s.now / 1000
        ensures DecidesNothing(policy, s.row.value, s.now)
      {
        DroppedRowIsSpent(policy, s);
      }
    } else {
      ADroppedRowDecides(policy);
    }
  }

  lemma DroppedRowIsSpent(policy: Policy, s: Sys)
    requires policy.Valid() && OutlivesWindow(policy) && OutlivesLock(policy)
    requires RowOk(policy, s) && s.row.Some? && s.row.value.ttl <= s.now / 1000
    ensures DecidesNothing(policy, s.row.value, s.now)
  {
    var r := s.row.value;
    if WithinWindow(policy, s.row, s.now) { AliveInItsWindow(policy, r, s.now); }
    if r.lockedAt.Some? { OverMeansFull(policy, r.lockedAt.value, s.now) by { LaterWriteLaterDrop(r, policy, s.now); } }
  }

  lemma LaterWriteLaterDrop(r: Row, policy: Policy, now: int)
    requires r.lockedAt.Some? && r.lockedAt.value <= r.writtenAt
    requires r.writtenAt / 1000 + policy.TtlSeconds() <= now / 1000
    ensures LockOver(policy, r.lockedAt.value, now)
  {
  }

  /** A full counter written late in a second still decides when it is dropped. */
  lemma ADroppedRowDecides(policy: Policy)
    requires policy.Valid() && !(OutlivesWindow(policy) && OutlivesLock(policy))
    ensures var r := Row(policy.maxAttempts, 999, Some(999), policy.TtlSeconds(), 0, 999);
            var s := Sys(999 + TimeToDrop(policy), Some(r), []);
            RowOk(policy, s) && r.ttl <= s.now / 1000 && !DecidesNothing(policy, r, s.now)
  {
    var r := Row(policy.maxAttempts, 999, Some(999), policy.TtlSeconds(), 0, 999);
    var now := 999 + TimeToDrop(policy);
    WaitIsShort(policy);
    if !OutlivesWindow(policy) {
      assert WithinWindow(policy, Some(r), now);
      assert AfterFailure(policy, Some(r), now, 0).count != AfterFailure(policy, None, now, 0).count;
    } else {
      hide Policy.TtlSeconds;
      assert TimeToDrop(policy) < Ceil(policy.LockoutMs());
      assert IsLocked(policy, Some(r), now);
    }
  }

  // --------------------------------------------------------------- the methods themselves

  /** The counter row of one user, the clock, and the log of evaluated sign-ins. */
  class Throttle {
    const policy: Policy
    var now: int
    var row: Option<Row>
    var log: seq<Attempt>

    function View(): Sys
      reads this
    {
      Sys(now, row, log)
    }

    constructor (policy: Policy, now: int)
      ensures this.policy == policy && Start(View())
    {
      this.policy, this.now, row, log := policy, now, None, [];
    }

    method ReadLockout() returns (seen: Option<Row>)
      ensures seen == Visible(row, now)
    {
      seen := row;
      if row.Some? && row.value.ttl <= now / 1000 {
        seen := None;
      }
    }

    method AssertNotLockedOut() returns (ok: bool)
      ensures ok <==> !IsLocked(policy, Visible(row, now), now)
    {
      var record := ReadLockout();
      if record.None? || record.value.count < policy.maxAttempts {
        return true;
      }
      var lockedAt := if record.value.lockedAt.Some? then record.value.lockedAt.value else record.value.firstFailAt;
      ok := now as real >= lockedAt as real + policy.LockoutMs();
    }

    method RecordFailedSignIn()
      modifies this
      ensures now == old(now)
      ensures row == Some(AfterFailure(policy, Visible(old(row), now), now, |old(log)|))
      ensures log == old(log) + [Attempt(now, false, row.value.window, Trips(policy, Visible(old(row), now), now))]
    {
      var existing := ReadLockout();
      var withinWindow := existing.Some? && (now - existing.value.firstFailAt) as real < policy.WindowMs();
      var next := if withinWindow
                  then existing.value.(count := existing.value.count + 1, writtenAt := now)
                  else Row(1, now, None, 0, |log|, now);
      var tripped := next.count >= policy.maxAttempts && next.lockedAt.None?;
      if tripped {
        next := next.(lockedAt := Some(now));
      }
      row := Some(next.(ttl := now / 1000 + policy.TtlSeconds()));
      log := log + [Attempt(now, false, next.window, tripped)];
    }

    method ClearLockout()
      modifies this`row
      ensures row == None
    {
      row := None;
    }

    /** `signIn`, with `valid` saying whether the user exists, is confirmed and the password matches. */
    method SignIn(valid: bool) returns (outcome: Outcome)
      modifies this
      ensures View() == Step(policy, old(View()), Action.SignIn(valid))
      ensures outcome == OutcomeOf(policy, old(row), old(now), valid)
    {
      var ok := AssertNotLockedOut();
      if !ok {
        return Locked;
      }
      if !valid {
        RecordFailedSignIn();
        return Refused;
      }
      ClearLockout();
      log := log + [Attempt(now, true, |log|, false)];
      return SignedIn;
    }
  }
}
