/**
 AsyncJob's container poller: one receive loop, a bounded number of detached message handlers, and
 drain waiters, as cooperative tasks over `running`, `inFlight` and `idle`.
*/
module ContainerPoller {
  import Runs

  const MAX_RECEIVE: nat := 10

  type Waiter = nat

  /** A message handler: its worker runs, then (after an ok result) its message is being deleted. */
  datatype Handler = Working | Deleting | Ended(deleted: bool)

  /** The receive loop between two awaits. */
  datatype Loop = Top | Napping | Receiving(asked: nat) | Stopped

  /** `resolved` records how many handlers were in flight when each waiter was resolved. */
  datatype Sys = Sys(
    max: nat,
    running: bool,
    inFlight: int,
    idle: seq<Waiter>,
    loop: Loop,
    handlers: seq<Handler>,
    resolved: seq<int>)

  datatype Action =
    | LoopTop
    | Wake
    | Received(count: nat)
    | ReceiveFailed
    | WorkerReported(h: nat, ok: bool)
    | DeleteSettled(h: nat, ok: bool)
    | Stop
    | Drain(waiter: Waiter)

  function Init(max: nat): Sys {
    Sys(max, true, 0, [], Top, [], [])
  }

  function Min(a: int, b: int): int {
    if a < b then a else b
  }

  /** `releaseSlot`: the last handler to end resolves every waiter. */
  function Release(s: Sys): Sys {
    var n := s.inFlight - 1;
    if n == 0 then s.(inFlight := n, resolved := s.resolved + seq(|s.idle|, _ => n), idle := [])
    else s.(inFlight := n)
  }

  function Step(s: Sys, a: Action): Sys {
    match a
    case LoopTop =>
      if !s.loop.Top? then s
      else if !s.running then s.(loop := Stopped)
      else
        var free := s.max - s.inFlight;
        if free <= 0 then s.(loop := Napping) else s.(loop := Receiving(Min(MAX_RECEIVE, free)))
    case Wake => if s.loop.Napping? then s.(loop := Top) else s
    case Received(count) =>
      if s.loop.Receiving? && count <= s.loop.asked then
        s.(inFlight := s.inFlight + count, handlers := s.handlers + seq(count, _ => Working), loop := Top)
      else s
    case ReceiveFailed => if s.loop.Receiving? then s.(loop := Napping) else s
    case WorkerReported(h, ok) =>
      if h >= |s.handlers| || !s.handlers[h].Working? then s
      else if ok then s.(handlers := s.handlers[h := Deleting])
      else Release(s.(handlers := s.handlers[h := Ended(false)]))
    case DeleteSettled(h, ok) =>
      if h >= |s.handlers| || !s.handlers[h].Deleting? then s
      else Release(s.(handlers := s.handlers[h := Ended(ok)]))
    case Stop => s.(running := false)
    case Drain(waiter) =>
      if s.inFlight == 0 then s.(resolved := s.resolved + [0]) else s.(idle := s.idle + [waiter])
  }

  function Run(s: Sys, actions: seq<Action>): Sys {
    Runs.Run(Step, s, actions)
  }

  /** Handlers that started and have not ended. */
  function Active(handlers: seq<Handler>): nat {
    if handlers == [] then 0
    else Active(handlers[..|handlers| - 1]) + if handlers[|handlers| - 1].Ended? then 0 else 1
  }

  lemma {:induction false} ActiveAfterUpdate(handlers: seq<Handler>, h: nat, pc: Handler)
    requires h < |handlers| && !handlers[h].Ended?
    ensures Active(handlers[h := pc]) == Active(handlers) - (if pc.Ended? then 1 else 0)
    decreases |handlers|
  {
    var n := |handlers| - 1;
    if h == n {
      assert handlers[h := pc][..n] == handlers[..n];
    } else {
      assert handlers[h := pc][..n] == handlers[..n][h := pc];
      ActiveAfterUpdate(handlers[..n], h, pc);
    }
  }

  lemma {:induction false} ActiveAfterStart(handlers: seq<Handler>, count: nat)
    ensures Active(handlers + seq(count, _ => Working)) == Active(handlers) + count
  {
    var all := handlers + seq(count, _ => Working);
    if count == 0 {
      assert all == handlers;
    } else {
      assert all[..|all| - 1] == handlers + seq(count - 1, _ => Working);
      ActiveAfterStart(handlers, count - 1);
    }
  }

  ghost predicate Inv(s: Sys) {
    && s.inFlight == Active(s.handlers)
    && s.inFlight <= s.max
    && (s.loop.Receiving? ==> 1 <= s.loop.asked <= MAX_RECEIVE && s.inFlight + s.loop.asked <= s.max)
    && (s.idle != [] ==> s.inFlight > 0)
    && (forall i | 0 <= i < |s.resolved| :: s.resolved[i] == 0)
  }

  /** A handler ends: one slot is released, and with the last one every waiter. */
  lemma EndKeepsInv(s: Sys, h: nat, pc: Handler)
    requires Inv(s) && h < |s.handlers| && !s.handlers[h].Ended? && pc.Ended?
    ensures Inv(Release(s.(handlers := s.handlers[h := pc])))
  {
    ActiveAfterUpdate(s.handlers, h, pc);
    var t := Release(s.(handlers := s.handlers[h := pc]));
    assert forall i | 0 <= i < |t.resolved| :: t.resolved[i] == 0;
    assert t.inFlight == Active(t.handlers);
  }

  lemma ReceivedKeepsInv(s: Sys, count: nat)
    requires Inv(s)
    ensures Inv(Step(s, Received(count)))
  {
    ActiveAfterStart(s.handlers, count);
  }

  lemma StepKeepsInv(s: Sys, a: Action)
    requires Inv(s)
    ensures Inv(Step(s, a)) && Step(s, a).max == s.max
  {
    match a
    case Received(count) => ReceivedKeepsInv(s, count);
    case WorkerReported(h, ok) =>
      if h < |s.handlers| && s.handlers[h].Working? {
        if ok { ActiveAfterUpdate(s.handlers, h, Deleting); } else { EndKeepsInv(s, h, Ended(false)); }
      }
    case DeleteSettled(h, ok) =>
      if h < |s.handlers| && s.handlers[h].Deleting? { EndKeepsInv(s, h, Ended(ok)); }
    case _ =>
  }

  // ------------------------------------------------------------------ theorems

  /**
   `inFlight` counts the handlers under way and never exceeds the limit, although the free slots are
   computed before the awaited receive; and waiters resolve only at 0.
  */
  lemma SlotsAreNeverExceeded(max: nat, actions: seq<Action>)
    ensures var t := Run(Init(max), actions);
            && t.inFlight == Active(t.handlers) && t.inFlight <= max
            && (forall i | 0 <= i < |t.resolved| :: t.resolved[i] == 0)
            && (t.idle != [] ==> t.inFlight > 0)
  {
    var inv := (t: Sys) => Inv(t) && t.max == max;
    forall t, a | inv(t) ensures inv(Step(t, a)) { StepKeepsInv(t, a); }
    Runs.Keeps(Step, inv, Init(max), actions);
  }

  function Drains(actions: seq<Action>): nat {
    if actions == [] then 0 else Drains(actions[..|actions| - 1]) + if actions[|actions| - 1].Drain? then 1 else 0
  }

  /** Every drain is resolved exactly once or still waits, and none waits when nothing is in flight. */
  lemma {:induction false} WaitersAreConserved(max: nat, actions: seq<Action>)
    ensures var t := Run(Init(max), actions);
            && |t.idle| + |t.resolved| == Drains(actions)
            && (t.inFlight == 0 ==> t.idle == [])
    decreases |actions|
  {
    if actions == [] {
    } else {
      WaitersAreConserved(max, actions[..|actions| - 1]);
      SlotsAreNeverExceeded(max, actions);
    }
  }

  /** At position `k` of the run the worker of handler `h`, at work until then, reported. */
  ghost predicate ReportedAt(max: nat, actions: seq<Action>, h: nat, k: nat, ok: bool) {
    && k < |actions| && actions[k] == WorkerReported(h, ok)
    && h < |Run(Init(max), actions[..k]).handlers| && Run(Init(max), actions[..k]).handlers[h] == Working
  }

  /** At position `k` of the run the delete for handler `h`, under way until then, settled. */
  ghost predicate SettledAt(max: nat, actions: seq<Action>, h: nat, k: nat, ok: bool) {
    && k < |actions| && actions[k] == DeleteSettled(h, ok)
    && h < |Run(Init(max), actions[..k]).handlers| && Run(Init(max), actions[..k]).handlers[h] == Deleting
  }

  /**
   What the run says of handler `h`: its worker has not reported; or it reported ok and the delete has not
   settled; or it reported a failure and nothing was deleted; or it reported ok and the delete settled so.
  */
  ghost predicate Bears(max: nat, actions: seq<Action>, h: nat, pc: Handler) {
    match pc
    case Working => forall k: nat, ok :: !ReportedAt(max, actions, h, k, ok)
    case Deleting =>
      && (exists k: nat :: ReportedAt(max, actions, h, k, true))
      && forall j: nat, ok :: !SettledAt(max, actions, h, j, ok)
    case Ended(deleted) =>
      || (!deleted && exists k: nat :: ReportedAt(max, actions, h, k, false))
      || (exists k: nat, j: nat ::
            k < j && ReportedAt(max, actions, h, k, true) && SettledAt(max, actions, h, j, deleted))
  }

  /**
   Over every run: a handler is where its worker's report and the outcome of its delete have put it. In
   particular a message is deleted only after an ok report, and an ok report always leads to a delete.
  */
  lemma {:induction false} HandlersFollowTheirReports(max: nat, actions: seq<Action>, h: nat)
    requires h < |Run(Init(max), actions).handlers|
    ensures Bears(max, actions, h, Run(Init(max), actions).handlers[h])
    decreases |actions|, 1
  {
    hide Step, Init;
    if actions == [] {
      assert Init(max).handlers == [] by { NothingStarted(max); }
    } else {
      var n := |actions| - 1;
      var front := actions[..n];
      var s := Run(Init(max), front);
      PrefixReports(max, actions, h);
      HandlerStep(s, actions[n], h);
      if h < |s.handlers| {
        HandlersFollowTheirReports(max, front, h);
        BearsOn(max, actions, h, s.handlers[h], Step(s, actions[n]).handlers[h]);
      } else {
        NobodyReportsYet(max, front, h);
      }
    }
  }

  lemma NothingStarted(max: nat)
    ensures Init(max).handlers == []
  {
  }

  lemma PrefixReports(max: nat, actions: seq<Action>, h: nat)
    requires actions != []
    ensures forall k: nat, ok | k < |actions| - 1 ::
              ReportedAt(max, actions, h, k, ok) <==> ReportedAt(max, actions[..|actions| - 1], h, k, ok)
    ensures forall k: nat, ok | k < |actions| - 1 ::
              SettledAt(max, actions, h, k, ok) <==> SettledAt(max, actions[..|actions| - 1], h, k, ok)
  {
    hide Run;
    forall k: nat | k < |actions| - 1 ensures actions[..|actions| - 1][..k] == actions[..k] { }
  }

  /** What one step does to a handler. */
  lemma HandlerStep(s: Sys, a: Action, h: nat)
    requires h < |Step(s, a).handlers|
    ensures var pc := Step(s, a).handlers[h];
            if h >= |s.handlers| then pc == Working && a.Received?
            else match s.handlers[h]
                 case Working =>
                   pc == if a == WorkerReported(h, true) then Deleting
                         else if a == WorkerReported(h, false) then Ended(false) else Working
                 case Deleting =>
                   pc == if a == DeleteSettled(h, true) then Ended(true)
                         else if a == DeleteSettled(h, false) then Ended(false) else Deleting
                 case Ended(_) => pc == s.handlers[h]
  {
  }

  lemma HandlersStay(s: Sys, a: Action)
    ensures |s.handlers| <= |Step(s, a).handlers|
  {
  }

  lemma {:induction false} NobodyReportsYet(max: nat, actions: seq<Action>, h: nat)
    requires h >= |Run(Init(max), actions).handlers|
    ensures forall k: nat, ok :: !ReportedAt(max, actions, h, k, ok)
    decreases |actions|
  {
    hide Step, Init;
    if actions == [] {
    } else {
      var n := |actions| - 1;
      HandlersStay(Run(Init(max), actions[..n]), actions[n]);
      NobodyReportsYet(max, actions[..n], h);
      PrefixReports(max, actions, h);
    }
  }

  /** The last action moves the handler on exactly as it adds to what the run says. */
  lemma BearsOn(max: nat, actions: seq<Action>, h: nat, was: Handler, pc: Handler)
    requires actions != [] && h < |Run(Init(max), actions[..|actions| - 1]).handlers|
    requires was == Run(Init(max), actions[..|actions| - 1]).handlers[h]
    requires Bears(max, actions[..|actions| - 1], h, was)
    requires pc == match was
                   case Working =>
                     if actions[|actions| - 1] == WorkerReported(h, true) then Deleting
                     else if actions[|actions| - 1] == WorkerReported(h, false) then Ended(false) else Working
                   case Deleting =>
                     if actions[|actions| - 1] == DeleteSettled(h, true) then Ended(true)
                     else if actions[|actions| - 1] == DeleteSettled(h, false) then Ended(false) else Deleting
                   case Ended(_) => was
    ensures Bears(max, actions, h, pc)
    decreases |actions|, 0
  {
    hide Run;
    var n := |actions| - 1;
    var front := actions[..n];
    PrefixReports(max, actions, h);
    match was
    case Working =>
      if pc != Working { assert ReportedAt(max, actions, h, n, pc.Deleting?); }
      forall j: nat, ok ensures !SettledAt(max, actions, h, j, ok) {
        if j < n && SettledAt(max, actions, h, j, ok) { SettledAfterReport(max, front, h, j, ok); }
      }
    case Deleting =>
      var k: nat :| ReportedAt(max, front, h, k, true);
      assert ReportedAt(max, actions, h, k, true);
      if pc != Deleting { assert SettledAt(max, actions, h, n, pc.deleted); }
    case Ended(deleted) =>
      if k: nat :| ReportedAt(max, front, h, k, false) && !deleted {
        assert ReportedAt(max, actions, h, k, false);
      } else {
        var k: nat, j: nat :| k < j && ReportedAt(max, front, h, k, true) && SettledAt(max, front, h, j, deleted);
        assert ReportedAt(max, actions, h, k, true) && SettledAt(max, actions, h, j, deleted);
      }
  }

  /** A delete that settled belongs to a handler whose worker reported. */
  lemma SettledAfterReport(max: nat, actions: seq<Action>, h: nat, j: nat, ok: bool)
    requires SettledAt(max, actions, h, j, ok)
    ensures exists k: nat :: ReportedAt(max, actions, h, k, true)
    decreases |actions|, 0
  {
    hide Step, Init;
    HandlersFollowTheirReports(max, actions[..j], h);
    var k: nat :| ReportedAt(max, actions[..j], h, k, true);
    assert actions[..j][..k] == actions[..k];
    assert ReportedAt(max, actions, h, k, true);
  }

  /** A running poller at the top of its loop can take any number of messages up to ten and to its free slots. */
  lemma AsksForAllItCanTake(max: nat, actions: seq<Action>, count: nat)
    requires Run(Init(max), actions).running && Run(Init(max), actions).loop.Top?
    ensures var s := Run(Init(max), actions);
            |Step(Step(s, LoopTop), Received(count)).handlers| ==
              |s.handlers| + if count <= 10 && s.inFlight + count <= max then count else 0
  {
    SlotsAreNeverExceeded(max, actions);
    MaxStays(max, actions);
    hide Run;
  }

  /**
   The loop never gets stuck: over every run it has stopped only after a stop, and otherwise, once a failed
   receive is over and its nap slept, it is back at its top with nothing else changed.
  */
  lemma {:induction false} TheLoopComesBack(max: nat, actions: seq<Action>)
    ensures var s := Run(Init(max), actions);
            && (s.loop.Stopped? ==> !s.running) && (Stop in actions <==> !s.running)
            && (!s.loop.Stopped? ==> Step(Step(s, ReceiveFailed), Wake) == s.(loop := Top))
            && (!s.loop.Stopped? && !s.running ==> Step(Step(Step(s, ReceiveFailed), Wake), LoopTop) == s.(loop := Stopped))
    decreases |actions|
  {
    if actions == [] {
    } else {
      var front, last := actions[..|actions| - 1], actions[|actions| - 1];
      TheLoopComesBack(max, front);
      assert Stop in actions <==> Stop in front || last == Stop;
    }
  }

  lemma {:induction false} MaxStays(max: nat, actions: seq<Action>)
    ensures Run(Init(max), actions).max == max
    decreases |actions|
  {
    if actions == [] {
    } else {
      MaxStays(max, actions[..|actions| - 1]);
    }
  }

  // ------------------------------------------------------------ what starts after a stop

  /** Handlers that a stopped poller may still start: those of a receive under way. */
  function Late(s: Sys): nat {
    if s.loop.Receiving? then s.loop.asked else 0
  }

  /** After a stop, over any run, no more handlers start than a receive under way had asked for. */
  lemma AtMostOneLateBatch(s: Sys, actions: seq<Action>)
    requires !s.running
    ensures |s.handlers| <= |Run(s, actions).handlers| <= |s.handlers| + Late(s)
  {
    var inv := (t: Sys) => !t.running && |s.handlers| <= |t.handlers| && |t.handlers| + Late(t) <= |s.handlers| + Late(s);
    Runs.Keeps(Step, inv, s, actions);
  }

  /** A stopped poller starts nothing more, whatever happens, exactly when no receive is under way. */
  lemma NoLateBatchIff(s: Sys)
    requires Inv(s) && !s.running
    ensures (forall actions :: |Run(s, actions).handlers| == |s.handlers|) <==> !s.loop.Receiving?
  {
    hide Step, Run, Inv;
    if s.loop.Receiving? {
      OneArrivesLate(s);
      assert |Run(s, [Received(1)]).handlers| != |s.handlers|;
    } else {
      forall actions ensures |Run(s, actions).handlers| == |s.handlers| { AtMostOneLateBatch(s, actions); }
    }
  }

  lemma OneArrivesLate(s: Sys)
    requires Inv(s) && s.loop.Receiving?
    ensures |Run(s, [Received(1)]).handlers| == |s.handlers| + 1
  {
    Runs.Snoc(Step, s, [], Received(1));
    assert [] + [Received(1)] == [Received(1)];
  }

  /** A whole run in which drain resolves at once and handlers start afterwards. */
  lemma DrainedPollerStartsABatch(max: nat, waiter: Waiter, count: nat)
    requires 0 < count <= Min(MAX_RECEIVE, max)
    ensures var drained := Run(Init(max), [LoopTop, Stop, Drain(waiter)]);
            && drained.resolved == [0]
            && Run(drained, [Received(count)]).inFlight == count
  {
    Runs.Snoc(Step, Init(max), [LoopTop, Stop], Drain(waiter));
    Runs.Snoc(Step, Init(max), [LoopTop], Stop);
    Runs.Snoc(Step, Init(max), [], LoopTop);
    assert [LoopTop, Stop] + [Drain(waiter)] == [LoopTop, Stop, Drain(waiter)];
    assert [LoopTop] + [Stop] == [LoopTop, Stop] && [] + [LoopTop] == [LoopTop];
    var drained := Run(Init(max), [LoopTop, Stop, Drain(waiter)]);
    Runs.Snoc(Step, drained, [], Received(count));
    assert [] + [Received(count)] == [Received(count)];
  }

  // --------------------------------------------------------------- the methods themselves

  class Poller {
    const max: nat
    var running: bool
    var inFlight: int
    var idle: seq<Waiter>
    var loop: Loop
    var handlers: seq<Handler>
    var resolved: seq<int>

    function View(): Sys
      reads this
    {
      Sys(max, running, inFlight, idle, loop, handlers, resolved)
    }

    ghost predicate Valid()
      reads this
    {
      Inv(View())
    }

    constructor (max: nat)
      ensures Valid() && View() == Init(max)
    {
      this.max := max;
      running, inFlight, idle, loop, handlers, resolved := true, 0, [], Top, [], [];
    }

    method WhenDrained(waiter: Waiter)
      requires Valid()
      modifies this
      ensures Valid() && View() == Step(old(View()), Drain(waiter))
    {
      StepKeepsInv(View(), Drain(waiter));
      if inFlight == 0 {
        resolved := resolved + [inFlight];
      } else {
        idle := idle + [waiter];
      }
    }

    method ReleaseSlot()
      modifies this`inFlight, this`idle, this`resolved
      ensures View() == Release(old(View()))
    {
      inFlight := inFlight - 1;
      if inFlight == 0 {
        ghost var before, waiting := resolved, idle;
        while idle != []
          invariant inFlight == 0 && |idle| <= |waiting|
          invariant resolved == before + seq(|waiting| - |idle|, _ => 0)
          decreases |idle|
        {
          idle := idle[1..];
          resolved := resolved + [inFlight];
        }
      }
    }

    /** From the top of the loop to its next await. */
    method Turn()
      requires Valid() && loop.Top?
      modifies this
      ensures Valid() && View() == Step(old(View()), LoopTop)
    {
      StepKeepsInv(View(), LoopTop);
      if !running {
        loop := Stopped;
        return;
      }
      var free := max - inFlight;
      if free <= 0 {
        loop := Napping;
        return;
      }
      loop := Receiving(if MAX_RECEIVE < free then MAX_RECEIVE else free);
    }

    /** The receive answered with `count` messages, at most as many as were asked for. */
    method Dispatch(count: nat)
      requires Valid() && loop.Receiving? && count <= loop.asked
      modifies this
      ensures Valid() && View() == Step(old(View()), Received(count))
    {
      StepKeepsInv(View(), Received(count));
      ghost var before := handlers;
      for i := 0 to count
        invariant inFlight == old(inFlight) + i
        invariant handlers == before + seq(i, _ => Working)
        invariant loop == old(loop) && running == old(running) && idle == old(idle) && resolved == old(resolved)
      {
        inFlight := inFlight + 1;
        handlers := handlers + [Working];
      }
      loop := Top;
    }

    /** The worker of handler `h` reported: delete the message, or leave it for redrive. */
    method Report(h: nat, ok: bool)
      requires Valid() && h < |handlers| && handlers[h].Working?
      modifies this
      ensures Valid() && View() == Step(old(View()), WorkerReported(h, ok))
    {
      StepKeepsInv(View(), WorkerReported(h, ok));
      if ok {
        handlers := handlers[h := Deleting];
      } else {
        handlers := handlers[h := Ended(false)];
        ReleaseSlot();
      }
    }

    /** The delete settled; a rejection is swallowed and the message left for redrive. */
    method FinishDelete(h: nat, ok: bool)
      requires Valid() && h < |handlers| && handlers[h].Deleting?
      modifies this
      ensures Valid() && View() == Step(old(View()), DeleteSettled(h, ok))
    {
      StepKeepsInv(View(), DeleteSettled(h, ok));
      handlers := handlers[h := Ended(ok)];
      ReleaseSlot();
    }
  }
}
