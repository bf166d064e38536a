/**
 The runaway caps of an agent turn. The counters live in app state that is saved when a segment of the
 turn ends and restored when the next begins; they are reset lazily, by the first hook of a fresh turn.

 A logical turn is one fresh segment and the resumed segments that follow its interrupts.
*/
module TurnBudget {
  import opened Maybe
  import Collections
  import Runs

  type TurnId = nat

  /** The persisted counters. Absent keys read as no turn, zero and the empty list. */
  datatype App = App(turn: Option<TurnId>, calls: nat, tools: nat, seen: seq<string>)

  /** A cap; `None` is a disabled one. */
  type Cap = Option<nat>

  datatype Caps = Caps(llm: Cap, tools: Cap)

  datatype Segment = Idle | Fresh | Resumed

  datatype Event = Model(cancelled: bool) | Tool(id: string, cancelled: bool)

  /**
   `events` are the calls of the current logical turn, `hooked` says that a hook ran in its fresh
   segment, and `carried` is the state the turn found; these three are bookkeeping.
  */
  datatype Sys = Sys(
    caps: Caps,
    saved: App,
    live: App,
    segment: Segment,
    turn: TurnId,
    capExceeded: bool,
    events: seq<Event>,
    hooked: bool,
    carried: App)

  datatype Action = Start(resume: bool) | ModelCall | ToolCall(id: string) | End

  const EMPTY := App(None, 0, 0, [])

  function Init(caps: Caps): Sys {
    Sys(caps, EMPTY, EMPTY, Idle, 0, false, [], false, EMPTY)
  }

  function TurnIdOf(s: Sys): Option<TurnId> {
    if s.segment.Fresh? then Some(s.turn) else None
  }

  function StartTurnIfNew(app: App, turnId: Option<TurnId>): App {
    if turnId.None? || app.turn == turnId then app else App(turnId, 0, 0, [])
  }

  function CountModelCall(app: App, turnId: Option<TurnId>): App {
    var a := StartTurnIfNew(app, turnId);
    a.(calls := a.calls + 1)
  }

  function CountToolCall(app: App, turnId: Option<TurnId>, id: string): App {
    var a := StartTurnIfNew(app, turnId);
    if id in a.seen then a else a.(seen := a.seen + [id], tools := a.tools + 1)
  }

  predicate Over(count: nat, cap: Cap) {
    cap.Some? && count > cap.value
  }

  function Record(s: Sys, app: App, e: Event): Sys {
    s.(live := app, capExceeded := s.capExceeded || e.cancelled, events := s.events + [e],
       hooked := s.hooked || s.segment.Fresh?)
  }

  function Step(s: Sys, a: Action): Sys {
    match a
    case Start(resume) =>
      if !s.segment.Idle? then s
      else if resume then s.(live := s.saved, segment := Resumed, capExceeded := false)
      else s.(live := s.saved, segment := Fresh, turn := s.turn + 1, capExceeded := false, events := [], hooked := false,
              carried := s.saved)
    case ModelCall =>
      if s.segment.Idle? then s
      else
        var app := CountModelCall(s.live, TurnIdOf(s));
        Record(s, app, Model(Over(app.calls, s.caps.llm)))
    case ToolCall(id) =>
      if s.segment.Idle? then s
      else
        var app := CountToolCall(s.live, TurnIdOf(s), id);
        Record(s, app, Tool(id, Over(app.tools, s.caps.tools)))
    case End => if s.segment.Idle? then s else s.(saved := s.live, segment := Idle)
  }

  function Run(s: Sys, actions: seq<Action>): Sys {
    Runs.Run(Step, s, actions)
  }

  // -------------------------------------------------------------- what a turn really did

  function Models(events: seq<Event>): nat {
    if events == [] then 0
    else Models(events[..|events| - 1]) + if events[|events| - 1].Model? then 1 else 0
  }

  function UncancelledModels(events: seq<Event>): nat {
    if events == [] then 0
    else UncancelledModels(events[..|events| - 1])
         + if events[|events| - 1].Model? && !events[|events| - 1].cancelled then 1 else 0
  }

  /** `known` followed by the tool ids of `events` that are new, in order of first use. */
  function ToolIds(known: seq<string>, events: seq<Event>): seq<string>
    decreases |events|
  {
    if events == [] then known
    else
      var ids := ToolIds(known, events[..|events| - 1]);
      var e := events[|events| - 1];
      if e.Tool? && e.id !in ids then ids + [e.id] else ids
  }

  function UncancelledIds(events: seq<Event>): set<string> {
    set i | 0 <= i < |events| && events[i].Tool? && !events[i].cancelled :: events[i].id
  }

  lemma Last(events: seq<Event>, e: Event, known: seq<string>)
    ensures Models(events + [e]) == Models(events) + if e.Model? then 1 else 0
    ensures UncancelledModels(events + [e]) == UncancelledModels(events) + if e.Model? && !e.cancelled then 1 else 0
    ensures ToolIds(known, events + [e])
         == var ids := ToolIds(known, events); if e.Tool? && e.id !in ids then ids + [e.id] else ids
    ensures UncancelledIds(events + [e]) == UncancelledIds(events) + if e.Tool? && !e.cancelled then {e.id} else {}
  {
    var all := events + [e];
    assert all[..|all| - 1] == events;
    assert forall i | 0 <= i < |all| :: all[i] == if i < |events| then events[i] else e;
    if e.Tool? && !e.cancelled { assert all[|events|] == e; }
    forall id | id in UncancelledIds(events) ensures id in UncancelledIds(all) {
      var i :| 0 <= i < |events| && events[i].Tool? && !events[i].cancelled && events[i].id == id;
      assert all[i] == events[i];
    }
  }

  /** What the counters of this turn started from: nothing once its fresh segment ran a hook. */
  function Base(s: Sys): App {
    if s.hooked then EMPTY else s.carried
  }

  ghost predicate Distinct(ids: seq<string>) {
    forall i, j | 0 <= i < j < |ids| :: ids[i] != ids[j]
  }

  ghost predicate AppOk(app: App) {
    app.tools == |app.seen| && Distinct(app.seen)
  }

  /** The ids counted while the cap still allowed them. */
  function Allowed(seen: seq<string>, cap: Cap): set<string> {
    var head := if Over(|seen|, cap) then seen[..cap.value] else seen;
    set id | id in head
  }

  ghost predicate CountsOk(s: Sys) {
    && s.live.calls == Base(s).calls + Models(s.events)
    && s.live.seen == ToolIds(Base(s).seen, s.events)
    && (s.hooked ==> s.live.turn == Some(s.turn))
    && (!s.hooked ==> s.live.turn != Some(s.turn))
    && (s.segment.Fresh? && !s.hooked ==> s.events == [])
  }

  ghost predicate CapsOk(s: Sys) {
    && UncancelledModels(s.events) <= Models(s.events)
    && !Over(UncancelledModels(s.events), s.caps.llm)
    && UncancelledIds(s.events) <= Allowed(s.live.seen, s.caps.tools)
  }

  ghost predicate Inv(s: Sys) {
    && AppOk(s.live) && AppOk(s.carried) && CountsOk(s) && CapsOk(s)
    && (s.segment.Idle? ==> s.saved == s.live)
    && (s.live.turn.Some? ==> s.live.turn.value <= s.turn)
  }

  lemma StartKeeps(s: Sys, resume: bool)
    requires Inv(s)
    ensures Inv(Step(s, Start(resume)))
  {
  }

  lemma ModelCallKeeps(s: Sys)
    requires Inv(s) && !s.segment.Idle?
    ensures Inv(Step(s, ModelCall))
  {
    var app := CountModelCall(s.live, TurnIdOf(s));
    var t := Step(s, ModelCall);
    Last(s.events, Model(Over(app.calls, s.caps.llm)), Base(t).seen);
    hide Models, UncancelledModels, ToolIds, UncancelledIds, Allowed;
    if s.segment.Fresh? && !s.hooked { NoEvents(s.events, []); }
  }

  lemma NoEvents(events: seq<Event>, known: seq<string>)
    requires events == []
    ensures Models(events) == 0 && UncancelledModels(events) == 0 && ToolIds(known, events) == known
    ensures UncancelledIds(events) == {}
  {
  }

  lemma ToolCallKeeps(s: Sys, id: string)
    requires Inv(s) && !s.segment.Idle?
    ensures Inv(Step(s, ToolCall(id)))
  {
    var app := CountToolCall(s.live, TurnIdOf(s), id);
    var t := Step(s, ToolCall(id));
    Last(s.events, Tool(id, Over(app.tools, s.caps.tools)), Base(t).seen);
    hide Models, UncancelledModels, ToolIds, UncancelledIds;
    if s.segment.Fresh? && !s.hooked {
      NoEvents(s.events, []);
    } else {
      AllowedGrows(s.live.seen, app.seen, s.caps.tools);
    }
  }

  lemma AllowedGrows(seen: seq<string>, more: seq<string>, cap: Cap)
    requires seen <= more
    ensures Allowed(seen, cap) <= Allowed(more, cap)
  {
    if Over(|more|, cap) {
      var head := more[..cap.value];
      if Over(|seen|, cap) { assert seen[..cap.value] == head; }
      else { assert forall i | 0 <= i < |seen| :: seen[i] == head[i]; }
    } else {
      assert forall i | 0 <= i < |seen| :: seen[i] == more[i];
    }
  }

  lemma StepKeeps(s: Sys, a: Action)
    requires Inv(s)
    ensures Inv(Step(s, a)) && Step(s, a).caps == s.caps
  {
    hide Inv;
    match a
    case Start(resume) => StartKeeps(s, resume);
    case ModelCall => if !s.segment.Idle? { ModelCallKeeps(s); }
    case ToolCall(id) => if !s.segment.Idle? { ToolCallKeeps(s, id); }
    case End => EndKeeps(s);
  }

  lemma EndKeeps(s: Sys)
    requires Inv(s)
    ensures Inv(Step(s, End))
  {
  }

  lemma RunKeeps(caps: Caps, actions: seq<Action>)
    ensures Inv(Run(Init(caps), actions)) && Run(Init(caps), actions).caps == caps
  {
    hide Step, Inv;
    var inv := (t: Sys) => Inv(t) && t.caps == caps;
    assert Inv(Init(caps)) by { InitOk(caps); }
    forall t, a | inv(t) ensures inv(Step(t, a)) { StepKeeps(t, a); }
    Runs.Keeps(Step, inv, Init(caps), actions);
  }

  lemma InitOk(caps: Caps)
    ensures Inv(Init(caps)) && Init(caps).caps == caps
  {
    assert Models([]) == 0 && ToolIds([], []) == [] && UncancelledIds([]) == {};
  }

  // ------------------------------------------------------------------------- theorems

  /**
   Over any run of turns, interrupts and resumes, a logical turn never makes more uncancelled model
   calls than `maxLlmCalls`, nor runs more distinct tool calls uncancelled than `maxToolIterations`.
  */
  lemma CapsBoundALogicalTurn(caps: Caps, actions: seq<Action>)
    ensures var s := Run(Init(caps), actions);
            && (caps.llm.Some? ==> UncancelledModels(s.events) <= caps.llm.value)
            && (caps.tools.Some? ==> |UncancelledIds(s.events)| <= caps.tools.value)
  {
    hide Step, UncancelledModels, UncancelledIds, Models, ToolIds;
    RunKeeps(caps, actions);
    var s := Run(Init(caps), actions);
    if caps.tools.Some? {
      AllowedSize(s.live.seen, caps.tools);
      Collections.SubsetSize(UncancelledIds(s.events), Allowed(s.live.seen, caps.tools));
    }
  }

  lemma AllowedSize(seen: seq<string>, cap: Cap)
    requires cap.Some?
    ensures |Allowed(seen, cap)| <= cap.value
  {
    var head := if Over(|seen|, cap) then seen[..cap.value] else seen;
    ElementsBound(head);
    assert Allowed(seen, cap) == set id | id in head;
  }

  lemma {:induction false} ElementsBound(ids: seq<string>)
    ensures |set id | id in ids| <= |ids|
  {
    if ids == [] {
    } else {
      ElementsBound(ids[1..]);
      assert (set id | id in ids) == (set id | id in ids[1..]) + {ids[0]};
    }
  }

  /**
   The persisted counters are those of this logical turn alone, whatever earlier turns left behind, once a
   hook ran in its fresh segment. Otherwise the model calls are right exactly when none were left behind,
   and the tool calls exactly when this turn uses every tool id that was.
  */
  lemma CountersAreThisTurns(caps: Caps, actions: seq<Action>)
    ensures var s := Run(Init(caps), actions);
            && (s.hooked ==> s.live.calls == Models(s.events) && s.live.seen == ToolIds([], s.events)
                             && s.live.tools == |s.live.seen|)
            && (s.live.calls == Models(s.events) <==> s.hooked || s.carried.calls == 0)
            && (s.live.tools == |ToolIds([], s.events)| <==>
                  s.hooked || forall id <- s.carried.seen :: id in ToolIds([], s.events))
            && (s.segment.Idle? ==> s.saved == s.live)
  {
    hide Step, Models, ToolIds;
    RunKeeps(caps, actions);
    var s := Run(Init(caps), actions);
    hide Run;
    if !s.hooked { CarriedToolsCount(s.carried.seen, s.events); }
  }

  function Elements(ids: seq<string>): set<string> {
    set id | id in ids
  }

  lemma {:induction false} ToolIdElements(known: seq<string>, events: seq<Event>)
    ensures Elements(ToolIds(known, events)) == Elements(known) + Elements(ToolIds([], events))
    decreases |events|
  {
    if events == [] {
    } else {
      ToolIdElements(known, events[..|events| - 1]);
      var e := events[|events| - 1];
      if e.Tool? {
        Added(ToolIds(known, events[..|events| - 1]), e.id);
        Added(ToolIds([], events[..|events| - 1]), e.id);
      }
      hide Elements;
    }
  }

  lemma Added(ids: seq<string>, id: string)
    ensures Elements(if id !in ids then ids + [id] else ids) == Elements(ids) + {id}
  {
  }

  lemma {:induction false} ToolIdsAreDistinct(known: seq<string>, events: seq<Event>)
    requires Distinct(known)
    ensures Distinct(ToolIds(known, events))
    decreases |events|
  {
    if events == [] {
    } else {
      ToolIdsAreDistinct(known, events[..|events| - 1]);
    }
  }

  lemma {:induction false} DistinctSize(ids: seq<string>)
    requires Distinct(ids)
    ensures |Elements(ids)| == |ids|
  {
    if ids == [] {
    } else {
      DistinctSize(ids[1..]);
      assert Elements(ids) == Elements(ids[1..]) + {ids[0]};
      assert ids[0] !in ids[1..];
    }
  }

  /** Ids carried over are not counted twice, so they do no harm exactly when the turn uses them all. */
  lemma CarriedToolsCount(known: seq<string>, events: seq<Event>)
    requires Distinct(known)
    ensures |ToolIds(known, events)| == |ToolIds([], events)| <==> forall id <- known :: id in ToolIds([], events)
  {
    var all, own := ToolIds(known, events), ToolIds([], events);
    ToolIdElements(known, events);
    ToolIdsAreDistinct(known, events);
    ToolIdsAreDistinct([], events);
    DistinctSize(all);
    DistinctSize(own);
    hide ToolIds, Distinct;
    if |all| == |own| {
      forall id | id in known ensures id in own {
        assert id in Elements(all);
        if id !in own { Collections.SubsetSize(Elements(own) + {id}, Elements(all)); }
      }
    }
    if forall id <- known :: id in own { assert Elements(all) == Elements(own); }
  }

  /**
   A model call or a new tool call is cancelled exactly when this turn's own count goes over the cap,
   in the fresh segment and, if a hook ran there, in every resumed one.
  */
  lemma CancelledByThisTurnAlone(caps: Caps, actions: seq<Action>, id: string)
    ensures var s := Run(Init(caps), actions);
            s.segment.Fresh? || (s.segment.Resumed? && s.hooked) ==>
              && Step(s, ModelCall).events == s.events + [Model(caps.llm.Some? && Models(s.events) + 1 > caps.llm.value)]
              && Step(s, ToolCall(id)).events
                 == s.events + [Tool(id, caps.tools.Some? && |ToolIds([], s.events + [Tool(id, false)])| > caps.tools.value)]
  {
    hide Models, ToolIds, CapsOk;
    RunKeeps(caps, actions);
    var s := Run(Init(caps), actions);
    Last(s.events, Tool(id, false), []);
    NoEvents([], []);
  }

  // ---------------------------------------------------- the bookkeeping, told by the actions

  /** Which kind of segment the agent is in, by the starts and ends of the run alone. */
  function SegmentOf(actions: seq<Action>): Segment {
    if actions == [] then Idle
    else
      var was := SegmentOf(actions[..|actions| - 1]);
      match actions[|actions| - 1]
      case Start(resume) => if !was.Idle? then was else if resume then Resumed else Fresh
      case End => Idle
      case _ => was
  }

  /** The calls made since the last fresh segment began, without their verdicts. */
  function CallsOf(actions: seq<Action>): seq<Action> {
    if actions == [] then []
    else
      var front, a := actions[..|actions| - 1], actions[|actions| - 1];
      if SegmentOf(front).Idle? then (if a == Start(false) then [] else CallsOf(front))
      else if a.ModelCall? || a.ToolCall? then CallsOf(front) + [a]
      else CallsOf(front)
  }

  /** Some call was made in the last fresh segment itself. */
  function CalledFresh(actions: seq<Action>): bool {
    if actions == [] then false
    else
      var front, a := actions[..|actions| - 1], actions[|actions| - 1];
      if SegmentOf(front).Idle? then (if a == Start(false) then false else CalledFresh(front))
      else CalledFresh(front) || (SegmentOf(front).Fresh? && (a.ModelCall? || a.ToolCall?))
  }

  function AsCall(e: Event): Action {
    match e
    case Model(_) => ModelCall
    case Tool(id, _) => ToolCall(id)
  }

  function AsCalls(events: seq<Event>): seq<Action> {
    seq(|events|, i requires 0 <= i < |events| => AsCall(events[i]))
  }

  /** The events of a logical turn are the calls made in its segments, in order, and no others. */
  lemma {:induction false} EventsAreTheCallsOfTheTurn(caps: Caps, actions: seq<Action>)
    ensures var s := Run(Init(caps), actions);
            s.segment == SegmentOf(actions) && AsCalls(s.events) == CallsOf(actions) && s.hooked == CalledFresh(actions)
    decreases |actions|
  {
    if actions == [] {
    } else {
      EventsAreTheCallsOfTheTurn(caps, actions[..|actions| - 1]);
      BookkeepingStep(Run(Init(caps), actions[..|actions| - 1]), actions[|actions| - 1]);
      hide Step, AsCalls;
    }
  }

  /** How many calls the last segment made. */
  function CallsInSegment(actions: seq<Action>): nat {
    if actions == [] then 0
    else
      var front, a := actions[..|actions| - 1], actions[|actions| - 1];
      if SegmentOf(front).Idle? then (if a.Start? then 0 else CallsInSegment(front))
      else CallsInSegment(front) + if a.ModelCall? || a.ToolCall? then 1 else 0
  }

  ghost predicate SomeCancelled(events: seq<Event>, from: int) {
    exists i :: 0 <= i < |events| && from <= i && events[i].cancelled
  }

  /** A segment reports an exceeded cap exactly when one of its own calls was cancelled. */
  lemma {:induction false} CapExceededIffACallWasCancelled(caps: Caps, actions: seq<Action>)
    ensures var s := Run(Init(caps), actions);
            && CallsInSegment(actions) <= |s.events|
            && (s.capExceeded <==> SomeCancelled(s.events, |s.events| - CallsInSegment(actions)))
    decreases |actions|
  {
    if actions == [] {
    } else {
      var front := actions[..|actions| - 1];
      CapExceededIffACallWasCancelled(caps, front);
      EventsAreTheCallsOfTheTurn(caps, front);
      var s := Run(Init(caps), front);
      CapStep(s, actions[|actions| - 1], |s.events| - CallsInSegment(front));
      hide Step, SomeCancelled, AsCalls, CallsOf, CalledFresh;
    }
  }

  lemma CapStep(s: Sys, a: Action, from: nat)
    requires from <= |s.events| && (s.capExceeded <==> SomeCancelled(s.events, from))
    ensures var t := Step(s, a);
            if s.segment.Idle? && a.Start? then !t.capExceeded && !SomeCancelled(t.events, |t.events|)
            else && |t.events| == |s.events| + (if !s.segment.Idle? && (a.ModelCall? || a.ToolCall?) then 1 else 0)
                 && (t.capExceeded <==> SomeCancelled(t.events, from))
  {
    hide CountModelCall, CountToolCall, Over;
    var t := Step(s, a);
    if !s.segment.Idle? && (a.ModelCall? || a.ToolCall?) {
      assert t.events == s.events + [t.events[|s.events|]];
      if SomeCancelled(s.events, from) {
        var i :| 0 <= i < |s.events| && from <= i && s.events[i].cancelled;
        assert t.events[i].cancelled;
      }
    }
  }

  lemma BookkeepingStep(s: Sys, a: Action)
    ensures var t := Step(s, a);
            var called := !s.segment.Idle? && (a.ModelCall? || a.ToolCall?);
            && t.segment == (match a
                             case Start(resume) => if !s.segment.Idle? then s.segment else if resume then Resumed else Fresh
                             case End => Idle
                             case _ => s.segment)
            && AsCalls(t.events) == (if s.segment.Idle? && a == Start(false) then []
                                     else if called then AsCalls(s.events) + [a] else AsCalls(s.events))
            && t.hooked == (if s.segment.Idle? && a == Start(false) then false
                            else s.hooked || (called && s.segment.Fresh?))
  {
    hide CountModelCall, CountToolCall, Over;
  }

  /** Without a hook in the fresh segment, a resumed one is charged for the turn before. */
  lemma AResumeMayInheritTheLastTurnsCount()
    ensures var s0 := Step(Step(Step(Init(Caps(Some(1), None)), Start(false)), ModelCall), End);
            var s1 := Step(Step(s0, Start(false)), End);
            var s2 := Step(Step(s1, Start(true)), ModelCall);
            s0.events == [Model(false)] && s2.events == [Model(true)]
  {
  }

  // ------------------------------------------------------------- the hooks as an object

  /** `appState`, and the variables the hooks of one `runAgent` call close over. */
  class Budget {
    const caps: Caps
    const turnId: Option<TurnId>
    var turn: Option<TurnId>
    var modelCalls: nat
    var toolCalls: nat
    var countedToolUseIds: seq<string>
    var capExceeded: Option<string>

    constructor (caps: Caps, turnId: Option<TurnId>, restored: App)
      ensures this.caps == caps && this.turnId == turnId && View() == restored && capExceeded.None?
    {
      this.caps, this.turnId, capExceeded := caps, turnId, None;
      turn, modelCalls, toolCalls, countedToolUseIds := restored.turn, restored.calls, restored.tools, restored.seen;
    }

    ghost function View(): App
      reads this
    {
      App(turn, modelCalls, toolCalls, countedToolUseIds)
    }

    method ResetIfNew()
      modifies `turn, `modelCalls, `toolCalls, `countedToolUseIds
      ensures View() == StartTurnIfNew(old(View()), turnId)
    {
      if turnId.None? || turn == turnId { return; }
      turn, modelCalls, toolCalls, countedToolUseIds := turnId, 0, 0, [];
    }

    method BeforeModelCall() returns (cancel: bool)
      modifies `turn, `modelCalls, `toolCalls, `countedToolUseIds, `capExceeded
      ensures View() == CountModelCall(old(View()), turnId)
      ensures cancel == Over(modelCalls, caps.llm)
      ensures capExceeded.Some? == (old(capExceeded).Some? || cancel)
      ensures old(capExceeded).Some? ==> capExceeded == old(capExceeded)
    {
      ResetIfNew();
      modelCalls := modelCalls + 1;
      cancel := Over(modelCalls, caps.llm);
      if cancel && capExceeded.None? { capExceeded := Some("exceeded maxLlmCalls"); }
    }

    method BeforeToolCall(id: string) returns (cancel: bool)
      modifies `turn, `modelCalls, `toolCalls, `countedToolUseIds, `capExceeded
      ensures View() == CountToolCall(old(View()), turnId, id)
      ensures cancel == Over(toolCalls, caps.tools)
      ensures capExceeded.Some? == (old(capExceeded).Some? || cancel)
      ensures old(capExceeded).Some? ==> capExceeded == old(capExceeded)
    {
      ResetIfNew();
      if id !in countedToolUseIds {
        countedToolUseIds := countedToolUseIds + [id];
        ResetIfNew();
        toolCalls := toolCalls + 1;
      }
      cancel := Over(toolCalls, caps.tools);
      if cancel && capExceeded.None? { capExceeded := Some("exceeded maxToolIterations"); }
    }
  }
}
