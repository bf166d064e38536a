/**
 The chat controller of `createChat`: turns, stream chunks, reconnect re-syncs, a failsafe timer and
 teardown, interleaving on shared closure variables.

 Each action is one segment of the source between two awaits. Message ids come from a counter;
 an absent or empty `text` is the empty string.
*/
module Chat {
  import opened Maybe
  import Runs

  type Id = nat
  type Tid = nat
  type Stream = nat

  datatype Role = User | Assistant | Approval

  datatype Msg = Msg(id: Id, role: Role, content: string)

  datatype Chunk =
    | TextDelta(text: string)
    | Done(text: string)
    | Error
    | Interrupt(listed: bool)
    | Other

  datatype Input = Text(message: string) | Resume(decisions: seq<string>)

  /**
   What the callbacks told the consumer: the last message list and how many there were, every
   loading value, the turn number of every error, and how many interrupts.
  */
  datatype Told = Told(shown: seq<Msg>, renders: nat, loading: seq<bool>, errors: seq<nat>, interrupts: nat)

  /**
   The variables behind the rendered chat. `armed` says whether the failsafe timer is set; `turn`
   counts the turns begun and is bookkeeping for the theorems.
  */
  datatype Ui = Ui(
    messages: seq<Msg>,
    loading: bool,
    assistantId: Option<Id>,
    assistantText: string,
    armed: bool,
    destroyed: bool,
    errorReported: bool,
    nextId: Id,
    turn: nat,
    told: Told)

  /** `startTurn` at one of its three awaits. */
  datatype SendPc = Ensuring(known: Option<string>) | Attaching(stream: Stream) | Submitting(stream: Stream)

  /** `handleReconnect` at one of its two awaits, with the turn it captured. */
  datatype ResyncPc = ReadingHistory(turnAtStart: Option<Id>) | ReadingInterrupts(turnAtStart: Option<Id>)

  /** The whole controller: the rendered chat, the connection, and the tasks under way. */
  datatype Sys = Sys(
    ui: Ui,
    conversationId: Option<string>,
    activeStream: Option<Stream>,
    nextStream: Stream,
    consumers: set<Stream>,
    sends: map<Tid, SendPc>,
    resyncs: map<Tid, ResyncPc>)

  datatype Action =
    | Send(task: Tid, input: Input)
    | Ensured(task: Tid, ok: bool, id: Option<string>)
    | Attached(task: Tid, ok: bool)
    | Submitted(task: Tid, ok: bool)
    | ChunkArrives(stream: Stream, chunk: Chunk)
    | StreamEnds(stream: Stream, failed: bool)
    | Disconnected(client: bool)
    | Reconnected(task: Tid)
    | HistoryRead(task: Tid, ok: bool, final: Option<string>, asksInterrupts: bool)
    | InterruptsRead(task: Tid, ok: bool, pending: bool)
    | TimerFires
    | NewConversation
    | Destroy

  function Init(): Sys {
    Sys(Ui([], false, None, "", false, false, false, 0, 0, Told([], 0, [], [], 0)), None, None, 0, {}, map[], map[])
  }

  // ------------------------------------------------------------ the helpers of the controller

  function SetLoading(u: Ui, next: bool): Ui {
    if u.loading == next then u
    else u.(loading := next, told := u.told.(loading := u.told.loading + [next]))
  }

  function Show(u: Ui, messages: seq<Msg>): Ui {
    u.(messages := messages, told := u.told.(shown := messages, renders := u.told.renders + 1))
  }

  function ReportError(u: Ui): Ui {
    if u.errorReported then u
    else u.(errorReported := true, told := u.told.(errors := u.told.errors + [u.turn]))
  }

  function RaiseInterrupt(u: Ui): Ui {
    u.(told := u.told.(interrupts := u.told.interrupts + 1))
  }

  function SetContent(messages: seq<Msg>, id: Id, content: string): seq<Msg> {
    seq(|messages|, i requires 0 <= i < |messages| =>
      if messages[i].id == id then messages[i].(content := content) else messages[i])
  }

  function Without(messages: seq<Msg>, id: Id): seq<Msg> {
    if messages == [] then []
    else Without(messages[..|messages| - 1], id)
         + if messages[|messages| - 1].id == id then [] else [messages[|messages| - 1]]
  }

  predicate HasEmpty(messages: seq<Msg>, id: Id) {
    exists i :: 0 <= i < |messages| && messages[i].id == id && messages[i].content == ""
  }

  function FirstEmptyAssistant(messages: seq<Msg>): Option<Id> {
    if messages == [] then None
    else if messages[0].role.Assistant? && messages[0].content == "" then Some(messages[0].id)
    else FirstEmptyAssistant(messages[1..])
  }

  /** Drop the in-flight bubble if it is still empty, and forget it. */
  function DropBubble(u: Ui): Ui {
    if u.assistantId.None? then u
    else if HasEmpty(u.messages, u.assistantId.value) then
      Show(u, Without(u.messages, u.assistantId.value)).(assistantId := None)
    else u.(assistantId := None)
  }

  /** The turn is over: forget the bubble, disarm the failsafe, clear loading. */
  function EndTurn(u: Ui): Ui {
    SetLoading(u.(assistantId := None, armed := false), false)
  }

  predicate InFlight(u: Ui, turnAtStart: Option<Id>) {
    u.assistantId.Some? && u.assistantId == turnAtStart && u.loading
  }

  // ------------------------------------------------------- what each segment does to the chat

  function Approvals(decisions: seq<string>, first: Id): seq<Msg> {
    seq(|decisions|, i requires 0 <= i < |decisions| => Msg(first + i, Role.Approval, decisions[i]))
  }

  /** The message list, the bubble and the next free id with which a turn begins. */
  function Prepare(messages: seq<Msg>, nextId: Id, input: Input): (seq<Msg>, Id, Id) {
    match input
    case Text(message) =>
      (messages + [Msg(nextId, User, message), Msg(nextId + 1, Assistant, "")], nextId + 1, nextId + 2)
    case Resume(decisions) =>
      var approved := messages + Approvals(decisions, nextId);
      var free := nextId + |decisions|;
      match FirstEmptyAssistant(approved)
      case Some(reused) => (approved, reused, free)
      case None => (approved + [Msg(free, Assistant, "")], free, free + 1)
  }

  function BeginTurn(u: Ui, input: Input): Ui {
    var (messages, bubble, next) := Prepare(u.messages, u.nextId, input);
    SetLoading(Show(u, messages).(assistantId := Some(bubble), assistantText := "", nextId := next,
                                  armed := false, errorReported := false, turn := u.turn + 1), true)
  }

  function SendFailed(u: Ui): Ui {
    ReportError(DropBubble(SetLoading(u, false)))
  }

  function HandleChunk(u: Ui, chunk: Chunk): Ui {
    if u.destroyed then u
    else match chunk
    case TextDelta(text) =>
      if text != "" && u.assistantId.Some? then
        Show(u, SetContent(u.messages, u.assistantId.value, u.assistantText + text)).(assistantText := u.assistantText + text)
      else u
    case Done(text) =>
      EndTurn(if text != "" && u.assistantId.Some?
              then Show(u, SetContent(u.messages, u.assistantId.value, text)) else u)
    case Error => ReportError(EndTurn(DropBubble(u)))
    case Interrupt(listed) => if listed then RaiseInterrupt(EndTurn(DropBubble(u))) else u
    case Other => u
  }

  /** The background consumer's `catch` and `finally`. */
  function ConsumerEnds(u: Ui, failed: bool): Ui {
    var v := if failed then ReportError(SetLoading(u, false)) else u;
    if v.destroyed then v else SetLoading(v, false)
  }

  predicate Extends(final: string, streamed: string) {
    streamed == "" || (|streamed| <= |final| && final[..|streamed|] == streamed)
  }

  /** `final` is the text of the last persisted row when that row is a non-empty assistant message. */
  function AdoptHistory(u: Ui, turnAtStart: Option<Id>, final: Option<string>): Ui {
    if !InFlight(u, turnAtStart) then u
    else if final.Some? && final.value != "" && Extends(final.value, u.assistantText) then
      EndTurn(Show(u, SetContent(u.messages, u.assistantId.value, final.value)).(assistantText := final.value))
    else u.(armed := true)
  }

  function ResyncFailed(u: Ui): Ui {
    ReportError(u).(armed := true)
  }

  function AdoptInterrupts(u: Ui, turnAtStart: Option<Id>, pending: bool): Ui {
    if pending && InFlight(u, turnAtStart) then RaiseInterrupt(EndTurn(u)) else u
  }

  function FireTimer(u: Ui): Ui {
    if !u.armed then u
    else if !u.destroyed && u.loading then ReportError(SetLoading(u.(armed := false), false))
    else u.(armed := false)
  }

  // ------------------------------------------------------------------------- the machine

  function StepSend(s: Sys, a: Action): Sys
    requires a.Send? || a.Ensured? || a.Attached? || a.Submitted?
  {
    if a.Send? then
      if s.ui.loading || a.task in s.sends then s
      else s.(ui := BeginTurn(s.ui, a.input), sends := s.sends[a.task := Ensuring(s.conversationId)])
    else if a.task !in s.sends then s
    else
      var pc := s.sends[a.task];
      var failed := s.(ui := SendFailed(s.ui), sends := s.sends - {a.task});
      match a
      case Ensured(task, ok, id) =>
        if !pc.Ensuring? then s
        else if pc.known.None? && !ok then failed
        else s.(conversationId := if pc.known.None? then id else s.conversationId,
                activeStream := Some(s.nextStream), nextStream := s.nextStream + 1,
                sends := s.sends[task := Attaching(s.nextStream)])
      case Attached(task, ok) =>
        if !pc.Attaching? then s
        else if ok then s.(sends := s.sends[task := Submitting(pc.stream)]) else failed
      case Submitted(task, ok) =>
        if !pc.Submitting? then s
        else if ok then s.(consumers := s.consumers + {pc.stream}, sends := s.sends - {task}) else failed
  }

  function StepResync(s: Sys, a: Action): Sys
    requires a.HistoryRead? || a.InterruptsRead?
  {
    if a.task !in s.resyncs then s
    else
      var pc := s.resyncs[a.task];
      var ended := s.(resyncs := s.resyncs - {a.task});
      match a
      case HistoryRead(task, ok, final, asks) =>
        if !pc.ReadingHistory? then s
        else if s.ui.destroyed then ended
        else if !ok then ended.(ui := ResyncFailed(s.ui))
        else s.(ui := AdoptHistory(s.ui, pc.turnAtStart, final),
                resyncs := if asks then s.resyncs[task := ReadingInterrupts(pc.turnAtStart)] else s.resyncs - {task})
      case InterruptsRead(task, ok, pending) =>
        if !pc.ReadingInterrupts? then s
        else if s.ui.destroyed then ended
        else if !ok then ended.(ui := ResyncFailed(s.ui))
        else ended.(ui := AdoptInterrupts(s.ui, pc.turnAtStart, pending))
  }

  function Step(s: Sys, a: Action): Sys {
    match a
    case Send(_, _) => StepSend(s, a)
    case Ensured(_, _, _) => StepSend(s, a)
    case Attached(_, _) => StepSend(s, a)
    case Submitted(_, _) => StepSend(s, a)
    case HistoryRead(_, _, _, _) => StepResync(s, a)
    case InterruptsRead(_, _, _) => StepResync(s, a)
    case ChunkArrives(stream, chunk) => if stream in s.consumers then s.(ui := HandleChunk(s.ui, chunk)) else s
    case StreamEnds(stream, failed) =>
      if stream in s.consumers then
        s.(ui := ConsumerEnds(s.ui, failed), consumers := s.consumers - {stream},
           activeStream := if s.activeStream == Some(stream) then None else s.activeStream)
      else s
    case Disconnected(client) =>
      if !client && s.ui.loading then s.(ui := s.ui.(armed := true)) else s
    case Reconnected(task) =>
      if s.ui.destroyed || s.conversationId.None? || task in s.resyncs then s
      else s.(resyncs := s.resyncs[task := ReadingHistory(s.ui.assistantId)])
    case TimerFires => s.(ui := FireTimer(s.ui))
    case NewConversation =>
      s.(ui := Show(s.ui, []).(assistantId := None, assistantText := ""), activeStream := None, conversationId := None)
    case Destroy => s.(ui := s.ui.(destroyed := true, armed := false), activeStream := None)
  }

  function Run(s: Sys, actions: seq<Action>): Sys {
    Runs.Run(Step, s, actions)
  }

  // ---------------------------------------------------------------- what the consumer is told

  /** Loading values alternate from true; errors name distinct turns; the shown list is current. */
  ghost predicate ToldOk(u: Ui) {
    && (forall i | 0 <= i < |u.told.loading| :: u.told.loading[i] == (i % 2 == 0))
    && u.loading == (|u.told.loading| % 2 == 1)
    && (forall i, j | 0 <= i < j < |u.told.errors| :: u.told.errors[i] < u.told.errors[j])
    && (forall i | 0 <= i < |u.told.errors| :: u.told.errors[i] <= u.turn)
    && (!u.errorReported ==> forall i | 0 <= i < |u.told.errors| :: u.told.errors[i] < u.turn)
    && (u.errorReported ==> |u.told.errors| > 0 && u.told.errors[|u.told.errors| - 1] == u.turn)
    && u.told.shown == u.messages
  }

  ghost predicate Bubble(messages: seq<Msg>, id: Id, text: string) {
    exists i :: 0 <= i < |messages| && messages[i] == Msg(id, Assistant, text)
  }

  ghost predicate IdsOk(messages: seq<Msg>, nextId: Id) {
    && (forall i | 0 <= i < |messages| :: messages[i].id < nextId)
    && (forall i, j | 0 <= i < j < |messages| :: messages[i].id != messages[j].id)
  }

  /** Message ids are distinct, and an unresolved turn's bubble shows its text. */
  ghost predicate BubbleOk(u: Ui) {
    && IdsOk(u.messages, u.nextId)
    && (u.assistantId.Some? ==> Bubble(u.messages, u.assistantId.value, u.assistantText))
  }

  ghost predicate Inv(s: Sys) {
    ToldOk(s.ui) && BubbleOk(s.ui)
  }

  // The callbacks and the timer, helper by helper.

  lemma SetLoadingKeeps(u: Ui, next: bool)
    requires ToldOk(u)
    ensures ToldOk(SetLoading(u, next))
  {
  }

  lemma ReportErrorKeeps(u: Ui)
    requires ToldOk(u)
    ensures ToldOk(ReportError(u))
  {
  }

  lemma DropBubbleKeeps(u: Ui)
    requires ToldOk(u)
    ensures ToldOk(DropBubble(u))
  {
    hide Without, HasEmpty;
    if u.assistantId.Some? {
      ShowKeeps(u, Without(u.messages, u.assistantId.value));
      BubbleIdIsUntold(u);
      BubbleIdIsUntold(Show(u, Without(u.messages, u.assistantId.value)));
    }
    hide ToldOk;
  }

  lemma ShowKeeps(u: Ui, messages: seq<Msg>)
    requires ToldOk(u)
    ensures ToldOk(Show(u, messages))
  {
  }

  lemma BubbleIdIsUntold(u: Ui)
    requires ToldOk(u)
    ensures ToldOk(u.(assistantId := None))
  {
  }

  lemma DropBubbleForgets(u: Ui)
    ensures DropBubble(u).assistantId.None? && DropBubble(u).assistantText == u.assistantText
    ensures DropBubble(u).nextId == u.nextId
  {
    hide Without, HasEmpty;
  }

  lemma EndTurnKeeps(u: Ui)
    requires ToldOk(u)
    ensures ToldOk(EndTurn(u))
  {
    SetLoadingKeeps(u.(assistantId := None, armed := false), false);
  }

  lemma SendFailedKeeps(u: Ui)
    requires ToldOk(u)
    ensures ToldOk(SendFailed(u))
  {
    hide DropBubble, SetLoading, ReportError, ToldOk;
    SetLoadingKeeps(u, false);
    DropBubbleKeeps(SetLoading(u, false));
    ReportErrorKeeps(DropBubble(SetLoading(u, false)));
  }

  lemma BeginTurnKeeps(u: Ui, input: Input)
    requires ToldOk(u) && !u.loading
    ensures ToldOk(BeginTurn(u, input))
  {
    hide Prepare;
    var (messages, bubble, next) := Prepare(u.messages, u.nextId, input);
    var v := Show(u, messages).(assistantId := Some(bubble), assistantText := "", nextId := next,
                                armed := false, errorReported := false, turn := u.turn + 1);
    assert ToldOk(v);
    SetLoadingKeeps(v, true);
  }

  lemma ChunkKeepsCallbacks(u: Ui, chunk: Chunk)
    requires ToldOk(u)
    ensures ToldOk(HandleChunk(u, chunk))
  {
    hide DropBubble, SetLoading, EndTurn, ReportError, SetContent;
    match chunk
    case Done(text) =>
      EndTurnKeeps(u);
      if u.assistantId.Some? { EndTurnKeeps(Show(u, SetContent(u.messages, u.assistantId.value, text))); }
    case Error =>
      DropBubbleKeeps(u);
      EndTurnKeeps(DropBubble(u));
      ReportErrorKeeps(EndTurn(DropBubble(u)));
    case Interrupt(_) =>
      DropBubbleKeeps(u);
      EndTurnKeeps(DropBubble(u));
    case _ =>
  }

  lemma ConsumerEndsKeeps(u: Ui, failed: bool)
    requires ToldOk(u)
    ensures ToldOk(ConsumerEnds(u, failed))
  {
    hide SetLoading, ReportError, ToldOk;
    SetLoadingKeeps(u, false);
    ReportErrorKeeps(SetLoading(u, false));
    SetLoadingKeeps(ReportError(SetLoading(u, false)), false);
  }

  lemma AdoptHistoryKeeps(u: Ui, turnAtStart: Option<Id>, final: Option<string>)
    requires ToldOk(u)
    ensures ToldOk(AdoptHistory(u, turnAtStart, final))
  {
    hide EndTurn, SetContent, Extends;
    if u.assistantId.Some? && final.Some? {
      EndTurnKeeps(Show(u, SetContent(u.messages, u.assistantId.value, final.value)).(assistantText := final.value));
    }
  }

  lemma ResyncKeepsCallbacks(s: Sys, a: Action)
    requires ToldOk(s.ui) && (a.HistoryRead? || a.InterruptsRead?)
    ensures ToldOk(StepResync(s, a).ui)
  {
    hide AdoptHistory, EndTurn, ReportError, ToldOk;
    if a.task in s.resyncs {
      var turnAtStart := s.resyncs[a.task].turnAtStart;
      ReportErrorKeeps(s.ui);
      ArmingKeeps(ReportError(s.ui));
      if a.HistoryRead? { AdoptHistoryKeeps(s.ui, turnAtStart, a.final); }
      else {
        EndTurnKeeps(s.ui);
        RaiseKeeps(EndTurn(s.ui));
      }
    }
  }

  lemma ArmingKeeps(u: Ui)
    requires ToldOk(u)
    ensures ToldOk(u.(armed := true))
  {
  }

  lemma RaiseKeeps(u: Ui)
    requires ToldOk(u)
    ensures ToldOk(RaiseInterrupt(u))
  {
  }

  lemma TimerKeeps(u: Ui)
    requires ToldOk(u)
    ensures ToldOk(FireTimer(u))
  {
    hide SetLoading, ReportError;
    if u.armed && !u.destroyed && u.loading {
      SetLoadingKeeps(u.(armed := false), false);
      ReportErrorKeeps(SetLoading(u.(armed := false), false));
    }
  }

  lemma SendKeepsCallbacks(s: Sys, a: Action)
    requires ToldOk(s.ui) && (a.Send? || a.Ensured? || a.Attached? || a.Submitted?)
    ensures ToldOk(StepSend(s, a).ui)
  {
    hide SendFailed, BeginTurn, ToldOk;
    SendFailedKeeps(s.ui);
    if a.Send? && !s.ui.loading { BeginTurnKeeps(s.ui, a.input); }
  }

  lemma StepKeepsCallbacks(s: Sys, a: Action)
    requires ToldOk(s.ui)
    ensures ToldOk(Step(s, a).ui)
  {
    hide StepSend, StepResync, HandleChunk, ConsumerEnds, FireTimer;
    match a
    case ChunkArrives(_, chunk) => ChunkKeepsCallbacks(s.ui, chunk);
    case StreamEnds(_, failed) => ConsumerEndsKeeps(s.ui, failed);
    case HistoryRead(_, _, _, _) => ResyncKeepsCallbacks(s, a);
    case InterruptsRead(_, _, _) => ResyncKeepsCallbacks(s, a);
    case Send(_, _) => SendKeepsCallbacks(s, a);
    case Ensured(_, _, _) => SendKeepsCallbacks(s, a);
    case Attached(_, _) => SendKeepsCallbacks(s, a);
    case Submitted(_, _) => SendKeepsCallbacks(s, a);
    case TimerFires => TimerKeeps(s.ui);
    case _ =>
  }

  // The bubble.

  lemma {:induction false} WithoutMembers(messages: seq<Msg>, id: Id, m: Msg)
    ensures m in Without(messages, id) <==> m in messages && m.id != id
    decreases |messages|
  {
    if messages == [] {
    } else {
      var n := |messages| - 1;
      WithoutMembers(messages[..n], id, m);
      assert m in messages <==> m in messages[..n] || m == messages[n];
    }
  }

  lemma {:induction false} WithoutKeepsIds(messages: seq<Msg>, id: Id, nextId: Id)
    requires IdsOk(messages, nextId)
    ensures IdsOk(Without(messages, id), nextId)
    decreases |messages|
  {
    if messages == [] {
    } else {
      var n := |messages| - 1;
      var rest := Without(messages[..n], id);
      WithoutKeepsIds(messages[..n], id, nextId);
      forall i | 0 <= i < |rest| ensures rest[i].id != messages[n].id {
        WithoutMembers(messages[..n], id, rest[i]);
        var k :| 0 <= k < n && messages[k] == rest[i];
      }
    }
  }

  lemma DropBubbleKeepsBubble(u: Ui)
    requires BubbleOk(u)
    ensures BubbleOk(DropBubble(u))
  {
    if u.assistantId.Some? { WithoutKeepsIds(u.messages, u.assistantId.value, u.nextId); }
  }

  lemma SetContentKeeps(messages: seq<Msg>, nextId: Id, id: Id, was: string, content: string)
    requires IdsOk(messages, nextId)
    ensures IdsOk(SetContent(messages, id, content), nextId)
    ensures Bubble(messages, id, was) ==> Bubble(SetContent(messages, id, content), id, content)
  {
    var ms := SetContent(messages, id, content);
    assert forall i | 0 <= i < |ms| :: ms[i].id == messages[i].id;
    if Bubble(messages, id, was) {
      var i :| 0 <= i < |messages| && messages[i] == Msg(id, Assistant, was);
      assert ms[i] == Msg(id, Assistant, content);
    }
  }

  lemma {:induction false} FirstEmptyIsEmpty(messages: seq<Msg>)
    ensures FirstEmptyAssistant(messages).Some? ==> Bubble(messages, FirstEmptyAssistant(messages).value, "")
  {
    if messages == [] {
    } else if messages[0].role.Assistant? && messages[0].content == "" {
      assert messages[0] == Msg(messages[0].id, Assistant, "");
    } else {
      FirstEmptyIsEmpty(messages[1..]);
      if FirstEmptyAssistant(messages).Some? {
        var id := FirstEmptyAssistant(messages).value;
        var i :| 0 <= i < |messages[1..]| && messages[1..][i] == Msg(id, Assistant, "");
        assert messages[i + 1] == Msg(id, Assistant, "");
      }
    }
  }

  /** A turn begins with an empty bubble: a new one, or an empty one left in the list. */
  lemma PrepareGivesEmptyBubble(messages: seq<Msg>, nextId: Id, input: Input)
    requires IdsOk(messages, nextId)
    ensures var (after, bubble, next) := Prepare(messages, nextId, input);
            && IdsOk(after, next) && Bubble(after, bubble, "") && nextId <= next
            && messages <= after
            && (bubble < nextId ==> Bubble(messages, bubble, ""))
  {
    match input
    case Text(message) =>
      assert Prepare(messages, nextId, input).0[|messages| + 1] == Msg(nextId + 1, Assistant, "");
    case Resume(decisions) =>
      var approved := messages + Approvals(decisions, nextId);
      FirstEmptyIsEmpty(approved);
      match FirstEmptyAssistant(approved)
      case None => assert Prepare(messages, nextId, input).0[|approved|] == Msg(nextId + |decisions|, Assistant, "");
      case Some(id) =>
        var i :| 0 <= i < |approved| && approved[i] == Msg(id, Assistant, "");
        assert i < |messages| && messages[i] == Msg(id, Assistant, "");
  }

  lemma ChunkKeepsBubble(u: Ui, chunk: Chunk)
    requires BubbleOk(u)
    ensures BubbleOk(HandleChunk(u, chunk))
  {
    hide DropBubble, SetContent;
    DropBubbleKeepsBubble(u);
    if u.assistantId.Some? && (chunk.TextDelta? || chunk.Done?) {
      SetContentKeeps(u.messages, u.nextId, u.assistantId.value, u.assistantText,
                      if chunk.Done? then chunk.text else u.assistantText + chunk.text);
    }
  }

  lemma AdoptKeepsBubble(u: Ui, turnAtStart: Option<Id>, final: Option<string>)
    requires BubbleOk(u)
    ensures BubbleOk(AdoptHistory(u, turnAtStart, final))
  {
    hide SetContent, Extends;
    if u.assistantId.Some? && final.Some? {
      SetContentKeeps(u.messages, u.nextId, u.assistantId.value, u.assistantText, final.value);
    }
  }

  lemma SendKeepsBubble(s: Sys, a: Action)
    requires BubbleOk(s.ui) && (a.Send? || a.Ensured? || a.Attached? || a.Submitted?)
    ensures BubbleOk(StepSend(s, a).ui)
  {
    hide DropBubble, Prepare;
    DropBubbleKeepsBubble(SetLoading(s.ui, false));
    if a.Send? { PrepareGivesEmptyBubble(s.ui.messages, s.ui.nextId, a.input); }
  }

  lemma StepKeepsBubble(s: Sys, a: Action)
    requires BubbleOk(s.ui)
    ensures BubbleOk(Step(s, a).ui)
  {
    hide StepSend, HandleChunk, AdoptHistory;
    match a
    case ChunkArrives(_, chunk) => ChunkKeepsBubble(s.ui, chunk);
    case HistoryRead(task, _, final, _) =>
      if task in s.resyncs { AdoptKeepsBubble(s.ui, s.resyncs[task].turnAtStart, final); }
    case Send(_, _) => SendKeepsBubble(s, a);
    case Ensured(_, _, _) => SendKeepsBubble(s, a);
    case Attached(_, _) => SendKeepsBubble(s, a);
    case Submitted(_, _) => SendKeepsBubble(s, a);
    case _ =>
  }

  lemma StepKeepsInv(s: Sys, a: Action)
    requires Inv(s)
    ensures Inv(Step(s, a))
  {
    hide Step, ToldOk, BubbleOk;
    StepKeepsCallbacks(s, a);
    StepKeepsBubble(s, a);
  }

  lemma RunFromInit(actions: seq<Action>)
    ensures Inv(Run(Init(), actions))
  {
    hide Step;
    forall t, a | Inv(t) ensures Inv(Step(t, a)) { StepKeepsInv(t, a); }
    Runs.Keeps(Step, Inv, Init(), actions);
  }

  // ------------------------------------------------------------------ theorems

  /**
   In every interleaving: each turn reports at most one error (their turn numbers ascend), loading
   notifications alternate, and the consumer's list is current.
  */
  lemma ConsumersAreToldConsistently(actions: seq<Action>)
    ensures var u := Run(Init(), actions).ui;
            && (forall i, j | 0 <= i < j < |u.told.errors| :: u.told.errors[i] < u.told.errors[j])
            && (forall i | 0 <= i < |u.told.loading| :: u.told.loading[i] == (i % 2 == 0))
            && u.loading == (|u.told.loading| % 2 == 1)
            && u.told.shown == u.messages
            && (u.errorReported <==> |u.told.errors| > 0 && u.told.errors[|u.told.errors| - 1] == u.turn)
  {
    RunFromInit(actions);
    hide BubbleOk;
  }

  /** The failsafe is set for a loading turn, or there is no turn to guard. */
  ghost predicate Guarded(u: Ui) {
    u.destroyed || !u.loading || u.armed
  }

  lemma ResyncKeepsGuard(s: Sys, a: Action)
    requires s.ui.destroyed || (s.ui.loading && s.ui.armed)
    requires a.HistoryRead? || a.InterruptsRead?
    ensures Guarded(StepResync(s, a).ui)
  {
    hide SetContent, Extends;
  }

  lemma SendKeepsGuard(s: Sys, a: Action)
    requires s.ui.destroyed || (s.ui.loading && s.ui.armed)
    requires a.Send? || a.Ensured? || a.Attached? || a.Submitted?
    ensures Guarded(StepSend(s, a).ui)
  {
    hide DropBubble, BeginTurn;
    DropTakesOnlyTheBubble(SetLoading(s.ui, false));
    DropTakesOnlyTheBubble(s.ui);
    if a.Send? { BeginTells(s.ui, a.input); }
  }

  lemma DropTakesOnlyTheBubble(u: Ui)
    ensures var v := DropBubble(u); v.loading == u.loading && v.armed == u.armed && v.destroyed == u.destroyed
  {
    hide Without, HasEmpty;
  }

  /** No step disarms the failsafe of a turn that goes on loading. */
  lemma GuardIsKept(s: Sys, a: Action)
    requires s.ui.destroyed || (s.ui.loading && s.ui.armed)
    ensures Guarded(Step(s, a).ui) && (s.ui.destroyed ==> Step(s, a).ui.destroyed)
  {
    hide StepSend, StepResync, DropBubble, SetContent;
    match a
    case Send(_, _) => SendKeepsGuard(s, a); if s.ui.destroyed { AfterDestroy(s, a); }
    case Ensured(_, _, _) => SendKeepsGuard(s, a); if s.ui.destroyed { AfterDestroy(s, a); }
    case Attached(_, _) => SendKeepsGuard(s, a); if s.ui.destroyed { AfterDestroy(s, a); }
    case Submitted(_, _) => SendKeepsGuard(s, a); if s.ui.destroyed { AfterDestroy(s, a); }
    case HistoryRead(_, _, _, _) => ResyncKeepsGuard(s, a); if s.ui.destroyed { AfterDestroy(s, a); }
    case InterruptsRead(_, _, _) => ResyncKeepsGuard(s, a); if s.ui.destroyed { AfterDestroy(s, a); }
    case _ => DropTakesOnlyTheBubble(s.ui);
  }

  lemma ALostConnectionArms(s: Sys)
    requires s.ui.loading
    ensures Step(s, Disconnected(false)).ui.loading && Step(s, Disconnected(false)).ui.armed
  {
  }

  /**
   Over every run: once the connection is lost during a loading turn, the failsafe stays set for as long as
   the turn goes on loading, whatever else happens, until the controller is destroyed.
  */
  lemma {:induction false} ALostConnectionNeverHangs(actions: seq<Action>, k: nat)
    requires k < |actions| && actions[k] == Disconnected(false) && Run(Init(), actions[..k]).ui.loading
    ensures var u := Run(Init(), actions).ui;
            || (u.loading && u.armed)
            || u.destroyed
            || exists j :: k < j <= |actions| && !Run(Init(), actions[..j]).ui.loading
    decreases |actions|
  {
    hide Step, Init;
    var n := |actions| - 1;
    var front := actions[..n];
    assert actions[..|actions|] == actions;
    if k == n {
      ALostConnectionArms(Run(Init(), front));
    } else {
      assert front[..k] == actions[..k];
      ALostConnectionNeverHangs(front, k);
      var u := Run(Init(), front).ui;
      if u.destroyed || (u.loading && u.armed) {
        GuardIsKept(Run(Init(), front), actions[n]);
      } else {
        var j :| k < j <= n && !Run(Init(), front[..j]).ui.loading;
        assert front[..j] == actions[..j];
      }
    }
  }

  /** And when it fires, the turn is over for the consumer: loading is cleared and an error was reported for it. */
  lemma TheFailsafeEndsTheTurn(actions: seq<Action>)
    requires var u := Run(Init(), actions).ui; u.loading && u.armed && !u.destroyed
    ensures var u, v := Run(Init(), actions).ui, Run(Init(), actions + [TimerFires]).ui;
            && !v.loading && !v.armed && v.turn == u.turn && v.messages == u.messages
            && v.told.loading == u.told.loading + [false]
            && |v.told.errors| > 0 && v.told.errors[|v.told.errors| - 1] == u.turn
  {
    Runs.Snoc(Step, Init(), actions, TimerFires);
    RunFromInit(actions);
    hide BubbleOk, Init;
  }

  /** The text deltas delivered since the last turn began, in order. */
  function Heard(s: Sys, actions: seq<Action>): string
    decreases |actions|
  {
    if actions == [] then ""
    else
      var front := actions[..|actions| - 1];
      var t := Run(s, front);
      match actions[|actions| - 1]
      case Send(task, _) => if t.ui.loading || task in t.sends then Heard(s, front) else ""
      case ChunkArrives(stream, TextDelta(text)) =>
        if stream in t.consumers && !t.ui.destroyed then Heard(s, front) + text else Heard(s, front)
      case _ => Heard(s, front)
  }

  lemma TextStep(s: Sys, a: Action, heard: string)
    requires s.ui.assistantId.Some? ==> s.ui.assistantText == heard
    ensures Step(s, a).ui.assistantId.Some? ==>
              Step(s, a).ui.assistantText ==
                (match a
                 case Send(task, _) => if s.ui.loading || task in s.sends then heard else ""
                 case ChunkArrives(stream, TextDelta(text)) =>
                   if stream in s.consumers && !s.ui.destroyed then heard + text else heard
                 case _ => heard)
  {
    hide StepSend, StepResync, DropBubble, SetContent;
    match a
    case Send(_, _) => SendText(s, a);
    case Ensured(_, _, _) => SendText(s, a);
    case Attached(_, _) => SendText(s, a);
    case Submitted(_, _) => SendText(s, a);
    case HistoryRead(_, _, _, _) => ResyncText(s, a);
    case InterruptsRead(_, _, _) => ResyncText(s, a);
    case _ => DropBubbleForgets(s.ui);
  }

  lemma SendText(s: Sys, a: Action)
    requires a.Send? || a.Ensured? || a.Attached? || a.Submitted?
    ensures var u, v := s.ui, StepSend(s, a).ui;
            if a.Send? && !u.loading && a.task !in s.sends then v.assistantText == ""
            else v.assistantId.None? || (v.assistantId == u.assistantId && v.assistantText == u.assistantText)
  {
    hide DropBubble, Prepare;
    DropBubbleForgets(SetLoading(s.ui, false));
  }

  lemma ResyncText(s: Sys, a: Action)
    requires a.HistoryRead? || a.InterruptsRead?
    ensures var u, v := s.ui, StepResync(s, a).ui;
            v.assistantId.None? || (v.assistantId == u.assistantId && v.assistantText == u.assistantText)
  {
    hide SetContent, Extends;
  }

  lemma {:induction false} TextIsWhatWasHeard(actions: seq<Action>)
    ensures var u := Run(Init(), actions).ui;
            u.assistantId.Some? ==> u.assistantText == Heard(Init(), actions)
    decreases |actions|
  {
    hide Step, Init;
    if actions == [] {
      assert Init().ui.assistantId.None? by { InitIsIdle(); }
    } else {
      var front := actions[..|actions| - 1];
      TextIsWhatWasHeard(front);
      TextStep(Run(Init(), front), actions[|actions| - 1], Heard(Init(), front));
    }
  }

  lemma InitIsIdle()
    ensures Init().ui.assistantId.None?
  {
  }

  /** While a turn is unresolved its bubble shows exactly the text deltas delivered since it began. */
  lemma BubbleShowsTheStream(actions: seq<Action>)
    ensures var u := Run(Init(), actions).ui;
            u.assistantId.Some? ==> Bubble(u.messages, u.assistantId.value, Heard(Init(), actions))
  {
    hide Step, Init, Heard, ToldOk;
    RunFromInit(actions);
    TextIsWhatWasHeard(actions);
  }

  /** A re-sync that resolves the turn leaves in its bubble a text that extends what was streamed. */
  lemma ResyncOnlyExtends(actions: seq<Action>, a: Action)
    requires Run(Init(), actions).ui.assistantId.Some? && a.HistoryRead?
    ensures var u, v := Run(Init(), actions).ui, Step(Run(Init(), actions), a).ui;
            || (v.assistantId == u.assistantId && v.messages == u.messages && v.assistantText == u.assistantText)
            || (v.assistantId.None? && u.assistantText <= v.assistantText && a.final == Some(v.assistantText)
                && Bubble(v.messages, u.assistantId.value, v.assistantText))
  {
    hide Step, Init;
    RunFromInit(actions);
    ResyncStepExtends(Run(Init(), actions), a);
  }

  lemma ResyncStepExtends(s: Sys, a: Action)
    requires Inv(s) && s.ui.assistantId.Some? && a.HistoryRead?
    ensures var u, v := s.ui, Step(s, a).ui;
            || (v.assistantId == u.assistantId && v.messages == u.messages && v.assistantText == u.assistantText)
            || (v.assistantId.None? && u.assistantText <= v.assistantText && a.final == Some(v.assistantText)
                && Bubble(v.messages, u.assistantId.value, v.assistantText))
  {
    hide SetContent, ToldOk;
    if a.final.Some? {
      SetContentKeeps(s.ui.messages, s.ui.nextId, s.ui.assistantId.value, s.ui.assistantText, a.final.value);
    }
  }

  /** The turn is over and its bubble was removed or holds text: no later turn can take its id. */
  ghost predicate Retired(u: Ui, id: Id) {
    && id < u.nextId
    && u.assistantId != Some(id)
    && !exists i :: 0 <= i < |u.messages| && u.messages[i].id == id && u.messages[i].content == ""
  }

  /** The chunk ends its turn. */
  predicate EndsTurn(chunk: Chunk) {
    chunk.Done? || chunk.Error? || (chunk.Interrupt? && chunk.listed)
  }

  /** A `done` without text for a bubble without text. */
  predicate EmptyDone(u: Ui, chunk: Chunk) {
    chunk.Done? && chunk.text == "" && u.assistantText == ""
  }

  /** A terminal chunk retires the turn, unless it is a `done` without text for a bubble without text. */
  lemma TerminalChunkRetires(u: Ui, chunk: Chunk)
    requires BubbleOk(u) && u.assistantId.Some? && !u.destroyed && EndsTurn(chunk)
    ensures HandleChunk(u, chunk).assistantId.None?
    ensures Retired(HandleChunk(u, chunk), u.assistantId.value) <==> !EmptyDone(u, chunk)
  {
    var id := u.assistantId.value;
    if chunk.Done? {
      DoneRetires(u, chunk);
    } else {
      hide SetContent, Without;
      DropLeavesNoEmpty(u);
      DropBubbleForgets(u);
      assert HandleChunk(u, chunk).messages == DropBubble(u).messages;
      BubbleIdIsOld(u);
    }
  }

  lemma BubbleIdIsOld(u: Ui)
    requires BubbleOk(u) && u.assistantId.Some?
    ensures u.assistantId.value < u.nextId
  {
    var k :| 0 <= k < |u.messages| && u.messages[k] == Msg(u.assistantId.value, Assistant, u.assistantText);
  }

  lemma DoneRetires(u: Ui, chunk: Chunk)
    requires BubbleOk(u) && u.assistantId.Some? && !u.destroyed && chunk.Done?
    ensures Retired(HandleChunk(u, chunk), u.assistantId.value) <==> !(chunk.text == "" && u.assistantText == "")
  {
    var id := u.assistantId.value;
    var k :| 0 <= k < |u.messages| && u.messages[k] == Msg(id, Assistant, u.assistantText);
    var v := HandleChunk(u, chunk);
    assert v.messages[k].id == id;
    assert forall i | 0 <= i < |u.messages| && u.messages[i].id == id :: i == k;
  }

  lemma DropLeavesNoEmpty(u: Ui)
    requires u.assistantId.Some?
    ensures !HasEmpty(DropBubble(u).messages, u.assistantId.value)
  {
    var id := u.assistantId.value;
    if HasEmpty(u.messages, id) {
      var rest := Without(u.messages, id);
      forall i | 0 <= i < |rest| ensures rest[i].id != id {
        WithoutMembers(u.messages, id, rest[i]);
      }
    }
  }

  lemma RetiredAfterDrop(u: Ui, id: Id)
    requires Retired(u, id)
    ensures Retired(DropBubble(u), id)
  {
    if u.assistantId.Some? {
      var rest := Without(u.messages, u.assistantId.value);
      forall i | 0 <= i < |rest| && rest[i].id == id ensures rest[i].content != "" {
        WithoutMembers(u.messages, u.assistantId.value, rest[i]);
        var k :| 0 <= k < |u.messages| && u.messages[k] == rest[i];
      }
    }
  }

  lemma RetiredAfterBegin(u: Ui, input: Input, id: Id)
    requires IdsOk(u.messages, u.nextId) && Retired(u, id)
    ensures Retired(BeginTurn(u, input), id)
  {
    PrepareGivesEmptyBubble(u.messages, u.nextId, input);
    var (after, bubble, next) := Prepare(u.messages, u.nextId, input);
    NewIdsAreFresh(u.messages, u.nextId, input);
    hide Prepare;
    forall i | 0 <= i < |after| && after[i].id == id ensures after[i].content != "" {
      assert after[i] == u.messages[i];
    }
  }

  lemma NewIdsAreFresh(messages: seq<Msg>, nextId: Id, input: Input)
    ensures forall i | |messages| <= i < |Prepare(messages, nextId, input).0| ::
              Prepare(messages, nextId, input).0[i].id >= nextId
    ensures messages <= Prepare(messages, nextId, input).0
  {
  }

  lemma RetiredAfterContent(u: Ui, id: Id, other: Id, content: string)
    requires Retired(u, id) && other != id
    ensures Retired(Show(u, SetContent(u.messages, other, content)), id)
  {
    var ms := SetContent(u.messages, other, content);
    forall i | 0 <= i < |ms| && ms[i].id == id ensures ms[i].content != "" {
      assert ms[i] == u.messages[i];
    }
  }

  lemma RetiredAfterChunk(u: Ui, chunk: Chunk, id: Id)
    requires Retired(u, id)
    ensures Retired(HandleChunk(u, chunk), id)
  {
    hide DropBubble, SetContent;
    RetiredAfterDrop(u, id);
    if u.assistantId.Some? && (chunk.TextDelta? || chunk.Done?) {
      RetiredAfterContent(u, id, u.assistantId.value, if chunk.Done? then chunk.text else u.assistantText + chunk.text);
    }
  }

  lemma RetiredAfterResync(s: Sys, a: Action, id: Id)
    requires Retired(s.ui, id) && (a.HistoryRead? || a.InterruptsRead?)
    ensures Retired(StepResync(s, a).ui, id)
  {
    hide SetContent, Extends;
    if a.HistoryRead? && s.ui.assistantId.Some? && a.final.Some? {
      RetiredAfterContent(s.ui, id, s.ui.assistantId.value, a.final.value);
    }
  }

  lemma RetiredAfterSend(s: Sys, a: Action, id: Id)
    requires IdsOk(s.ui.messages, s.ui.nextId) && Retired(s.ui, id)
    requires a.Send? || a.Ensured? || a.Attached? || a.Submitted?
    ensures Retired(StepSend(s, a).ui, id)
  {
    hide DropBubble, BeginTurn;
    RetiredAfterDrop(SetLoading(s.ui, false), id);
    if a.Send? { RetiredAfterBegin(s.ui, a.input, id); }
  }

  lemma RetiredStays(s: Sys, a: Action, id: Id)
    requires Inv(s) && Retired(s.ui, id)
    ensures Retired(Step(s, a).ui, id)
  {
    hide StepSend, StepResync, HandleChunk, ToldOk;
    match a
    case ChunkArrives(_, chunk) => RetiredAfterChunk(s.ui, chunk, id);
    case HistoryRead(_, _, _, _) => RetiredAfterResync(s, a, id);
    case InterruptsRead(_, _, _) => RetiredAfterResync(s, a, id);
    case Send(_, _) => RetiredAfterSend(s, a, id);
    case Ensured(_, _, _) => RetiredAfterSend(s, a, id);
    case Attached(_, _) => RetiredAfterSend(s, a, id);
    case Submitted(_, _) => RetiredAfterSend(s, a, id);
    case _ =>
  }

  /** The re-sync `task` is under way and captured turn `id`. */
  predicate Captured(s: Sys, task: Tid, id: Id) {
    task in s.resyncs && s.resyncs[task].turnAtStart == Some(id)
  }

  /** The action is the next read of re-sync `task`. */
  predicate ReadOf(a: Action, task: Tid) {
    (a.HistoryRead? || a.InterruptsRead?) && a.task == task
  }

  /** The action changes no message, shows none and raises no interrupt. */
  predicate Inert(s: Sys, a: Action) {
    var u, v := s.ui, Step(s, a).ui;
    v.messages == u.messages && v.told.interrupts == u.told.interrupts && v.told.renders == u.told.renders
  }

  /**
   A re-sync that captured a turn since retired is inert: whatever it reads, it changes no message and
   raises no interrupt, however the controller was used in between.
  */
  lemma ResyncOfARetiredTurnIsInert(before: seq<Action>, actions: seq<Action>, task: Tid, id: Id, a: Action)
    requires Retired(Run(Init(), before).ui, id) && ReadOf(a, task)
    requires Captured(Run(Run(Init(), before), actions), task, id)
    ensures Inert(Run(Run(Init(), before), actions), a)
  {
    hide Step, Retired, Inv, Init, Inert;
    RunFromInit(before);
    var s := Run(Init(), before);
    var inv := (t: Sys) => Inv(t) && Retired(t.ui, id);
    forall t, b | inv(t) ensures inv(Step(t, b)) {
      StepKeepsInv(t, b);
      RetiredStays(t, b, id);
    }
    Runs.Keeps(Step, inv, s, actions);
    InertStep(Run(s, actions), task, id, a);
  }

  lemma InertStep(t: Sys, task: Tid, id: Id, a: Action)
    requires Retired(t.ui, id) && ReadOf(a, task) && Captured(t, task, id)
    ensures Inert(t, a)
  {
    hide EndTurn, SetContent;
  }

  // A turn that is over but not retired can always be taken again, and then its re-sync acts.

  /** Between turns, with the empty bubble of turn `id` still in the list and its re-sync under way. */
  ghost predicate LeftBehind(s: Sys, task: Tid, id: Id) {
    && Inv(s) && !s.ui.loading && s.ui.assistantId.None? && !s.ui.destroyed
    && Bubble(s.ui.messages, id, "") && Captured(s, task, id)
  }

  lemma {:induction false} SomeFirstEmpty(messages: seq<Msg>, id: Id)
    requires Bubble(messages, id, "")
    ensures FirstEmptyAssistant(messages).Some?
  {
    var i :| 0 <= i < |messages| && messages[i] == Msg(id, Assistant, "");
    if i > 0 {
      assert messages[1..][i - 1] == messages[i];
      SomeFirstEmpty(messages[1..], id);
    }
  }

  /** A resume without decisions takes the first empty bubble of the list. */
  lemma ResumeTakesTheFirst(s: Sys, k: Tid, first: Id)
    requires !s.ui.loading && k !in s.sends && FirstEmptyAssistant(s.ui.messages) == Some(first)
    ensures var t := Step(s, Send(k, Resume([])));
            && t.ui.messages == s.ui.messages && t.ui.assistantId == Some(first) && t.ui.assistantText == ""
            && t.ui.loading && t.ui.destroyed == s.ui.destroyed
            && t.resyncs == s.resyncs && t.sends == s.sends[k := Ensuring(s.conversationId)]
  {
    assert s.ui.messages + Approvals([], s.ui.nextId) == s.ui.messages;
    hide FirstEmptyAssistant;
  }

  /** If it is the captured one, the next read of the re-sync acts. */
  lemma TakenTurnIsActedOn(s: Sys, task: Tid, id: Id) returns (a: Action)
    requires Inv(s) && Captured(s, task, id) && !s.ui.destroyed
    requires s.ui.loading && s.ui.assistantId == Some(id) && s.ui.assistantText == ""
    ensures ReadOf(a, task) && !Inert(s, a)
  {
    if s.resyncs[task].ReadingHistory? {
      a := HistoryRead(task, true, Some("x"), false);
      assert Step(s, a).ui == AdoptHistory(s.ui, Some(id), Some("x"));
      AdoptionRenders(s.ui, Some(id), "x");
    } else {
      a := InterruptsRead(task, true, true);
    }
    hide EndTurn, SetContent;
  }

  lemma AdoptionRenders(u: Ui, turnAtStart: Option<Id>, final: string)
    requires InFlight(u, turnAtStart) && u.assistantText == "" && final != ""
    ensures AdoptHistory(u, turnAtStart, Some(final)).told.renders == u.told.renders + 1
  {
    hide SetContent;
  }

  /** A resume that then fails to attach takes away the bubble it took. */
  function FailedResume(k: Tid): seq<Action> {
    [Send(k, Resume([])), Ensured(k, true, None), Attached(k, false)]
  }

  lemma AttachFails(s: Sys, k: Tid)
    requires k in s.sends && s.sends[k].Ensuring?
    ensures var t := Step(Step(s, Ensured(k, true, None)), Attached(k, false));
            t.ui == SendFailed(s.ui) && t.resyncs == s.resyncs
  {
    hide SendFailed;
    var mid := Step(s, Ensured(k, true, None));
    assert mid.ui == s.ui && mid.resyncs == s.resyncs && k in mid.sends && mid.sends[k].Attaching?;
  }

  lemma FailureDrops(u: Ui)
    requires u.assistantId.Some? && HasEmpty(u.messages, u.assistantId.value)
    ensures var v := SendFailed(u);
            && v.messages == Without(u.messages, u.assistantId.value) && v.assistantId.None?
            && !v.loading && v.destroyed == u.destroyed
  {
    hide DropBubble, HasEmpty, Without;
    DropTakesAway(SetLoading(u, false));
  }

  lemma DropTakesAway(u: Ui)
    requires u.assistantId.Some? && HasEmpty(u.messages, u.assistantId.value)
    ensures var v := DropBubble(u);
            && v.messages == Without(u.messages, u.assistantId.value) && v.assistantId.None?
            && v.loading == u.loading && v.destroyed == u.destroyed
  {
    hide Without, HasEmpty;
  }

  lemma {:induction false} WithoutIsNoLonger(messages: seq<Msg>, id: Id)
    ensures |Without(messages, id)| <= |messages|
    ensures HasEmpty(messages, id) ==> |Without(messages, id)| < |messages|
    decreases |messages|
  {
    if messages == [] {
    } else {
      var n := |messages| - 1;
      WithoutIsNoLonger(messages[..n], id);
      if HasEmpty(messages, id) && messages[n].id != id {
        var i :| 0 <= i < |messages| && messages[i].id == id && messages[i].content == "";
        assert messages[..n][i] == messages[i];
      }
    }
  }

  /** The failed resume of another bubble leaves the captured one behind, in a shorter list. */
  lemma AnotherBubbleGone(s: Sys, task: Tid, id: Id, first: Id, k: Tid)
    requires LeftBehind(s, task, id) && FirstEmptyAssistant(s.ui.messages) == Some(first) && first != id && k !in s.sends
    ensures var t := Run(s, FailedResume(k));
            LeftBehind(t, task, id) && |t.ui.messages| < |s.ui.messages|
  {
    var s1 := Step(s, Send(k, Resume([])));
    var s2 := Step(s1, Ensured(k, true, None));
    var t := Step(s2, Attached(k, false));
    FirstEmptyIsEmpty(s.ui.messages);
    var i :| 0 <= i < |s.ui.messages| && s.ui.messages[i] == Msg(first, Assistant, "");
    assert HasEmpty(s.ui.messages, first);
    WithoutMembers(s.ui.messages, first, Msg(id, Assistant, ""));
    WithoutIsNoLonger(s.ui.messages, first);
    hide Step, Inv, Without, HasEmpty, SendFailed;
    ResumeTakesTheFirst(s, k, first);
    AttachFails(s1, k);
    FailureDrops(s1.ui);
    StepKeepsInv(s, Send(k, Resume([])));
    StepKeepsInv(s1, Ensured(k, true, None));
    StepKeepsInv(s2, Attached(k, false));
    ThreeSteps(s, Send(k, Resume([])), Ensured(k, true, None), Attached(k, false));
    MemberIsBubble(t.ui.messages, id);
  }

  lemma MemberIsBubble(messages: seq<Msg>, id: Id)
    ensures Bubble(messages, id, "") <==> Msg(id, Assistant, "") in messages
  {
  }

  lemma ThreeSteps(s: Sys, a: Action, b: Action, c: Action)
    ensures Run(s, [a, b, c]) == Step(Step(Step(s, a), b), c)
  {
    hide Step;
    Runs.Snoc(Step, s, [], a);
    Runs.Snoc(Step, s, [a], b);
    Runs.Snoc(Step, s, [a, b], c);
    assert [] + [a] == [a] && [a] + [b] == [a, b] && [a, b] + [c] == [a, b, c];
  }

  lemma SomeFreshTask(tasks: set<Tid>) returns (k: Tid)
    ensures k !in tasks
  {
    if tasks == {} {
      k := 0;
    } else {
      var top := Highest(tasks);
      k := top + 1;
    }
  }

  lemma {:induction false} Highest(tasks: set<Tid>) returns (top: Tid)
    requires tasks != {}
    ensures forall t <- tasks :: t <= top
  {
    var t :| t in tasks;
    if tasks == {t} {
      top := t;
    } else {
      assert tasks - {t} != {};
      top := Highest(tasks - {t});
      if top < t { top := t; }
      assert forall x <- tasks :: x == t || x in tasks - {t};
    }
  }

  /** From any such state some use of the controller makes the re-sync act on another turn. */
  lemma {:induction false} ABubbleLeftBehindIsTakenAgain(s: Sys, task: Tid, id: Id)
      returns (actions: seq<Action>, a: Action)
    requires LeftBehind(s, task, id)
    ensures ReadOf(a, task) && Captured(Run(s, actions), task, id) && !Inert(Run(s, actions), a)
    decreases |s.ui.messages|
  {
    hide Step, Inv, FirstEmptyAssistant, Inert, Bubble;
    SomeFirstEmpty(s.ui.messages, id);
    var first := FirstEmptyAssistant(s.ui.messages).value;
    var k := SomeFreshTask(s.sends.Keys);
    if first == id {
      actions := [Send(k, Resume([]))];
      Runs.Snoc(Step, s, [], Send(k, Resume([])));
      assert [] + actions == actions;
      ResumeTakesTheFirst(s, k, id);
      StepKeepsInv(s, Send(k, Resume([])));
      a := TakenTurnIsActedOn(Step(s, Send(k, Resume([]))), task, id);
    } else {
      AnotherBubbleGone(s, task, id, first, k);
      var rest;
      rest, a := ABubbleLeftBehindIsTakenAgain(Run(s, FailedResume(k)), task, id);
      actions := FailedResume(k) + rest;
      Runs.Concat(Step, s, FailedResume(k), rest);
    }
  }

  /** An empty `done` for an empty bubble leaves it behind. */
  lemma EmptyDoneLeavesTheBubble(s: Sys, stream: Stream, chunk: Chunk, task: Tid, id: Id)
    requires Inv(s) && stream in s.consumers && !s.ui.destroyed && s.ui.assistantId == Some(id)
    requires EmptyDone(s.ui, chunk) && Captured(s, task, id)
    ensures LeftBehind(Step(s, ChunkArrives(stream, chunk)), task, id)
  {
    StepKeepsInv(s, ChunkArrives(stream, chunk));
    hide ToldOk, IdsOk, Bubble;
  }

  /**
   A terminal chunk has ended the turn that a re-sync under way captured. From then on, however the
   controller is used, the re-sync changes no message and raises no interrupt, if and only if the chunk
   was not a `done` without text for a bubble without text.
  */
  lemma ResyncAfterATerminalChunkIsInertIff(before: seq<Action>, stream: Stream, chunk: Chunk, task: Tid, id: Id)
    requires var s := Run(Init(), before);
             && stream in s.consumers && !s.ui.destroyed && s.ui.assistantId == Some(id)
             && EndsTurn(chunk) && Captured(s, task, id)
    ensures var s := Run(Init(), before);
            var t := Step(s, ChunkArrives(stream, chunk));
            (forall actions, a | ReadOf(a, task) && Captured(Run(t, actions), task, id) :: Inert(Run(t, actions), a))
            <==> !EmptyDone(s.ui, chunk)
  {
    hide Step, Inert, Inv, Init, Retired, HandleChunk;
    RunFromInit(before);
    var s := Run(Init(), before);
    var last := ChunkArrives(stream, chunk);
    var t := Step(s, last);
    if EmptyDone(s.ui, chunk) {
      EmptyDoneLeavesTheBubble(s, stream, chunk, task, id);
      var actions, a := ABubbleLeftBehindIsTakenAgain(t, task, id);
      assert !Inert(Run(t, actions), a);
    } else {
      ChunkRetires(s, stream, chunk, id);
      Runs.Snoc(Step, Init(), before, last);
      forall actions, a | ReadOf(a, task) && Captured(Run(t, actions), task, id) ensures Inert(Run(t, actions), a) {
        ResyncOfARetiredTurnIsInert(before + [last], actions, task, id, a);
      }
    }
  }

  lemma ChunkRetires(s: Sys, stream: Stream, chunk: Chunk, id: Id)
    requires Inv(s) && stream in s.consumers && !s.ui.destroyed && s.ui.assistantId == Some(id)
    requires EndsTurn(chunk) && !EmptyDone(s.ui, chunk)
    ensures Retired(Step(s, ChunkArrives(stream, chunk)).ui, id)
  {
    hide HandleChunk, Retired;
    TerminalChunkRetires(s.ui, chunk);
  }

  /**
   A `done` without text for an empty bubble leaves the bubble in the list; a resume then takes its id
   for the next turn, and a re-sync begun in the first turn resolves the second.
  */
  lemma EmptyDoneLetsAResyncResolveAResume(final: string)
    requires final != ""
    ensures var s0 := Sent();
            var s1 := Step(Step(s0, Reconnected(1)), ChunkArrives(0, Done("")));
            var s2 := Step(s1, Send(2, Resume(["Approved"])));
            var s3 := Step(s2, HistoryRead(1, true, Some(final), false));
            && s1.ui.assistantId.None? && s2.ui.loading && s2.ui.turn == 2
            && s3.ui.assistantId.None? && !s3.ui.loading
  {
    SentState();
    hide Sent;
    var s0 := Sent();
    var s1 := Step(Step(s0, Reconnected(1)), ChunkArrives(0, Done("")));
    assert !s1.ui.loading && s1.ui.messages == s0.ui.messages && s1.resyncs == map[1 := ReadingHistory(Some(1))];
    ResumeReuses(s1);
  }

  lemma ResumeReuses(s: Sys)
    requires s.ui.messages == [Msg(0, User, "hi"), Msg(1, Assistant, "")] && !s.ui.loading && 2 !in s.sends
    ensures var t := Step(s, Send(2, Resume(["Approved"])));
            t.ui.assistantId == Some(1) && t.ui.loading && t.ui.turn == s.ui.turn + 1 && t.ui.assistantText == ""
            && t.resyncs == s.resyncs && t.ui.destroyed == s.ui.destroyed
  {
    var approved := s.ui.messages + Approvals(["Approved"], s.ui.nextId);
    assert approved[1..][0] == Msg(1, Assistant, "");
    assert FirstEmptyAssistant(approved) == FirstEmptyAssistant(approved[1..]) == Some(1);
  }

  /** A text turn that was accepted and whose stream is being consumed. */
  function Sent(): Sys {
    var s := Step(Step(Init(), Send(0, Text("hi"))), Ensured(0, true, Some("c")));
    Step(Step(s, Attached(0, true)), Submitted(0, true))
  }

  lemma SentState()
    ensures var s := Sent();
            && s.ui.messages == [Msg(0, User, "hi"), Msg(1, Assistant, "")] && s.ui.loading && !s.ui.destroyed
            && s.ui.assistantId == Some(1) && s.ui.assistantText == "" && s.ui.turn == 1
            && s.conversationId.Some? && s.resyncs == map[] && s.sends == map[] && 0 in s.consumers
  {
  }

  /** What makes a failed send tell the consumer something. */
  predicate TellsOnFailure(u: Ui) {
    u.loading || !u.errorReported || (u.assistantId.Some? && HasEmpty(u.messages, u.assistantId.value))
  }

  /** The actions that still reach the consumer after `destroy`. */
  predicate StillTells(s: Sys, a: Action) {
    match a
    case Send(task, _) => !s.ui.loading && task !in s.sends
    case Ensured(task, ok, _) =>
      task in s.sends && s.sends[task].Ensuring? && s.sends[task].known.None? && !ok && TellsOnFailure(s.ui)
    case Attached(task, ok) => task in s.sends && s.sends[task].Attaching? && !ok && TellsOnFailure(s.ui)
    case Submitted(task, ok) => task in s.sends && s.sends[task].Submitting? && !ok && TellsOnFailure(s.ui)
    case StreamEnds(stream, failed) => stream in s.consumers && failed && (s.ui.loading || !s.ui.errorReported)
    case NewConversation => true
    case _ => false
  }

  lemma FailedSendTells(u: Ui)
    ensures SendFailed(u).told != u.told <==> TellsOnFailure(u)
  {
    hide Without, HasEmpty;
    var v := SetLoading(u, false);
    DropTells(v);
    assert v.told.errors == u.told.errors && v.told.renders == u.told.renders && v.messages == u.messages;
    assert DropBubble(v).told.loading == v.told.loading && DropBubble(v).told.errors == v.told.errors;
    assert DropBubble(v).errorReported == u.errorReported;
    hide DropBubble;
  }

  lemma DropTells(u: Ui)
    ensures DropBubble(u).told.renders != u.told.renders <==> u.assistantId.Some? && HasEmpty(u.messages, u.assistantId.value)
    ensures DropBubble(u).told.renders == u.told.renders ==> DropBubble(u).told == u.told
  {
    hide Without, HasEmpty;
  }

  /**
   After `destroy` no chunk, re-sync or timer reaches the consumer; a failed stream, a failed send, a
   new send and `newConversation` still do, exactly when `StillTells` holds.
  */
  lemma AfterDestroy(s: Sys, a: Action)
    requires s.ui.destroyed
    ensures Step(s, a).ui.destroyed
    ensures Step(s, a).ui.told != s.ui.told <==> StillTells(s, a)
  {
    hide StepSend, StepResync, ConsumerEnds, StillTells;
    match a
    case Send(_, _) => SendAfterDestroy(s, a);
    case Ensured(_, _, _) => SendAfterDestroy(s, a);
    case Attached(_, _) => SendAfterDestroy(s, a);
    case Submitted(_, _) => SendAfterDestroy(s, a);
    case HistoryRead(_, _, _, _) => ResyncAfterDestroy(s, a);
    case InterruptsRead(_, _, _) => ResyncAfterDestroy(s, a);
    case StreamEnds(_, failed) => StreamEndAfterDestroy(s, a);
    case _ => QuietActions(s, a);
  }

  lemma SendAfterDestroy(s: Sys, a: Action)
    requires s.ui.destroyed && (a.Send? || a.Ensured? || a.Attached? || a.Submitted?)
    ensures StepSend(s, a).ui.destroyed
    ensures StepSend(s, a).ui.told != s.ui.told <==> StillTells(s, a)
  {
    hide SendFailed, TellsOnFailure, BeginTurn;
    FailedSendTells(s.ui);
    FailedSendStaysDestroyed(s.ui);
    if a.Send? { BeginTells(s.ui, a.input); }
  }

  lemma BeginTells(u: Ui, input: Input)
    ensures BeginTurn(u, input).destroyed == u.destroyed
    ensures BeginTurn(u, input).told.renders == u.told.renders + 1
  {
    hide Prepare;
  }

  lemma ResyncAfterDestroy(s: Sys, a: Action)
    requires s.ui.destroyed && (a.HistoryRead? || a.InterruptsRead?)
    ensures StepResync(s, a).ui == s.ui && !StillTells(s, a)
  {
  }

  lemma StreamEndAfterDestroy(s: Sys, a: Action)
    requires s.ui.destroyed && a.StreamEnds?
    ensures Step(s, a).ui.destroyed
    ensures Step(s, a).ui.told != s.ui.told <==> StillTells(s, a)
  {
    var u := s.ui;
    var v := ConsumerEnds(u, a.failed);
    assert a.failed ==> v.told.loading == (if u.loading then u.told.loading + [false] else u.told.loading);
    assert a.failed ==> v.told.errors == (if u.errorReported then u.told.errors else u.told.errors + [u.turn]);
    assert !a.failed ==> v == u;
  }

  lemma QuietActions(s: Sys, a: Action)
    requires s.ui.destroyed
    requires a.ChunkArrives? || a.Disconnected? || a.Reconnected? || a.TimerFires? || a.NewConversation? || a.Destroy?
    ensures Step(s, a).ui.destroyed
    ensures a.NewConversation? ==> Step(s, a).ui.told.renders == s.ui.told.renders + 1 && StillTells(s, a)
    ensures !a.NewConversation? ==> Step(s, a).ui.told == s.ui.told && !StillTells(s, a)
  {
  }

  lemma FailedSendStaysDestroyed(u: Ui)
    ensures SendFailed(u).destroyed == u.destroyed
  {
    hide Without, HasEmpty;
  }
}
