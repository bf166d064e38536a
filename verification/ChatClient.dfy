/**
 The chat controller as an object: the closure variables of `createChat`, and one method per piece
 of code between two awaits. Each method keeps the object valid, says what it means for the consumer,
 and does to the rendered chat what the step of the interleaving model does, so that the theorems
 about all interleavings speak about this object.
*/
module ChatClient {
  import opened Maybe
  import C = Chat

  // ------------------------------------------------- what each piece of code means to the consumer

  ghost predicate Good(u: C.Ui) {
    C.ToldOk(u) && C.BubbleOk(u)
  }

  /** What was told stays told, and at most one loading value, one error and one interrupt are new. */
  ghost predicate TellsMore(u: C.Told, v: C.Told) {
    && u.loading <= v.loading && |v.loading| <= |u.loading| + 1
    && u.errors <= v.errors && |v.errors| <= |u.errors| + 1
    && u.interrupts <= v.interrupts <= u.interrupts + 1
  }

  /** The turn is over: no bubble, not loading, no timer. */
  ghost predicate Over(u: C.Ui) {
    u.assistantId.None? && !u.loading && !u.armed
  }

  /** Only the bubble's text changed, to `text`. */
  ghost predicate OnlyBubbleChanged(u: C.Ui, v: C.Ui, text: string) {
    && u.assistantId.Some? && |v.messages| == |u.messages|
    && C.Bubble(v.messages, u.assistantId.value, text)
    && forall i | 0 <= i < |u.messages| && u.messages[i].id != u.assistantId.value :: v.messages[i] == u.messages[i]
  }

  /** All messages but an empty bubble of the turn. */
  ghost predicate OnlyEmptyBubbleGone(u: C.Ui, v: C.Ui) {
    forall m :: m in v.messages <==> m in u.messages && !(u.assistantId == Some(m.id) && m.content == "")
  }

  ghost predicate ChunkMeans(u: C.Ui, v: C.Ui, chunk: C.Chunk) {
    && TellsMore(u.told, v.told)
    && (u.destroyed ==> v == u)
    && (!u.destroyed && C.EndsTurn(chunk) ==> Over(v))
    && (!C.EndsTurn(chunk) ==> v.assistantId == u.assistantId && v.loading == u.loading && v.armed == u.armed)
    && (!u.destroyed && chunk.TextDelta? && chunk.text != "" && u.assistantId.Some? ==>
          v.assistantText == u.assistantText + chunk.text && OnlyBubbleChanged(u, v, v.assistantText))
    && (!u.destroyed && chunk.Done? && chunk.text != "" && u.assistantId.Some? ==> OnlyBubbleChanged(u, v, chunk.text))
    && (!u.destroyed && (chunk.Error? || (chunk.Interrupt? && chunk.listed)) ==> OnlyEmptyBubbleGone(u, v))
    && (|v.told.errors| > |u.told.errors| <==> chunk.Error? && !u.destroyed && !u.errorReported)
    && (v.told.interrupts > u.told.interrupts <==> chunk.Interrupt? && chunk.listed && !u.destroyed)
  }

  ghost predicate HistoryMeans(u: C.Ui, v: C.Ui, turnAtStart: Option<C.Id>, ok: bool, final: Option<string>) {
    && TellsMore(u.told, v.told) && v.told.interrupts == u.told.interrupts
    && (u.destroyed || (ok && !C.InFlight(u, turnAtStart)) ==> v == u)
    && (!u.destroyed && !ok ==> v.messages == u.messages && v.loading == u.loading && v.errorReported && v.armed)
    && (|v.told.errors| > |u.told.errors| <==> !u.destroyed && !ok && !u.errorReported)
    && (!u.destroyed && ok && C.InFlight(u, turnAtStart) ==>
          if v.assistantId.None?
          then Over(v) && final == Some(v.assistantText) && v.assistantText != "" && u.assistantText <= v.assistantText
               && OnlyBubbleChanged(u, v, v.assistantText)
          else v == u.(armed := true) && !(final.Some? && final.value != "" && u.assistantText <= final.value))
  }

  ghost predicate InterruptsMean(u: C.Ui, v: C.Ui, turnAtStart: Option<C.Id>, ok: bool, pending: bool) {
    && TellsMore(u.told, v.told) && v.messages == u.messages
    && (v.told.interrupts > u.told.interrupts <==> !u.destroyed && ok && pending && C.InFlight(u, turnAtStart))
    && (v.told.interrupts > u.told.interrupts ==> Over(v))
    && (v.told.interrupts == u.told.interrupts && (ok || u.destroyed) ==> v == u)
    && (!u.destroyed && !ok ==> v.loading == u.loading && v.errorReported && v.armed)
  }

  ghost predicate SendFailureMeans(u: C.Ui, v: C.Ui) {
    && TellsMore(u.told, v.told) && v.told.interrupts == u.told.interrupts
    && !v.loading && v.assistantId.None? && v.errorReported && v.armed == u.armed
    && OnlyEmptyBubbleGone(u, v)
    && (|v.told.errors| > |u.told.errors| <==> !u.errorReported)
  }

  ghost predicate TimerMeans(u: C.Ui, v: C.Ui) {
    && TellsMore(u.told, v.told) && !v.armed
    && v.messages == u.messages && v.assistantId == u.assistantId
    && (u.loading && !u.destroyed ==> !v.loading && v.errorReported)
    && (!u.loading || u.destroyed ==> v.told == u.told)
  }

  ghost predicate ConsumerEndMeans(u: C.Ui, v: C.Ui, failed: bool) {
    && TellsMore(u.told, v.told)
    && v.messages == u.messages && v.assistantId == u.assistantId && v.armed == u.armed
    && (failed || !u.destroyed ==> !v.loading) && (!failed && u.destroyed ==> v == u)
    && (|v.told.errors| > |u.told.errors| <==> failed && !u.errorReported)
  }

  /** What a turn puts after the messages: the user's text, or the decisions in order, each with a new id. */
  ghost predicate InputRecorded(messages: seq<C.Msg>, nextId: C.Id, added: seq<C.Msg>, input: C.Input) {
    && (forall i | 0 <= i < |added| :: added[i].id == nextId + i)
    && match input
       case Text(message) => |added| == 2 && added[0].role.User? && added[0].content == message
       case Resume(decisions) =>
         && |decisions| <= |added| <= |decisions| + 1
         && (forall i | 0 <= i < |decisions| :: added[i].role.Approval? && added[i].content == decisions[i])
         && (|added| == |decisions| <==>
               exists i :: 0 <= i < |messages| && messages[i].role.Assistant? && messages[i].content == "")
  }

  ghost predicate TurnBegan(u: C.Ui, v: C.Ui, input: C.Input) {
    && TellsMore(u.told, v.told) && v.told.errors == u.told.errors
    && v.loading && !v.armed && !v.errorReported && v.turn == u.turn + 1
    && u.messages <= v.messages && InputRecorded(u.messages, u.nextId, v.messages[|u.messages|..], input)
    && v.assistantText == "" && v.assistantId.Some? && C.Bubble(v.messages, v.assistantId.value, "")
    && (v.assistantId.value < u.nextId ==> C.Bubble(u.messages, v.assistantId.value, ""))
  }

  // ------------------------------------------------------------ and that the steps mean just that

  lemma ContentChanged(u: C.Ui, text: string)
    requires C.BubbleOk(u) && u.assistantId.Some?
    ensures OnlyBubbleChanged(u, C.Show(u, C.SetContent(u.messages, u.assistantId.value, text)), text)
  {
    C.SetContentKeeps(u.messages, u.nextId, u.assistantId.value, u.assistantText, text);
  }

  lemma BubbleDropped(u: C.Ui)
    requires C.BubbleOk(u)
    ensures OnlyEmptyBubbleGone(u, C.DropBubble(u))
  {
    if u.assistantId.Some? {
      var id := u.assistantId.value;
      forall m ensures m in C.DropBubble(u).messages <==> m in u.messages && !(u.assistantId == Some(m.id) && m.content == "") {
        C.WithoutMembers(u.messages, id, m);
        DroppedExactly(u, m);
      }
    }
  }

  lemma DroppedExactly(u: C.Ui, m: C.Msg)
    requires u.assistantId.Some? && C.BubbleOk(u)
    requires var id := u.assistantId.value; m in C.Without(u.messages, id) <==> m in u.messages && m.id != id
    ensures m in C.DropBubble(u).messages <==> m in u.messages && !(m.id == u.assistantId.value && m.content == "")
  {
    hide C.Without;
    var id := u.assistantId.value;
    if C.HasEmpty(u.messages, id) {
      var i :| 0 <= i < |u.messages| && u.messages[i].id == id && u.messages[i].content == "";
      if m in u.messages && m.id == id {
        var k :| 0 <= k < |u.messages| && u.messages[k] == m;
        assert k == i;
      }
    }
  }

  lemma DropTellsNothing(u: C.Ui)
    ensures var v := C.DropBubble(u);
            && v.told.loading == u.told.loading && v.told.errors == u.told.errors && v.told.interrupts == u.told.interrupts
            && v == u.(messages := v.messages, assistantId := None, told := v.told)
  {
    hide C.Without, C.HasEmpty;
  }

  lemma ChunkIsMeant(u: C.Ui, chunk: C.Chunk)
    requires Good(u)
    ensures Good(C.HandleChunk(u, chunk)) && ChunkMeans(u, C.HandleChunk(u, chunk), chunk)
  {
    hide C.HandleChunk, C.ToldOk, C.BubbleOk, ChunkMeans;
    C.ChunkKeepsCallbacks(u, chunk);
    C.ChunkKeepsBubble(u, chunk);
    if u.destroyed || chunk.Other? || (chunk.Interrupt? && !chunk.listed) { IgnoredIsMeant(u, chunk); }
    else if chunk.TextDelta? { TextIsMeant(u, chunk); }
    else if chunk.Done? { DoneIsMeant(u, chunk); }
    else { EndIsMeant(u, chunk); }
  }

  lemma IgnoredIsMeant(u: C.Ui, chunk: C.Chunk)
    requires u.destroyed || chunk.Other? || (chunk.Interrupt? && !chunk.listed)
    ensures ChunkMeans(u, C.HandleChunk(u, chunk), chunk)
  {
    hide OnlyBubbleChanged, OnlyEmptyBubbleGone;
  }

  lemma TextIsMeant(u: C.Ui, chunk: C.Chunk)
    requires C.BubbleOk(u) && !u.destroyed && chunk.TextDelta?
    ensures ChunkMeans(u, C.HandleChunk(u, chunk), chunk)
  {
    hide C.BubbleOk, C.SetContent, OnlyBubbleChanged, OnlyEmptyBubbleGone;
    if u.assistantId.Some? {
      var text := u.assistantText + chunk.text;
      ContentChanged(u, text);
      SameMessagesChanged(u, C.Show(u, C.SetContent(u.messages, u.assistantId.value, text)), C.HandleChunk(u, chunk), text);
    }
  }

  lemma DoneIsMeant(u: C.Ui, chunk: C.Chunk)
    requires C.BubbleOk(u) && !u.destroyed && chunk.Done?
    ensures ChunkMeans(u, C.HandleChunk(u, chunk), chunk)
  {
    hide C.BubbleOk, C.SetContent, OnlyBubbleChanged, OnlyEmptyBubbleGone;
    if u.assistantId.Some? {
      ContentChanged(u, chunk.text);
      SameMessagesChanged(u, C.Show(u, C.SetContent(u.messages, u.assistantId.value, chunk.text)),
                          C.HandleChunk(u, chunk), chunk.text);
    }
  }

  lemma EndIsMeant(u: C.Ui, chunk: C.Chunk)
    requires C.BubbleOk(u) && !u.destroyed && (chunk.Error? || (chunk.Interrupt? && chunk.listed))
    ensures ChunkMeans(u, C.HandleChunk(u, chunk), chunk)
  {
    hide C.BubbleOk, C.DropBubble, OnlyBubbleChanged, OnlyEmptyBubbleGone;
    BubbleDropped(u);
    DropTellsNothing(u);
    SameMessagesGone(u, C.DropBubble(u), C.HandleChunk(u, chunk));
  }

  lemma SameMessagesGone(u: C.Ui, v: C.Ui, w: C.Ui)
    requires OnlyEmptyBubbleGone(u, v)
    ensures w.messages == v.messages ==> OnlyEmptyBubbleGone(u, w)
  {
  }

  lemma SameMessagesChanged(u: C.Ui, v: C.Ui, w: C.Ui, text: string)
    requires OnlyBubbleChanged(u, v, text)
    ensures w.messages == v.messages ==> OnlyBubbleChanged(u, w, text)
  {
  }

  /** `handleReconnect` after its first await, on the model's terms. */
  function History(u: C.Ui, turnAtStart: Option<C.Id>, ok: bool, final: Option<string>): C.Ui {
    if u.destroyed then u else if ok then C.AdoptHistory(u, turnAtStart, final) else C.ResyncFailed(u)
  }

  function Interrupts(u: C.Ui, turnAtStart: Option<C.Id>, ok: bool, pending: bool): C.Ui {
    if u.destroyed then u else if ok then C.AdoptInterrupts(u, turnAtStart, pending) else C.ResyncFailed(u)
  }

  lemma ResyncFailedKeeps(u: C.Ui)
    requires Good(u)
    ensures Good(C.ResyncFailed(u))
  {
    hide C.ToldOk, C.IdsOk, C.Bubble;
    C.ReportErrorKeeps(u);
    C.ArmingKeeps(C.ReportError(u));
  }

  lemma HistoryIsMeant(u: C.Ui, turnAtStart: Option<C.Id>, ok: bool, final: Option<string>)
    requires Good(u)
    ensures var v := History(u, turnAtStart, ok, final); Good(v) && HistoryMeans(u, v, turnAtStart, ok, final)
  {
    hide C.SetContent, C.ToldOk, C.BubbleOk, OnlyBubbleChanged;
    C.AdoptHistoryKeeps(u, turnAtStart, final);
    C.AdoptKeepsBubble(u, turnAtStart, final);
    ResyncFailedKeeps(u);
    if u.assistantId.Some? && final.Some? {
      ContentChanged(u, final.value);
      SameMessagesChanged(u, C.Show(u, C.SetContent(u.messages, u.assistantId.value, final.value)),
                          History(u, turnAtStart, ok, final), final.value);
    }
  }

  lemma InterruptsAreMeant(u: C.Ui, turnAtStart: Option<C.Id>, ok: bool, pending: bool)
    requires Good(u)
    ensures var v := Interrupts(u, turnAtStart, ok, pending); Good(v) && InterruptsMean(u, v, turnAtStart, ok, pending)
  {
    hide C.ToldOk, C.BubbleOk;
    InterruptsKeepGood(u, turnAtStart, ok, pending);
  }

  lemma InterruptsKeepGood(u: C.Ui, turnAtStart: Option<C.Id>, ok: bool, pending: bool)
    requires Good(u)
    ensures Good(Interrupts(u, turnAtStart, ok, pending))
  {
    hide C.ToldOk, C.IdsOk, C.Bubble, C.ResyncFailed;
    ResyncFailedKeeps(u);
    C.EndTurnKeeps(u);
    C.RaiseKeeps(C.EndTurn(u));
  }

  lemma SendFailureIsMeant(u: C.Ui)
    requires Good(u)
    ensures Good(C.SendFailed(u)) && SendFailureMeans(u, C.SendFailed(u))
  {
    hide C.DropBubble, C.ToldOk, C.Bubble, C.IdsOk, OnlyEmptyBubbleGone;
    var quiet := C.SetLoading(u, false);
    C.SendFailedKeeps(u);
    C.DropBubbleKeepsBubble(quiet);
    BubbleDropped(quiet);
    DropTellsNothing(quiet);
    StartsAlike(u, quiet, C.SendFailed(u), C.DropBubble(quiet));
  }

  lemma StartsAlike(u: C.Ui, v: C.Ui, w: C.Ui, x: C.Ui)
    requires OnlyEmptyBubbleGone(v, x) && u.messages == v.messages && u.assistantId == v.assistantId
    ensures w.messages == x.messages ==> OnlyEmptyBubbleGone(u, w)
  {
  }

  lemma TimerIsMeant(u: C.Ui)
    requires Good(u) && u.armed
    ensures Good(C.FireTimer(u)) && TimerMeans(u, C.FireTimer(u))
  {
    C.TimerKeeps(u);
    hide C.ToldOk, C.IdsOk, C.Bubble;
  }

  lemma ConsumerEndIsMeant(u: C.Ui, failed: bool)
    requires Good(u)
    ensures Good(C.ConsumerEnds(u, failed)) && ConsumerEndMeans(u, C.ConsumerEnds(u, failed), failed)
  {
    C.ConsumerEndsKeeps(u, failed);
    hide C.ToldOk, C.IdsOk, C.Bubble;
  }

  lemma TurnBegins(u: C.Ui, input: C.Input)
    requires Good(u) && !u.loading
    ensures Good(C.BeginTurn(u, input)) && TurnBegan(u, C.BeginTurn(u, input), input)
  {
    C.BeginTurnKeeps(u, input);
    C.PrepareGivesEmptyBubble(u.messages, u.nextId, input);
    InputIsRecorded(u.messages, u.nextId, input);
    hide C.Prepare, C.ToldOk, C.IdsOk, C.Bubble, InputRecorded;
  }

  lemma InputIsRecorded(messages: seq<C.Msg>, nextId: C.Id, input: C.Input)
    ensures var all := C.Prepare(messages, nextId, input).0;
            messages <= all && InputRecorded(messages, nextId, all[|messages|..], input)
  {
    match input
    case Text(_) =>
    case Resume(decisions) =>
      var approvals := C.Approvals(decisions, nextId);
      var approved := messages + approvals;
      SomeEmptyIff(approved);
      assert forall i | |messages| <= i < |approved| :: approved[i].role.Approval?;
      assert forall i | 0 <= i < |messages| :: approved[i] == messages[i];
  }

  lemma {:induction false} SomeEmptyIff(messages: seq<C.Msg>)
    ensures C.FirstEmptyAssistant(messages).Some? <==>
              exists i :: 0 <= i < |messages| && messages[i].role.Assistant? && messages[i].content == ""
  {
    if messages == [] {
    } else {
      SomeEmptyIff(messages[1..]);
      if C.FirstEmptyAssistant(messages[1..]).Some? {
        var i :| 0 <= i < |messages[1..]| && messages[1..][i].role.Assistant? && messages[1..][i].content == "";
        assert messages[i + 1].role.Assistant?;
      }
      forall i | 0 < i < |messages| ensures messages[i] == messages[1..][i - 1] { }
    }
  }

  lemma ForgottenIsGood(u: C.Ui)
    requires Good(u)
    ensures Good(C.Show(u, []).(assistantId := None, assistantText := ""))
    ensures Good(u.(destroyed := true, armed := false))
    ensures u.loading ==> Good(u.(armed := true))
  {
  }

  // ------------------------------------------------------------- the same of every step of a run

  /** A send at its next await: it goes on without telling the consumer anything, or it fails. */
  ghost predicate SendMeans(s: C.Sys, a: C.Action, t: C.Sys)
    requires a.Ensured? || a.Attached? || a.Submitted?
  {
    a.task in s.sends ==>
      var pc := s.sends[a.task];
      var goesOn := match a
                    case Ensured(_, ok, _) => ok || (pc.Ensuring? && pc.known.Some?)
                    case Attached(_, ok) => ok
                    case Submitted(_, ok) => ok;
      match (a, pc)
      case (Ensured(task, _, id), Ensuring(known)) =>
        if goesOn
        then t.ui == s.ui && t.activeStream == Some(s.nextStream) && s.nextStream < t.nextStream
             && t.sends == s.sends[task := C.Attaching(s.nextStream)]
             && t.conversationId == if known.Some? then s.conversationId else id
        else SendFailureMeans(s.ui, t.ui) && t.sends == s.sends - {task}
      case (Attached(task, _), Attaching(stream)) =>
        if goesOn then t.ui == s.ui && t.sends == s.sends[task := C.Submitting(stream)]
        else SendFailureMeans(s.ui, t.ui) && t.sends == s.sends - {task}
      case (Submitted(task, _), Submitting(stream)) =>
        t.sends == s.sends - {task} &&
        if goesOn then t.ui == s.ui && t.consumers == s.consumers + {stream} else SendFailureMeans(s.ui, t.ui)
      case _ => t == s
  }

  /** A re-sync whose next read returned. */
  ghost predicate ResyncMeans(s: C.Sys, a: C.Action, t: C.Sys)
    requires a.HistoryRead? || a.InterruptsRead?
  {
    a.task in s.resyncs ==>
      match (a, s.resyncs[a.task])
      case (HistoryRead(task, ok, final, asks), ReadingHistory(turnAtStart)) =>
        && HistoryMeans(s.ui, t.ui, turnAtStart, ok, final)
        && t.resyncs == if ok && asks && !s.ui.destroyed then s.resyncs[task := C.ReadingInterrupts(turnAtStart)]
                        else s.resyncs - {task}
      case (InterruptsRead(task, ok, pending), ReadingInterrupts(turnAtStart)) =>
        InterruptsMean(s.ui, t.ui, turnAtStart, ok, pending) && t.resyncs == s.resyncs - {task}
      case _ => t == s
  }

  ghost predicate StepMeans(s: C.Sys, a: C.Action, t: C.Sys) {
    match a
    case Send(task, input) =>
      if s.ui.loading || task in s.sends then t == s
      else TurnBegan(s.ui, t.ui, input) && t.sends == s.sends[task := C.Ensuring(s.conversationId)]
    case Ensured(_, _, _) => SendMeans(s, a, t)
    case Attached(_, _) => SendMeans(s, a, t)
    case Submitted(_, _) => SendMeans(s, a, t)
    case ChunkArrives(stream, chunk) => if stream in s.consumers then ChunkMeans(s.ui, t.ui, chunk) else t == s
    case StreamEnds(stream, failed) =>
      if stream in s.consumers
      then ConsumerEndMeans(s.ui, t.ui, failed) && t.consumers == s.consumers - {stream} && t.activeStream != Some(stream)
      else t == s
    case Disconnected(client) => t == s.(ui := s.ui.(armed := s.ui.armed || (!client && s.ui.loading)))
    case Reconnected(task) =>
      t.ui == s.ui &&
      t.resyncs == if s.ui.destroyed || s.conversationId.None? || task in s.resyncs then s.resyncs
                   else s.resyncs[task := C.ReadingHistory(s.ui.assistantId)]
    case HistoryRead(_, _, _, _) => ResyncMeans(s, a, t)
    case InterruptsRead(_, _, _) => ResyncMeans(s, a, t)
    case TimerFires => if s.ui.armed then TimerMeans(s.ui, t.ui) else t == s
    case NewConversation =>
      && t.ui.messages == [] && t.ui.told.shown == [] && t.ui.assistantId.None? && t.ui.loading == s.ui.loading
      && TellsMore(s.ui.told, t.ui.told) && t.ui.told.errors == s.ui.told.errors
      && t.conversationId.None? && t.activeStream.None?
    case Destroy =>
      && t.ui == s.ui.(destroyed := true, armed := false)
      && t.activeStream.None? && t.sends == s.sends && t.resyncs == s.resyncs && t.consumers == s.consumers
  }

  lemma SendIsMeant(s: C.Sys, a: C.Action)
    requires Good(s.ui) && (a.Ensured? || a.Attached? || a.Submitted?)
    ensures SendMeans(s, a, C.Step(s, a))
  {
    hide C.SendFailed, SendFailureMeans, Good;
    SendFailureIsMeant(s.ui);
  }

  lemma ResyncIsMeant(s: C.Sys, a: C.Action)
    requires Good(s.ui) && (a.HistoryRead? || a.InterruptsRead?)
    ensures ResyncMeans(s, a, C.Step(s, a))
  {
    hide C.AdoptHistory, C.AdoptInterrupts, C.ResyncFailed, HistoryMeans, InterruptsMean, Good;
    if a.task in s.resyncs {
      var turnAtStart := s.resyncs[a.task].turnAtStart;
      if a.HistoryRead? { HistoryIsMeant(s.ui, turnAtStart, a.ok, a.final); }
      else { InterruptsAreMeant(s.ui, turnAtStart, a.ok, a.pending); }
    }
  }

  lemma StepIsMeant(s: C.Sys, a: C.Action)
    requires Good(s.ui)
    ensures StepMeans(s, a, C.Step(s, a))
  {
    hide C.StepSend, C.StepResync, C.HandleChunk, C.ConsumerEnds, C.FireTimer, C.BeginTurn;
    hide SendMeans, ResyncMeans, ChunkMeans, ConsumerEndMeans, TimerMeans, TurnBegan, Good;
    match a
    case Send(_, input) => if !s.ui.loading { TurnBegins(s.ui, input); } SendIsBegun(s, a);
    case Ensured(_, _, _) => SendIsMeant(s, a);
    case Attached(_, _) => SendIsMeant(s, a);
    case Submitted(_, _) => SendIsMeant(s, a);
    case ChunkArrives(_, chunk) => ChunkIsMeant(s.ui, chunk);
    case StreamEnds(_, failed) => ConsumerEndIsMeant(s.ui, failed);
    case HistoryRead(_, _, _, _) => ResyncIsMeant(s, a);
    case InterruptsRead(_, _, _) => ResyncIsMeant(s, a);
    case TimerFires => TimerStep(s);
    case _ =>
  }

  lemma SendIsBegun(s: C.Sys, a: C.Action)
    requires a.Send?
    ensures C.StepSend(s, a) ==
              if s.ui.loading || a.task in s.sends then s
              else s.(ui := C.BeginTurn(s.ui, a.input), sends := s.sends[a.task := C.Ensuring(s.conversationId)])
  {
    hide C.BeginTurn;
  }

  lemma TimerStep(s: C.Sys)
    requires Good(s.ui)
    ensures StepMeans(s, C.TimerFires, C.Step(s, C.TimerFires))
  {
    hide TimerMeans, Good;
    if s.ui.armed { TimerIsMeant(s.ui); }
  }

  /** In every reachable state every step means to the consumer what `StepMeans` says. */
  lemma WhatEachStepMeans(actions: seq<C.Action>, a: C.Action)
    ensures var s := C.Run(C.Init(), actions); StepMeans(s, a, C.Step(s, a))
  {
    C.RunFromInit(actions);
    hide C.Step, StepMeans, C.ToldOk, C.BubbleOk;
    StepIsMeant(C.Run(C.Init(), actions), a);
  }

  /** What the object and a state of the interleaving model have in common. */
  datatype Shared = Shared(ui: C.Ui, conversationId: Option<string>, activeStream: Option<C.Stream>)

  function Of(s: C.Sys): Shared {
    Shared(s.ui, s.conversationId, s.activeStream)
  }

  lemma SendStep(s: C.Sys, task: C.Tid, input: C.Input)
    requires task !in s.sends
    ensures Of(C.Step(s, C.Send(task, input)))
         == Of(s).(ui := if s.ui.loading then s.ui else C.BeginTurn(s.ui, input))
  {
    hide C.BeginTurn;
  }

  /** The step for a send of a new task leads from the one to the other. */
  ghost predicate SendFollows(before: Shared, input: C.Input, later: Shared) {
    forall s: C.Sys, task | Of(s) == before && task !in s.sends :: Of(C.Step(s, C.Send(task, input))) == later
  }

  lemma SendSteps(before: Shared, input: C.Input)
    ensures SendFollows(before, input,
                        before.(ui := if before.ui.loading then before.ui else C.BeginTurn(before.ui, input)))
  {
    hide C.Step, C.BeginTurn;
    forall s: C.Sys, task | Of(s) == before && task !in s.sends
      ensures Of(C.Step(s, C.Send(task, input)))
           == before.(ui := if before.ui.loading then before.ui else C.BeginTurn(before.ui, input))
    {
      SendStep(s, task, input);
    }
  }

  lemma EnsuredStep(s: C.Sys, task: C.Tid, ok: bool, id: Option<string>)
    requires task in s.sends && s.sends[task].Ensuring?
    ensures var known := s.sends[task].known;
            Of(C.Step(s, C.Ensured(task, ok, id))) ==
              if known.None? && !ok then Of(s).(ui := C.SendFailed(s.ui))
              else Shared(s.ui, if known.None? then id else s.conversationId, Some(s.nextStream))
  {
    hide C.SendFailed;
  }

  /** The send is at the await that the action answers, with a rejection. */
  predicate RejectsSend(s: C.Sys, a: C.Action) {
    || (a.Attached? && !a.ok && a.task in s.sends && s.sends[a.task].Attaching?)
    || (a.Submitted? && !a.ok && a.task in s.sends && s.sends[a.task].Submitting?)
  }

  lemma RejectStep(s: C.Sys, a: C.Action)
    requires RejectsSend(s, a)
    ensures Of(C.Step(s, a)) == Of(s).(ui := C.SendFailed(s.ui))
  {
    hide C.SendFailed;
  }

  lemma ChunkStep(s: C.Sys, stream: C.Stream, chunk: C.Chunk)
    requires stream in s.consumers
    ensures Of(C.Step(s, C.ChunkArrives(stream, chunk))) == Of(s).(ui := C.HandleChunk(s.ui, chunk))
  {
    hide C.HandleChunk;
  }

  /** The step for a chunk that reaches its consumer leads from the one to the other. */
  ghost predicate ChunkFollows(before: Shared, chunk: C.Chunk, later: Shared) {
    forall s: C.Sys, stream | Of(s) == before && stream in s.consumers ::
      Of(C.Step(s, C.ChunkArrives(stream, chunk))) == later
  }

  lemma ChunkSteps(before: Shared, chunk: C.Chunk)
    ensures ChunkFollows(before, chunk, before.(ui := C.HandleChunk(before.ui, chunk)))
  {
    hide C.Step, C.HandleChunk;
    forall s: C.Sys, stream | Of(s) == before && stream in s.consumers
      ensures Of(C.Step(s, C.ChunkArrives(stream, chunk))) == before.(ui := C.HandleChunk(before.ui, chunk))
    {
      ChunkStep(s, stream, chunk);
    }
  }

  lemma StreamEndsStep(s: C.Sys, stream: C.Stream, failed: bool)
    requires stream in s.consumers
    ensures Of(C.Step(s, C.StreamEnds(stream, failed))) ==
              Shared(C.ConsumerEnds(s.ui, failed), s.conversationId,
                     if s.activeStream == Some(stream) then None else s.activeStream)
  {
    hide C.ConsumerEnds;
  }

  lemma HistoryStep(s: C.Sys, task: C.Tid, ok: bool, final: Option<string>, asks: bool)
    requires task in s.resyncs && s.resyncs[task].ReadingHistory?
    ensures Of(C.Step(s, C.HistoryRead(task, ok, final, asks)))
         == Of(s).(ui := History(s.ui, s.resyncs[task].turnAtStart, ok, final))
  {
    hide C.AdoptHistory, C.ResyncFailed;
  }

  /** The step for a history read of a re-sync that captured `turnAtStart` leads from the one to the other. */
  ghost predicate HistoryFollows(before: Shared, turnAtStart: Option<C.Id>, ok: bool, final: Option<string>, later: Shared) {
    forall s: C.Sys, task, asks
      | Of(s) == before && task in s.resyncs && s.resyncs[task] == C.ReadingHistory(turnAtStart) ::
      Of(C.Step(s, C.HistoryRead(task, ok, final, asks))) == later
  }

  lemma HistorySteps(before: Shared, turnAtStart: Option<C.Id>, ok: bool, final: Option<string>)
    ensures HistoryFollows(before, turnAtStart, ok, final, before.(ui := History(before.ui, turnAtStart, ok, final)))
  {
    hide C.Step, History;
    forall s: C.Sys, task, asks
      | Of(s) == before && task in s.resyncs && s.resyncs[task] == C.ReadingHistory(turnAtStart)
      ensures Of(C.Step(s, C.HistoryRead(task, ok, final, asks))) == before.(ui := History(before.ui, turnAtStart, ok, final))
    {
      HistoryStep(s, task, ok, final, asks);
    }
  }

  lemma InterruptsStep(s: C.Sys, task: C.Tid, ok: bool, pending: bool)
    requires task in s.resyncs && s.resyncs[task].ReadingInterrupts?
    ensures Of(C.Step(s, C.InterruptsRead(task, ok, pending)))
         == Of(s).(ui := Interrupts(s.ui, s.resyncs[task].turnAtStart, ok, pending))
  {
    hide C.AdoptInterrupts, C.ResyncFailed;
  }

  /** `told` stands for the callbacks: what the consumer has been told so far. */
  class ChatController {
    var messages: seq<C.Msg>
    var loading: bool
    var conversationId: Option<string>
    var activeStream: Option<C.Stream>
    var assistantId: Option<C.Id>
    var assistantText: string
    var failsafeArmed: bool
    var destroyed: bool
    var errorReported: bool
    var nextId: C.Id
    var told: C.Told
    var turn: nat

    constructor ()
      ensures Valid() && View() == C.Init().ui && conversationId.None? && activeStream.None?
    {
      messages, loading, assistantId, assistantText := [], false, None, "";
      conversationId, activeStream := None, None;
      failsafeArmed, destroyed, errorReported, nextId := false, false, false, 0;
      told, turn := C.Told([], 0, [], [], 0), 0;
    }

    ghost function View(): C.Ui
      reads this
    {
      C.Ui(messages, loading, assistantId, assistantText, failsafeArmed, destroyed, errorReported, nextId,
           turn, told)
    }

    /** What every state of the interleaving model with the same chat and connection says. */
    ghost function Shares(): Shared
      reads this
    {
      Shared(View(), conversationId, activeStream)
    }

    /** The consumer was told consistently, and the bubble of an unresolved turn shows its text. */
    ghost predicate Valid()
      reads this
    {
      Good(View())
    }

    // The helpers, exact but not valid in between.

    method SetLoading(next: bool)
      modifies `loading, `told
      ensures View() == C.SetLoading(old(View()), next)
    {
      if loading == next { return; }
      loading := next;
      told := told.(loading := told.loading + [loading]);
    }

    method MessagesChanged()
      modifies `told
      ensures View() == C.Show(old(View()), messages)
    {
      told := told.(shown := messages, renders := told.renders + 1);
    }

    method ReportError()
      modifies `errorReported, `told
      ensures View() == C.ReportError(old(View()))
    {
      if errorReported { return; }
      errorReported := true;
      told := told.(errors := told.errors + [turn]);
    }

    method RaiseInterrupt()
      modifies `told
      ensures View() == C.RaiseInterrupt(old(View()))
    {
      told := told.(interrupts := told.interrupts + 1);
    }

    method RemoveEmptyAssistantPlaceholder()
      modifies `messages, `told, `assistantId
      ensures View() == C.DropBubble(old(View()))
    {
      if assistantId.None? { return; }
      if C.HasEmpty(messages, assistantId.value) {
        messages := C.Without(messages, assistantId.value);
        MessagesChanged();
      }
      assistantId := None;
    }

    /** Forget the bubble, disarm the failsafe, clear loading: the end shared by every way a turn ends. */
    method EndTurn()
      modifies `assistantId, `failsafeArmed, `loading, `told
      ensures View() == C.EndTurn(old(View()))
    {
      assistantId := None;
      failsafeArmed := false;
      SetLoading(false);
    }

    // The pieces of code that run between two awaits.

    method HandleSendFailure()
      requires Valid()
      modifies `messages, `told, `assistantId, `loading, `errorReported
      ensures Valid() && SendFailureMeans(old(View()), View())
      ensures View() == C.SendFailed(old(View()))
      ensures forall s: C.Sys, a | Of(s) == old(Shares()) && RejectsSend(s, a) :: Of(C.Step(s, a)) == Shares()
    {
      hide Good, SendFailureMeans, C.SetLoading, C.DropBubble, C.ReportError;
      SendFailureIsMeant(View());
      SetLoading(false);
      RemoveEmptyAssistantPlaceholder();
      ReportError();
      hide C.Step, C.SendFailed, RejectsSend;
      forall s: C.Sys, a | Of(s) == old(Shares()) && RejectsSend(s, a) ensures Of(C.Step(s, a)) == Shares() {
        RejectStep(s, a);
      }
    }

    /** The callback of the failsafe timer. */
    method FailsafeFires()
      requires Valid() && failsafeArmed
      modifies `failsafeArmed, `told, `loading, `errorReported
      ensures Valid() && TimerMeans(old(View()), View())
      ensures forall s: C.Sys | Of(s) == old(Shares()) :: Of(C.Step(s, C.TimerFires)) == Shares()
    {
      hide Good, TimerMeans;
      TimerIsMeant(View());
      failsafeArmed := false;
      if destroyed { return; }
      if loading {
        SetLoading(false);
        ReportError();
      }
    }

    method HandleChunk(chunk: C.Chunk)
      requires Valid()
      modifies `messages, `told, `assistantId, `assistantText, `failsafeArmed, `loading, `errorReported
      ensures Valid() && ChunkMeans(old(View()), View(), chunk)
      ensures View() == C.HandleChunk(old(View()), chunk)
      ensures ChunkFollows(old(Shares()), chunk, Shares())
    {
      ChunkSteps(Shares(), chunk);
      hide Good, ChunkMeans, ChunkFollows, C.SetContent, C.Without, C.HasEmpty;
      ChunkIsMeant(View(), chunk);
      if destroyed { return; }
      match chunk
      case TextDelta(text) =>
        if text != "" && assistantId.Some? {
          assistantText := assistantText + text;
          messages := C.SetContent(messages, assistantId.value, assistantText);
          MessagesChanged();
        }
      case Done(text) =>
        if text != "" && assistantId.Some? {
          messages := C.SetContent(messages, assistantId.value, text);
          MessagesChanged();
        }
        EndTurn();
      case Error =>
        RemoveEmptyAssistantPlaceholder();
        EndTurn();
        ReportError();
      case Interrupt(listed) =>
        if listed {
          RemoveEmptyAssistantPlaceholder();
          EndTurn();
          RaiseInterrupt();
        }
      case Other =>
    }

    /** Put the user's message and an empty bubble in the list. */
    method PrepareText(message: string)
      modifies `messages, `nextId, `assistantId
      ensures (messages, assistantId, nextId) == (C.Prepare(old(messages), old(nextId), C.Text(message)).0,
                                                  Some(C.Prepare(old(messages), old(nextId), C.Text(message)).1),
                                                  C.Prepare(old(messages), old(nextId), C.Text(message)).2)
    {
      assistantId := Some(nextId + 1);
      messages := messages + [C.Msg(nextId, C.Role.User, message), C.Msg(nextId + 1, C.Role.Assistant, "")];
      nextId := nextId + 2;
    }

    /** Put the decisions of a resumed turn in the list and find or add its bubble. */
    method PrepareResume(decisions: seq<string>)
      modifies `messages, `nextId, `assistantId
      ensures (messages, nextId) == (C.Prepare(old(messages), old(nextId), C.Resume(decisions)).0,
                                     C.Prepare(old(messages), old(nextId), C.Resume(decisions)).2)
      ensures assistantId == Some(C.Prepare(old(messages), old(nextId), C.Resume(decisions)).1)
    {
      var i := 0;
      while i < |decisions|
        invariant 0 <= i <= |decisions|
        invariant messages == old(messages) + C.Approvals(decisions[..i], old(nextId))
        invariant nextId == old(nextId) + i
      {
        messages, nextId := messages + [C.Msg(nextId, C.Role.Approval, decisions[i])], nextId + 1;
        i := i + 1;
      }
      assert decisions[..i] == decisions;
      var existingEmpty := C.FirstEmptyAssistant(messages);
      if existingEmpty.Some? {
        assistantId := existingEmpty;
      } else {
        assistantId := Some(nextId);
        messages, nextId := messages + [C.Msg(nextId, C.Role.Assistant, "")], nextId + 1;
      }
    }

    /** `sendMessage` up to its first await: refused while loading, otherwise the turn has begun. */
    method SendMessage(input: C.Input) returns (begun: bool)
      requires Valid()
      modifies `messages, `nextId, `told, `assistantId, `assistantText, `failsafeArmed, `loading,
               `errorReported, `turn
      ensures Valid() && begun == !old(loading) && (begun ==> TurnBegan(old(View()), View(), input))
      ensures SendFollows(old(Shares()), input, Shares())
    {
      SendSteps(Shares(), input);
      hide Good, SendFollows, TurnBegan, C.Prepare;
      if loading { return false; }
      TurnBegins(View(), input);
      match input {
        case Text(message) => PrepareText(message);
        case Resume(decisions) => PrepareResume(decisions);
      }
      MessagesChanged();
      StartLoading();
      return true;
    }

    /** The turn-start cleanup and notifications. */
    method StartLoading()
      modifies `told, `assistantText, `failsafeArmed, `loading, `errorReported, `turn
      ensures View() == C.SetLoading(old(View()).(assistantText := "", armed := false, errorReported := false,
                                                  turn := old(turn) + 1), true)
    {
      assistantText := "";
      failsafeArmed, errorReported, turn := false, false, turn + 1;
      SetLoading(true);
    }

    /** `startTurn` from its first await, which answered with `id` unless the conversation was `known`, to the next. */
    method ConversationEnsured(known: Option<string>, ok: bool, id: Option<string>, stream: C.Stream)
        returns (attaching: bool)
      requires Valid()
      modifies `messages, `told, `assistantId, `loading, `errorReported, `conversationId, `activeStream
      ensures Valid() && attaching == (known.Some? || ok)
      ensures attaching ==> View() == old(View()) && activeStream == Some(stream)
      ensures !attaching ==> SendFailureMeans(old(View()), View())
      ensures forall s: C.Sys, task
                | Of(s) == old(Shares()) && task in s.sends && s.sends[task] == C.Ensuring(known) && s.nextStream == stream ::
                Of(C.Step(s, C.Ensured(task, ok, id))) == Shares()
    {
      forall s: C.Sys, task | task in s.sends && s.sends[task] == C.Ensuring(known) && s.nextStream == stream
        ensures Of(C.Step(s, C.Ensured(task, ok, id))) ==
                  if known.None? && !ok then Of(s).(ui := C.SendFailed(s.ui))
                  else Shared(s.ui, if known.None? then id else s.conversationId, Some(stream))
      {
        EnsuredStep(s, task, ok, id);
      }
      hide C.Step, C.SendFailed, Good;
      if known.None? {
        if !ok {
          HandleSendFailure();
          return false;
        }
        conversationId := id;
      }
      activeStream := Some(stream);
      return true;
    }

    /** The `catch` and `finally` of the task that consumes a stream. */
    method ConsumerEnded(stream: C.Stream, failed: bool)
      requires Valid()
      modifies `told, `loading, `errorReported, `activeStream
      ensures Valid() && ConsumerEndMeans(old(View()), View(), failed)
      ensures forall s: C.Sys | Of(s) == old(Shares()) && stream in s.consumers ::
                Of(C.Step(s, C.StreamEnds(stream, failed))) == Shares()
    {
      forall s: C.Sys | stream in s.consumers
        ensures Of(C.Step(s, C.StreamEnds(stream, failed))) ==
                  Shared(C.ConsumerEnds(s.ui, failed), s.conversationId,
                         if s.activeStream == Some(stream) then None else s.activeStream)
      {
        StreamEndsStep(s, stream, failed);
      }
      hide C.Step;
      hide Good, ConsumerEndMeans;
      ConsumerEndIsMeant(View(), failed);
      if failed {
        SetLoading(false);
        ReportError();
      }
      if activeStream == Some(stream) { activeStream := None; }
      if !destroyed { SetLoading(false); }
    }

    method OnDisconnect(client: bool)
      requires Valid()
      modifies `failsafeArmed
      ensures Valid() && (!client && loading ==> failsafeArmed)
      ensures forall s: C.Sys | Of(s) == old(Shares()) :: Of(C.Step(s, C.Disconnected(client))) == Shares()
    {
      hide Good;
      ForgottenIsGood(View());
      if !client && loading { failsafeArmed := true; }
    }

    /** `handleReconnect` between its two awaits: `final` is the last persisted assistant text, if any. */
    method HistoryArrived(turnAtStart: Option<C.Id>, ok: bool, final: Option<string>) returns (goesOn: bool)
      requires Valid()
      modifies `messages, `told, `assistantId, `assistantText, `failsafeArmed, `loading, `errorReported
      ensures goesOn == (ok && !old(destroyed))
      ensures Valid() && HistoryMeans(old(View()), View(), turnAtStart, ok, final)
      ensures HistoryFollows(old(Shares()), turnAtStart, ok, final, Shares())
    {
      HistorySteps(Shares(), turnAtStart, ok, final);
      hide Good, HistoryFollows, HistoryMeans, C.SetContent;
      HistoryIsMeant(View(), turnAtStart, ok, final);
      if destroyed { return false; }
      if !ok {
        ReportError();
        failsafeArmed := true;
        return false;
      }
      var turnComplete := final.Some? && final.value != "";
      var stillSameInFlightTurn := assistantId.Some? && assistantId == turnAtStart && loading;
      if turnComplete && stillSameInFlightTurn {
        if C.Extends(final.value, assistantText) {
          assistantText := final.value;
          messages := C.SetContent(messages, assistantId.value, assistantText);
          MessagesChanged();
          EndTurn();
        } else {
          failsafeArmed := true;
        }
      } else if stillSameInFlightTurn {
        failsafeArmed := true;
      }
      return true;
    }

    /** `handleReconnect` after its second await. */
    method InterruptsArrived(turnAtStart: Option<C.Id>, ok: bool, pending: bool)
      requires Valid()
      modifies `told, `assistantId, `failsafeArmed, `loading, `errorReported
      ensures Valid() && InterruptsMean(old(View()), View(), turnAtStart, ok, pending)
      ensures forall s: C.Sys, task
                | Of(s) == old(Shares()) && task in s.resyncs && s.resyncs[task] == C.ReadingInterrupts(turnAtStart) ::
                Of(C.Step(s, C.InterruptsRead(task, ok, pending))) == Shares()
    {
      forall s: C.Sys, task | task in s.resyncs && s.resyncs[task] == C.ReadingInterrupts(turnAtStart)
        ensures Of(C.Step(s, C.InterruptsRead(task, ok, pending))) == Of(s).(ui := Interrupts(s.ui, turnAtStart, ok, pending))
      {
        InterruptsStep(s, task, ok, pending);
      }
      hide C.Step;
      hide Good, InterruptsMean;
      InterruptsAreMeant(View(), turnAtStart, ok, pending);
      if destroyed { return; }
      if !ok {
        ReportError();
        failsafeArmed := true;
        return;
      }
      var stillInFlight := assistantId.Some? && assistantId == turnAtStart && loading;
      if pending && stillInFlight {
        EndTurn();
        RaiseInterrupt();
      }
    }

    method NewConversation()
      requires Valid()
      modifies `messages, `told, `assistantId, `assistantText, `activeStream, `conversationId
      ensures Valid() && messages == [] && told.shown == []
      ensures activeStream.None? && conversationId.None?
      ensures forall s: C.Sys | Of(s) == old(Shares()) :: Of(C.Step(s, C.NewConversation)) == Shares()
    {
      hide Good;
      ForgottenIsGood(View());
      activeStream, conversationId := None, None;
      messages, assistantId, assistantText := [], None, "";
      MessagesChanged();
    }

    method Destroy()
      requires Valid()
      modifies `destroyed, `failsafeArmed, `activeStream
      ensures Valid() && destroyed && told == old(told)
      ensures forall s: C.Sys | Of(s) == old(Shares()) :: Of(C.Step(s, C.Destroy)) == Shares()
    {
      hide Good;
      ForgottenIsGood(View());
      destroyed, failsafeArmed, activeStream := true, false, None;
    }
  }
}
