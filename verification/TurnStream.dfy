/**
 What one agent turn publishes: `runAgent` turns the model's event stream into chunks, either delta by
 delta or block by block, and `invokeTurn` turns a failure into an error chunk.
*/
module TurnStream {
  import opened Maybe

  datatype Event =
    | TextDelta(text: string)
    | BlockStop
    | BeforeTool(name: string)
    | AfterTool(name: string)
    | Result(interrupts: nat)
    | OtherEvent

  datatype Chunk =
    | Text(text: string)
    | ToolCall(name: string)
    | ToolResult(name: string)
    | Interrupt(count: nat)
    | Error(reason: string)
    | Done(text: string)

  /** The stream ended, or it (or a write made for one of its events) threw. */
  datatype Ending = Completed | Threw(reason: string)

  predicate Terminal(c: Chunk) {
    c.Interrupt? || c.Error? || c.Done?
  }

  /** The loop's variables: the chunks published, `fullText`, `blockBuffer` and `interrupted`. */
  datatype Out = Out(chunks: seq<Chunk>, full: string, buffer: string, interrupted: bool)

  function Flush(o: Out): Out {
    if o.buffer == "" then o else o.(chunks := o.chunks + [Text(o.buffer)], buffer := "")
  }

  function OnEvent(o: Out, e: Event, block: bool): Out {
    match e
    case TextDelta(text) =>
      if block then o.(full := o.full + text, buffer := o.buffer + text)
      else o.(full := o.full + text, chunks := o.chunks + [Text(text)])
    case BlockStop => if block then Flush(o) else o
    case BeforeTool(name) => o.(chunks := o.chunks + [ToolCall(name)])
    case AfterTool(name) => o.(chunks := o.chunks + [ToolResult(name)])
    case Result(n) =>
      if n == 0 then o else var f := Flush(o); f.(chunks := f.chunks + [Interrupt(n)], interrupted := true)
    case OtherEvent => o
  }

  function Played(events: seq<Event>, block: bool): Out {
    if events == [] then Out([], "", "", false)
    else OnEvent(Played(events[..|events| - 1], block), events[|events| - 1], block)
  }

  /** The chunk, if any, that follows the flushed text. */
  function Closing(o: Out, ending: Ending, capExceeded: Option<string>): seq<Chunk> {
    if ending.Threw? then [Error(ending.reason)]
    else if capExceeded.Some? then [Error(capExceeded.value)]
    else if o.interrupted then []
    else [Done(o.full)]
  }

  function Published(events: seq<Event>, block: bool, ending: Ending, capExceeded: Option<string>): seq<Chunk> {
    var o := Flush(Played(events, block));
    o.chunks + Closing(o, ending, capExceeded)
  }

  // ------------------------------------------------------- what the chunks say

  /** The model's text. */
  function Generated(events: seq<Event>): string {
    if events == [] then ""
    else Generated(events[..|events| - 1])
         + if events[|events| - 1].TextDelta? then events[|events| - 1].text else ""
  }

  /** The text a client has collected. */
  function Collected(chunks: seq<Chunk>): string {
    if chunks == [] then ""
    else Collected(chunks[..|chunks| - 1])
         + if chunks[|chunks| - 1].Text? then chunks[|chunks| - 1].text else ""
  }

  /** The chunks that are not text. */
  function Marks(chunks: seq<Chunk>): seq<Chunk> {
    if chunks == [] then []
    else Marks(chunks[..|chunks| - 1])
         + if chunks[|chunks| - 1].Text? then [] else [chunks[|chunks| - 1]]
  }

  function Terminals(chunks: seq<Chunk>): nat {
    if chunks == [] then 0
    else Terminals(chunks[..|chunks| - 1]) + if Terminal(chunks[|chunks| - 1]) then 1 else 0
  }

  lemma Append(chunks: seq<Chunk>, c: Chunk)
    ensures Collected(chunks + [c]) == Collected(chunks) + if c.Text? then c.text else ""
    ensures Marks(chunks + [c]) == Marks(chunks) + if c.Text? then [] else [c]
    ensures Terminals(chunks + [c]) == Terminals(chunks) + if Terminal(c) then 1 else 0
  {
    assert (chunks + [c])[..|chunks|] == chunks;
  }

  predicate Interrupted(events: seq<Event>) {
    exists i :: 0 <= i < |events| && events[i].Result? && events[i].interrupts > 0
  }

  /** A result event ends its stream. */
  ghost predicate ResultIsLast(events: seq<Event>) {
    forall i | 0 <= i < |events| - 1 :: !events[i].Result?
  }

  lemma FlushSays(o: Out)
    ensures var f := Flush(o);
            && Collected(f.chunks) == Collected(o.chunks) + o.buffer && f.buffer == ""
            && Marks(f.chunks) == Marks(o.chunks) && Terminals(f.chunks) == Terminals(o.chunks)
            && f.full == o.full && f.interrupted == o.interrupted
  {
    Append(o.chunks, Text(o.buffer));
  }

  lemma OnEventSays(o: Out, e: Event, block: bool)
    requires Collected(o.chunks) + o.buffer == o.full && (block || o.buffer == "")
    ensures var p := OnEvent(o, e, block);
            && Collected(p.chunks) + p.buffer == p.full && (block || p.buffer == "")
            && p.full == o.full + (if e.TextDelta? then e.text else "")
            && p.interrupted == (o.interrupted || (e.Result? && e.interrupts > 0))
            && Marks(p.chunks) == Marks(o.chunks) + MarkOf(e)
            && Terminals(p.chunks) == Terminals(o.chunks) + if e.Result? && e.interrupts > 0 then 1 else 0
  {
    hide Collected, Marks, Terminals;
    FlushSays(o);
    match e
    case TextDelta(text) => Append(o.chunks, Text(text));
    case BeforeTool(name) => Append(o.chunks, ToolCall(name));
    case AfterTool(name) => Append(o.chunks, ToolResult(name));
    case Result(n) => Append(Flush(o).chunks, Interrupt(n));
    case _ =>
  }

  function MarkOf(e: Event): seq<Chunk> {
    match e
    case BeforeTool(name) => [ToolCall(name)]
    case AfterTool(name) => [ToolResult(name)]
    case Result(n) => if n == 0 then [] else [Interrupt(n)]
    case _ => []
  }

  function MarksOf(events: seq<Event>): seq<Chunk> {
    if events == [] then [] else MarksOf(events[..|events| - 1]) + MarkOf(events[|events| - 1])
  }

  lemma {:induction false} PlayedSays(events: seq<Event>, block: bool)
    ensures var o := Played(events, block);
            && Collected(o.chunks) + o.buffer == o.full == Generated(events) && (block || o.buffer == "")
            && o.interrupted == Interrupted(events)
            && Marks(o.chunks) == MarksOf(events)
  {
    if events == [] {
    } else {
      var front, e := events[..|events| - 1], events[|events| - 1];
      PlayedSays(front, block);
      OnEventSays(Played(front, block), e, block);
      assert forall i | 0 <= i < |front| :: front[i] == events[i];
      hide OnEvent;
    }
  }

  // ------------------------------------------------------------------------- theorems

  /**
   However a turn ends, in either streaming mode, the text chunks put together are the model's text,
   with nothing lost in the block buffer.
  */
  lemma BothModesStreamTheWholeText(events: seq<Event>, block: bool, ending: Ending, capExceeded: Option<string>)
    ensures Collected(Published(events, block, ending, capExceeded)) == Generated(events)
  {
    PlayedSays(events, block);
    var o := Played(events, block);
    FlushSays(o);
    var f := Flush(o);
    if Closing(f, ending, capExceeded) == [] {
      assert f.chunks + [] == f.chunks;
    } else {
      Append(f.chunks, Closing(f, ending, capExceeded)[0]);
    }
  }

  /**
   Apart from how the text is cut the two modes publish the same chunks in the same order: one for every
   tool event and interrupt, then the closing one.
  */
  lemma ModesDifferOnlyInCutting(events: seq<Event>, block: bool, ending: Ending, capExceeded: Option<string>)
    ensures Marks(Published(events, block, ending, capExceeded))
         == MarksOf(events) + if ending.Threw? then [Error(ending.reason)]
                              else if capExceeded.Some? then [Error(capExceeded.value)]
                              else if Interrupted(events) then [] else [Done(Generated(events))]
  {
    PlayedSays(events, block);
    var o := Played(events, block);
    FlushSays(o);
    var f := Flush(o);
    if Closing(f, ending, capExceeded) == [] {
      assert f.chunks + [] == f.chunks;
    } else {
      Append(f.chunks, Closing(f, ending, capExceeded)[0]);
    }
  }

  /** The event ends a block of text: the model closed it, or the turn is interrupted. */
  predicate EndsBlock(e: Event) {
    match e
    case BlockStop => true
    case Result(n) => n > 0
    case _ => false
  }

  /** How many events there are up to and with the last that ends a block. */
  function LastBoundary(events: seq<Event>): (n: nat)
    ensures n <= |events|
  {
    if events == [] then 0
    else if EndsBlock(events[|events| - 1]) then |events| else LastBoundary(events[..|events| - 1])
  }

  function Boundaries(events: seq<Event>): nat {
    if events == [] then 0
    else Boundaries(events[..|events| - 1]) + if EndsBlock(events[|events| - 1]) then 1 else 0
  }

  lemma BlockStep(o: Out, e: Event)
    requires Collected(o.chunks) + o.buffer == o.full
    ensures var p := OnEvent(o, e, true);
            && o.chunks <= p.chunks
            && Collected(p.chunks) == (if EndsBlock(e) then p.full else Collected(o.chunks))
            && |p.chunks| <= |o.chunks| + |MarkOf(e)| + if EndsBlock(e) then 1 else 0
  {
    hide Collected, Marks, Terminals;
    FlushSays(o);
    match e
    case BeforeTool(name) => Append(o.chunks, ToolCall(name));
    case AfterTool(name) => Append(o.chunks, ToolResult(name));
    case Result(n) => Append(Flush(o).chunks, Interrupt(n));
    case _ =>
  }

  lemma PlayedStep(events: seq<Event>, block: bool)
    requires events != []
    ensures Played(events, block) == OnEvent(Played(events[..|events| - 1], block), events[|events| - 1], block)
  {
  }

  /**
   Block by block, at every moment of the turn: exactly the text up to the last block boundary has been
   published, nothing of the block under way, and each boundary adds at most one text chunk.
  */
  lemma {:induction false} TextAppearsAtItsBoundary(events: seq<Event>)
    ensures var chunks := Played(events, true).chunks;
            && Collected(chunks) == Generated(events[..LastBoundary(events)])
            && |chunks| <= |MarksOf(events)| + Boundaries(events)
  {
    if events == [] {
    } else {
      var n := |events| - 1;
      var front := events[..n];
      TextAppearsAtItsBoundary(front);
      PlayedSays(front, true);
      PlayedSays(events, true);
      PlayedStep(events, true);
      BlockStep(Played(front, true), events[n]);
      assert front[..LastBoundary(front)] == events[..LastBoundary(front)];
      assert events[..|events|] == events;
      hide Played, OnEvent, Collected, MarkOf, Generated, EndsBlock, Marks, Interrupted;
    }
  }

  /** What was published stays, so the text of a block stands before whatever comes after its boundary. */
  lemma {:induction false} PublishedStays(events: seq<Event>, k: nat)
    requires k <= |events|
    ensures Played(events[..k], true).chunks <= Played(events, true).chunks
    decreases |events|
  {
    if k == |events| {
      assert events[..k] == events;
    } else {
      var front := events[..|events| - 1];
      PublishedStays(front, k);
      PlayedSays(front, true);
      PlayedStep(events, true);
      BlockStep(Played(front, true), events[|events| - 1]);
      assert front[..k] == events[..k];
      hide Played, OnEvent, Collected, MarkOf, Generated, EndsBlock, Marks, Interrupted;
    }
  }

  /** Delta by delta, every event publishes its own chunk at once. */
  function Direct(events: seq<Event>): seq<Chunk> {
    if events == [] then [] else Direct(events[..|events| - 1]) + DirectOf(events[|events| - 1])
  }

  function DirectOf(e: Event): seq<Chunk> {
    if e.TextDelta? then [Text(e.text)] else MarkOf(e)
  }

  lemma {:induction false} TokensAreNotHeldBack(events: seq<Event>)
    ensures Played(events, false).chunks == Direct(events)
  {
    if events == [] {
    } else {
      var front := events[..|events| - 1];
      TokensAreNotHeldBack(front);
      PlayedSays(front, false);
      PlayedStep(events, false);
      TokenStep(Played(front, false), events[|events| - 1]);
      hide Played, OnEvent, Collected, DirectOf, Generated, Marks, Interrupted;
    }
  }

  lemma TokenStep(o: Out, e: Event)
    requires o.buffer == ""
    ensures OnEvent(o, e, false).chunks == o.chunks + DirectOf(e)
  {
  }

  lemma {:induction false} NoResultNoTerminal(events: seq<Event>, block: bool)
    requires forall i | 0 <= i < |events| :: !events[i].Result?
    ensures Terminals(Played(events, block).chunks) == 0
  {
    if events == [] {
    } else {
      var front := events[..|events| - 1];
      NoResultNoTerminal(front, block);
      PlayedSays(front, block);
      OnEventSays(Played(front, block), events[|events| - 1], block);
    }
  }

  lemma TerminalsOfPlay(events: seq<Event>, block: bool)
    requires ResultIsLast(events)
    ensures var o := Flush(Played(events, block));
            && Terminals(o.chunks) == (if Interrupted(events) then 1 else 0)
            && (Interrupted(events) ==> o.chunks != [] && Terminal(o.chunks[|o.chunks| - 1]))
  {
    FlushSays(Played(events, block));
    if events == [] {
    } else {
      var front, e := events[..|events| - 1], events[|events| - 1];
      NoResultNoTerminal(front, block);
      PlayedSays(front, block);
      OnEventSays(Played(front, block), e, block);
      assert forall i | 0 <= i < |front| :: !events[i].Result?;
      assert Interrupted(events) == (e.Result? && e.interrupts > 0);
    }
  }

  /**
   Every turn ends with a terminal chunk, and it is the only one, unless the turn both raised an
   interrupt and then failed or ran into a cap: then an error follows the interrupt.
  */
  lemma EveryTurnEndsWithATerminalChunk(events: seq<Event>, block: bool, ending: Ending, capExceeded: Option<string>)
    requires ResultIsLast(events)
    ensures var chunks := Published(events, block, ending, capExceeded);
            && chunks != [] && Terminal(chunks[|chunks| - 1])
            && (Terminals(chunks) == 1 <==> !(Interrupted(events) && (ending.Threw? || capExceeded.Some?)))
  {
    hide Collected, Marks, Terminals, Played, Interrupted, ResultIsLast;
    TerminalsOfPlay(events, block);
    PlayedSays(events, block);
    FlushSays(Played(events, block));
    var f := Flush(Played(events, block));
    if Closing(f, ending, capExceeded) == [] {
      assert f.chunks + [] == f.chunks;
    } else {
      Append(f.chunks, Closing(f, ending, capExceeded)[0]);
    }
  }

  // ------------------------------------------------------------------ the loop itself

  /** `runAgent`'s event loop and closing chunk, with `invokeTurn`'s error chunk. */
  method RunAgent(events: seq<Event>, block: bool, ending: Ending, capExceeded: Option<string>)
    returns (chunks: seq<Chunk>)
    ensures chunks == Published(events, block, ending, capExceeded)
  {
    var fullText, blockBuffer, interrupted := "", "", false;
    chunks := [];
    var i := 0;
    while i < |events|
      invariant 0 <= i <= |events|
      invariant Out(chunks, fullText, blockBuffer, interrupted) == Played(events[..i], block)
    {
      assert events[..i + 1][..i] == events[..i];
      match events[i] {
        case TextDelta(text) =>
          fullText := fullText + text;
          if block { blockBuffer := blockBuffer + text; } else { chunks := chunks + [Text(text)]; }
        case BlockStop =>
          if block && blockBuffer != "" { chunks, blockBuffer := chunks + [Text(blockBuffer)], ""; }
        case BeforeTool(name) => chunks := chunks + [ToolCall(name)];
        case AfterTool(name) => chunks := chunks + [ToolResult(name)];
        case Result(n) =>
          if n > 0 {
            interrupted := true;
            if blockBuffer != "" { chunks, blockBuffer := chunks + [Text(blockBuffer)], ""; }
            chunks := chunks + [Interrupt(n)];
          }
        case OtherEvent =>
      }
      i := i + 1;
    }
    assert events[..i] == events;
    if blockBuffer != "" { chunks := chunks + [Text(blockBuffer)]; }
    if ending.Threw? { return chunks + [Error(ending.reason)]; }
    if capExceeded.Some? { return chunks + [Error(capExceeded.value)]; }
    if interrupted { return chunks; }
    return chunks + [Done(fullText)];
  }
}
