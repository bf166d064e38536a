/**
 The single-consumer push queue behind a chat's chunk stream, and the subscription that feeds it.

 A channel callback pushes; one `for await` consumer pulls; `close` may come from a terminal chunk,
 from `unsubscribe`, or from a failed attach, all in any order.
*/
module ChunkStream {
  import opened Maybe
  import Runs

  datatype Kind = TextDelta | ToolCall | ToolResult | Done | Error | Interrupt

  datatype Chunk = Chunk(kind: Kind, body: string)

  predicate Terminal(c: Chunk) {
    c.kind.Done? || c.kind.Error? || c.kind.Interrupt?
  }

  /**
   The generator: between two pulls, parked on a promise, resumed with a chunk or with the end of the
   stream but not yet run, or returned.
  */
  datatype Consumer = Idle | Parked | Holding(chunk: Chunk) | Ending | Finished

  /** The queue with its one consumer; `delivered` is what the consumer was given. */
  datatype Queue = Queue(queue: seq<Chunk>, closed: bool, consumer: Consumer, delivered: seq<Chunk>)

  function Push(q: Queue, c: Chunk): Queue {
    if q.closed then q
    else if q.consumer.Parked? then q.(consumer := Holding(c))
    else q.(queue := q.queue + [c])
  }

  function Close(q: Queue): Queue {
    if q.closed then q else q.(closed := true, consumer := if q.consumer.Parked? then Ending else q.consumer)
  }

  /** The generator runs until it next yields, parks or returns. */
  function Advance(q: Queue): Queue {
    match q.consumer
    case Idle =>
      if |q.queue| > 0 then q.(queue := q.queue[1..], delivered := q.delivered + [q.queue[0]])
      else if q.closed then q.(consumer := Finished)
      else q.(consumer := Parked)
    case Holding(c) => q.(consumer := Idle, delivered := q.delivered + [c])
    case Ending => q.(consumer := Finished)
    case _ => q
  }

  /** `io.subscribe` under way; its handle awaiting confirmation; confirmed; dropped on arrival; failed. */
  datatype Attach = Connecting | Confirming | Confirmed | Dropped | Failed

  /** `open` says whether the remote subscription is attached. */
  datatype Sys = Sys(q: Queue, attach: Attach, unsubscribed: bool, open: bool)

  datatype Action =
    | Message(chunk: Chunk)
    | AttachResolves
    | AttachRejects
    | Established
    | Unsubscribe
    | ConsumerRuns

  function Init(): Sys {
    Sys(Queue([], false, Idle, []), Connecting, false, false)
  }

  predicate CanReject(attach: Attach) {
    attach.Connecting? || attach.Confirming?
  }

  function Step(s: Sys, a: Action): Sys {
    match a
    case Message(c) => s.(q := if Terminal(c) then Close(Push(s.q, c)) else Push(s.q, c))
    case AttachResolves =>
      if !s.attach.Connecting? then s
      else if s.unsubscribed then s.(attach := Dropped, open := false)
      else s.(attach := Confirming, open := true)
    case AttachRejects => if CanReject(s.attach) then s.(attach := Failed, q := Close(s.q)) else s
    case Established => if s.attach.Confirming? then s.(attach := Confirmed) else s
    case Unsubscribe => s.(unsubscribed := true, open := false, q := Close(s.q))
    case ConsumerRuns => s.(q := Advance(s.q))
  }

  function Run(s: Sys, actions: seq<Action>): Sys {
    Runs.Run(Step, s, actions)
  }

  /** Once the subscription is confirmed, a rejection that comes later does nothing, whatever happens between. */
  lemma ConfirmedForGood(s: Sys, actions: seq<Action>)
    requires s.attach.Confirming?
    ensures var t := Run(Step(s, Established), actions); t.attach.Confirmed? && Step(t, AttachRejects) == t
  {
    var inv := (t: Sys) => t.attach.Confirmed?;
    forall t, a | inv(t) ensures inv(Step(t, a)) { }
    Runs.Keeps(Step, inv, Step(s, Established), actions);
  }

  // ------------------------------------------------------- what the channel offered the consumer

  /** Some event of the run closed the stream. */
  ghost predicate Ended(actions: seq<Action>)
    decreases |actions|
  {
    if actions == [] then false
    else
      var front := actions[..|actions| - 1];
      Ended(front)
      || match actions[|actions| - 1]
         case Message(c) => c.kind in {Done, Error, Interrupt}
         case Unsubscribe => true
         case AttachRejects => Run(Init(), front).attach in {Connecting, Confirming}
         case _ => false
  }

  /** The messages that came before the stream was closed, in order. */
  ghost function Offered(actions: seq<Action>): seq<Chunk>
    decreases |actions|
  {
    if actions == [] then []
    else
      var front := actions[..|actions| - 1];
      match actions[|actions| - 1]
      case Message(c) => if Ended(front) then Offered(front) else Offered(front) + [c]
      case _ => Offered(front)
  }

  function InHand(c: Consumer): seq<Chunk> {
    if c.Holding? then [c.chunk] else []
  }

  /** Everything accepted so far, wherever it is. */
  function Contents(q: Queue): seq<Chunk> {
    q.delivered + InHand(q.consumer) + q.queue
  }

  ghost predicate QueueOk(q: Queue) {
    && (q.consumer.Parked? ==> q.queue == [] && !q.closed)
    && (q.consumer.Ending? || q.consumer.Finished? ==> q.queue == [] && q.closed)
  }

  lemma PushAppends(q: Queue, c: Chunk)
    requires QueueOk(q)
    ensures QueueOk(Push(q, c)) && Push(q, c).closed == q.closed
    ensures Contents(Push(q, c)) == if q.closed then Contents(q) else Contents(q) + [c]
  {
  }

  lemma CloseKeeps(q: Queue)
    requires QueueOk(q)
    ensures QueueOk(Close(q)) && Close(q).closed && Contents(Close(q)) == Contents(q)
  {
  }

  lemma AdvanceKeeps(q: Queue)
    requires QueueOk(q)
    ensures QueueOk(Advance(q)) && Advance(q).closed == q.closed && Contents(Advance(q)) == Contents(q)
    ensures q.delivered <= Advance(q).delivered
  {
    if q.consumer.Idle? && |q.queue| > 0 {
      assert q.queue == [q.queue[0]] + q.queue[1..];
    }
  }

  ghost predicate Inv(s: Sys) {
    QueueOk(s.q) && (s.unsubscribed ==> !s.open) && (s.attach.Connecting? || s.attach.Dropped? ==> !s.open)
  }

  lemma StepKeeps(s: Sys, a: Action)
    requires Inv(s)
    ensures Inv(Step(s, a))
  {
    hide Push, Close, Advance, QueueOk;
    match a
    case Message(c) => PushAppends(s.q, c); CloseKeeps(Push(s.q, c));
    case ConsumerRuns => AdvanceKeeps(s.q);
    case _ => CloseKeeps(s.q);
  }

  lemma {:induction false} Conserved(actions: seq<Action>)
    ensures var s := Run(Init(), actions);
            Inv(s) && s.q.closed == Ended(actions) && Contents(s.q) == Offered(actions)
    decreases |actions|
  {
    if actions == [] {
    } else {
      var front, a := actions[..|actions| - 1], actions[|actions| - 1];
      Conserved(front);
      var t := Run(Init(), front);
      StepKeeps(t, a);
      hide Push, Close, Advance, QueueOk;
      match a
      case Message(c) => PushAppends(t.q, c); CloseKeeps(Push(t.q, c));
      case ConsumerRuns => AdvanceKeeps(t.q);
      case _ => CloseKeeps(t.q);
    }
  }

  // ------------------------------------------------------------------------- theorems

  /**
   In every interleaving the delivered chunks, the one in hand and the buffer make up exactly the
   messages that came before the stream was closed; a parked consumer has nothing buffered and no
   close to miss; and a returned consumer was given everything.
  */
  lemma NothingIsLostOrReordered(actions: seq<Action>)
    ensures var q := Run(Init(), actions).q;
            && q.delivered + InHand(q.consumer) + q.queue == Offered(actions)
            && (q.consumer.Parked? ==> q.delivered == Offered(actions) && !Ended(actions))
            && (q.consumer.Finished? ==> q.delivered == Offered(actions) && Ended(actions))
  {
    Conserved(actions);
  }

  ghost predicate CutShort(actions: seq<Action>)
    decreases |actions|
  {
    if actions == [] then false
    else
      var front := actions[..|actions| - 1];
      CutShort(front)
      || match actions[|actions| - 1]
         case Unsubscribe => true
         case AttachRejects => Run(Init(), front).attach in {Connecting, Confirming}
         case _ => false
  }

  lemma {:induction false} OfferedEndsAtTerminal(actions: seq<Action>)
    ensures var m := Offered(actions);
            && (forall i | 0 <= i < |m| - 1 :: m[i].kind !in {Done, Error, Interrupt})
            && (!Ended(actions) ==> forall c <- m :: c.kind !in {Done, Error, Interrupt})
            && (Ended(actions) && !CutShort(actions) ==> m != [] && m[|m| - 1].kind in {Done, Error, Interrupt})
    decreases |actions|
  {
    hide Step, Init;
    if actions == [] {
    } else {
      var m := Offered(actions[..|actions| - 1]);
      OfferedEndsAtTerminal(actions[..|actions| - 1]);
      assert forall i | 0 <= i < |m| :: m[i] in m;
    }
  }

  /**
   A drained stream that neither `unsubscribe` nor a failed attach cut short ends at a terminal chunk,
   and no earlier chunk is terminal.
  */
  lemma DrainedStreamEndsAtTheFirstTerminalChunk(actions: seq<Action>)
    requires Run(Init(), actions).q.consumer.Finished? && !CutShort(actions)
    ensures var got := Run(Init(), actions).q.delivered;
            && got != [] && got[|got| - 1].kind in {Done, Error, Interrupt}
            && forall i | 0 <= i < |got| - 1 :: got[i].kind !in {Done, Error, Interrupt}
  {
    hide Step, Init;
    NothingIsLostOrReordered(actions);
    OfferedEndsAtTerminal(actions);
  }

  function Pulls(n: nat): seq<Action> {
    seq(n, _ => ConsumerRuns)
  }

  /** Steps the consumer needs to finish once the stream is closed. */
  function ToGo(q: Queue): nat {
    |q.queue| + match q.consumer case Finished => 0 case Holding(_) => 2 case _ => 1
  }

  lemma {:induction false} PullsDrain(s: Sys, n: nat)
    requires Inv(s) && s.q.closed
    ensures var t := Run(s, Pulls(n)); Inv(t) && t.q.closed && ToGo(t.q) <= if ToGo(s.q) <= n then 0 else ToGo(s.q) - n
  {
    if n == 0 {
    } else {
      PullsDrain(s, n - 1);
      assert Pulls(n)[..n - 1] == Pulls(n - 1);
      StepKeeps(Run(s, Pulls(n - 1)), ConsumerRuns);
    }
  }

  /** Once closed, the consumer returns after finitely many steps of its own, having seen everything. */
  lemma ClosedStreamDrains(actions: seq<Action>)
    requires Ended(actions)
    ensures var s := Run(Init(), actions);
            Run(Init(), actions + Pulls(ToGo(s.q))).q.consumer.Finished?
  {
    hide Step, Init, Ended;
    Conserved(actions);
    var s := Run(Init(), actions);
    PullsDrain(s, ToGo(s.q));
    Runs.Concat(Step, Init(), actions, Pulls(ToGo(s.q)));
  }

  /**
   After `unsubscribe` the remote subscription is not left attached, whether the attach had resolved
   before it or resolves later.
  */
  lemma UnsubscribeAlwaysDetaches(actions: seq<Action>)
    requires Unsubscribe in actions
    ensures !Run(Init(), actions).open
  {
    hide Step, Init;
    Conserved(actions);
    StaysUnsubscribed(actions);
  }

  lemma {:induction false} StaysUnsubscribed(actions: seq<Action>)
    requires Unsubscribe in actions
    ensures Run(Init(), actions).unsubscribed
    decreases |actions|
  {
    var n := |actions| - 1;
    if actions[n] != Unsubscribe {
      assert Unsubscribe in actions[..n];
      StaysUnsubscribed(actions[..n]);
    }
  }

  // ------------------------------------------------------------ the queue as an object

  /** A promise for the consumer's next item; `None` inside is the end of the stream. */
  class Promise {
    var result: Option<Option<Chunk>>

    constructor ()
      ensures result == None
    {
      result := None;
    }
  }

  /** The queue and the one generator over it; `awaited` is the promise the generator is parked on. */
  class ChunkQueue {
    var queue: seq<Chunk>
    var pending: seq<Promise>
    var closed: bool
    var awaited: Promise?
    var finished: bool
    var delivered: seq<Chunk>

    constructor ()
      ensures Valid() && View() == Init().q
    {
      queue, pending, closed, awaited, finished, delivered := [], [], false, null, false, [];
    }

    ghost predicate Valid()
      reads this, awaited
    {
      && (awaited != null && awaited.result.None? ==> pending == [awaited])
      && (awaited == null || awaited.result.Some? ==> pending == [])
      && (finished ==> awaited == null)
      && QueueOk(View())
    }

    ghost function View(): Queue
      reads this, awaited
    {
      Queue(queue, closed,
            if finished then Finished
            else if awaited == null then Idle
            else match awaited.result
                 case None => Parked
                 case Some(Some(c)) => Holding(c)
                 case Some(None) => Ending,
            delivered)
    }

    method PushChunk(chunk: Chunk)
      requires Valid()
      modifies `queue, `pending, pending
      ensures Valid() && View() == Push(old(View()), chunk)
    {
      if closed { return; }
      if |pending| > 0 {
        var waiter := pending[0];
        pending := pending[1..];
        waiter.result := Some(Some(chunk));
      } else {
        queue := queue + [chunk];
      }
    }

    method CloseQueue()
      requires Valid()
      modifies `closed, `pending, pending
      ensures Valid() && View() == Close(old(View()))
    {
      if closed { return; }
      closed := true;
      var waiters := pending;
      pending := [];
      var i := 0;
      while i < |waiters|
        modifies waiters
        invariant 0 <= i <= |waiters| <= 1
        invariant awaited != null ==> awaited.result == if i == 1 then Some(None) else old(awaited.result)
      {
        waiters[i].result := Some(None);
        i := i + 1;
      }
    }

    /** The generator, run from where it stands to its next yield, park or return. */
    method RunConsumer()
      requires Valid()
      modifies `queue, `pending, `awaited, `finished, `delivered
      ensures Valid() && View() == Advance(old(View()))
      ensures awaited == old(awaited) || awaited == null || fresh(awaited)
    {
      if finished { return; }
      if awaited == null {
        if |queue| > 0 {
          delivered, queue := delivered + [queue[0]], queue[1..];
        } else if closed {
          finished := true;
        } else {
          awaited := new Promise();
          pending := pending + [awaited];
        }
      } else if awaited.result.Some? {
        match awaited.result.value
        case Some(chunk) => delivered, awaited := delivered + [chunk], null;
        case None => finished, awaited := true, null;
      }
    }
  }

  /** What `realtimeTransport.subscribe` returns: the queue, and the two latches of the attach window. */
  class Subscription {
    const q: ChunkQueue
    var attach: Attach
    var unsubscribed: bool
    var hasHandle: bool
    var open: bool

    constructor ()
      ensures Valid() && View() == Init() && fresh(q)
    {
      q := new ChunkQueue();
      attach, unsubscribed, hasHandle, open := Connecting, false, false, false;
    }

    ghost predicate Valid()
      reads this, q, q.awaited
    {
      q.Valid() && (open ==> hasHandle) && (attach.Connecting? ==> !hasHandle)
    }

    ghost function View(): Sys
      reads this, q, q.awaited
    {
      Sys(q.View(), attach, unsubscribed, open)
    }

    method OnMessage(chunk: Chunk)
      requires Valid()
      modifies q`queue, q`pending, q`closed, q.pending
      ensures Valid() && View() == Step(old(View()), Message(chunk))
    {
      q.PushChunk(chunk);
      if Terminal(chunk) { q.CloseQueue(); }
    }

    method OnAttached()
      requires Valid() && attach.Connecting?
      modifies `attach, `hasHandle, `open
      ensures Valid() && View() == Step(old(View()), AttachResolves)
    {
      open := true;
      if unsubscribed {
        attach, open := Dropped, false;
        return;
      }
      attach, hasHandle := Confirming, true;
    }

    method OnAttachFailed()
      requires Valid() && CanReject(attach)
      modifies `attach, q`closed, q`pending, q.pending
      ensures Valid() && View() == Step(old(View()), AttachRejects)
    {
      attach := Failed;
      q.CloseQueue();
    }

    method StopListening()
      requires Valid()
      modifies `unsubscribed, `open, q`closed, q`pending, q.pending
      ensures Valid() && View() == Step(old(View()), Unsubscribe)
    {
      unsubscribed := true;
      if hasHandle { open := false; }
      q.CloseQueue();
    }
  }
}
