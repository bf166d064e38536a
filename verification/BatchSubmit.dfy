/**
 `sendChunksBounded` and `submitBatch`: a pool of at most five workers claims chunks from a shared
 counter, stops sending after a transport failure, and accounts for every payload.

 Workers are cooperative tasks; a run is any interleaving of the segments between their awaits.
 SQS is assumed to answer a request only for entries it was sent, each at most once; it may
 leave entries out.
*/
module BatchSubmit {
  import opened Maybe
  import opened BatchChunks
  import Collections
  import Runs

  const MAX_BATCH_CONCURRENCY: nat := 5
  const MAX_BATCH_PAYLOADS: nat := 10_000

  type Id = string

  datatype Code = BatchSubmitAborted | Transport(name: string) | Rejected(code: string) | MissingResult

  datatype Failure = Failure(index: nat, code: Code)

  datatype Worker = Idle | Sending(chunk: nat) | Finished

  datatype Accept = Accept(index: nat, id: Id)

  datatype Sys = Sys(
    chunks: seq<seq<nat>>,
    next: nat,
    aborted: bool,
    jobIds: seq<Option<Id>>,
    failed: seq<Failure>,
    workers: seq<Worker>)

  datatype Action =
    | Claim(w: nat)
    | Reply(w: nat, successful: seq<Accept>, refused: seq<Failure>)
    | Reject(w: nat, name: string)

  function PoolSize(chunks: seq<seq<nat>>): nat {
    if |chunks| < MAX_BATCH_CONCURRENCY then |chunks| else MAX_BATCH_CONCURRENCY
  }

  function Pool(chunks: seq<seq<nat>>, n: nat): Sys {
    Sys(chunks, 0, false, seq(n, _ => None), [], seq(PoolSize(chunks), _ => Idle))
  }

  function FailAll(indices: seq<nat>, code: Code): seq<Failure> {
    seq(|indices|, i requires 0 <= i < |indices| => Failure(indices[i], code))
  }

  function SetIds(jobIds: seq<Option<Id>>, successful: seq<Accept>): (r: seq<Option<Id>>)
    requires forall a <- successful :: a.index < |jobIds|
    ensures |r| == |jobIds|
    decreases |successful|
  {
    if successful == [] then jobIds
    else
      var a := successful[|successful| - 1];
      assert a in successful;
      assert forall b <- successful[..|successful| - 1] :: b in successful;
      SetIds(jobIds, successful[..|successful| - 1])[a.index := Some(a.id)]
  }

  /** The answer speaks only of entries that were sent, and of each at most once. */
  predicate Answers(indices: seq<nat>, successful: seq<Accept>, refused: seq<Failure>) {
    && (forall i | 0 <= i < |successful| :: successful[i].index in indices)
    && (forall i | 0 <= i < |refused| :: refused[i].index in indices)
    && (forall i, j | 0 <= i < j < |successful| :: successful[i].index != successful[j].index)
    && (forall i, j | 0 <= i < j < |refused| :: refused[i].index != refused[j].index)
    && (forall i, j | 0 <= i < |successful| && 0 <= j < |refused| :: successful[i].index != refused[j].index)
  }

  predicate InBounds(s: Sys, indices: seq<nat>) {
    forall i | 0 <= i < |indices| :: indices[i] < |s.jobIds|
  }

  function SetWorker(s: Sys, w: nat, pc: Worker): Sys
    requires w < |s.workers|
  {
    s.(workers := s.workers[w := pc])
  }

  function Step(s: Sys, a: Action): Sys {
    if a.w >= |s.workers| then s else
    var pc := s.workers[a.w];
    match a
    case Claim(w) =>
      if !pc.Idle? then s
      else if s.next >= |s.chunks| then SetWorker(s, w, Finished).(next := s.next + 1)
      else if s.aborted then
        s.(next := s.next + 1, failed := s.failed + FailAll(s.chunks[s.next], BatchSubmitAborted))
      else SetWorker(s, w, Sending(s.next)).(next := s.next + 1)
    case Reply(w, successful, refused) =>
      if !pc.Sending? || pc.chunk >= |s.chunks| || !InBounds(s, s.chunks[pc.chunk])
         || !Answers(s.chunks[pc.chunk], successful, refused) then s
      else
        SetWorker(s, w, Idle).(jobIds := SetIds(s.jobIds, successful), failed := s.failed + refused)
    case Reject(w, name) =>
      if !pc.Sending? || pc.chunk >= |s.chunks| then s
      else
        SetWorker(s, w, Idle).(aborted := true, failed := s.failed + FailAll(s.chunks[pc.chunk], Transport(name)))
  }

  function Run(s: Sys, actions: seq<Action>): Sys {
    Runs.Run(Step, s, actions)
  }

  // ---------------------------------------------------------------- the invariant

  /** The chunks are disjoint lists of distinct in-range indices. */
  ghost predicate ChunksOk(s: Sys) {
    && (forall k | 0 <= k < |s.chunks| :: InBounds(s, s.chunks[k]))
    && (forall k, i, j | 0 <= k < |s.chunks| && 0 <= i < j < |s.chunks[k]| :: s.chunks[k][i] != s.chunks[k][j])
    && (forall k, l, x | 0 <= k < l < |s.chunks| && x in s.chunks[k] :: x !in s.chunks[l])
  }

  /** The chunk has no result yet: nobody claimed it, or its request is outstanding. */
  ghost predicate Open(s: Sys, k: nat) {
    k >= s.next || exists w :: 0 <= w < |s.workers| && s.workers[w] == Sending(k)
  }

  /** Nobody has an outcome twice. */
  ghost predicate AtMostOnce(jobIds: seq<Option<Id>>, failed: seq<Failure>) {
    && (forall j | 0 <= j < |failed| :: failed[j].index < |jobIds| && jobIds[failed[j].index].None?)
    && (forall i, j | 0 <= i < j < |failed| :: failed[i].index != failed[j].index)
  }

  ghost predicate Untouched(s: Sys, x: nat) {
    && (x < |s.jobIds| ==> s.jobIds[x].None?)
    && (forall j | 0 <= j < |s.failed| :: s.failed[j].index != x)
  }

  /** Requests are for chunks handed out, each for another one; a worker stops only when none is left. */
  ghost predicate WorkersOk(s: Sys) {
    && (forall w | 0 <= w < |s.workers| && s.workers[w].Sending? ::
          s.workers[w].chunk < s.next && s.workers[w].chunk < |s.chunks|)
    && (forall v, w | 0 <= v < w < |s.workers| && s.workers[v].Sending? :: s.workers[v] != s.workers[w])
    && (forall w | 0 <= w < |s.workers| && s.workers[w].Finished? :: s.next > |s.chunks|)
  }

  ghost predicate Inv(s: Sys) {
    && ChunksOk(s)
    && AtMostOnce(s.jobIds, s.failed)
    && WorkersOk(s)
    && (forall k, x | 0 <= k < |s.chunks| && Open(s, k) && x in s.chunks[k] :: Untouched(s, x))
  }

  lemma {:induction false} SetIdsEffect(jobIds: seq<Option<Id>>, successful: seq<Accept>, x: nat)
    requires forall a <- successful :: a.index < |jobIds|
    ensures x < |jobIds| && (forall i | 0 <= i < |successful| :: successful[i].index != x) ==>
              SetIds(jobIds, successful)[x] == jobIds[x]
    ensures x < |jobIds| && (exists i :: 0 <= i < |successful| && successful[i].index == x) ==>
              SetIds(jobIds, successful)[x].Some?
    decreases |successful|
  {
    if successful == [] {
    } else {
      var front := successful[..|successful| - 1];
      assert forall b <- front :: b in successful;
      SetIdsEffect(jobIds, front, x);
    }
  }

  /** Chunk `c` gets its outcomes, all of them new and about its own indices; every other chunk keeps its state. */
  lemma ClosingKeepsInv(s: Sys, t: Sys, c: nat, extra: seq<Failure>)
    requires Inv(s) && WorkersOk(t) && c < |s.chunks| && Open(s, c)
    requires t.chunks == s.chunks && |t.jobIds| == |s.jobIds| && t.failed == s.failed + extra
    requires forall k | 0 <= k < |s.chunks| && Open(t, k) :: Open(s, k) && k != c
    requires forall j | 0 <= j < |extra| :: extra[j].index in s.chunks[c]
    requires forall i, j | 0 <= i < j < |extra| :: extra[i].index != extra[j].index
    requires forall x: nat | x < |s.jobIds| && x !in s.chunks[c] :: t.jobIds[x] == s.jobIds[x]
    requires forall j | 0 <= j < |extra| && extra[j].index < |s.jobIds| :: t.jobIds[extra[j].index].None?
    ensures Inv(t)
  {
    assert InBounds(s, s.chunks[c]);
    forall j | 0 <= j < |extra| ensures Untouched(s, extra[j].index) {
    }
    forall x | x in s.chunks[c] ensures Untouched(s, x) {
    }
    forall k, x | 0 <= k < |t.chunks| && Open(t, k) && x in t.chunks[k] ensures Untouched(t, x) {
      assert Open(s, k) && Untouched(s, x);
      assert x !in s.chunks[c] by { if k < c { } else { } }
    }
  }

  lemma OpenAfterMove(s: Sys, t: Sys, w: nat)
    requires w < |s.workers| == |t.workers| && s.next <= t.next
    requires forall v | 0 <= v < |s.workers| && v != w :: t.workers[v] == s.workers[v]
    requires !t.workers[w].Sending?
    ensures forall k: nat | Open(t, k) :: Open(s, k)
  {
    forall k: nat | Open(t, k) ensures Open(s, k) {
      if k < t.next {
        var v :| 0 <= v < |t.workers| && t.workers[v] == Sending(k);
        assert s.workers[v] == Sending(k);
      }
    }
  }

  lemma FailAllIndices(indices: seq<nat>, code: Code)
    requires forall i, j | 0 <= i < j < |indices| :: indices[i] != indices[j]
    ensures forall j | 0 <= j < |indices| :: FailAll(indices, code)[j].index in indices
    ensures forall i, j | 0 <= i < j < |indices| :: FailAll(indices, code)[i].index != FailAll(indices, code)[j].index
  {
  }

  lemma ClaimKeepsInv(s: Sys, w: nat)
    requires Inv(s)
    ensures Inv(Step(s, Claim(w)))
  {
    if w < |s.workers| && s.workers[w].Idle? {
      var t := Step(s, Claim(w));
      if s.next >= |s.chunks| {
        OpenAfterMove(s, t, w);
        assert WorkersOk(t);
        assert forall x | Untouched(s, x) :: Untouched(t, x);
      } else if s.aborted {
        OpenAfterMove(s, t, w);
        FailAllIndices(s.chunks[s.next], BatchSubmitAborted);
        forall j | 0 <= j < |s.chunks[s.next]| ensures t.jobIds[s.chunks[s.next][j]].None? {
          assert Open(s, s.next) && InBounds(s, s.chunks[s.next]) && Untouched(s, s.chunks[s.next][j]);
        }
        assert forall k: nat | Open(t, k) :: k != s.next;
        ClosingKeepsInv(s, t, s.next, FailAll(s.chunks[s.next], BatchSubmitAborted));
      } else {
        forall k: nat | Open(t, k) && k < |s.chunks| ensures Open(s, k) {
          if k < s.next {
            var v :| 0 <= v < |t.workers| && t.workers[v] == Sending(k);
            assert s.workers[v] == Sending(k);
          }
        }
        assert forall x | Untouched(s, x) :: Untouched(t, x);
        assert WorkersOk(t);
      }
    }
  }

  lemma SettleKeepsInv(s: Sys, a: Action)
    requires Inv(s) && (a.Reply? || a.Reject?) && Step(s, a) != s
    ensures Inv(Step(s, a))
  {
    var t := Step(s, a);
    var c := s.workers[a.w].chunk;
    assert Open(s, c) && InBounds(s, s.chunks[c]);
    OpenAfterMove(s, t, a.w);
    forall k: nat | Open(t, k) ensures k != c {
      if k < t.next {
        var v :| 0 <= v < |t.workers| && t.workers[v] == Sending(k);
        assert v != a.w && s.workers[v] == Sending(k);
      }
    }
    assert WorkersOk(t);
    if a.Reject? {
      FailAllIndices(s.chunks[c], Transport(a.name));
      forall j | 0 <= j < |s.chunks[c]| ensures t.jobIds[s.chunks[c][j]].None? {
        assert Untouched(s, s.chunks[c][j]);
      }
      ClosingKeepsInv(s, t, c, FailAll(s.chunks[c], Transport(a.name)));
    } else {
      forall x: nat | x < |s.jobIds| && x !in s.chunks[c] ensures t.jobIds[x] == s.jobIds[x] {
        SetIdsEffect(s.jobIds, a.successful, x);
      }
      forall j | 0 <= j < |a.refused| ensures t.jobIds[a.refused[j].index].None? {
        assert Untouched(s, a.refused[j].index);
        SetIdsEffect(s.jobIds, a.successful, a.refused[j].index);
      }
      ClosingKeepsInv(s, t, c, a.refused);
    }
  }

  lemma StepKeepsInv(s: Sys, a: Action)
    requires Inv(s)
    ensures Inv(Step(s, a))
  {
    if a.Claim? { ClaimKeepsInv(s, a.w); }
    else if Step(s, a) != s { SettleKeepsInv(s, a); }
  }

  // ------------------------------------------------------- every partition makes a good pool

  lemma StartKeepsInv(sizes: seq<nat>, chunks: seq<seq<nat>>)
    requires Partition(sizes, |sizes|, chunks)
    ensures Inv(Pool(chunks, |sizes|))
  {
    var s := Pool(chunks, |sizes|);
    forall k | 0 <= k < |chunks|
      ensures InBounds(s, chunks[k])
    {
    }
    forall k, i, j | 0 <= k < |chunks| && 0 <= i < j < |chunks[k]| ensures chunks[k][i] != chunks[k][j] {
      PartitionChunk(sizes, |sizes|, chunks, k);
    }
    forall k, l, x | 0 <= k < l < |chunks| && x in chunks[k] ensures x !in chunks[l] {
      PartitionChunk(sizes, |sizes|, chunks, k);
      PartitionChunk(sizes, |sizes|, chunks, l);
      EndGrows(chunks, k + 1, l);
    }
  }

  lemma RunFromPool(sizes: seq<nat>, chunks: seq<seq<nat>>, actions: seq<Action>)
    requires Partition(sizes, |sizes|, chunks)
    ensures var t := Run(Pool(chunks, |sizes|), actions);
            Inv(t) && t.chunks == chunks && |t.jobIds| == |sizes| && |t.workers| == PoolSize(chunks)
  {
    StartKeepsInv(sizes, chunks);
    var inv := (t: Sys) => Inv(t) && t.chunks == chunks && |t.jobIds| == |sizes| && |t.workers| == PoolSize(chunks);
    forall t, a | inv(t) ensures inv(Step(t, a)) { StepKeepsInv(t, a); }
    Runs.Keeps(Step, inv, Pool(chunks, |sizes|), actions);
  }

  // ------------------------------------------------------------------ theorems

  function Outstanding(s: Sys): set<nat> {
    set w: nat | w < |s.workers| && s.workers[w].Sending? :: s.workers[w].chunk
  }

  /** At most five requests are outstanding, and no chunk is in two of them. */
  lemma AtMostFiveDistinctSends(sizes: seq<nat>, chunks: seq<seq<nat>>, actions: seq<Action>)
    requires Partition(sizes, |sizes|, chunks)
    ensures var t := Run(Pool(chunks, |sizes|), actions);
            && |Outstanding(t)| <= MAX_BATCH_CONCURRENCY
            && forall v, w | 0 <= v < w < |t.workers| && t.workers[v].Sending? && t.workers[w].Sending? ::
                 t.workers[v].chunk != t.workers[w].chunk
  {
    RunFromPool(sizes, chunks, actions);
    var t := Run(Pool(chunks, |sizes|), actions);
    hide Run;
    var sender := map k | k in Outstanding(t) :: Holder(t, k);
    Collections.InjectionBound(Outstanding(t), sender, |t.workers|);
  }

  /** The worker that is sending chunk `k`. */
  ghost function Holder(s: Sys, k: nat): (w: nat)
    requires k in Outstanding(s)
    ensures w < |s.workers| && s.workers[w] == Sending(k)
  {
    var w: nat :| w < |s.workers| && s.workers[w] == Sending(k);
    w
  }

  /** The chunks a step puts into a request, or fails without one because of an earlier abort. */
  function Taken(s: Sys, a: Action): seq<nat> {
    var t := Step(s, a);
    if a.w < |s.workers| == |t.workers| && !s.workers[a.w].Sending? && t.workers[a.w].Sending? then [t.workers[a.w].chunk]
    else if a.Claim? && |t.failed| > |s.failed| then [t.next - 1] else []
  }

  /** All of them, over a run, in order. */
  function TakenInRun(s: Sys, actions: seq<Action>): seq<nat> {
    if actions == [] then []
    else TakenInRun(s, actions[..|actions| - 1]) + Taken(Run(s, actions[..|actions| - 1]), actions[|actions| - 1])
  }

  /** In every interleaving the chunks are taken one after the other, each exactly once. */
  lemma {:induction false} EachChunkIsTakenOnce(sizes: seq<nat>, chunks: seq<seq<nat>>, actions: seq<Action>)
    requires Partition(sizes, |sizes|, chunks)
    ensures var t := Run(Pool(chunks, |sizes|), actions);
            TakenInRun(Pool(chunks, |sizes|), actions) == Upto(if t.next < |chunks| then t.next else |chunks|)
    decreases |actions|
  {
    if actions == [] {
    } else {
      var front := actions[..|actions| - 1];
      EachChunkIsTakenOnce(sizes, chunks, front);
      RunFromPool(sizes, chunks, front);
      TakesTheNext(Run(Pool(chunks, |sizes|), front), actions[|actions| - 1]);
      hide Taken, Step, Upto, Inv;
      UptoGrows(Run(Pool(chunks, |sizes|), front).next);
    }
  }

  lemma UptoGrows(n: nat)
    ensures Upto(n + 1) == Upto(n) + [n]
  {
  }

  /** And when every worker has finished, all of them. */
  lemma EveryChunkIsTaken(sizes: seq<nat>, chunks: seq<seq<nat>>, actions: seq<Action>)
    requires Partition(sizes, |sizes|, chunks) && AllFinished(Run(Pool(chunks, |sizes|), actions))
    ensures TakenInRun(Pool(chunks, |sizes|), actions) == Upto(|chunks|)
  {
    RunFromPool(sizes, chunks, actions);
    EachChunkIsTakenOnce(sizes, chunks, actions);
    var t := Run(Pool(chunks, |sizes|), actions);
    if chunks != [] { assert t.workers[0].Finished?; }
  }

  lemma TakesTheNext(s: Sys, a: Action)
    requires Inv(s) && forall k | 0 <= k < |s.chunks| :: s.chunks[k] != []
    ensures var t := Step(s, a);
            if t.next == s.next then Taken(s, a) == []
            else t.next == s.next + 1 && Taken(s, a) == if s.next < |s.chunks| then [s.next] else []
  {
  }

  /** No send starts after an abort: a request still outstanding was outstanding when it happened. */
  lemma NoSendStartsAfterAnAbort(s: Sys, actions: seq<Action>, w: nat)
    requires s.aborted
    ensures var t := Run(s, actions);
            t.aborted && (w < |t.workers| && t.workers[w].Sending? ==> w < |s.workers| && s.workers[w] == t.workers[w])
  {
    var inv := (t: Sys) => t.aborted && |t.workers| == |s.workers|
                           && forall v | 0 <= v < |t.workers| && t.workers[v].Sending? :: t.workers[v] == s.workers[v];
    forall t, a | inv(t) ensures inv(Step(t, a)) { }
    Runs.Keeps(Step, inv, s, actions);
  }

  /** What a payload ends with. */
  datatype Verdict = Queued(id: Id) | Lost(code: Code)

  /** The indices an answer names, accepted ones first. */
  function Named(successful: seq<Accept>, refused: seq<Failure>): seq<nat> {
    seq(|successful|, i requires 0 <= i < |successful| => successful[i].index)
    + seq(|refused|, i requires 0 <= i < |refused| => refused[i].index)
  }

  /** Worker `w` awaits the request for the chunk that holds payload `x`. */
  ghost predicate Awaits(s: Sys, w: nat, x: nat) {
    && w < |s.workers| && s.workers[w].Sending? && s.workers[w].chunk < |s.chunks|
    && x in s.chunks[s.workers[w].chunk]
  }

  /**
   What an action means for a payload: an answer to its request that names only entries of the request,
   none twice, and names the payload; the rejection of its request; or its chunk's turn in an aborted pool.
  */
  ghost predicate Gives(s: Sys, a: Action, x: nat, v: Verdict) {
    match a
    case Claim(w) =>
      && w < |s.workers| && s.workers[w] == Idle && s.aborted
      && s.next < |s.chunks| && x in s.chunks[s.next] && v == Lost(BatchSubmitAborted)
    case Reply(w, successful, refused) =>
      var named := Named(successful, refused);
      && Awaits(s, w, x)
      && (forall i | 0 <= i < |named| :: named[i] in s.chunks[s.workers[w].chunk])
      && (forall i, j | 0 <= i < j < |named| :: named[i] != named[j])
      && (match v
          case Queued(id) => Accept(x, id) in successful
          case Lost(code) => Failure(x, code) in refused)
    case Reject(w, name) => Awaits(s, w, x) && v == Lost(Transport(name))
  }

  /** The same of position `k` of a run. */
  ghost predicate GivesAt(s: Sys, actions: seq<Action>, k: nat, x: nat, v: Verdict) {
    k < |actions| && Gives(Run(s, actions[..k]), actions[k], x, v)
  }

  ghost predicate Has(s: Sys, x: nat, v: Verdict) {
    match v
    case Queued(id) => x < |s.jobIds| && s.jobIds[x] == Some(id)
    case Lost(code) => Failure(x, code) in s.failed
  }

  lemma AnswersIff(indices: seq<nat>, successful: seq<Accept>, refused: seq<Failure>)
    ensures var named := Named(successful, refused);
            Answers(indices, successful, refused) <==>
              && (forall i | 0 <= i < |named| :: named[i] in indices)
              && (forall i, j | 0 <= i < j < |named| :: named[i] != named[j])
  {
    var named := Named(successful, refused);
    var n := |successful|;
    assert forall i | 0 <= i < n :: named[i] == successful[i].index;
    assert forall i | 0 <= i < |refused| :: named[n + i] == refused[i].index;
    assert forall i | n <= i < |named| :: named[i] == refused[i - n].index;
  }

  lemma AnsweredStep(s: Sys, a: Action)
    requires Inv(s) && a.Reply? && a.w < |s.workers| && s.workers[a.w].Sending?
    requires Answers(s.chunks[s.workers[a.w].chunk], a.successful, a.refused)
    ensures forall e <- a.successful :: e.index < |s.jobIds|
    ensures Step(s, a) == SetWorker(s, a.w, Idle).(jobIds := SetIds(s.jobIds, a.successful), failed := s.failed + a.refused)
  {
  }

  lemma {:induction false} SetIdsSets(jobIds: seq<Option<Id>>, successful: seq<Accept>, x: nat, id: Id)
    requires (forall a <- successful :: a.index < |jobIds|) && x < |jobIds| && Accept(x, id) in successful
    requires forall i, j | 0 <= i < j < |successful| :: successful[i].index != successful[j].index
    ensures SetIds(jobIds, successful)[x] == Some(id)
    decreases |successful|
  {
    var n := |successful| - 1;
    var front := successful[..n];
    assert forall b <- front :: b in successful;
    if successful[n].index != x {
      assert Accept(x, id) in front;
      SetIdsSets(jobIds, front, x, id);
    } else {
      var i :| 0 <= i < |successful| && successful[i] == Accept(x, id);
      assert i == n;
    }
  }

  lemma ReplyGives(s: Sys, a: Action, x: nat, v: Verdict)
    requires Inv(s) && a.Reply? && Gives(s, a, x, v)
    ensures Has(Step(s, a), x, v)
  {
    var chunk := s.chunks[s.workers[a.w].chunk];
    AnswersIff(chunk, a.successful, a.refused);
    assert InBounds(s, chunk);
    AnsweredStep(s, a);
    hide Step, Inv;
    if v.Queued? { SetIdsSets(s.jobIds, a.successful, x, v.id); }
  }

  lemma FailAllHas(indices: seq<nat>, code: Code, x: nat)
    ensures Failure(x, code) in FailAll(indices, code) <==> x in indices
  {
    if x in indices {
      var i :| 0 <= i < |indices| && indices[i] == x;
      assert FailAll(indices, code)[i] == Failure(x, code);
    }
  }

  /** What an action gives, the payload has from then on. */
  lemma GivenIsHad(s: Sys, a: Action, x: nat, v: Verdict)
    requires Inv(s) && Gives(s, a, x, v)
    ensures Has(Step(s, a), x, v)
  {
    match a
    case Claim(w) => FailAllHas(s.chunks[s.next], BatchSubmitAborted, x);
    case Reply(w, _, _) => ReplyGives(s, a, x, v);
    case Reject(w, name) => FailAllHas(s.chunks[s.workers[w].chunk], Transport(name), x);
  }

  lemma FailuresStay(s: Sys, a: Action)
    ensures s.failed <= Step(s, a).failed
  {
  }

  lemma OutcomeStays(s: Sys, a: Action, x: nat, v: Verdict)
    requires Inv(s) && Has(s, x, v)
    ensures Has(Step(s, a), x, v)
  {
    FailuresStay(s, a);
    if v.Queued? && a.Reply? && Step(s, a) != s {
      var c := s.workers[a.w].chunk;
      assert Open(s, c);
      assert !Untouched(s, x);
      SetIdsEffect(s.jobIds, a.successful, x);
    }
  }

  /** A step that brings a new outcome is one that gives it. */
  lemma HadWasGiven(s: Sys, a: Action, x: nat, v: Verdict)
    requires Has(Step(s, a), x, v) && !Has(s, x, v)
    ensures Gives(s, a, x, v)
  {
    match a
    case Claim(w) =>
      if v.Lost? { NewFailures(s.failed, FailAll(s.chunks[s.next], BatchSubmitAborted), x, v.code); }
    case Reply(w, successful, refused) =>
      AnswersIff(s.chunks[s.workers[w].chunk], successful, refused);
      if v.Queued? { SetIdsSource(s.jobIds, successful, x); }
    case Reject(w, name) =>
      NewFailures(s.failed, FailAll(s.chunks[s.workers[w].chunk], Transport(name)), x, v.code);
  }

  lemma NewFailures(failed: seq<Failure>, extra: seq<Failure>, x: nat, code: Code)
    ensures Failure(x, code) in failed + extra && Failure(x, code) !in failed ==> Failure(x, code) in extra
  {
  }

  lemma OutcomeStep(s: Sys, a: Action, x: nat, v: Verdict)
    requires Inv(s)
    ensures Has(Step(s, a), x, v) <==> Has(s, x, v) || Gives(s, a, x, v)
  {
    hide Step, Has, Gives, Inv;
    if Has(s, x, v) { OutcomeStays(s, a, x, v); }
    if Gives(s, a, x, v) { GivenIsHad(s, a, x, v); }
    if Has(Step(s, a), x, v) && !Has(s, x, v) { HadWasGiven(s, a, x, v); }
  }

  lemma GivesOneMore(s: Sys, actions: seq<Action>, x: nat, v: Verdict)
    requires actions != []
    ensures var front := actions[..|actions| - 1];
            (exists k: nat :: GivesAt(s, actions, k, x, v)) <==>
              (exists k: nat :: GivesAt(s, front, k, x, v)) || Gives(Run(s, front), actions[|actions| - 1], x, v)
  {
    hide Run, Gives;
    var n := |actions| - 1;
    var front := actions[..n];
    forall k: nat ensures GivesAt(s, actions, k, x, v) <==> GivesAt(s, front, k, x, v) || (k == n && Gives(Run(s, front), actions[n], x, v)) {
      if k < n { assert front[..k] == actions[..k]; }
    }
    if k: nat :| GivesAt(s, front, k, x, v) { assert GivesAt(s, actions, k, x, v); }
    if Gives(Run(s, front), actions[n], x, v) { assert GivesAt(s, actions, n, x, v); }
  }

  /**
   Over every run of a pool, a payload has an outcome if and only if some action of the run gave it that
   outcome: no id and no failure is invented, none is dropped, and none is overwritten later.
  */
  lemma {:induction false} OutcomesAreThoseOfTheRun(sizes: seq<nat>, chunks: seq<seq<nat>>, actions: seq<Action>, x: nat, v: Verdict)
    requires Partition(sizes, |sizes|, chunks)
    ensures Has(Run(Pool(chunks, |sizes|), actions), x, v) <==>
              exists k: nat :: GivesAt(Pool(chunks, |sizes|), actions, k, x, v)
    decreases |actions|
  {
    hide Step, Gives, Inv;
    if actions == [] {
    } else {
      hide Has, GivesAt, Pool;
      var s, front := Pool(chunks, |sizes|), actions[..|actions| - 1];
      OutcomesAreThoseOfTheRun(sizes, chunks, front, x, v);
      RunFromPool(sizes, chunks, front);
      OutcomeStep(Run(s, front), actions[|actions| - 1], x, v);
      GivesOneMore(s, actions, x, v);
    }
  }

  /** Position `j` rejects a request that its worker awaits. */
  ghost predicate FailsAt(s: Sys, actions: seq<Action>, j: nat) {
    && j < |actions| && actions[j].Reject?
    && var t := Run(s, actions[..j]); actions[j].w < |t.workers| && t.workers[actions[j].w].Sending?
  }

  /** The pool is aborted exactly when some request was rejected. */
  lemma {:induction false} AbortedIffARequestFailed(sizes: seq<nat>, chunks: seq<seq<nat>>, actions: seq<Action>)
    requires Partition(sizes, |sizes|, chunks)
    ensures Run(Pool(chunks, |sizes|), actions).aborted <==> exists j: nat :: FailsAt(Pool(chunks, |sizes|), actions, j)
    decreases |actions|
  {
    var s := Pool(chunks, |sizes|);
    hide Step, Inv;
    if actions == [] {
    } else {
      var n := |actions| - 1;
      var front := actions[..n];
      AbortedIffARequestFailed(sizes, chunks, front);
      RunFromPool(sizes, chunks, front);
      AbortStep(Run(s, front), actions[n]);
      forall j: nat | j < n ensures FailsAt(s, actions, j) <==> FailsAt(s, front, j) {
        assert front[..j] == actions[..j];
      }
      assert Run(s, actions).aborted == (Run(s, front).aborted || FailsAt(s, actions, n));
      if exists j: nat :: FailsAt(s, front, j) {
        var j: nat :| FailsAt(s, front, j);
        assert FailsAt(s, actions, j);
      }
    }
  }

  lemma AbortStep(s: Sys, a: Action)
    requires Inv(s)
    ensures Step(s, a).aborted <==> s.aborted || (a.Reject? && a.w < |s.workers| && s.workers[a.w].Sending?)
  {
  }

  lemma {:induction false} SetIdsSource(jobIds: seq<Option<Id>>, successful: seq<Accept>, x: nat)
    requires (forall a <- successful :: a.index < |jobIds|) && x < |jobIds|
    ensures var r := SetIds(jobIds, successful);
            r[x] == jobIds[x] || (r[x].Some? && Accept(x, r[x].value) in successful)
    decreases |successful|
  {
    if successful == [] {
    } else {
      var front := successful[..|successful| - 1];
      assert forall b <- front :: b in successful;
      SetIdsSource(jobIds, front, x);
    }
  }

  ghost predicate AllFinished(s: Sys) {
    forall w | 0 <= w < |s.workers| :: s.workers[w].Finished?
  }

  /** Exactly one outcome: a job id, or one failure entry. */
  ghost predicate OneOutcome(jobIds: seq<Option<Id>>, failed: seq<Failure>, x: nat)
    requires x < |jobIds|
  {
    if jobIds[x].Some? then forall j | 0 <= j < |failed| :: failed[j].index != x
    else exists j :: 0 <= j < |failed| && failed[j].index == x
                     && forall i | 0 <= i < |failed| && i != j :: failed[i].index != x
  }

  // ------------------------------------------------------------ the pool comes to an end

  function Weight(pc: Worker): nat {
    match pc
    case Idle => 1
    case Sending(_) => 2
    case Finished => 0
  }

  function Weights(workers: seq<Worker>): nat {
    if workers == [] then 0 else Weights(workers[..|workers| - 1]) + Weight(workers[|workers| - 1])
  }

  /** How many more steps the pool can make. */
  function ToGo(s: Sys): nat {
    2 * (if s.next < |s.chunks| then |s.chunks| - s.next else 0) + Weights(s.workers)
  }

  lemma {:induction false} WeightsAfterUpdate(workers: seq<Worker>, w: nat, pc: Worker)
    requires w < |workers|
    ensures Weights(workers[w := pc]) == Weights(workers) - Weight(workers[w]) + Weight(pc)
    decreases |workers|
  {
    var n := |workers| - 1;
    if w == n {
      assert workers[w := pc][..n] == workers[..n];
    } else {
      assert workers[w := pc][..n] == workers[..n][w := pc];
      WeightsAfterUpdate(workers[..n], w, pc);
    }
  }

  lemma {:induction false} SomeWorkerHasWeight(workers: seq<Worker>)
    ensures Weights(workers) == 0 <==> forall w | 0 <= w < |workers| :: workers[w].Finished?
  {
    if workers == [] {
    } else {
      SomeWorkerHasWeight(workers[..|workers| - 1]);
    }
  }

  /**
   Every step that does anything brings the end closer, and until every worker has finished some step
   does something: no schedule of the workers can run on for ever or get stuck.
  */
  lemma ThePoolSettles(sizes: seq<nat>, chunks: seq<seq<nat>>, actions: seq<Action>, a: Action)
    requires Partition(sizes, |sizes|, chunks)
    ensures var s := Run(Pool(chunks, |sizes|), actions);
            && (Step(s, a) == s || ToGo(Step(s, a)) < ToGo(s))
            && (AllFinished(s) || exists b :: Step(s, b) != s)
  {
    RunFromPool(sizes, chunks, actions);
    var s := Run(Pool(chunks, |sizes|), actions);
    hide Run;
    StepBringsTheEndCloser(s, a);
    if !AllFinished(s) { SomethingCanHappen(s); }
  }

  lemma StepBringsTheEndCloser(s: Sys, a: Action)
    ensures Step(s, a) == s || ToGo(Step(s, a)) < ToGo(s)
  {
    if Step(s, a) != s {
      WeightsAfterUpdate(s.workers, a.w, Step(s, a).workers[a.w]);
      assert Step(s, a).workers == s.workers[a.w := Step(s, a).workers[a.w]];
    }
  }

  lemma SomethingCanHappen(s: Sys)
    requires Inv(s) && !AllFinished(s)
    ensures exists b :: Step(s, b) != s
  {
    var w :| 0 <= w < |s.workers| && !s.workers[w].Finished?;
    if s.workers[w].Idle? {
      assert Step(s, Claim(w)).next == s.next + 1;
    } else {
      assert Step(s, Reject(w, "")).workers[w] == Idle;
    }
  }

  // --------------------------------------------------------------- the methods themselves

  predicate Listed(failed: seq<Failure>, x: nat) {
    exists j :: 0 <= j < |failed| && failed[j].index == x
  }

  function Insert(f: Failure, sorted: seq<Failure>): seq<Failure> {
    if sorted == [] || f.index <= sorted[0].index then [f] + sorted
    else [sorted[0]] + Insert(f, sorted[1..])
  }

  function SortByIndex(failed: seq<Failure>): seq<Failure> {
    if failed == [] then [] else Insert(failed[0], SortByIndex(failed[1..]))
  }

  ghost predicate Ascending(failed: seq<Failure>) {
    forall i, j | 0 <= i < j < |failed| :: failed[i].index < failed[j].index
  }

  ghost predicate Distinct(failed: seq<Failure>) {
    forall i, j | 0 <= i < j < |failed| :: failed[i].index != failed[j].index
  }

  lemma {:induction false} InsertMembers(f: Failure, sorted: seq<Failure>, e: Failure)
    ensures e in Insert(f, sorted) <==> e == f || e in sorted
    ensures |Insert(f, sorted)| == |sorted| + 1
  {
    if sorted == [] || f.index <= sorted[0].index {
    } else {
      InsertMembers(f, sorted[1..], e);
      assert e in sorted <==> e == sorted[0] || e in sorted[1..];
    }
  }

  lemma {:induction false} InsertAscends(f: Failure, sorted: seq<Failure>)
    requires Ascending(sorted) && !Listed(sorted, f.index)
    ensures Ascending(Insert(f, sorted))
  {
    if sorted == [] || f.index <= sorted[0].index {
      assert sorted != [] ==> Listed(sorted, sorted[0].index);
    } else {
      var rest := Insert(f, sorted[1..]);
      InsertAscends(f, sorted[1..]);
      forall i | 0 <= i < |rest| ensures sorted[0].index < rest[i].index {
        InsertMembers(f, sorted[1..], rest[i]);
        if rest[i] != f {
          var j :| 0 <= j < |sorted[1..]| && sorted[1..][j] == rest[i];
          assert sorted[j + 1] == rest[i];
        }
      }
    }
  }

  /** Sorting keeps the entries and puts them in ascending order of index. */
  lemma {:induction false} SortSorts(failed: seq<Failure>)
    requires Distinct(failed)
    ensures Ascending(SortByIndex(failed)) && |SortByIndex(failed)| == |failed|
    ensures forall e :: e in SortByIndex(failed) <==> e in failed
  {
    if failed == [] {
    } else {
      var rest := SortByIndex(failed[1..]);
      SortSorts(failed[1..]);
      forall j | 0 <= j < |rest| ensures rest[j].index != failed[0].index {
        assert rest[j] in failed[1..];
        var k :| 0 <= k < |failed[1..]| && failed[1..][k] == rest[j];
        assert failed[k + 1] == rest[j];
      }
      InsertAscends(failed[0], rest);
      InsertMembers(failed[0], rest, failed[0]);
      forall e ensures e in Insert(failed[0], rest) <==> e in failed {
        InsertMembers(failed[0], rest, e);
        assert e in failed <==> e == failed[0] || e in failed[1..];
      }
    }
  }

  lemma SortKeepsOutcomes(jobIds: seq<Option<Id>>, failed: seq<Failure>, x: nat)
    requires Distinct(failed) && x < |jobIds| && OneOutcome(jobIds, failed, x)
    ensures OneOutcome(jobIds, SortByIndex(failed), x)
  {
    var sorted := SortByIndex(failed);
    SortSorts(failed);
    if jobIds[x].Some? {
      forall j | 0 <= j < |sorted| ensures sorted[j].index != x { assert sorted[j] in failed; }
    } else {
      var j :| 0 <= j < |failed| && failed[j].index == x;
      assert failed[j] in sorted;
      var k :| 0 <= k < |sorted| && sorted[k] == failed[j];
      assert forall i | 0 <= i < |sorted| && i != k :: sorted[i].index != x;
    }
  }

  datatype Result =
    | BatchEmpty
    | BatchTooLarge
    | PayloadTooLarge
    | Unsettled
    | Submitted(jobIds: seq<Option<Id>>)
    | BatchSubmitFailed(jobIds: seq<Option<Id>>, failed: seq<Failure>)

  /** The shared variables of one `sendChunksBounded` call and the results it fills in. */
  class Sender {
    const chunks: seq<seq<nat>>
    var next: nat
    var aborted: bool
    var jobIds: seq<Option<Id>>
    var failed: seq<Failure>
    var workers: seq<Worker>

    function View(): Sys
      reads this
    {
      Sys(chunks, next, aborted, jobIds, failed, workers)
    }

    constructor (chunks: seq<seq<nat>>, n: nat)
      ensures View() == Pool(chunks, n)
    {
      this.chunks, next, aborted, failed := chunks, 0, false, [];
      jobIds := seq(n, _ => None);
      workers := seq(if |chunks| < MAX_BATCH_CONCURRENCY then |chunks| else MAX_BATCH_CONCURRENCY, _ => Idle);
    }

    /** The top of a worker's loop, up to its send. */
    method ClaimNext(w: nat)
      requires w < |workers| && workers[w].Idle?
      modifies this
      ensures View() == Step(old(View()), Claim(w))
    {
      var idx := next;
      next := next + 1;
      if idx >= |chunks| {
        workers := workers[w := Finished];
        return;
      }
      if aborted {
        failed := failed + FailAll(chunks[idx], BatchSubmitAborted);
        return;
      }
      workers := workers[w := Sending(idx)];
    }

    /** The request settled with an answer. */
    method Settle(w: nat, successful: seq<Accept>, refused: seq<Failure>)
      requires w < |workers| && workers[w].Sending? && workers[w].chunk < |chunks|
      requires InBounds(View(), chunks[workers[w].chunk]) && Answers(chunks[workers[w].chunk], successful, refused)
      modifies this
      ensures View() == Step(old(View()), Reply(w, successful, refused))
    {
      for k := 0 to |successful|
        invariant |jobIds| == |old(jobIds)| && workers == old(workers)
        invariant next == old(next) && aborted == old(aborted) && failed == old(failed)
        invariant forall a <- successful :: a.index < |jobIds|
        invariant forall a <- successful[..k] :: a in successful
        invariant jobIds == SetIds(old(jobIds), successful[..k])
      {
        assert successful[..k + 1][..k] == successful[..k];
        jobIds := jobIds[successful[k].index := Some(successful[k].id)];
      }
      assert successful[..|successful|] == successful;
      failed := failed + refused;
      workers := workers[w := Idle];
    }

    /** The send itself was rejected. */
    method Abort(w: nat, name: string)
      requires w < |workers| && workers[w].Sending? && workers[w].chunk < |chunks|
      modifies this
      ensures View() == Step(old(View()), Reject(w, name))
    {
      aborted := true;
      failed := failed + FailAll(chunks[workers[w].chunk], Transport(name));
      workers := workers[w := Idle];
    }

    /** One segment of one worker, as the schedule dictates; impossible segments do not happen. */
    method Take(a: Action)
      modifies this
      ensures View() == Step(old(View()), a)
    {
      if a.w < |workers| {
        var pc := workers[a.w];
        match a
        case Claim(w) =>
          if pc.Idle? { ClaimNext(w); }
        case Reply(w, successful, refused) =>
          if pc.Sending? && pc.chunk < |chunks| && InBounds(View(), chunks[pc.chunk])
             && Answers(chunks[pc.chunk], successful, refused) {
            Settle(w, successful, refused);
          }
        case Reject(w, name) =>
          if pc.Sending? && pc.chunk < |chunks| { Abort(w, name); }
      }
    }

    /** Report every payload that got neither an id nor a failure. */
    method FillMissing()
      modifies this`failed
      ensures failed == old(failed) + Missing(jobIds, old(failed), |jobIds|)
    {
      var before := failed;
      for i := 0 to |jobIds|
        invariant failed == before + Missing(jobIds, before, i)
      {
        var missing := jobIds[i].None? && !Listed(before, i);
        if missing { failed := failed + [Failure(i, MissingResult)]; }
      }
    }
  }

  /** One entry for each of the first `n` payloads that has neither an id nor a failure. */
  function Missing(jobIds: seq<Option<Id>>, failed: seq<Failure>, n: nat): seq<Failure>
    requires n <= |jobIds|
  {
    if n == 0 then []
    else Missing(jobIds, failed, n - 1)
         + if jobIds[n - 1].None? && !Listed(failed, n - 1) then [Failure(n - 1, MissingResult)] else []
  }

  /** The first `n` payloads are accounted for; entries were only added, for payloads that had none. */
  ghost predicate Filled(jobIds: seq<Option<Id>>, before: seq<Failure>, failed: seq<Failure>, n: nat) {
    && n <= |jobIds|
    && AtMostOnce(jobIds, failed)
    && before <= failed
    && (forall x | 0 <= x < n :: jobIds[x].Some? || Listed(failed, x))
    && (forall j | |before| <= j < |failed| :: failed[j].code == MissingResult && failed[j].index < n)
  }

  lemma FillSkip(jobIds: seq<Option<Id>>, before: seq<Failure>, failed: seq<Failure>, i: nat)
    requires Filled(jobIds, before, failed, i) && i < |jobIds|
    requires jobIds[i].Some? || Listed(before, i)
    ensures Filled(jobIds, before, failed, i + 1)
  {
    if jobIds[i].None? { ListedInMore(before, failed, i); }
  }

  lemma FillAdd(jobIds: seq<Option<Id>>, before: seq<Failure>, failed: seq<Failure>, i: nat)
    requires Filled(jobIds, before, failed, i) && i < |jobIds|
    requires jobIds[i].None? && !Listed(before, i)
    ensures Filled(jobIds, before, failed + [Failure(i, MissingResult)], i + 1)
  {
    var next := failed + [Failure(i, MissingResult)];
    forall j | 0 <= j < |failed| ensures failed[j].index != i {
      if j < |before| { assert failed[j] == before[j]; }
    }
    assert AtMostOnce(jobIds, next);
    forall x | 0 <= x < i && jobIds[x].None? ensures Listed(next, x) {
      ListedInMore(failed, next, x);
    }
    assert next[|failed|].index == i;
  }

  lemma ListedInMore(few: seq<Failure>, more: seq<Failure>, x: nat)
    requires few <= more && Listed(few, x)
    ensures Listed(more, x)
  {
    var j :| 0 <= j < |few| && few[j].index == x;
    assert more[j].index == x;
  }

  lemma FilledStep(jobIds: seq<Option<Id>>, before: seq<Failure>, more: seq<Failure>, i: nat)
    requires i < |jobIds| && Filled(jobIds, before, before + more, i)
    ensures jobIds[i].None? && !Listed(before, i) ==> Filled(jobIds, before, before + (more + [Failure(i, MissingResult)]), i + 1)
    ensures jobIds[i].Some? || Listed(before, i) ==> Filled(jobIds, before, before + more, i + 1)
  {
    hide Filled, Listed;
    assert before + (more + [Failure(i, MissingResult)]) == before + more + [Failure(i, MissingResult)];
    if jobIds[i].None? && !Listed(before, i) { FillAdd(jobIds, before, before + more, i); }
    else { FillSkip(jobIds, before, before + more, i); }
  }

  lemma NothingFilled(jobIds: seq<Option<Id>>, before: seq<Failure>)
    requires AtMostOnce(jobIds, before)
    ensures Filled(jobIds, before, before + [], 0)
  {
    assert before + [] == before;
  }

  lemma {:induction false} FilledByMissing(jobIds: seq<Option<Id>>, before: seq<Failure>, n: nat)
    requires AtMostOnce(jobIds, before) && n <= |jobIds|
    ensures Filled(jobIds, before, before + Missing(jobIds, before, n), n)
  {
    hide Filled, Listed, AtMostOnce;
    if n == 0 {
      NothingFilled(jobIds, before);
    } else {
      FilledByMissing(jobIds, before, n - 1);
      var more := Missing(jobIds, before, n - 1);
      FilledStep(jobIds, before, more, n - 1);
      assert more + [] == more;
    }
  }

  lemma FilledHasOneOutcome(jobIds: seq<Option<Id>>, before: seq<Failure>, failed: seq<Failure>, x: nat)
    requires Filled(jobIds, before, failed, |jobIds|) && x < |jobIds|
    ensures OneOutcome(jobIds, failed, x)
  {
    if jobIds[x].None? {
      var j :| 0 <= j < |failed| && failed[j].index == x;
      assert forall i | 0 <= i < |failed| && i != j :: failed[i].index != x;
    }
  }

  /** Every failure of a settled pool, with the payloads nobody answered for. */
  function AllFailures(t: Sys): seq<Failure> {
    t.failed + Missing(t.jobIds, t.failed, |t.jobIds|)
  }

  /** What `submitBatch` returns or throws for the final state of its pool. */
  function ResultOf(t: Sys): Result {
    if AllFailures(t) == [] then Submitted(t.jobIds) else BatchSubmitFailed(t.jobIds, SortByIndex(AllFailures(t)))
  }

  ghost predicate FullyAccounted(n: nat, r: Result) {
    match r
    case Submitted(jobIds) => |jobIds| == n && forall x | 0 <= x < n :: jobIds[x].Some?
    case BatchSubmitFailed(jobIds, failed) =>
      && |jobIds| == n && failed != [] && Ascending(failed)
      && (forall j | 0 <= j < |failed| :: failed[j].index < n)
      && forall x | 0 <= x < n :: OneOutcome(jobIds, failed, x)
    case _ => true
  }

  lemma FilledIsAccounted(jobIds: seq<Option<Id>>, before: seq<Failure>, all: seq<Failure>)
    requires Filled(jobIds, before, all, |jobIds|)
    ensures all == [] ==> forall x | 0 <= x < |jobIds| :: jobIds[x].Some?
    ensures all != [] ==> FullyAccounted(|jobIds|, BatchSubmitFailed(jobIds, SortByIndex(all)))
  {
    SortSorts(all);
    forall x | 0 <= x < |jobIds| ensures OneOutcome(jobIds, SortByIndex(all), x) {
      FilledHasOneOutcome(jobIds, before, all, x);
      SortKeepsOutcomes(jobIds, all, x);
    }
    forall e | e in SortByIndex(all) ensures e.index < |jobIds| {
      assert e in all;
    }
    hide OneOutcome, SortByIndex;
  }

  /** The result of a settled pool gives every payload exactly one outcome, with the failures in order. */
  lemma EveryPayloadIsAccounted(sizes: seq<nat>, chunks: seq<seq<nat>>, actions: seq<Action>)
    requires Partition(sizes, |sizes|, chunks)
    ensures FullyAccounted(|sizes|, ResultOf(Run(Pool(chunks, |sizes|), actions)))
  {
    RunFromPool(sizes, chunks, actions);
    var t := Run(Pool(chunks, |sizes|), actions);
    hide Run, Filled, Missing, SortByIndex, OneOutcome;
    FilledByMissing(t.jobIds, t.failed, |t.jobIds|);
    FilledIsAccounted(t.jobIds, t.failed, AllFailures(t));
  }

  function IdsOf(r: Result): seq<Option<Id>> {
    match r
    case Submitted(jobIds) => jobIds
    case BatchSubmitFailed(jobIds, _) => jobIds
    case _ => []
  }

  function FailuresOf(r: Result): seq<Failure> {
    if r.BatchSubmitFailed? then r.failed else []
  }

  /** Some action of the run gave the payload this outcome. */
  ghost predicate GivenIn(s: Sys, actions: seq<Action>, x: nat, v: Verdict) {
    exists k: nat :: GivesAt(s, actions, k, x, v)
  }

  ghost predicate GotAnId(s: Sys, actions: seq<Action>, x: nat) {
    exists id :: GivenIn(s, actions, x, Queued(id))
  }

  /** No action of the run gave the payload any outcome. */
  ghost predicate Unanswered(s: Sys, actions: seq<Action>, x: nat) {
    forall v: Verdict :: !GivenIn(s, actions, x, v)
  }

  /**
   The result tells what happened: an id is reported if and only if the run gave it, a failure if and only
   if the run gave it or, as `MissingResult`, if the run gave the payload nothing.
  */
  ghost predicate Truthful(n: nat, s: Sys, actions: seq<Action>, r: Result) {
    && |IdsOf(r)| == n
    && (forall x: nat, id: Id | x < n :: IdsOf(r)[x] == Some(id) <==> GivenIn(s, actions, x, Queued(id)))
    && (forall x: nat, code: Code | x < n ::
          Failure(x, code) in FailuresOf(r) <==>
            GivenIn(s, actions, x, Lost(code)) || (code == MissingResult && Unanswered(s, actions, x)))
    && (r.Submitted? <==> forall x: nat | x < n :: GotAnId(s, actions, x))
  }

  lemma {:induction false} MissingMembers(jobIds: seq<Option<Id>>, failed: seq<Failure>, n: nat, e: Failure)
    requires n <= |jobIds|
    ensures e in Missing(jobIds, failed, n) <==>
              e.index < n && e.code == MissingResult && jobIds[e.index].None? && !Listed(failed, e.index)
  {
    hide Listed;
    if n == 0 {
    } else {
      MissingMembers(jobIds, failed, n - 1, e);
    }
  }

  lemma AllFailuresAreDistinct(t: Sys)
    requires AtMostOnce(t.jobIds, t.failed)
    ensures Distinct(AllFailures(t))
  {
    hide Listed, Missing;
    FilledByMissing(t.jobIds, t.failed, |t.jobIds|);
  }

  lemma ResultHolds(t: Sys, e: Failure)
    requires AtMostOnce(t.jobIds, t.failed)
    ensures IdsOf(ResultOf(t)) == t.jobIds
    ensures e in FailuresOf(ResultOf(t)) <==>
              e in t.failed
              || (e.index < |t.jobIds| && e.code == MissingResult && t.jobIds[e.index].None? && !Listed(t.failed, e.index))
  {
    AllFailuresAreDistinct(t);
    SortSorts(AllFailures(t));
    MissingMembers(t.jobIds, t.failed, |t.jobIds|, e);
    hide Missing, Listed, AtMostOnce, Distinct, Ascending, SortByIndex;
  }

  /** A payload nobody answered for is one with neither an id nor a failure. */
  lemma UnansweredIff(sizes: seq<nat>, chunks: seq<seq<nat>>, actions: seq<Action>, x: nat)
    requires Partition(sizes, |sizes|, chunks) && x < |sizes|
    ensures var t := Run(Pool(chunks, |sizes|), actions);
            |t.jobIds| == |sizes| &&
            (Unanswered(Pool(chunks, |sizes|), actions, x) <==> t.jobIds[x].None? && !Listed(t.failed, x))
  {
    RunFromPool(sizes, chunks, actions);
    var t := Run(Pool(chunks, |sizes|), actions);
    hide Run, GivesAt, Inv;
    forall v ensures Has(t, x, v) <==> GivenIn(Pool(chunks, |sizes|), actions, x, v) {
      OutcomesAreThoseOfTheRun(sizes, chunks, actions, x, v);
    }
    if t.jobIds[x].Some? { assert Has(t, x, Queued(t.jobIds[x].value)); }
    if Listed(t.failed, x) {
      var j :| 0 <= j < |t.failed| && t.failed[j].index == x;
      assert t.failed[j] == Failure(x, t.failed[j].code);
      assert Has(t, x, Lost(t.failed[j].code));
    }
  }

  lemma IdsAreThoseOfTheRun(sizes: seq<nat>, chunks: seq<seq<nat>>, actions: seq<Action>, x: nat, id: Id)
    requires Partition(sizes, |sizes|, chunks) && x < |sizes|
    ensures var t := Run(Pool(chunks, |sizes|), actions);
            |t.jobIds| == |sizes| && (t.jobIds[x] == Some(id) <==> GivenIn(Pool(chunks, |sizes|), actions, x, Queued(id)))
  {
    RunFromPool(sizes, chunks, actions);
    OutcomesAreThoseOfTheRun(sizes, chunks, actions, x, Queued(id));
  }

  lemma FailuresAreThoseOfTheRun(sizes: seq<nat>, chunks: seq<seq<nat>>, actions: seq<Action>, x: nat, code: Code)
    requires Partition(sizes, |sizes|, chunks) && x < |sizes|
    ensures var s := Pool(chunks, |sizes|);
            Failure(x, code) in FailuresOf(ResultOf(Run(s, actions))) <==>
              GivenIn(s, actions, x, Lost(code)) || (code == MissingResult && Unanswered(s, actions, x))
  {
    var t := Run(Pool(chunks, |sizes|), actions);
    RunFromPool(sizes, chunks, actions);
    OutcomesAreThoseOfTheRun(sizes, chunks, actions, x, Lost(code));
    UnansweredIff(sizes, chunks, actions, x);
    hide Run, GivesAt, Unanswered, ResultOf, FailuresOf;
    ResultHolds(t, Failure(x, code));
  }

  /** The result of a settled pool tells what its run gave each payload, nothing else and nothing less. */
  lemma TheResultIsTruthful(sizes: seq<nat>, chunks: seq<seq<nat>>, actions: seq<Action>)
    requires Partition(sizes, |sizes|, chunks)
    ensures Truthful(|sizes|, Pool(chunks, |sizes|), actions, ResultOf(Run(Pool(chunks, |sizes|), actions)))
  {
    var s := Pool(chunks, |sizes|);
    var t := Run(s, actions);
    var r := ResultOf(t);
    RunFromPool(sizes, chunks, actions);
    EveryPayloadIsAccounted(sizes, chunks, actions);
    ResultHolds(t, Failure(0, MissingResult));
    hide Run, GivenIn, Unanswered, Pool, AllFailures;
    forall x: nat, id: Id | x < |sizes| ensures IdsOf(r)[x] == Some(id) <==> GivenIn(s, actions, x, Queued(id)) {
      IdsAreThoseOfTheRun(sizes, chunks, actions, x, id);
    }
    forall x: nat, code: Code | x < |sizes|
      ensures Failure(x, code) in FailuresOf(r) <==>
                GivenIn(s, actions, x, Lost(code)) || (code == MissingResult && Unanswered(s, actions, x))
    {
      FailuresAreThoseOfTheRun(sizes, chunks, actions, x, code);
    }
    SubmittedIff(|sizes|, r);
    AllGotIdsIff(|sizes|, s, actions, r);
  }

  lemma AllGotIdsIff(n: nat, s: Sys, actions: seq<Action>, r: Result)
    requires |IdsOf(r)| == n
    requires forall x: nat, id: Id | x < n :: IdsOf(r)[x] == Some(id) <==> GivenIn(s, actions, x, Queued(id))
    ensures (forall x | 0 <= x < n :: IdsOf(r)[x].Some?) <==> forall x: nat | x < n :: GotAnId(s, actions, x)
  {
    hide GivenIn, IdsOf;
    forall x: nat | x < n ensures IdsOf(r)[x].Some? <==> GotAnId(s, actions, x) {
      if IdsOf(r)[x].Some? { assert IdsOf(r)[x] == Some(IdsOf(r)[x].value); }
    }
  }

  lemma SubmittedIff(n: nat, r: Result)
    requires FullyAccounted(n, r) && (r.Submitted? || r.BatchSubmitFailed?)
    ensures |IdsOf(r)| == n && (r.Submitted? <==> forall x | 0 <= x < n :: IdsOf(r)[x].Some?)
  {
    if r.BatchSubmitFailed? {
      assert OneOutcome(r.jobIds, r.failed, r.failed[0].index);
    }
  }

  /**
   `submitBatch` on bodies of the given sizes, under any schedule of the workers and any answers.
   `Unsettled` stands for a schedule that stops before every worker has finished. Otherwise the
   result is that of the pool's final state: its ids, its failures and the unanswered payloads.
  */
  method SubmitBatch(sizes: seq<nat>, schedule: seq<Action>) returns (r: Result, ghost chunks: seq<seq<nat>>)
    ensures r == BatchEmpty <==> |sizes| == 0
    ensures r == BatchTooLarge <==> |sizes| > MAX_BATCH_PAYLOADS
    ensures r == PayloadTooLarge <==>
              0 < |sizes| <= MAX_BATCH_PAYLOADS && exists i :: 0 <= i < |sizes| && sizes[i] > MAX_PAYLOAD_BYTES
    ensures FullyAccounted(|sizes|, r)
    ensures r.Submitted? || r.BatchSubmitFailed? || r.Unsettled? ==>
              && Partition(sizes, |sizes|, chunks) && Greedy(sizes, chunks)
              && var t := Run(Pool(chunks, |sizes|), schedule);
                 r == if AllFinished(t) then ResultOf(t) else Unsettled
    ensures r.Submitted? || r.BatchSubmitFailed? ==> Truthful(|sizes|, Pool(chunks, |sizes|), schedule, r)
  {
    chunks := [];
    if |sizes| == 0 {
      return BatchEmpty, chunks;
    }
    if |sizes| > MAX_BATCH_PAYLOADS {
      return BatchTooLarge, chunks;
    }
    for i := 0 to |sizes|
      invariant forall j | 0 <= j < i :: sizes[j] <= MAX_PAYLOAD_BYTES
    {
      if sizes[i] > MAX_PAYLOAD_BYTES {
        return PayloadTooLarge, chunks;
      }
    }
    var groups := ChunkBatch(sizes);
    chunks := groups;
    r := SendChunks(sizes, groups, schedule);
    hide Run, ResultOf, Truthful, GivesAt;
    TheResultIsTruthful(sizes, groups, schedule);
  }

  /** The rest of `submitBatch`: run the pool, fill in missing results, sort, and return or throw. */
  method SendChunks(sizes: seq<nat>, chunks: seq<seq<nat>>, schedule: seq<Action>) returns (r: Result)
    requires |sizes| > 0 && Partition(sizes, |sizes|, chunks)
    ensures var t := Run(Pool(chunks, |sizes|), schedule);
            r == if AllFinished(t) then ResultOf(t) else Unsettled
    ensures FullyAccounted(|sizes|, r)
  {
    hide Step;
    var sender := new Sender(chunks, |sizes|);
    for i := 0 to |schedule|
      invariant sender.View() == Run(Pool(chunks, |sizes|), schedule[..i])
    {
      sender.Take(schedule[i]);
      assert schedule[..i + 1][..i] == schedule[..i];
    }
    assert schedule[..|schedule|] == schedule;
    EveryPayloadIsAccounted(sizes, chunks, schedule);
    hide Run, Missing, SortByIndex, FullyAccounted;
    if exists w :: 0 <= w < |sender.workers| && !sender.workers[w].Finished? {
      return Unsettled;
    }
    sender.FillMissing();
    if |sender.failed| > 0 {
      return BatchSubmitFailed(sender.jobIds, SortByIndex(sender.failed));
    }
    return Submitted(sender.jobIds);
  }
}
