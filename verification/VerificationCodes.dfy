/**
 One-time verification codes of AuthBasic: `generateCode` and `verifyCode` on one
 `purpose:username` key of the shared `codes` store.

 Any number of requests run at once. Every store operation is atomic, reads may be stale,
 and the environment may act between any two operations of a request. A run is a
 sequence of actions; an action that is not enabled leaves the state unchanged, so every
 sequence of actions is a run and the theorems quantify over all of them.
*/
module VerificationCodes {
  import opened Maybe
  import Collections
  import Runs

  const MAX_CODE_ATTEMPTS: nat := 5
  const CODE_TTL_MS: int := 600_000

  type Pid = nat
  type Code = string

  /** The keyed digest of a code, abstracted as an injective function of the code. */
  datatype Digest = Digest(code: Code)

  /** A stored row. Rows written before attempts were counted carry no `attempts` field. */
  datatype Row = Row(hmac: Digest, expires: int, attempts: Option<nat>)

  function Spent(r: Row): nat {
    if r.attempts.Some? then r.attempts.value else 0
  }

  function Reserved(r: Row): Row {
    r.(attempts := Some(Spent(r) + 1))
  }

  predicate Unusable(r: Row, now: int) {
    now > r.expires || Spent(r) >= MAX_CODE_ATTEMPTS
  }

  /** The store's own time-to-live, in whole seconds. */
  predicate TtlPassed(r: Row, now: int) {
    r.expires / 1000 <= now / 1000
  }

  /**
   Where a request stands between two store operations. `origin` and `at` number the issuance
   whose row was reserved and whose row `current` was; they and `retries` are bookkeeping for
   the theorems, the request itself never looks at them.
  */
  datatype Pc =
    | Cleaning(seen: Row)
    | Reserving(guess: Code, seen: Row)
    | Evaluating(guess: Code, reserved: Row, origin: nat)
    | Consuming(guess: Code, current: Row, origin: nat, at: nat, retries: nat)
    | Rereading(guess: Code, current: Row, origin: nat, at: nat, retries: nat)
    | Accepted(guess: Code, issue: nat)
    | Rejected
    | Faulted

  /**
   The store row, every row it ever held, the requests, and the history: for each issuance its
   code, the requests that reserved an attempt on it, and those whose guess was evaluated.
  */
  datatype Sys = Sys(
    now: int,
    row: Option<Row>,
    past: set<Row>,
    reqs: map<Pid, Pc>,
    codes: seq<Code>,
    holders: seq<set<Pid>>,
    tested: seq<set<Pid>>)

  datatype Action =
    | Tick(ms: nat)
    | Reap
    | Issue(code: Code)
    | Begin(p: Pid, guess: Code, seen: Option<Row>)
    | CleanUp(p: Pid)
    | Reserve(p: Pid)
    | Evaluate(p: Pid)
    | Consume(p: Pid)
    | Reread(p: Pid, seen: Option<Row>)
    | Fault(p: Pid)

  /** A store that holds nothing, or one row from before attempts were counted. */
  ghost predicate Start(s: Sys) {
    && s.reqs == map[]
    && (s.row.None? ==> s.past == {} && s.codes == [] && s.holders == [] && s.tested == [])
    && (s.row.Some? ==>
          && s.row.value.attempts.None?
          && s.past == {s.row.value}
          && s.codes == [s.row.value.hmac.code]
          && s.holders == [{}] && s.tested == [{}])
  }

  function To(s: Sys, p: Pid, pc: Pc): Sys {
    s.(reqs := s.reqs[p := pc])
  }

  /** What the read's answer means: absent, dead, or a row worth an attempt. */
  function AfterRead(guess: Code, seen: Option<Row>, now: int): Pc {
    match seen
    case None => Rejected
    case Some(r) => if Unusable(r, now) then Cleaning(r) else Reserving(guess, r)
  }

  function AfterReread(pc: Pc, seen: Option<Row>, newest: nat): Pc
    requires pc.Rereading?
  {
    match seen
    case None => Rejected
    case Some(r) =>
      if r.hmac != pc.current.hmac then Rejected
      else Consuming(pc.guess, r, pc.origin, newest, pc.retries + 1)
  }

  function Newest(s: Sys): nat {
    if s.codes == [] then 0 else |s.codes| - 1
  }

  function Step(s: Sys, a: Action): Sys {
    match a
    case Tick(ms) => s.(now := s.now + ms)
    case Reap =>
      if s.row.Some? && TtlPassed(s.row.value, s.now) then s.(row := None) else s
    case Issue(code) =>
      var r := Row(Digest(code), s.now + CODE_TTL_MS, Some(0));
      s.(row := Some(r), past := s.past + {r}, codes := s.codes + [code],
         holders := s.holders + [{}], tested := s.tested + [{}])
    case Begin(p, guess, seen) =>
      if p in s.reqs || (seen.Some? && seen.value !in s.past) then s
      else To(s, p, AfterRead(guess, seen, s.now))
    case CleanUp(p) =>
      if p in s.reqs && s.reqs[p].Cleaning? then
        To(if s.row == Some(s.reqs[p].seen) then s.(row := None) else s, p, Rejected)
      else s
    case Reserve(p) =>
      if p in s.reqs && s.reqs[p].Reserving? then
        var pc := s.reqs[p];
        if s.row == Some(pc.seen) && Newest(s) < |s.holders| then
          var r := Reserved(pc.seen);
          var n := Newest(s);
          To(s.(row := Some(r), past := s.past + {r}, holders := s.holders[n := s.holders[n] + {p}]),
             p, Evaluating(pc.guess, r, n))
        else To(s, p, Rejected)
      else s
    case Evaluate(p) =>
      if p in s.reqs && s.reqs[p].Evaluating? then
        var pc := s.reqs[p];
        var t := if pc.origin < |s.tested|
                 then s.(tested := s.tested[pc.origin := s.tested[pc.origin] + {p}]) else s;
        To(t, p, if pc.reserved.hmac == Digest(pc.guess)
                 then Consuming(pc.guess, pc.reserved, pc.origin, pc.origin, 0) else Rejected)
      else s
    case Consume(p) =>
      if p in s.reqs && s.reqs[p].Consuming? then
        var pc := s.reqs[p];
        if s.row == Some(pc.current) then
          To(s.(row := None), p, Accepted(pc.guess, Newest(s)))
        else To(s, p, Rereading(pc.guess, pc.current, pc.origin, pc.at, pc.retries))
      else s
    case Reread(p, seen) =>
      if p in s.reqs && s.reqs[p].Rereading? && (seen.Some? ==> seen.value in s.past) then
        To(s, p, AfterReread(s.reqs[p], seen, Newest(s)))
      else s
    case Fault(p) =>
      if p in s.reqs && !s.reqs[p].Accepted? && !s.reqs[p].Rejected? then To(s, p, Faulted) else s
  }

  function Run(s: Sys, actions: seq<Action>): Sys {
    Runs.Run(Step, s, actions)
  }

  // ---------------------------------------------------------------- the invariant

  ghost predicate HistoryOk(s: Sys) {
    && |s.holders| == |s.tested| == |s.codes|
    && (forall k | 0 <= k < |s.codes| ::
          && s.tested[k] <= s.holders[k]
          && |s.holders[k]| <= MAX_CODE_ATTEMPTS)
  }

  /** The row always belongs to the newest issuance, counts its attempts and is not yet won. */
  ghost predicate RowOk(s: Sys) {
    s.row.Some? ==>
      && 0 < |s.codes| == |s.holders|
      && s.row.value in s.past
      && s.row.value.hmac == Digest(s.codes[Newest(s)])
      && |s.holders[Newest(s)]| == Spent(s.row.value)
      && forall p <- s.reqs :: s.reqs[p].Accepted? ==> s.reqs[p].issue != Newest(s)
  }

  /** The request may still take its one reservation. */
  predicate Early(pc: Pc) {
    pc.Reserving?
  }

  ghost predicate PcOk(s: Sys, p: Pid, pc: Pc) {
    && (Early(pc) ==> forall k | 0 <= k < |s.holders| :: p !in s.holders[k])
    && match pc
       case Cleaning(r) => Unusable(r, s.now)
       case Reserving(_, r) => Spent(r) < MAX_CODE_ATTEMPTS
       case Evaluating(_, r, origin) =>
         && Spent(r) > 0
         && origin < |s.codes| == |s.holders|
         && r.hmac == Digest(s.codes[origin])
         && p in s.holders[origin]
       case Consuming(guess, r, _, _, _) => r.hmac == Digest(guess)
       case Rereading(guess, r, _, _, _) => r.hmac == Digest(guess)
       case Accepted(guess, k) => k < |s.codes| && s.codes[k] == guess
       case _ => true
  }

  ghost predicate PcsOk(s: Sys) {
    && (forall p <- s.reqs :: PcOk(s, p, s.reqs[p]))
    && (forall k, p | 0 <= k < |s.holders| && p in s.holders[k] :: p in s.reqs)
  }

  /** No issuance is accepted twice. */
  ghost predicate OneWinnerEach(s: Sys) {
    forall p <- s.reqs, q <- s.reqs ::
      s.reqs[p].Accepted? && s.reqs[q].Accepted? && s.reqs[p].issue == s.reqs[q].issue ==> p == q
  }

  ghost predicate Inv(s: Sys) {
    HistoryOk(s) && RowOk(s) && PcsOk(s) && OneWinnerEach(s)
  }

  /** Changing one request to a sound position that accepts nothing keeps the invariant. */
  lemma MoveKeepsInv(s: Sys, p: Pid, pc: Pc)
    requires Inv(s) && PcOk(s, p, pc) && !pc.Accepted?
    ensures Inv(To(s, p, pc))
  {
    var t := To(s, p, pc);
    forall q <- t.reqs ensures PcOk(t, q, t.reqs[q]) {
      if q != p { assert PcOk(s, q, s.reqs[q]); }
    }
  }

  lemma TickKeepsInv(s: Sys, ms: nat)
    requires Inv(s)
    ensures Inv(Step(s, Tick(ms)))
  {
    var t := Step(s, Tick(ms));
    forall q <- t.reqs ensures PcOk(t, q, t.reqs[q]) {
      assert PcOk(s, q, s.reqs[q]);
    }
  }

  lemma RemovalKeepsInv(s: Sys)
    requires Inv(s)
    ensures Inv(s.(row := None))
  {
    var t := s.(row := None);
    forall q <- t.reqs ensures PcOk(t, q, t.reqs[q]) {
      assert PcOk(s, q, s.reqs[q]);
    }
  }

  lemma IssueKeepsInv(s: Sys, code: Code)
    requires Inv(s)
    ensures Inv(Step(s, Issue(code)))
  {
    var t := Step(s, Issue(code));
    var n := |s.codes|;
    assert t.holders[n] == {} && t.tested[n] == {};
    forall k | 0 <= k < n
      ensures t.holders[k] == s.holders[k] && t.tested[k] == s.tested[k] && t.codes[k] == s.codes[k]
    {
    }
    forall q <- t.reqs ensures PcOk(t, q, t.reqs[q]) {
      assert PcOk(s, q, s.reqs[q]);
    }
  }

  /** The reservation itself: the row's count and the number of holders advance together. */
  lemma HoldKeepsInv(s: Sys, p: Pid)
    requires Inv(s) && p in s.reqs && s.reqs[p].Reserving? && s.row == Some(s.reqs[p].seen)
    ensures Inv(Step(s, Action.Reserve(p)))
  {
    var pc := s.reqs[p];
    assert PcOk(s, p, pc);
    var n := Newest(s);
    var t := Step(s, Action.Reserve(p));
    assert t.holders[n] == s.holders[n] + {p};
    assert |t.holders[n]| == |s.holders[n]| + 1;
    assert t.reqs[p] == Evaluating(pc.guess, Reserved(pc.seen), n);
    forall q <- t.reqs ensures PcOk(t, q, t.reqs[q]) {
      if q != p {
        assert t.reqs[q] == s.reqs[q] && PcOk(s, q, s.reqs[q]);
      }
    }
    assert HistoryOk(t) && RowOk(t) && OneWinnerEach(t);
  }

  lemma EvaluateKeepsInv(s: Sys, p: Pid)
    requires Inv(s)
    ensures Inv(Step(s, Action.Evaluate(p)))
  {
    if p in s.reqs && s.reqs[p].Evaluating? {
      var pc := s.reqs[p];
      assert PcOk(s, p, pc);
      var k := pc.origin;
      var t := s.(tested := s.tested[k := s.tested[k] + {p}]);
      forall q <- t.reqs ensures PcOk(t, q, t.reqs[q]) {
        assert PcOk(s, q, s.reqs[q]);
      }
      MoveKeepsInv(t, p, Step(s, Action.Evaluate(p)).reqs[p]);
    }
  }

  lemma ConsumeKeepsInv(s: Sys, p: Pid)
    requires Inv(s)
    ensures Inv(Step(s, Consume(p)))
  {
    if p in s.reqs && s.reqs[p].Consuming? {
      var pc := s.reqs[p];
      assert PcOk(s, p, pc);
      if s.row == Some(pc.current) {
        var t := Step(s, Consume(p));
        forall q <- t.reqs ensures PcOk(t, q, t.reqs[q]) {
          if q != p { assert PcOk(s, q, s.reqs[q]); }
        }
        assert OneWinnerEach(t);
      } else {
        MoveKeepsInv(s, p, Rereading(pc.guess, pc.current, pc.origin, pc.at, pc.retries));
      }
    }
  }

  lemma BeginKeepsInv(s: Sys, p: Pid, guess: Code, seen: Option<Row>)
    requires Inv(s)
    ensures Inv(Step(s, Begin(p, guess, seen)))
  {
    if Step(s, Begin(p, guess, seen)) != s {
      MoveKeepsInv(s, p, AfterRead(guess, seen, s.now));
    }
  }

  lemma StepKeepsInv(s: Sys, a: Action)
    requires Inv(s)
    ensures Inv(Step(s, a))
  {
    match a
    case Tick(ms) => TickKeepsInv(s, ms);
    case Reap => RemovalKeepsInv(s);
    case Issue(code) => IssueKeepsInv(s, code);
    case Begin(p, guess, seen) => BeginKeepsInv(s, p, guess, seen);
    case CleanUp(p) =>
      RemovalKeepsInv(s);
      MoveKeepsInv(s, p, Rejected);
      MoveKeepsInv(s.(row := None), p, Rejected);
    case Reserve(p) =>
      if p in s.reqs && s.reqs[p].Reserving? {
        if s.row == Some(s.reqs[p].seen) { HoldKeepsInv(s, p); } else { MoveKeepsInv(s, p, Rejected); }
      }
    case Evaluate(p) => EvaluateKeepsInv(s, p);
    case Consume(p) => ConsumeKeepsInv(s, p);
    case Reread(p, seen) =>
      if p in s.reqs && s.reqs[p].Rereading? {
        assert PcOk(s, p, s.reqs[p]);
        MoveKeepsInv(s, p, AfterReread(s.reqs[p], seen, Newest(s)));
      }
    case Fault(p) => MoveKeepsInv(s, p, Faulted);
  }

  lemma RunFromStart(s: Sys, actions: seq<Action>)
    requires Start(s)
    ensures Inv(Run(s, actions))
  {
    forall t, a | Inv(t) ensures Inv(Step(t, a)) { StepKeepsInv(t, a); }
    Runs.Keeps(Step, Inv, s, actions);
  }

  // ------------------------------------------------------------------ theorems

  /** Whatever the interleaving and however stale the reads, five guesses per code is the limit. */
  lemma AtMostFiveGuessesPerCode(s: Sys, actions: seq<Action>, k: nat)
    requires Start(s) && k < |Run(s, actions).codes|
    ensures k < |Run(s, actions).tested| && |Run(s, actions).tested[k]| <= MAX_CODE_ATTEMPTS
  {
    RunFromStart(s, actions);
    var t := Run(s, actions);
    assert HistoryOk(t) && t.tested[k] <= t.holders[k];
    Collections.SubsetSize(t.tested[k], t.holders[k]);
  }

  /** A request is accepted only with the code of an issuance that no other request won. */
  lemma EachCodeAcceptedAtMostOnce(s: Sys, actions: seq<Action>, p: Pid, q: Pid)
    requires Start(s)
    ensures var t := Run(s, actions);
            && (p in t.reqs && t.reqs[p].Accepted? ==>
                  t.reqs[p].issue < |t.codes| && t.codes[t.reqs[p].issue] == t.reqs[p].guess)
            && (p in t.reqs && q in t.reqs && p != q && t.reqs[p].Accepted? && t.reqs[q].Accepted? ==>
                  t.reqs[p].issue != t.reqs[q].issue)
  {
    RunFromStart(s, actions);
    var t := Run(s, actions);
    assert p in t.reqs ==> PcOk(t, p, t.reqs[p]);
  }

  function Winners(s: Sys): set<Pid> {
    set p <- s.reqs | s.reqs[p].Accepted?
  }

  lemma SuccessesNeverOutnumberIssuances(s: Sys, actions: seq<Action>)
    requires Start(s)
    ensures |Winners(Run(s, actions))| <= |Run(s, actions).codes|
  {
    RunFromStart(s, actions);
    var t := Run(s, actions);
    assert forall p <- t.reqs :: PcOk(t, p, t.reqs[p]);
    var won := map p <- t.reqs | t.reqs[p].Accepted? :: t.reqs[p].issue;
    Collections.InjectionBound(Winners(t), won, |t.codes|);
  }

  /**
   Only an issuance puts a row into an empty store: no late verifier resurrects a deleted row.
   A row leaves the store only because a request presented its code, or because it was unusable.
  */
  lemma RowsComeFromIssuesAndLeaveForAReason(start: Sys, actions: seq<Action>, a: Action)
    requires Start(start)
    ensures var s, t := Run(start, actions), Step(Run(start, actions), a);
            && (s.row.None? && t.row.Some? ==> a.Issue?)
            && (s.row.Some? && t.row.None? ==>
                  || (a.Consume? && a.p in t.reqs && t.reqs[a.p].Accepted?
                      && s.row.value.hmac == Digest(t.reqs[a.p].guess))
                  || s.row.value.expires < s.now || Spent(s.row.value) >= 5
                  || s.row.value.expires / 1000 <= s.now / 1000)
            && (a.Reap? ==> t.row == if s.row.Some? && s.row.value.expires / 1000 <= s.now / 1000 then None else s.row)
            && (a.Consume? && a.p in s.reqs && !s.reqs[a.p].Accepted? && t.reqs[a.p].Accepted? ==>
                  s.row.Some? && t.row.None?)
  {
    RunFromStart(start, actions);
    var s := Run(start, actions);
    hide Run;
    if (a.Consume? || a.CleanUp?) && a.p in s.reqs {
      assert PcOk(s, a.p, s.reqs[a.p]);
    }
  }

  // ----------------------------------------------- the consume loop ends with fresh reads

  /** Every re-read returns the store's current row. */
  ghost predicate FreshReread(s: Sys, a: Action) {
    a.Reread? ==> a.seen == s.row
  }

  ghost predicate FreshRun(s: Sys, actions: seq<Action>) {
    Runs.Always(Step, FreshReread, s, actions)
  }

  /** The row that a retrying request read is still there, or the store has moved on from it. */
  ghost predicate Behind(s: Sys, current: Row, at: nat) {
    || at < Newest(s)
    || s.row.None?
    || Spent(current) < Spent(s.row.value)
  }

  ghost predicate RetryOk(s: Sys, pc: Pc) {
    match pc
    case Evaluating(_, r, origin) =>
      && origin < |s.codes| && 1 <= Spent(r) <= MAX_CODE_ATTEMPTS && (s.row == Some(r) || Behind(s, r, origin))
    case Consuming(_, r, origin, at, n) =>
      && origin <= at < |s.codes| && Spent(r) <= MAX_CODE_ATTEMPTS
      && n + 1 <= 6 * (at - origin) + Spent(r)
      && (s.row == Some(r) || Behind(s, r, at))
    case Rereading(_, r, origin, at, n) =>
      && origin <= at < |s.codes| && Spent(r) <= MAX_CODE_ATTEMPTS
      && n + 1 <= 6 * (at - origin) + Spent(r)
      && Behind(s, r, at)
    case _ => true
  }

  ghost predicate RetriesOk(s: Sys) {
    forall p <- s.reqs :: RetryOk(s, s.reqs[p])
  }

  /** The store only moves forward, so a request that is behind stays behind. */
  lemma BehindStays(s: Sys, a: Action, r: Row, at: nat)
    requires Inv(s) && at <= Newest(s) && (s.row == Some(r) || Behind(s, r, at))
    requires |s.codes| > 0
    ensures at <= Newest(Step(s, a))
    ensures Step(s, a).row == Some(r) || Behind(Step(s, a), r, at)
    ensures Behind(s, r, at) ==> Behind(Step(s, a), r, at)
  {
    if a.Reserve? && a.p in s.reqs { assert PcOk(s, a.p, s.reqs[a.p]); }
  }

  lemma RetriesStep(s: Sys, a: Action)
    requires Inv(s) && RetriesOk(s) && FreshReread(s, a)
    ensures RetriesOk(Step(s, a))
  {
    var t := Step(s, a);
    forall p <- t.reqs ensures RetryOk(t, t.reqs[p]) {
      if p in s.reqs {
        assert RetryOk(s, s.reqs[p]) && PcOk(s, p, s.reqs[p]);
        RetryStep(s, a, p);
      }
    }
  }

  /** A request that does not move keeps its bound. */
  lemma BystanderRetry(s: Sys, a: Action, p: Pid)
    requires Inv(s) && p in s.reqs && RetryOk(s, s.reqs[p]) && Step(s, a).reqs[p] == s.reqs[p]
    ensures RetryOk(Step(s, a), s.reqs[p])
  {
    match s.reqs[p]
    case Evaluating(_, r, origin) => BehindStays(s, a, r, origin);
    case Consuming(_, r, _, at, _) => BehindStays(s, a, r, at);
    case Rereading(_, r, _, at, _) => BehindStays(s, a, r, at);
    case _ =>
  }

  lemma RetryStep(s: Sys, a: Action, p: Pid)
    requires Inv(s) && FreshReread(s, a) && p in s.reqs && RetryOk(s, s.reqs[p])
    ensures RetryOk(Step(s, a), Step(s, a).reqs[p])
  {
    if Step(s, a).reqs[p] == s.reqs[p] {
      BystanderRetry(s, a, p);
    } else {
      assert PcOk(s, p, s.reqs[p]) && HistoryOk(s);
    }
  }

  /**
   With fresh re-reads a right guess retries its delete at most four times while its code stays
   the newest one, and at most six times more for each code issued in between.
  */
  lemma ConsumeLoopIsBounded(s: Sys, actions: seq<Action>, p: Pid)
    requires Start(s) && FreshRun(s, actions)
    ensures var t := Run(s, actions);
            p in t.reqs && (t.reqs[p].Consuming? || t.reqs[p].Rereading?) ==>
              && t.reqs[p].origin <= Newest(t)
              && t.reqs[p].retries <= 4 + 6 * (Newest(t) - t.reqs[p].origin)
  {
    var inv := (t: Sys) => Inv(t) && RetriesOk(t);
    forall t, a | inv(t) && FreshReread(t, a) ensures inv(Step(t, a)) {
      StepKeepsInv(t, a);
      RetriesStep(t, a);
    }
    Runs.KeepsWhen(Step, FreshReread, inv, s, actions);
  }

  // -------------------------------------------------------- what an undisturbed request does

  /** A request running alone on a live row: the right code is accepted and consumed, a wrong one costs one attempt. */
  lemma AloneOnLiveRow(s: Sys, p: Pid, guess: Code)
    requires Newest(s) < |s.holders| && s.row.Some? && s.row.value in s.past && p !in s.reqs
    requires s.now <= s.row.value.expires && Spent(s.row.value) <= 4
    ensures var r := s.row.value;
            var t := Step(Step(Step(Step(s, Begin(p, guess, s.row)), Reserve(p)), Evaluate(p)), Consume(p));
            if r.hmac == Digest(guess) then t.row == None && t.reqs[p] == Accepted(guess, Newest(s))
            else t.row == Some(r.(attempts := Some(Spent(r) + 1))) && t.reqs[p] == Rejected
  {
    var r := s.row.value;
    var s2 := Step(Step(s, Begin(p, guess, s.row)), Reserve(p));
    assert s2.row == Some(Reserved(r)) && s2.codes == s.codes
        && s2.reqs[p] == Evaluating(guess, Reserved(r), Newest(s));
  }

  lemma AloneOnDeadRow(s: Sys, p: Pid, guess: Code)
    requires s.row.Some? && s.row.value in s.past && p !in s.reqs
    requires s.row.value.expires < s.now || Spent(s.row.value) >= 5
    ensures var t := Step(Step(s, Begin(p, guess, s.row)), CleanUp(p));
            t.row == None && t.reqs[p] == Rejected
  {
  }

  // ------------------------------------------------------- how long a code is good, by the clock

  /** A whole request that reads the stored row, and that nobody disturbs. */
  function WholeRequest(p: Pid, guess: Code, seen: Option<Row>): seq<Action> {
    [Begin(p, guess, seen), Action.Reserve(p), Action.Evaluate(p), Consume(p), CleanUp(p)]
  }

  function Guess(s: Sys, p: Pid, guess: Code): Sys {
    Run(s, WholeRequest(p, guess, s.row))
  }

  lemma FiveSteps(s: Sys, a: Action, b: Action, c: Action, d: Action, e: Action)
    ensures Run(s, [a, b, c, d, e]) == Step(Step(Step(Step(Step(s, a), b), c), d), e)
  {
    hide Step;
    Runs.Snoc(Step, s, [], a);
    Runs.Snoc(Step, s, [a], b);
    Runs.Snoc(Step, s, [a, b], c);
    Runs.Snoc(Step, s, [a, b, c], d);
    Runs.Snoc(Step, s, [a, b, c, d], e);
    assert [] + [a] == [a] && [a] + [b] == [a, b] && [a, b] + [c] == [a, b, c];
    assert [a, b, c] + [d] == [a, b, c, d] && [a, b, c, d] + [e] == [a, b, c, d, e];
  }

  /** Ten minutes in milliseconds, and five attempts, in plain numbers. */
  predicate Good(r: Row, now: int) {
    now <= r.expires && (r.attempts.None? || r.attempts.value <= 4)
  }

  /** Where a whole request leaves the row and itself. */
  ghost predicate Guessed(s: Sys, p: Pid, guess: Code, t: Sys) {
    && t.now == s.now && t.codes == s.codes && |t.holders| == |s.holders| && t.reqs.Keys == s.reqs.Keys + {p}
    && (t.row.Some? ==> t.row.value in t.past)
    && if s.row.None? then t.row == None && t.reqs[p] == Rejected
       else if !Good(s.row.value, s.now) then t.row == None && t.reqs[p] == Rejected
       else if s.row.value.hmac == Digest(guess) then t.row == None && t.reqs[p].Accepted?
       else t.row == Some(Reserved(s.row.value)) && t.reqs[p] == Rejected
  }

  lemma GuessSays(s: Sys, p: Pid, guess: Code)
    requires p !in s.reqs && (s.row.Some? ==> s.row.value in s.past && Newest(s) < |s.holders|)
    ensures Guessed(s, p, guess, Guess(s, p, guess))
  {
    FiveSteps(s, Begin(p, guess, s.row), Action.Reserve(p), Action.Evaluate(p), Consume(p), CleanUp(p));
    hide Run;
    if s.row.None? {
      NothingStored(s, p, guess);
    } else if Good(s.row.value, s.now) {
      GoodRow(s, p, guess);
    } else {
      BadRow(s, p, guess);
    }
  }

  lemma NothingStored(s: Sys, p: Pid, guess: Code)
    requires p !in s.reqs && s.row.None?
    ensures Step(Step(Step(Step(Step(s, Begin(p, guess, s.row)), Action.Reserve(p)), Action.Evaluate(p)), Consume(p)), CleanUp(p))
         == To(s, p, Rejected)
  {
    RejectedStays(To(s, p, Rejected), p);
    assert Step(s, Begin(p, guess, None)) == To(s, p, Rejected);
  }

  lemma RejectedStays(s: Sys, p: Pid)
    requires p in s.reqs && (s.reqs[p].Rejected? || s.reqs[p].Accepted?)
    ensures Step(s, Action.Reserve(p)) == Step(s, Action.Evaluate(p)) == Step(s, Consume(p)) == Step(s, CleanUp(p)) == s
  {
  }

  lemma BadRow(s: Sys, p: Pid, guess: Code)
    requires p !in s.reqs && s.row.Some? && s.row.value in s.past && !Good(s.row.value, s.now)
    ensures Step(Step(Step(Step(Step(s, Begin(p, guess, s.row)), Action.Reserve(p)), Action.Evaluate(p)), Consume(p)), CleanUp(p))
         == To(s.(row := None), p, Rejected)
  {
    var s1 := Step(s, Begin(p, guess, s.row));
    assert s1 == To(s, p, Cleaning(s.row.value));
    assert Step(s1, Action.Reserve(p)) == Step(s1, Action.Evaluate(p)) == Step(s1, Consume(p)) == s1;
    assert Step(s1, CleanUp(p)).reqs == To(s, p, Rejected).reqs;
  }

  lemma GoodRow(s: Sys, p: Pid, guess: Code)
    requires p !in s.reqs && s.row.Some? && s.row.value in s.past && Newest(s) < |s.holders| && Good(s.row.value, s.now)
    ensures Guessed(s, p, guess,
                    Step(Step(Step(Step(Step(s, Begin(p, guess, s.row)), Action.Reserve(p)), Action.Evaluate(p)), Consume(p)), CleanUp(p)))
  {
    var s2 := Step(Step(s, Begin(p, guess, s.row)), Action.Reserve(p));
    GoodRowIsReserved(s, p, guess);
    ReservedIsDecided(s2, p);
    hide Step;
  }

  lemma GoodRowIsReserved(s: Sys, p: Pid, guess: Code)
    requires p !in s.reqs && s.row.Some? && s.row.value in s.past && Newest(s) < |s.holders| && Good(s.row.value, s.now)
    ensures var r := Reserved(s.row.value);
            var t := Step(Step(s, Begin(p, guess, s.row)), Action.Reserve(p));
            && t.row == Some(r) && r in t.past && |t.holders| == |s.holders| && t.codes == s.codes && t.now == s.now
            && t.reqs.Keys == s.reqs.Keys + {p} && t.reqs[p] == Evaluating(guess, r, Newest(s))
  {
    var s1 := Step(s, Begin(p, guess, s.row));
    assert s1 == To(s, p, Reserving(guess, s.row.value));
  }

  lemma ReservedIsDecided(s: Sys, p: Pid)
    requires p in s.reqs && s.reqs[p].Evaluating? && s.row == Some(s.reqs[p].reserved)
    ensures var pc := s.reqs[p];
            var t := Step(Step(Step(s, Action.Evaluate(p)), Consume(p)), CleanUp(p));
            && t.past == s.past && |t.holders| == |s.holders| && t.codes == s.codes && t.now == s.now
            && t.reqs.Keys == s.reqs.Keys
            && if pc.reserved.hmac == Digest(pc.guess) then t.row == None && t.reqs[p].Accepted?
               else t.row == s.row && t.reqs[p] == Rejected
  {
    var pc := s.reqs[p];
    var s1 := Step(s, Action.Evaluate(p));
    if pc.reserved.hmac == Digest(pc.guess) {
      assert s1.reqs[p] == Consuming(pc.guess, pc.reserved, pc.origin, pc.origin, 0) && s1.row == s.row;
      RejectedStays(Step(s1, Consume(p)), p);
    } else {
      RejectedStays(s1, p);
    }
  }

  ghost predicate NoIssue(actions: seq<Action>) {
    forall a <- actions :: !a.Issue?
  }

  /** Between two issues nothing moves the expiry of the row. */
  lemma ExpiryStays(s: Sys, a: Action)
    requires !a.Issue?
    ensures Step(s, a).codes == s.codes
    ensures Step(s, a).row.Some? ==> s.row.Some? && Step(s, a).row.value.expires == s.row.value.expires
  {
  }

  /** The state of a run without a new issue: the row, if any, expires ten minutes after the last one. */
  lemma {:induction false} RowExpires(s: Sys, code: Code, after: seq<Action>)
    requires Inv(s) && NoIssue(after)
    ensures var t := Run(Step(s, Issue(code)), after);
            && Inv(t) && t.codes == s.codes + [code]
            && (t.row.Some? ==> t.row.value.expires == s.now + 600_000)
    decreases |after|
  {
    if after == [] {
      StepKeepsInv(s, Issue(code));
      IssuedRow(s, code);
      hide Step, Inv;
    } else {
      hide Step, Inv;
      var front, a := after[..|after| - 1], after[|after| - 1];
      assert a in after;
      RowExpires(s, code, front);
      StepKeepsInv(Run(Step(s, Issue(code)), front), a);
      ExpiryStays(Run(Step(s, Issue(code)), front), a);
    }
  }

  lemma IssuedRow(s: Sys, code: Code)
    ensures var t := Step(s, Issue(code));
            && t.row == Some(Row(Digest(code), s.now + 600_000, Some(0))) && t.row.value in t.past
            && t.now == s.now && t.codes == s.codes + [code] && |t.holders| == |s.holders| + 1 && t.reqs == s.reqs
  {
  }

  /**
   Over every run after an issue and before the next: if its row is still stored, an undisturbed request
   with the right code is accepted if and only if at most 600 000 ms have passed and at most four
   attempts were reserved. After five evaluated guesses it never is.
  */
  lemma RightCodeIsGoodForTenMinutes(start: Sys, before: seq<Action>, code: Code, after: seq<Action>, p: Pid)
    requires Start(start) && NoIssue(after)
    requires var t := Run(Step(Run(start, before), Issue(code)), after); t.row.Some? && p !in t.reqs
    ensures var s := Run(start, before);
            var t := Run(Step(s, Issue(code)), after);
            var n := |s.codes|;
            && n < |t.holders| && n < |t.tested| && p in Guess(t, p, code).reqs
            && (Guess(t, p, code).reqs[p].Accepted? <==> t.now - s.now <= 600_000 && |t.holders[n]| <= 4)
            && (|t.tested[n]| >= 5 ==> !Guess(t, p, code).reqs[p].Accepted?)
  {
    RunFromStart(start, before);
    var s := Run(start, before);
    RowExpires(s, code, after);
    var t := Run(Step(s, Issue(code)), after);
    GuessSays(t, p, code);
    var n := |s.codes|;
    assert t.tested[n] <= t.holders[n] && t.row.value.hmac == Digest(t.codes[n]);
    Collections.SubsetSize(t.tested[n], t.holders[n]);
    hide Guess, Run;
  }

  /** Whole requests one after the other, by fresh requests. */
  function GuessAll(s: Sys, first: Pid, guesses: seq<Code>): Sys {
    if guesses == [] then s
    else Guess(GuessAll(s, first, guesses[..|guesses| - 1]), first + |guesses| - 1, guesses[|guesses| - 1])
  }

  lemma {:induction false} WrongGuessesCount(s: Sys, first: Pid, code: Code, at: int, wrong: seq<Code>)
    requires s.row == Some(Row(Digest(code), at + 600_000, Some(0))) && s.now == at && s.row.value in s.past
    requires Newest(s) < |s.holders| && (forall q <- s.reqs :: q < first) && forall w <- wrong :: w != code
    ensures var t := GuessAll(s, first, wrong);
            && t.now == at && t.codes == s.codes && |t.holders| == |s.holders|
            && (forall q <- t.reqs :: q < first + |wrong|)
            && (t.row.Some? ==> t.row.value in t.past)
            && t.row == if |wrong| <= 5 then Some(Row(Digest(code), at + 600_000, Some(|wrong|))) else None
    decreases |wrong|
  {
    if wrong == [] {
    } else {
      var front, w := wrong[..|wrong| - 1], wrong[|wrong| - 1];
      assert w in wrong && forall x <- front :: x in wrong;
      WrongGuessesCount(s, first, code, at, front);
      GuessSays(GuessAll(s, first, front), first + |wrong| - 1, w);
      hide Guess;
    }
  }

  /**
   Issue a code, present any number of wrong guesses, wait, and present the right one: it is accepted if
   and only if there were at most four wrong ones and at most 600 000 ms have passed.
  */
  lemma WrongGuessesThenTheRightOne(start: Sys, before: seq<Action>, code: Code, wrong: seq<Code>, first: Pid, ms: nat)
    requires Start(start) && (forall q <- Run(start, before).reqs :: q < first) && forall w <- wrong :: w != code
    ensures var t := Step(GuessAll(Step(Run(start, before), Issue(code)), first, wrong), Tick(ms));
            var g := Guess(t, first + |wrong|, code);
            first + |wrong| in g.reqs &&
            (g.reqs[first + |wrong|].Accepted? <==> |wrong| <= 4 && ms <= 600_000)
  {
    RunFromStart(start, before);
    var s := Run(start, before);
    var issued := Step(s, Issue(code));
    assert |s.holders| == |s.codes|;
    hide Step, Inv, Guess, GuessAll, Run;
    IssuedRow(s, code);
    WrongGuessesCount(issued, first, code, s.now, wrong);
    TimePasses(GuessAll(issued, first, wrong), ms);
    GuessSays(Step(GuessAll(issued, first, wrong), Tick(ms)), first + |wrong|, code);
  }

  lemma TimePasses(s: Sys, ms: nat)
    ensures Step(s, Tick(ms)) == s.(now := s.now + ms)
  {
  }

  /**
   What the store's whole-second time-to-live leaves of the ten minutes: a row is read, and not expired,
   as long as fewer than 600 full seconds lie between the second of the issue and the present one.
  */
  lemma ReadableForSixHundredSeconds(issuedAt: int, now: int)
    requires issuedAt <= now
    ensures now / 1000 < (issuedAt + 600_000) / 1000 && now <= issuedAt + 600_000 <==> now / 1000 < issuedAt / 1000 + 600
  {
  }

  // -------------------------------------------------------- a right guess is not lost to a race

  /**
   In every run: a request whose guess was evaluated as right is accepted by its next two store
   operations, as long as the code it verified is still stored, however often others reserved meanwhile.
  */
  lemma RightGuessSurvivesRaces(start: Sys, actions: seq<Action>, p: Pid)
    requires Start(start)
    requires var t := Run(start, actions);
             p in t.reqs && t.reqs[p].Consuming? && t.row.Some? && t.row.value.hmac == t.reqs[p].current.hmac
    ensures var t := Run(start, actions);
            var u := Step(Step(Step(t, Consume(p)), Reread(p, t.row)), Consume(p));
            p in u.reqs && u.reqs[p].Accepted? && u.row.None?
  {
    RunFromStart(start, actions);
    var t := Run(start, actions);
    hide Run;
    var pc := t.reqs[p];
    assert t.row.value in t.past;
    if t.row != Some(pc.current) {
      var s1 := Step(t, Consume(p));
      assert s1.reqs[p] == Rereading(pc.guess, pc.current, pc.origin, pc.at, pc.retries) && s1.row == t.row;
      var s2 := Step(s1, Reread(p, t.row));
      assert s2.reqs[p].Consuming? && s2.reqs[p].current == t.row.value && s2.row == t.row;
    }
  }

  // --------------------------------------------------------------- the methods themselves

  predicate By(a: Action, p: Pid) {
    match a
    case Tick(_) => false
    case Reap => false
    case Issue(_) => false
    case _ => a.p == p
  }

  ghost predicate Foreign(batch: seq<Action>, p: Pid) {
    forall a <- batch :: !By(a, p)
  }

  lemma {:induction false} OthersLeaveAlone(s: Sys, batch: seq<Action>, p: Pid)
    requires Foreign(batch, p)
    ensures p in Run(s, batch).reqs <==> p in s.reqs
    ensures p in s.reqs ==> Run(s, batch).reqs[p] == s.reqs[p]
    decreases |batch|
  {
    if batch == [] {
    } else {
      var front := batch[..|batch| - 1];
      assert batch[|batch| - 1] in batch;
      OthersLeaveAlone(s, front, p);
    }
  }

  /**
   The `codes` store for one key, with the two methods that use it. `env[i]` is what other
   requests, the clock and the reaper do while this request awaits its i-th store operation;
   once the list is used up nobody interferes.
  */
  class CodeStore {
    var now: int
    var row: Option<Row>
    var past: set<Row>
    var reqs: map<Pid, Pc>
    var codes: seq<Code>
    var holders: seq<set<Pid>>
    var tested: seq<set<Pid>>

    function View(): Sys
      reads this
    {
      Sys(now, row, past, reqs, codes, holders, tested)
    }

    ghost predicate Valid()
      reads this
    {
      Inv(View())
    }

    constructor (now: int)
      ensures Valid() && Start(View()) && row == None
    {
      this.now, row, past, reqs := now, None, {}, map[];
      codes, holders, tested := [], [], [];
    }

    method GenerateCode(code: Code)
      requires Valid()
      modifies this
      ensures Valid() && View() == Step(old(View()), Issue(code))
      ensures row == Some(Row(Digest(code), now + 600_000, Some(0))) && now == old(now)
    {
      StepKeepsInv(View(), Issue(code));
      var issued := Row(Digest(code), now + CODE_TTL_MS, Some(0));
      row, past := Some(issued), past + {issued};
      codes, holders, tested := codes + [code], holders + [{}], tested + [{}];
    }

    /** What happens in the store while a request awaits. */
    method Await(ghost p: Pid, env: seq<seq<Action>>, turn: nat)
      requires Valid() && forall batch <- env :: Foreign(batch, p)
      modifies this
      ensures Valid() && View() == Run(old(View()), During(env, turn))
      ensures p in reqs <==> p in old(reqs)
      ensures p in reqs ==> reqs[p] == old(reqs)[p]
      ensures turn >= |env| ==> View() == old(View())
    {
      if turn < |env| {
        OthersLeaveAlone(View(), env[turn], p);
        for i := 0 to |env[turn]|
          invariant Valid() && View() == Run(old(View()), env[turn][..i])
        {
          StepKeepsInv(View(), env[turn][i]);
          assert env[turn][..i + 1][..i] == env[turn][..i];
          var t := Step(View(), env[turn][i]);
          now, row, past, reqs := t.now, t.row, t.past, t.reqs;
          codes, holders, tested := t.codes, t.holders, t.tested;
        }
        assert env[turn][..|env[turn]|] == env[turn];
      }
    }

    /** A read answers the current row, or nothing once the store's time-to-live has passed. */
    function Current(): Option<Row>
      reads this
    {
      if row.Some? && !TtlPassed(row.value, now) then row else None
    }

    method ReadFirst(p: Pid, guess: Code) returns (raw: Option<Row>)
      requires Valid() && p !in reqs
      modifies this
      ensures Valid() && raw == old(Current()) && View() == Step(old(View()), Begin(p, guess, raw))
      ensures p in reqs && reqs[p] == AfterRead(guess, raw, now) && now == old(now) && row == old(row)
    {
      raw := Current();
      StepKeepsInv(View(), Begin(p, guess, raw));
      reqs := reqs[p := AfterRead(guess, raw, now)];
    }

    method DeleteIfUnchanged(p: Pid, expected: Row)
      requires Valid() && p in reqs && reqs[p] == Cleaning(expected)
      modifies this
      ensures Valid() && View() == Step(old(View()), CleanUp(p))
      ensures p in reqs && reqs[p] == Rejected
    {
      StepKeepsInv(View(), CleanUp(p));
      if row == Some(expected) {
        row := None;
      }
      reqs := reqs[p := Rejected];
    }

    method PutReserved(p: Pid, guess: Code, raw: Row) returns (ok: bool)
      requires Valid() && p in reqs && reqs[p] == Reserving(guess, raw)
      modifies this
      ensures Valid() && View() == Step(old(View()), Reserve(p)) && now == old(now)
      ensures ok <==> old(row) == Some(raw)
      ensures p in reqs && reqs[p] == if ok then Evaluating(guess, Reserved(raw), Newest(old(View()))) else Rejected
      ensures ok ==> row == Some(Reserved(raw))
    {
      StepKeepsInv(View(), Reserve(p));
      ok := row == Some(raw);
      if ok {
        var reserved := Reserved(raw);
        var n := Newest(View());
        row, past := Some(reserved), past + {reserved};
        holders := holders[n := holders[n] + {p}];
        reqs := reqs[p := Evaluating(guess, reserved, n)];
      } else {
        reqs := reqs[p := Rejected];
      }
    }

    method CompareDigests(p: Pid, guess: Code, reserved: Row) returns (right: bool)
      requires Valid() && p in reqs && reqs[p].Evaluating?
      requires reqs[p].guess == guess && reqs[p].reserved == reserved
      modifies this
      ensures Valid() && View() == Step(old(View()), Evaluate(p)) && now == old(now) && row == old(row)
      ensures right <==> reserved.hmac == Digest(guess)
      ensures p in reqs && if right then reqs[p].Consuming? && reqs[p].guess == guess && reqs[p].current == reserved
                           else reqs[p] == Rejected
    {
      StepKeepsInv(View(), Evaluate(p));
      var origin := reqs[p].origin;
      assert PcOk(View(), p, reqs[p]);
      right := reserved.hmac == Digest(guess);
      tested := tested[origin := tested[origin] + {p}];
      reqs := reqs[p := if right then Consuming(guess, reserved, origin, origin, 0) else Rejected];
    }

    method DeleteIfEquals(p: Pid, current: Row) returns (ok: bool)
      requires Valid() && p in reqs && reqs[p].Consuming? && reqs[p].current == current
      modifies this
      ensures Valid() && View() == Step(old(View()), Consume(p)) && now == old(now)
      ensures ok <==> old(row) == Some(current)
      ensures !ok ==> row == old(row)
      ensures p in reqs && if ok then reqs[p].Accepted? && reqs[p].guess == old(reqs[p].guess)
                           else reqs[p].Rereading? && reqs[p].guess == old(reqs[p].guess) && reqs[p].current == current
    {
      StepKeepsInv(View(), Consume(p));
      var pc := reqs[p];
      ok := row == Some(current);
      if ok {
        reqs := reqs[p := Accepted(pc.guess, Newest(View()))];
        row := None;
      } else {
        reqs := reqs[p := Rereading(pc.guess, current, pc.origin, pc.at, pc.retries)];
      }
    }

    method ReadAgain(p: Pid) returns (raw2: Option<Row>)
      requires Valid() && p in reqs && reqs[p].Rereading?
      modifies this
      ensures Valid() && raw2 == old(Current()) && View() == Step(old(View()), Reread(p, raw2))
      ensures now == old(now) && row == old(row)
      ensures p in reqs
      ensures if raw2.Some? && raw2.value.hmac == old(reqs[p].current.hmac)
              then reqs[p].Consuming? && reqs[p].current == raw2.value && reqs[p].guess == old(reqs[p].guess)
              else reqs[p] == Rejected
    {
      raw2 := Current();
      StepKeepsInv(View(), Reread(p, raw2));
      reqs := reqs[p := AfterReread(reqs[p], raw2, Newest(View()))];
    }

    method VerifyCode(p: Pid, guess: Code, env: seq<seq<Action>>) returns (ok: bool, ghost trace: seq<Action>)
      requires Valid() && p !in reqs
      requires forall batch <- env :: Foreign(batch, p)
      modifies this
      ensures Valid() && View() == Run(old(View()), trace)
      ensures p in reqs && (if ok then reqs[p].Accepted? && reqs[p].guess == guess else reqs[p] == Rejected)
      ensures env == [] ==>
                (ok <==> && old(row).Some? && old(now) / 1000 < old(row).value.expires / 1000
                         && old(now) <= old(row).value.expires
                         && (old(row).value.attempts.None? || old(row).value.attempts.value <= 4)
                         && old(row).value.hmac == Digest(guess))
    {
      hide Step, Inv;
      trace := [];
      Await(p, env, 0);
      ghost var mid := View();
      var raw := ReadFirst(p, guess);
      Runs.Extend(Step, old(View()), trace, During(env, 0), Begin(p, guess, raw), mid);
      trace := trace + (During(env, 0) + [Begin(p, guess, raw)]);
      if raw.None? {
        return false, trace;
      }
      ghost var part;
      ok, part := Attempt(p, guess, raw.value, env);
      Runs.Concat(Step, old(View()), trace, part);
      trace := trace + part;
    }

    /** `verifyCode` once its first read has answered. */
    method Attempt(p: Pid, guess: Code, raw: Row, env: seq<seq<Action>>) returns (ok: bool, ghost trace: seq<Action>)
      requires Valid() && p in reqs && reqs[p] == AfterRead(guess, Some(raw), now)
      requires forall batch <- env :: Foreign(batch, p)
      modifies this
      ensures Valid() && View() == Run(old(View()), trace)
      ensures p in reqs && (if ok then reqs[p].Accepted? && reqs[p].guess == guess else reqs[p] == Rejected)
      ensures env == [] && old(row) == Some(raw) ==> (ok <==> !Unusable(raw, old(now)) && raw.hmac == Digest(guess))
    {
      hide Step, Inv;
      var spent := Unusable(raw, now);
      Await(p, env, 1);
      ghost var mid := View();
      if spent {
        DeleteIfUnchanged(p, raw);
        Runs.Extend(Step, old(View()), [], During(env, 1), Action.CleanUp(p), mid);
        return false, [] + (During(env, 1) + [Action.CleanUp(p)]);
      }
      var reserved := Reserved(raw);
      ok := PutReserved(p, guess, raw);
      Runs.Extend(Step, old(View()), [], During(env, 1), Action.Reserve(p), mid);
      trace := [] + (During(env, 1) + [Action.Reserve(p)]);
      if !ok {
        return false, trace;
      }
      mid := View();
      ok := CompareDigests(p, guess, reserved);
      Runs.Extend(Step, old(View()), trace, [], Action.Evaluate(p), mid);
      trace := trace + ([] + [Action.Evaluate(p)]);
      if !ok {
        return false, trace;
      }
      ghost var part;
      ok, part := ConsumeVerified(p, guess, reserved, env);
      Runs.Concat(Step, old(View()), trace, part);
      trace := trace + part;
    }

    /** The fail-closed loop that consumes a code whose guess was right. */
    method ConsumeVerified(p: Pid, guess: Code, reserved: Row, env: seq<seq<Action>>)
      returns (ok: bool, ghost trace: seq<Action>)
      requires Valid() && p in reqs && reqs[p].Consuming? && reqs[p].current == reserved && reqs[p].guess == guess
      requires forall batch <- env :: Foreign(batch, p)
      modifies this
      ensures Valid() && View() == Run(old(View()), trace)
      ensures p in reqs && (if ok then reqs[p].Accepted? && reqs[p].guess == guess else reqs[p] == Rejected)
      ensures env == [] && old(row) == Some(reserved) ==> ok
    {
      hide Step, Inv;
      trace := [];
      var current := reserved;
      var turn := 2;
      while true
        invariant Valid() && turn >= 2 && View() == Run(old(View()), trace)
        invariant p in reqs && reqs[p].Consuming?
        invariant reqs[p].current == current && reqs[p].guess == guess && current.hmac == reserved.hmac
        invariant env == [] && old(row) == Some(reserved) ==> row == Some(current)
        decreases if turn < |env| then |env| - turn else 0, row != Some(current)
      {
        Await(p, env, turn);
        ghost var mid := View();
        ok := DeleteIfEquals(p, current);
        Runs.Extend(Step, old(View()), trace, During(env, turn), Action.Consume(p), mid);
        trace := trace + (During(env, turn) + [Action.Consume(p)]);
        if ok {
          return true, trace;
        }
        Await(p, env, turn + 1);
        mid := View();
        var raw2 := ReadAgain(p);
        Runs.Extend(Step, old(View()), trace, During(env, turn + 1), Action.Reread(p, raw2), mid);
        trace := trace + (During(env, turn + 1) + [Action.Reread(p, raw2)]);
        if raw2.None? || raw2.value.hmac != reserved.hmac {
          return false, trace;
        }
        current := raw2.value;
        turn := turn + 2;
      }
    }
  }

  /** The interference scheduled at one await; none once the schedule is used up. */
  function During(env: seq<seq<Action>>, turn: nat): seq<Action> {
    if turn < |env| then env[turn] else []
  }

}
