/**
 AsyncJob's status tracker: one record per job, written by a submitter and by any number of
 at-least-once handler deliveries, each write guarded by `ifNotExists` or by the record's version.

 The table is one item with atomic conditional puts. A read returns any record the item ever
 held, or nothing. Records are never reaped within a run.
*/
module JobStatus {
  import opened Maybe
  import Runs

  const MAX_CAS_ATTEMPTS: nat := 5

  type Pid = nat
  datatype State = Queued | Processing | Complete | Failed

  /** `who` names the call that appended the entry; it is bookkeeping for the theorems. */
  datatype Transition = Transition(state: State, at: int, attempt: int, who: Option<Pid>)

  datatype Record = Record(
    state: State,
    transitions: seq<Transition>,
    attempts: int,
    submittedAt: int,
    updatedAt: int,
    error: Option<string>,
    version: nat)

  /** The arguments of one `recordTransition` call. */
  datatype Entry = Entry(state: State, attempt: int, error: Option<string>)

  datatype Outcome = Created | Corrected | AlreadyEarlier | Gone | GaveUp

  datatype Pc =
    | AppendReading(entry: Entry, tries: nat)
    | AppendWriting(entry: Entry, tries: nat, existing: Option<Record>, at: int)
    | Recorded(entry: Entry, at: int)
    | NotRecorded
    | Creating(at: int)
    | BackdateReading(at: int, tries: nat)
    | BackdateWriting(at: int, tries: nat, target: Record)
    | Submitted(at: int, how: Outcome)
    | SubmitFailed

  /** The item, every record it ever held, the calls, and the submission time it was created with. */
  datatype Sys = Sys(
    now: int,
    record: Option<Record>,
    past: set<Record>,
    procs: map<Pid, Pc>,
    createdWith: Option<int>)

  datatype Action =
    | Tick(ms: nat)
    | StartAppend(p: Pid, entry: Entry)
    | ReadForAppend(p: Pid, seen: Option<Record>)
    | Append(p: Pid)
    | StartQueued(p: Pid, at: int)
    | Create(p: Pid)
    | ReadForBackdate(p: Pid, seen: Option<Record>)
    | Backdate(p: Pid)
    | StoreError(p: Pid)

  ghost predicate Start(s: Sys) {
    s.record.None? && s.past == {} && s.procs == map[] && s.createdWith.None?
  }

  function Max(a: int, b: int): int {
    if a < b then b else a
  }

  function QueuedRecord(at: int): Record {
    Record(Queued, [Transition(Queued, at, 0, None)], 0, at, at, None, 0)
  }

  /** The record `recordTransition` writes over what it read, or over a backfilled one. */
  function Appended(existing: Option<Record>, entry: Entry, at: int, p: Pid): Record {
    var base := if existing.Some? then existing.value else QueuedRecord(at);
    base.(state := entry.state,
          transitions := base.transitions + [Transition(entry.state, at, entry.attempt, Some(p))],
          attempts := Max(base.attempts, entry.attempt),
          updatedAt := at,
          error := if entry.error.Some? then entry.error else base.error,
          version := base.version + 1)
  }

  /** The record with its submission time, and the queued entry that repeats it, moved to `at`. */
  function Backdated(r: Record, at: int): Record {
    r.(submittedAt := at,
       transitions := if r.transitions != [] && r.transitions[0].state == Queued
                      then [r.transitions[0].(at := at)] + r.transitions[1..] else r.transitions,
       version := r.version + 1)
  }

  function To(s: Sys, p: Pid, pc: Pc): Sys {
    s.(procs := s.procs[p := pc])
  }

  function Write(s: Sys, r: Record): Sys {
    s.(record := Some(r), past := s.past + {r},
       createdWith := if s.record.None? then Some(r.submittedAt) else s.createdWith)
  }

  /** The conditional put: the version that was read, or no record at all. */
  predicate MayWrite(s: Sys, existing: Option<Record>) {
    match existing
    case None => s.record.None?
    case Some(r) => s.record.Some? && s.record.value.version == r.version
  }

  function AfterLostAppend(entry: Entry, tries: nat): Pc {
    if tries + 1 < MAX_CAS_ATTEMPTS then AppendReading(entry, tries + 1) else NotRecorded
  }

  function AfterLostBackdate(at: int, tries: nat): Pc {
    if tries + 1 < MAX_CAS_ATTEMPTS then BackdateReading(at, tries + 1) else Submitted(at, GaveUp)
  }

  function AfterBackdateRead(at: int, tries: nat, seen: Option<Record>): Pc {
    match seen
    case None => Submitted(at, Gone)
    case Some(r) => if !(at < r.submittedAt) then Submitted(at, AlreadyEarlier) else BackdateWriting(at, tries, r)
  }

  function AfterError(pc: Pc): Pc {
    match pc
    case AppendReading(_, _) => NotRecorded
    case AppendWriting(_, _, _, _) => NotRecorded
    case Creating(_) => SubmitFailed
    case BackdateReading(at, _) => Submitted(at, GaveUp)
    case BackdateWriting(at, _, _) => Submitted(at, GaveUp)
    case _ => pc
  }

  function StepMoving(s: Sys, a: Action): Sys
    requires a.ReadForAppend? || a.ReadForBackdate? || a.StoreError?
  {
    if a.p !in s.procs then s else
    var pc := s.procs[a.p];
    match a
    case ReadForAppend(p, seen) =>
      if pc.AppendReading? && (seen.Some? ==> seen.value in s.past)
      then To(s, p, AppendWriting(pc.entry, pc.tries, seen, s.now)) else s
    case ReadForBackdate(p, seen) =>
      if pc.BackdateReading? && (seen.Some? ==> seen.value in s.past)
      then To(s, p, AfterBackdateRead(pc.at, pc.tries, seen)) else s
    case StoreError(p) => To(s, p, AfterError(pc))
  }

  function StepWriting(s: Sys, a: Action): Sys
    requires a.Append? || a.Create? || a.Backdate?
  {
    if a.p !in s.procs then s else
    var pc := s.procs[a.p];
    match a
    case Append(p) =>
      if !pc.AppendWriting? then s
      else if MayWrite(s, pc.existing) then
        To(Write(s, Appended(pc.existing, pc.entry, pc.at, p)), p, Recorded(pc.entry, pc.at))
      else To(s, p, AfterLostAppend(pc.entry, pc.tries))
    case Create(p) =>
      if !pc.Creating? then s
      else if s.record.None? then To(Write(s, QueuedRecord(pc.at)), p, Submitted(pc.at, Created))
      else To(s, p, BackdateReading(pc.at, 0))
    case Backdate(p) =>
      if !pc.BackdateWriting? then s
      else if MayWrite(s, Some(pc.target)) then
        To(Write(s, Backdated(pc.target, pc.at)), p, Submitted(pc.at, Corrected))
      else To(s, p, AfterLostBackdate(pc.at, pc.tries))
  }

  function Step(s: Sys, a: Action): Sys {
    match a
    case Tick(ms) => s.(now := s.now + ms)
    case StartAppend(p, entry) => if p in s.procs then s else To(s, p, AppendReading(entry, 0))
    case StartQueued(p, at) => if p in s.procs then s else To(s, p, Creating(at))
    case ReadForAppend(_, _) => StepMoving(s, a)
    case ReadForBackdate(_, _) => StepMoving(s, a)
    case StoreError(_) => StepMoving(s, a)
    case Append(_) => StepWriting(s, a)
    case Create(_) => StepWriting(s, a)
    case Backdate(_) => StepWriting(s, a)
  }

  function Run(s: Sys, actions: seq<Action>): Sys {
    Runs.Run(Step, s, actions)
  }

  // ---------------------------------------------------------------- the invariant

  function MaxAttempt(ts: seq<Transition>): int {
    if ts == [] then 0 else Max(MaxAttempt(ts[..|ts| - 1]), ts[|ts| - 1].attempt)
  }

  /** What the record promises its readers. */
  ghost predicate WellFormed(r: Record) {
    && |r.transitions| > 0
    && r.transitions[0] == Transition(Queued, r.submittedAt, 0, None)
    && r.state == r.transitions[|r.transitions| - 1].state
    && r.attempts == MaxAttempt(r.transitions)
    && (|r.transitions| > 1 ==> r.updatedAt == r.transitions[|r.transitions| - 1].at)
  }

  /** Each version number was written once and determines the record; the newest is in place. */
  ghost predicate VersionsOk(s: Sys) {
    && (s.record.None? ==> s.past == {} && s.createdWith.None?)
    && (s.record.Some? ==> s.record.value in s.past && s.createdWith.Some?)
    && (forall x <- s.past :: s.record.Some? && x.version <= s.record.value.version && WellFormed(x)
                               && s.record.value.submittedAt <= x.submittedAt)
    && (forall x <- s.past, y <- s.past :: x.version == y.version ==> x == y)
  }

  ghost predicate Tagged(s: Sys, t: Transition) {
    t.who.Some? ==>
      && t.who.value in s.procs
      && s.procs[t.who.value].Recorded?
      && s.procs[t.who.value].entry.state == t.state
      && s.procs[t.who.value].entry.attempt == t.attempt
      && s.procs[t.who.value].at == t.at
  }

  /** The entries of the history are exactly those of the calls that returned, each once. */
  ghost predicate HistoryOk(s: Sys) {
    s.record.Some? ==>
      var ts := s.record.value.transitions;
      && (forall i | 0 <= i < |ts| :: Tagged(s, ts[i]))
      && (forall i, j | 0 <= i < j < |ts| :: ts[i].who.Some? ==> ts[i].who != ts[j].who)
  }

  ghost predicate Holds(r: Option<Record>, p: Pid) {
    r.Some? && exists i :: 0 <= i < |r.value.transitions| && r.value.transitions[i].who == Some(p)
  }

  ghost predicate Settled(how: Outcome) {
    how == Created || how == Corrected || how == AlreadyEarlier
  }

  ghost predicate PcOk(s: Sys, p: Pid, pc: Pc) {
    match pc
    case AppendWriting(_, _, existing, _) => existing.Some? ==> existing.value in s.past
    case BackdateReading(_, _) => s.record.Some?
    case BackdateWriting(at, _, r) => r in s.past && at < r.submittedAt
    case Recorded(_, _) => Holds(s.record, p)
    case Submitted(at, how) => s.record.Some? && (Settled(how) ==> s.record.value.submittedAt <= at)
    case _ => true
  }

  /** The submission time is the earliest of the one at creation and those written since. */
  ghost predicate SubmissionOk(s: Sys) {
    s.record.Some? && s.createdWith.Some? ==>
      && s.record.value.submittedAt <= s.createdWith.value
      && (s.record.value.submittedAt == s.createdWith.value
          || exists p :: p in s.procs && s.procs[p] == Submitted(s.record.value.submittedAt, Corrected))
  }

  ghost predicate Inv(s: Sys) {
    VersionsOk(s) && HistoryOk(s) && SubmissionOk(s) && forall p <- s.procs :: PcOk(s, p, s.procs[p])
  }

  /** A stale read whose version still matches is a current read. */
  lemma MatchingVersionIsCurrent(s: Sys, r: Record)
    requires VersionsOk(s) && r in s.past && MayWrite(s, Some(r))
    ensures s.record == Some(r)
  {
  }

  lemma AppendedIsWellFormed(existing: Option<Record>, entry: Entry, at: int, p: Pid)
    requires existing.Some? ==> WellFormed(existing.value)
    ensures WellFormed(Appended(existing, entry, at, p))
  {
    var base := if existing.Some? then existing.value else QueuedRecord(at);
    var ts := Appended(existing, entry, at, p).transitions;
    assert ts[..|ts| - 1] == base.transitions;
    if existing.None? { assert MaxAttempt(base.transitions) == Max(MaxAttempt([]), 0); }
  }

  lemma {:induction false} MaxAttemptIgnoresTime(ts: seq<Transition>, at: int)
    requires |ts| > 0
    ensures MaxAttempt([ts[0].(at := at)] + ts[1..]) == MaxAttempt(ts)
    decreases |ts|
  {
    var us := [ts[0].(at := at)] + ts[1..];
    if |ts| == 1 {
      assert us[..0] == [] && ts[..0] == [];
    } else {
      var front := ts[..|ts| - 1];
      MaxAttemptIgnoresTime(front, at);
      assert us[..|us| - 1] == [front[0].(at := at)] + front[1..];
    }
  }

  lemma BackdatedIsWellFormed(r: Record, at: int)
    requires WellFormed(r)
    ensures WellFormed(Backdated(r, at))
  {
    MaxAttemptIgnoresTime(r.transitions, at);
  }

  lemma MoveKeepsInv(s: Sys, p: Pid, pc: Pc)
    requires Inv(s) && PcOk(s, p, pc)
    requires p in s.procs ==> !s.procs[p].Recorded? && !s.procs[p].Submitted?
    ensures Inv(To(s, p, pc))
  {
    var t := To(s, p, pc);
    forall q <- t.procs ensures PcOk(t, q, t.procs[q]) {
      if q != p { assert PcOk(s, q, s.procs[q]); }
    }
    if s.record.Some? {
      var ts := s.record.value.transitions;
      forall i | 0 <= i < |ts| ensures Tagged(t, ts[i]) { assert Tagged(s, ts[i]); }
      if s.record.value.submittedAt != s.createdWith.value {
        var q :| q in s.procs && s.procs[q] == Submitted(s.record.value.submittedAt, Corrected);
        assert q in t.procs && t.procs[q] == Submitted(t.record.value.submittedAt, Corrected);
      }
    }
  }

  lemma WriteKeepsVersions(s: Sys, r: Record)
    requires VersionsOk(s) && WellFormed(r)
    requires s.record.Some? ==> s.record.value.version < r.version && r.submittedAt <= s.record.value.submittedAt
    ensures VersionsOk(Write(s, r))
  {
    var t := Write(s, r);
    forall x <- t.past, y <- t.past | x.version == y.version ensures x == y {
      assert x in s.past ==> x.version < r.version;
      assert y in s.past ==> y.version < r.version;
    }
  }

  /** Every entry of the record, and every call's promise, carries over to a record that extends it. */
  lemma AppendKeepsInv(s: Sys, p: Pid)
    requires Inv(s) && p in s.procs && s.procs[p].AppendWriting? && MayWrite(s, s.procs[p].existing)
    ensures Inv(To(Write(s, Appended(s.record, s.procs[p].entry, s.procs[p].at, p)),
                   p, Recorded(s.procs[p].entry, s.procs[p].at)))
    ensures s.procs[p].existing == s.record
  {
    var pc := s.procs[p];
    assert PcOk(s, p, pc);
    if pc.existing.Some? { MatchingVersionIsCurrent(s, pc.existing.value); }
    assert pc.existing == s.record;
    var r := Appended(s.record, pc.entry, pc.at, p);
    AppendedIsWellFormed(s.record, pc.entry, pc.at, p);
    WriteKeepsVersions(s, r);
    var t := To(Write(s, r), p, Recorded(pc.entry, pc.at));
    AppendKeepsHistory(s, p);
    AppendKeepsPromises(s, p);
    AppendKeepsSubmission(s, p);
    hide VersionsOk, HistoryOk, SubmissionOk, PcOk, Appended;
  }

  lemma AppendKeepsPromises(s: Sys, p: Pid)
    requires (forall q <- s.procs :: PcOk(s, q, s.procs[q])) && p in s.procs && s.procs[p].AppendWriting?
    ensures var pc := s.procs[p];
            var t := To(Write(s, Appended(s.record, pc.entry, pc.at, p)), p, Recorded(pc.entry, pc.at));
            forall q <- t.procs :: PcOk(t, q, t.procs[q])
  {
    var pc := s.procs[p];
    var r := Appended(s.record, pc.entry, pc.at, p);
    var t := To(Write(s, r), p, Recorded(pc.entry, pc.at));
    forall q <- t.procs ensures PcOk(t, q, t.procs[q]) {
      if q != p {
        assert PcOk(s, q, s.procs[q]);
        if s.procs[q].Recorded? {
          var i :| 0 <= i < |s.record.value.transitions| && s.record.value.transitions[i].who == Some(q);
          assert r.transitions[i].who == Some(q);
        }
      } else {
        assert r.transitions[|r.transitions| - 1].who == Some(p);
      }
    }
  }

  lemma AppendKeepsSubmission(s: Sys, p: Pid)
    requires SubmissionOk(s) && p in s.procs && s.procs[p].AppendWriting? && (s.record.Some? ==> s.createdWith.Some?)
    ensures var pc := s.procs[p];
            SubmissionOk(To(Write(s, Appended(s.record, pc.entry, pc.at, p)), p, Recorded(pc.entry, pc.at)))
  {
    var pc := s.procs[p];
    var r := Appended(s.record, pc.entry, pc.at, p);
    var t := To(Write(s, r), p, Recorded(pc.entry, pc.at));
    if s.record.Some? && r.submittedAt != s.createdWith.value {
      var q :| q in s.procs && s.procs[q] == Submitted(s.record.value.submittedAt, Corrected);
      assert t.procs[q] == s.procs[q];
    }
  }

  lemma AppendKeepsHistory(s: Sys, p: Pid)
    requires HistoryOk(s) && p in s.procs && s.procs[p].AppendWriting?
    ensures var pc := s.procs[p];
            HistoryOk(To(Write(s, Appended(s.record, pc.entry, pc.at, p)), p, Recorded(pc.entry, pc.at)))
  {
    var pc := s.procs[p];
    var r := Appended(s.record, pc.entry, pc.at, p);
    var t := To(Write(s, r), p, Recorded(pc.entry, pc.at));
    var n := |r.transitions| - 1;
    forall i | 0 <= i < |r.transitions| ensures Tagged(t, r.transitions[i]) && (i < n ==> r.transitions[i].who != Some(p)) {
      if i < n && s.record.Some? { assert Tagged(s, s.record.value.transitions[i]); }
    }
  }

  lemma CreateKeepsInv(s: Sys, p: Pid)
    requires Inv(s) && p in s.procs && s.procs[p].Creating? && s.record.None?
    ensures Inv(Step(s, Create(p)))
  {
    var at := s.procs[p].at;
    var r := QueuedRecord(at);
    assert MaxAttempt(r.transitions) == Max(MaxAttempt(r.transitions[..0]), 0);
    WriteKeepsVersions(s, r);
    var t := To(Write(s, r), p, Submitted(at, Created));
    assert Step(s, Create(p)) == t;
    forall q <- t.procs ensures PcOk(t, q, t.procs[q]) {
      if q != p { assert PcOk(s, q, s.procs[q]); }
    }
  }

  lemma BackdateKeepsInv(s: Sys, p: Pid)
    requires Inv(s) && p in s.procs && s.procs[p].BackdateWriting? && MayWrite(s, Some(s.procs[p].target))
    ensures Inv(Step(s, Backdate(p)))
  {
    var pc := s.procs[p];
    assert PcOk(s, p, pc);
    MatchingVersionIsCurrent(s, pc.target);
    var was := pc.target;
    var r := Backdated(was, pc.at);
    BackdatedIsWellFormed(was, pc.at);
    WriteKeepsVersions(s, r);
    var t := To(Write(s, r), p, Submitted(pc.at, Corrected));
    assert Step(s, Backdate(p)) == t;
    forall i | 0 <= i < |r.transitions|
      ensures Tagged(t, r.transitions[i]) && r.transitions[i].who == was.transitions[i].who
    {
      assert Tagged(s, was.transitions[i]);
    }
    forall q <- t.procs ensures PcOk(t, q, t.procs[q]) {
      if q != p {
        assert PcOk(s, q, s.procs[q]);
        if s.procs[q].Recorded? {
          var i :| 0 <= i < |was.transitions| && was.transitions[i].who == Some(q);
          assert r.transitions[i].who == Some(q);
        }
      }
    }
    assert t.procs[p] == Submitted(r.submittedAt, Corrected);
  }

  lemma TickKeepsInv(s: Sys, ms: nat)
    requires Inv(s)
    ensures Inv(s.(now := s.now + ms))
  {
    var t := s.(now := s.now + ms);
    forall q <- t.procs ensures PcOk(t, q, t.procs[q]) { assert PcOk(s, q, s.procs[q]); }
    if s.record.Some? {
      var ts := s.record.value.transitions;
      forall i | 0 <= i < |ts| ensures Tagged(t, ts[i]) { assert Tagged(s, ts[i]); }
    }
    assert SubmissionOk(t);
  }

  lemma StoreErrorKeepsInv(s: Sys, p: Pid)
    requires Inv(s)
    ensures Inv(Step(s, StoreError(p)))
  {
    if p in s.procs {
      if AfterError(s.procs[p]) == s.procs[p] {
        assert s.procs[p := s.procs[p]] == s.procs;
      } else {
        MoveKeepsInv(s, p, AfterError(s.procs[p]));
      }
    }
  }

  lemma WritingKeepsInv(s: Sys, a: Action)
    requires Inv(s) && (a.Append? || a.Create? || a.Backdate?)
    ensures Inv(StepWriting(s, a))
  {
    if a.p in s.procs {
      var pc := s.procs[a.p];
      assert PcOk(s, a.p, pc);
      hide Inv, VersionsOk, HistoryOk, SubmissionOk, Appended, Backdated, QueuedRecord;
      match a
      case Append(p) =>
        if pc.AppendWriting? {
          if MayWrite(s, pc.existing) { AppendKeepsInv(s, p); }
          else { MoveKeepsInv(s, p, AfterLostAppend(pc.entry, pc.tries)); }
        }
      case Create(p) =>
        if pc.Creating? {
          if s.record.None? { CreateKeepsInv(s, p); } else { MoveKeepsInv(s, p, BackdateReading(pc.at, 0)); }
        }
      case Backdate(p) =>
        if pc.BackdateWriting? {
          if MayWrite(s, Some(pc.target)) { BackdateKeepsInv(s, p); }
          else { MoveKeepsInv(s, p, AfterLostBackdate(pc.at, pc.tries)); }
        }
    }
  }

  lemma StepKeepsInv(s: Sys, a: Action)
    requires Inv(s)
    ensures Inv(Step(s, a))
  {
    match a
    case Tick(ms) => TickKeepsInv(s, ms);
    case StartAppend(p, entry) => if p !in s.procs { MoveKeepsInv(s, p, AppendReading(entry, 0)); }
    case StartQueued(p, at) => if p !in s.procs { MoveKeepsInv(s, p, Creating(at)); }
    case ReadForAppend(p, seen) => if Step(s, a) != s { ReadForAppendKeepsInv(s, p, seen); }
    case ReadForBackdate(p, seen) => if Step(s, a) != s { ReadForBackdateKeepsInv(s, p, seen); }
    case StoreError(p) => StoreErrorKeepsInv(s, p);
    case Append(_) => WritingKeepsInv(s, a);
    case Create(_) => WritingKeepsInv(s, a);
    case Backdate(_) => WritingKeepsInv(s, a);
  }

  lemma ReadForAppendKeepsInv(s: Sys, p: Pid, seen: Option<Record>)
    requires Inv(s) && Step(s, ReadForAppend(p, seen)) != s
    ensures Inv(Step(s, ReadForAppend(p, seen)))
  {
    MoveKeepsInv(s, p, AppendWriting(s.procs[p].entry, s.procs[p].tries, seen, s.now));
  }

  lemma ReadForBackdateKeepsInv(s: Sys, p: Pid, seen: Option<Record>)
    requires Inv(s) && Step(s, ReadForBackdate(p, seen)) != s
    ensures Inv(Step(s, ReadForBackdate(p, seen)))
  {
    assert PcOk(s, p, s.procs[p]);
    MoveKeepsInv(s, p, AfterBackdateRead(s.procs[p].at, s.procs[p].tries, seen));
  }

  lemma RunFromStart(s: Sys, actions: seq<Action>)
    requires Start(s)
    ensures Inv(Run(s, actions))
  {
    forall t, a | Inv(t) ensures Inv(Step(t, a)) { StepKeepsInv(t, a); }
    Runs.Keeps(Step, Inv, s, actions);
  }

  // ------------------------------------------------------------------ theorems

  /** Each version number is written once and determines the whole record; the current one is the highest. */
  lemma EachVersionIsWrittenOnce(s: Sys, actions: seq<Action>, x: Record, y: Record)
    requires Start(s) && x in Run(s, actions).past && y in Run(s, actions).past
    ensures x.version == y.version ==> x == y
    ensures var t := Run(s, actions); t.record.Some? && x.version <= t.record.value.version
  {
    RunFromStart(s, actions);
  }

  /** `i` is the one place of the history that call `p` wrote, and it says what the call said. */
  ghost predicate OnlyEntryOf(ts: seq<Transition>, p: Pid, entry: Entry, at: int, i: int) {
    && 0 <= i < |ts|
    && ts[i] == Transition(entry.state, at, entry.attempt, Some(p))
    && forall j | 0 <= j < |ts| && j != i :: ts[j].who != Some(p)
  }

  /**
   Whatever other handlers and the submitter do, and however stale the reads: a `recordTransition`
   that returned normally is in the history exactly once, and one that did not is not in it.
  */
  lemma RecordedExactlyOnce(s: Sys, actions: seq<Action>, p: Pid)
    requires Start(s)
    ensures var t := Run(s, actions);
            if p in t.procs && t.procs[p].Recorded? then
              t.record.Some? && exists i :: OnlyEntryOf(t.record.value.transitions, p, t.procs[p].entry, t.procs[p].at, i)
            else
              !Holds(t.record, p)
  {
    RunFromStart(s, actions);
    var t := Run(s, actions);
    if p in t.procs && t.procs[p].Recorded? {
      assert PcOk(t, p, t.procs[p]);
      var ts := t.record.value.transitions;
      var i :| 0 <= i < |ts| && ts[i].who == Some(p);
      assert Tagged(t, ts[i]);
      forall j | 0 <= j < |ts| && j != i ensures ts[j].who != Some(p) {
        if j < i { assert ts[j].who.Some? ==> ts[j].who != ts[i].who; }
        else { assert ts[i].who != ts[j].who; }
      }
      assert OnlyEntryOf(ts, p, t.procs[p].entry, t.procs[p].at, i);
    }
  }

  /** Every record a reader can be given starts `queued` at its submission time and agrees with its history. */
  lemma EveryRecordIsWellFormed(s: Sys, actions: seq<Action>, x: Record)
    requires Start(s) && x in Run(s, actions).past
    ensures WellFormed(x)
  {
    RunFromStart(s, actions);
  }

  /** The later history has this entry in the same place; only the queued entry's time may have moved. */
  ghost predicate SameEntry(x: seq<Transition>, y: seq<Transition>, i: nat) {
    i < |x| ==> i < |y| && x[i] == if i == 0 then y[i].(at := x[i].at) else y[i]
  }

  /** The later record repeats every entry of the earlier one, and its submission time is no later. */
  ghost predicate Extends(x: Record, y: Record) {
    && |x.transitions| <= |y.transitions|
    && y.submittedAt <= x.submittedAt
    && x.version <= y.version
    && x.attempts <= y.attempts
    && forall i: nat :: SameEntry(x.transitions, y.transitions, i)
  }

  lemma AppendExtends(r: Record, entry: Entry, at: int, p: Pid)
    ensures Extends(r, Appended(Some(r), entry, at, p))
  {
    var x, y := r.transitions, Appended(Some(r), entry, at, p).transitions;
    forall i: nat ensures SameEntry(x, y, i) { }
  }

  lemma ExtendsTransitively(x: Record, y: Record, z: Record)
    requires Extends(x, y) && Extends(y, z)
    ensures Extends(x, z)
  {
    forall i: nat ensures SameEntry(x.transitions, z.transitions, i) {
      assert SameEntry(x.transitions, y.transitions, i) && SameEntry(y.transitions, z.transitions, i);
    }
  }

  lemma BackdateExtends(r: Record, at: int)
    requires at < r.submittedAt
    ensures Extends(r, Backdated(r, at))
  {
    var x, y := r.transitions, Backdated(r, at).transitions;
    assert |y| == |x|;
    forall i: nat ensures SameEntry(x, y, i) {
      if 0 < i < |x| { assert y[i] == x[i]; }
    }
  }

  lemma SameExtends(r: Record)
    ensures Extends(r, r)
  {
  }

  lemma StepExtends(s: Sys, a: Action)
    requires Inv(s) && s.record.Some?
    ensures Step(s, a).record.Some? && Extends(s.record.value, Step(s, a).record.value)
  {
    hide Appended, Backdated, Extends, VersionsOk, HistoryOk, SubmissionOk, StepMoving;
    SameExtends(s.record.value);
    MovingKeepsTheRecord(s, a);
    if (a.Append? || a.Backdate?) && a.p in s.procs {
      var pc := s.procs[a.p];
      assert PcOk(s, a.p, pc);
      if a.Append? && pc.AppendWriting? && MayWrite(s, pc.existing) {
        MatchingVersionIsCurrent(s, pc.existing.value);
        AppendExtends(pc.existing.value, pc.entry, pc.at, a.p);
      }
      if a.Backdate? && pc.BackdateWriting? && MayWrite(s, Some(pc.target)) {
        MatchingVersionIsCurrent(s, pc.target);
        BackdateExtends(pc.target, pc.at);
      }
    }
  }

  lemma MovingKeepsTheRecord(s: Sys, a: Action)
    ensures a.ReadForAppend? || a.ReadForBackdate? || a.StoreError? ==> StepMoving(s, a).record == s.record
  {
  }

  /** No write, `recordQueued`'s included, ever undoes a transition or moves the submission time later. */
  lemma NothingIsUndone(s: Sys, before: seq<Action>, after: seq<Action>)
    requires Start(s) && Run(s, before).record.Some?
    ensures var t := Run(Run(s, before), after);
            t.record.Some? && Extends(Run(s, before).record.value, t.record.value)
  {
    hide Step, Extends, Inv;
    RunFromStart(s, before);
    var x := Run(s, before).record.value;
    SameExtends(x);
    var inv := (t: Sys) => Inv(t) && t.record.Some? && Extends(x, t.record.value);
    forall t, a | inv(t) ensures inv(Step(t, a)) {
      StepKeepsInv(t, a);
      StepExtends(t, a);
      ExtendsTransitively(x, t.record.value, Step(t, a).record.value);
    }
    Runs.Keeps(Step, inv, Run(s, before), after);
  }

  /**
   Once a submission settled, the submission time is at most its own; with a single submitter it
   is the minimum of the time the record was created with and the real one.
  */
  lemma SubmissionTimeIsTheMinimum(s: Sys, actions: seq<Action>, p: Pid)
    requires Start(s)
    requires var t := Run(s, actions);
             p in t.procs && t.procs[p].Submitted? && Settled(t.procs[p].how)
    ensures var t := Run(s, actions);
            && t.record.Some? && t.createdWith.Some?
            && t.record.value.submittedAt <= t.procs[p].at
            && ((forall q <- t.procs :: q != p ==> !t.procs[q].Submitted?) ==>
                  t.record.value.submittedAt == if t.procs[p].at < t.createdWith.value then t.procs[p].at
                                                else t.createdWith.value)
  {
    RunFromStart(s, actions);
    var t := Run(s, actions);
    assert PcOk(t, p, t.procs[p]);
  }

  /**
   With a single submitter, once its call returned, the submission time is the minimum of the time the
   record was created with and the real one exactly when the correction settled or was not needed.
  */
  lemma SubmissionTimeIsTheMinimumIff(s: Sys, actions: seq<Action>, p: Pid)
    requires Start(s)
    requires var t := Run(s, actions);
             p in t.procs && t.procs[p].Submitted? && forall q <- t.procs :: q != p ==> !t.procs[q].Submitted?
    ensures var t := Run(s, actions);
            var at := t.procs[p].at;
            && t.record.Some? && t.createdWith.Some?
            && (t.record.value.submittedAt == (if at < t.createdWith.value then at else t.createdWith.value)
                <==> Settled(t.procs[p].how) || t.createdWith.value <= at)
  {
    RunFromStart(s, actions);
    var t := Run(s, actions);
    assert PcOk(t, p, t.procs[p]);
    if Settled(t.procs[p].how) { SubmissionTimeIsTheMinimum(s, actions, p); }
  }

  /** The read after a lost create returns the current record. */
  ghost predicate FreshRead(s: Sys, a: Action) {
    a.ReadForBackdate? ==> a.seen == s.record
  }

  ghost predicate NoneGone(s: Sys) {
    forall p <- s.procs :: s.procs[p].Submitted? ==> s.procs[p].how != Gone
  }

  /** With fresh reads no correction is given up for want of a record. */
  lemma FreshReadsFindTheRecord(s: Sys, actions: seq<Action>, p: Pid)
    requires Start(s) && Runs.Always(Step, FreshRead, s, actions) && p in Run(s, actions).procs
    ensures Run(s, actions).procs[p].Submitted? ==> Run(s, actions).procs[p].how != Gone
  {
    hide Step, Inv;
    var inv := (t: Sys) => Inv(t) && NoneGone(t);
    assert inv(s) by { RunFromStart(s, []); }
    forall t, a | inv(t) && FreshRead(t, a) ensures inv(Step(t, a)) {
      StepKeepsInv(t, a);
      FreshStepFinds(t, a);
    }
    Runs.KeepsWhen(Step, FreshRead, inv, s, actions);
  }

  lemma FreshStepFinds(s: Sys, a: Action)
    requires Inv(s) && NoneGone(s) && FreshRead(s, a)
    ensures NoneGone(Step(s, a))
  {
    if a.ReadForBackdate? && a.p in s.procs { assert PcOk(s, a.p, s.procs[a.p]); }
    hide Inv;
  }

  /**
   A whole run in which one stale read leaves the submission time too late: a handler records its start
   first, and the submitter's read does not find that record.
  */
  lemma StaleAbsenceLeavesALateTime(s: Sys, handler: Pid, submitter: Pid, entry: Entry, at: int)
    requires Start(s) && handler != submitter && at < s.now
    ensures var t := Run(s, [StartAppend(handler, entry), ReadForAppend(handler, None), Append(handler),
                             StartQueued(submitter, at), Create(submitter), ReadForBackdate(submitter, None)]);
            && submitter in t.procs && t.procs[submitter] == Submitted(at, Gone)
            && t.record.Some? && t.record.value.submittedAt == s.now > at
  {
    var s3 := Step(Step(Step(s, StartAppend(handler, entry)), ReadForAppend(handler, None)), Append(handler));
    HandlerIsFirst(s, handler, entry);
    SubmitterMissesIt(s3, submitter, at);
    hide Step;
    SixSteps(s, StartAppend(handler, entry), ReadForAppend(handler, None), Append(handler),
             StartQueued(submitter, at), Create(submitter), ReadForBackdate(submitter, None));
  }

  lemma HandlerIsFirst(s: Sys, p: Pid, entry: Entry)
    requires Start(s)
    ensures var t := Step(Step(Step(s, StartAppend(p, entry)), ReadForAppend(p, None)), Append(p));
            t.record.Some? && t.record.value.submittedAt == s.now && t.procs.Keys == {p}
  {
    var s1 := Step(s, StartAppend(p, entry));
    assert s1.procs[p] == AppendReading(entry, 0) && s1.record.None?;
    var s2 := Step(s1, ReadForAppend(p, None));
    assert s2.procs[p] == AppendWriting(entry, 0, None, s.now) && s2.record.None?;
  }

  lemma SubmitterMissesIt(s: Sys, p: Pid, at: int)
    requires s.record.Some? && p !in s.procs
    ensures var t := Step(Step(Step(s, StartQueued(p, at)), Create(p)), ReadForBackdate(p, None));
            p in t.procs && t.procs[p] == Submitted(at, Gone) && t.record == s.record
  {
    var s1 := Step(s, StartQueued(p, at));
    assert s1.procs[p] == Creating(at) && s1.record == s.record;
    var s2 := Step(s1, Create(p));
    assert s2.procs[p] == BackdateReading(at, 0) && s2.record == s.record;
  }

  lemma SixSteps(s: Sys, a: Action, b: Action, c: Action, d: Action, e: Action, f: Action)
    ensures Run(s, [a, b, c, d, e, f]) == Step(Step(Step(Step(Step(Step(s, a), b), c), d), e), f)
  {
    hide Step;
    Runs.Snoc(Step, s, [], a);
    Runs.Snoc(Step, s, [a], b);
    Runs.Snoc(Step, s, [a, b], c);
    Runs.Snoc(Step, s, [a, b, c], d);
    Runs.Snoc(Step, s, [a, b, c, d], e);
    Runs.Snoc(Step, s, [a, b, c, d, e], f);
    assert [] + [a] == [a] && [a] + [b] == [a, b] && [a, b] + [c] == [a, b, c];
    assert [a, b, c] + [d] == [a, b, c, d] && [a, b, c, d] + [e] == [a, b, c, d, e];
    assert [a, b, c, d, e] + [f] == [a, b, c, d, e, f];
  }

  // ------------------------------------------------------------------ the error message

  /** Every transition that a call appended is of a call that returned. */
  ghost predicate Signed(procs: map<Pid, Pc>, ts: seq<Transition>) {
    forall i | 0 <= i < |ts| && ts[i].who.Some? :: ts[i].who.value in procs && procs[ts[i].who.value].Recorded?
  }

  /** The message of the last of these calls that gave one. */
  function LastError(procs: map<Pid, Pc>, ts: seq<Transition>): Option<string> {
    if ts == [] then None
    else
      var who := ts[|ts| - 1].who;
      if who.Some? && who.value in procs && procs[who.value].Recorded? && procs[who.value].entry.error.Some?
      then procs[who.value].entry.error
      else LastError(procs, ts[..|ts| - 1])
  }

  ghost predicate ErrorOk(procs: map<Pid, Pc>, x: Record) {
    Signed(procs, x.transitions) && x.error == LastError(procs, x.transitions)
  }

  ghost predicate ErrorsOk(s: Sys) {
    (s.record.Some? ==> s.record.value in s.past) && forall x <- s.past :: ErrorOk(s.procs, x)
  }

  /** The calls that had returned are as they were. */
  ghost predicate KeepsReturned(before: map<Pid, Pc>, after: map<Pid, Pc>) {
    forall p <- before :: before[p].Recorded? ==> p in after && after[p] == before[p]
  }

  lemma {:induction false} LastErrorStays(before: map<Pid, Pc>, after: map<Pid, Pc>, ts: seq<Transition>)
    requires Signed(before, ts) && KeepsReturned(before, after)
    ensures Signed(after, ts) && LastError(after, ts) == LastError(before, ts)
    decreases |ts|
  {
    if ts == [] {
    } else {
      LastErrorStays(before, after, ts[..|ts| - 1]);
    }
  }

  lemma ErrorsStay(s: Sys, procs: map<Pid, Pc>)
    requires ErrorsOk(s) && KeepsReturned(s.procs, procs)
    ensures ErrorsOk(s.(procs := procs))
  {
    forall x | x in s.past ensures ErrorOk(procs, x) { LastErrorStays(s.procs, procs, x.transitions); }
  }

  lemma NewRecordErrors(s: Sys, r: Record)
    requires ErrorsOk(s) && ErrorOk(s.procs, r)
    ensures ErrorsOk(Write(s, r))
  {
  }

  lemma AppendedError(s: Sys, p: Pid)
    requires Inv(s) && ErrorsOk(s) && p in s.procs && s.procs[p].AppendWriting?
    ensures var pc := s.procs[p];
            ErrorOk(s.procs[p := Recorded(pc.entry, pc.at)], Appended(s.record, pc.entry, pc.at, p))
  {
    var pc := s.procs[p];
    var procs := s.procs[p := Recorded(pc.entry, pc.at)];
    var r := Appended(s.record, pc.entry, pc.at, p);
    var base := if s.record.Some? then s.record.value else QueuedRecord(pc.at);
    assert r.transitions[..|r.transitions| - 1] == base.transitions;
    if s.record.Some? {
      assert ErrorOk(s.procs, base);
      LastErrorStays(s.procs, procs, base.transitions);
    } else {
      assert LastError(procs, base.transitions) == LastError(procs, base.transitions[..0]) == None;
    }
  }

  lemma {:induction false} LastErrorIgnoresTime(procs: map<Pid, Pc>, ts: seq<Transition>, at: int)
    requires ts != []
    ensures LastError(procs, ts[0 := ts[0].(at := at)]) == LastError(procs, ts)
    decreases |ts|
  {
    var n := |ts| - 1;
    var moved := ts[0 := ts[0].(at := at)];
    if n == 0 {
      assert moved[..0] == ts[..0];
    } else {
      assert moved[..n] == ts[..n][0 := ts[0].(at := at)];
      LastErrorIgnoresTime(procs, ts[..n], at);
    }
  }

  lemma BackdatedError(procs: map<Pid, Pc>, x: Record, at: int)
    requires ErrorOk(procs, x)
    ensures ErrorOk(procs, Backdated(x, at))
  {
    if x.transitions != [] {
      LastErrorIgnoresTime(procs, x.transitions, at);
      assert [x.transitions[0].(at := at)] + x.transitions[1..] == x.transitions[0 := x.transitions[0].(at := at)];
    }
  }

  lemma QueuedError(procs: map<Pid, Pc>, at: int)
    ensures ErrorOk(procs, QueuedRecord(at))
  {
    assert QueuedRecord(at).transitions[..0] == [];
  }

  lemma WritingKeepsErrors(s: Sys, a: Action)
    requires Inv(s) && ErrorsOk(s) && (a.Append? || a.Create? || a.Backdate?)
    ensures ErrorsOk(StepWriting(s, a))
  {
    if a.p in s.procs {
      var pc := s.procs[a.p];
      assert PcOk(s, a.p, pc);
      hide ErrorsOk, ErrorOk, Appended, Backdated, QueuedRecord, HistoryOk, SubmissionOk;
      var t := StepWriting(s, a);
      if pc.AppendWriting? && a.Append? && MayWrite(s, pc.existing) {
        if pc.existing.Some? { MatchingVersionIsCurrent(s, pc.existing.value); }
        assert pc.existing == s.record;
        AppendedError(s, a.p);
        ErrorsStay(s, t.procs);
        NewRecordErrors(s.(procs := t.procs), Appended(s.record, pc.entry, pc.at, a.p));
      } else if pc.Creating? && a.Create? && s.record.None? {
        QueuedError(t.procs, pc.at);
        ErrorsStay(s, t.procs);
        NewRecordErrors(s.(procs := t.procs), QueuedRecord(pc.at));
      } else if pc.BackdateWriting? && a.Backdate? && MayWrite(s, Some(pc.target)) {
        ErrorsStay(s, t.procs);
        PastError(s.(procs := t.procs), pc.target);
        BackdatedError(t.procs, pc.target, pc.at);
        NewRecordErrors(s.(procs := t.procs), Backdated(pc.target, pc.at));
      } else {
        ErrorsStay(s, t.procs);
      }
    }
  }

  lemma PastError(s: Sys, x: Record)
    requires ErrorsOk(s) && x in s.past
    ensures ErrorOk(s.procs, x)
  {
  }

  lemma StepKeepsErrors(s: Sys, a: Action)
    requires Inv(s) && ErrorsOk(s)
    ensures ErrorsOk(Step(s, a))
  {
    if a.Append? || a.Create? || a.Backdate? {
      WritingKeepsErrors(s, a);
    } else {
      OthersReturned(s, a);
      ErrorsStay(s.(now := Step(s, a).now), Step(s, a).procs);
      assert Step(s, a) == s.(now := Step(s, a).now).(procs := Step(s, a).procs);
    }
    hide Inv, ErrorsOk;
  }

  lemma OthersReturned(s: Sys, a: Action)
    requires !a.Append? && !a.Create? && !a.Backdate?
    ensures KeepsReturned(s.procs, Step(s, a).procs)
    ensures Step(s, a) == s.(now := Step(s, a).now, procs := Step(s, a).procs)
  {
  }

  /**
   In every run the error of every record that was ever stored is the message of the last call in its
   history that gave one, and absent if none did: neither a call without a message nor the correction
   of the submission time touches it.
  */
  lemma ErrorIsTheLastOneGiven(s: Sys, actions: seq<Action>, x: Record)
    requires Start(s) && x in Run(s, actions).past
    ensures x.error == LastError(Run(s, actions).procs, x.transitions)
  {
    hide Step, Inv, ErrorsOk;
    RunFromStart(s, []);
    NoErrorsAtFirst(s);
    var inv := (t: Sys) => Inv(t) && ErrorsOk(t);
    forall t, a | inv(t) ensures inv(Step(t, a)) {
      StepKeepsInv(t, a);
      StepKeepsErrors(t, a);
    }
    Runs.Keeps(Step, inv, s, actions);
    PastError(Run(s, actions), x);
  }

  lemma NoErrorsAtFirst(s: Sys)
    requires Start(s)
    ensures ErrorsOk(s)
  {
  }

  /** The arguments a call was started with. */
  ghost predicate Calls(a: Action, p: Pid, pc: Pc) {
    match pc
    case AppendReading(entry, _) => a == StartAppend(p, entry)
    case AppendWriting(entry, _, _, _) => a == StartAppend(p, entry)
    case Recorded(entry, _) => a == StartAppend(p, entry)
    case NotRecorded => a.StartAppend? && a.p == p
    case Creating(at) => a == StartQueued(p, at)
    case BackdateReading(at, _) => a == StartQueued(p, at)
    case BackdateWriting(at, _, _) => a == StartQueued(p, at)
    case Submitted(at, _) => a == StartQueued(p, at)
    case SubmitFailed => a.StartQueued? && a.p == p
  }

  lemma StepKeepsCall(s: Sys, a: Action, p: Pid, call: Action)
    requires p in s.procs && Calls(call, p, s.procs[p])
    ensures p in Step(s, a).procs && Calls(call, p, Step(s, a).procs[p])
  {
    hide Appended, Backdated, QueuedRecord;
  }

  lemma OnlyCallsBegin(s: Sys, a: Action, p: Pid)
    requires p !in s.procs && p in Step(s, a).procs
    ensures Calls(a, p, Step(s, a).procs[p])
  {
  }

  /** In every run each call still has, and records, exactly the arguments it was started with. */
  lemma {:induction false} CallsKeepTheirArguments(s: Sys, actions: seq<Action>, p: Pid)
    requires Start(s) && p in Run(s, actions).procs
    ensures exists a <- actions :: Calls(a, p, Run(s, actions).procs[p])
    decreases |actions|
  {
    hide Step, Calls;
    if actions == [] {
    } else {
      var front, last := actions[..|actions| - 1], actions[|actions| - 1];
      var mid := Run(s, front);
      if p in mid.procs {
        CallsKeepTheirArguments(s, front, p);
        var call :| call in front && Calls(call, p, mid.procs[p]);
        StepKeepsCall(mid, last, p, call);
        assert call in actions;
      } else {
        OnlyCallsBegin(mid, last, p);
        assert last in actions;
      }
    }
  }

  /** A conditional write of call `p` that the state refused. */
  predicate Loses(s: Sys, a: Action, p: Pid) {
    && p in s.procs
    && ((a == Append(p) && s.procs[p].AppendWriting? && Step(s, a).record == s.record)
        || (a == Backdate(p) && s.procs[p].BackdateWriting? && Step(s, a).record == s.record))
  }

  function Lost(s: Sys, actions: seq<Action>, p: Pid): nat
    decreases |actions|
  {
    if actions == [] then 0
    else Lost(s, actions[..|actions| - 1], p)
         + if Loses(Run(s, actions[..|actions| - 1]), actions[|actions| - 1], p) then 1 else 0
  }

  /** How many swaps a call has lost, as its place in the loop says. */
  ghost predicate Persists(pc: Pc, lost: nat, error: bool) {
    match pc
    case AppendReading(_, tries) => lost == tries <= 4
    case AppendWriting(_, tries, _, _) => lost == tries <= 4
    case NotRecorded => lost == 5 || error
    case Creating(_) => lost == 0
    case BackdateReading(_, tries) => lost == tries <= 4
    case BackdateWriting(_, tries, _) => lost == tries <= 4
    case Submitted(_, GaveUp) => lost == 5 || error
    case _ => true
  }

  lemma LosingAppend(s: Sys, p: Pid, lost: nat, error: bool)
    requires Inv(s) && p in s.procs && Persists(s.procs[p], lost, error)
    ensures p in Step(s, Append(p)).procs
    ensures Persists(Step(s, Append(p)).procs[p], lost + (if Loses(s, Append(p), p) then 1 else 0), error)
  {
    if s.procs[p].AppendWriting? && MayWrite(s, s.procs[p].existing) {
      assert PcOk(s, p, s.procs[p]);
      if s.record.Some? { MatchingVersionIsCurrent(s, s.procs[p].existing.value); }
    }
    hide Inv, VersionsOk, HistoryOk, SubmissionOk, PcOk, QueuedRecord;
  }

  lemma LosingBackdate(s: Sys, p: Pid, lost: nat, error: bool)
    requires Inv(s) && p in s.procs && Persists(s.procs[p], lost, error)
    ensures p in Step(s, Backdate(p)).procs
    ensures Persists(Step(s, Backdate(p)).procs[p], lost + (if Loses(s, Backdate(p), p) then 1 else 0), error)
  {
    if s.procs[p].BackdateWriting? && MayWrite(s, Some(s.procs[p].target)) {
      assert PcOk(s, p, s.procs[p]);
      MatchingVersionIsCurrent(s, s.procs[p].target);
    }
    hide Inv, VersionsOk, HistoryOk, SubmissionOk, PcOk, QueuedRecord;
  }

  lemma LosingStep(s: Sys, a: Action, p: Pid, lost: nat, error: bool)
    requires Inv(s) && p in s.procs && Persists(s.procs[p], lost, error)
    ensures p in Step(s, a).procs
    ensures Persists(Step(s, a).procs[p], lost + (if Loses(s, a, p) then 1 else 0), error || a == StoreError(p))
  {
    hide Inv;
    if a == Append(p) { LosingAppend(s, p, lost, error); }
    else if a == Backdate(p) { LosingBackdate(s, p, lost, error); }
    else { hide QueuedRecord; }
  }

  lemma NobodyLosesBefore(s: Sys, a: Action, p: Pid)
    requires p !in s.procs
    ensures !Loses(s, a, p)
    ensures p in Step(s, a).procs ==> Persists(Step(s, a).procs[p], 0, false)
  {
  }

  lemma {:induction false} CallsPersist(s: Sys, actions: seq<Action>, p: Pid)
    requires Start(s)
    ensures var t := Run(s, actions);
            if p in t.procs then Persists(t.procs[p], Lost(s, actions, p), StoreError(p) in actions)
            else Lost(s, actions, p) == 0
    decreases |actions|
  {
    hide Step, Loses, Inv, Persists;
    if actions == [] {
    } else {
      var front, last := actions[..|actions| - 1], actions[|actions| - 1];
      CallsPersist(s, front, p);
      RunFromStart(s, front);
      var mid := Run(s, front);
      assert StoreError(p) in actions <==> StoreError(p) in front || last == StoreError(p);
      if p in mid.procs {
        LosingStep(mid, last, p, Lost(s, front, p), StoreError(p) in front);
      } else {
        NobodyLosesBefore(mid, last, p);
        if p in Step(mid, last).procs { PersistsAfterErrors(Step(mid, last).procs[p], 0, StoreError(p) in actions); }
      }
    }
  }

  lemma PersistsAfterErrors(pc: Pc, lost: nat, error: bool)
    requires Persists(pc, lost, false)
    ensures Persists(pc, lost, error)
  {
  }

  /** In every run a call gives up its write only after five lost swaps, or after a store error. */
  lemma GivesUpOnlyAfterFiveLosses(s: Sys, actions: seq<Action>, p: Pid)
    requires Start(s) && p in Run(s, actions).procs
    requires var pc := Run(s, actions).procs[p]; pc.NotRecorded? || (pc.Submitted? && pc.how == GaveUp)
    ensures Lost(s, actions, p) == 5 || StoreError(p) in actions
  {
    CallsPersist(s, actions, p);
  }

  /** An undisturbed append lands, in any state of the job: a duplicate delivery reopens a completed one. */
  lemma UndisturbedAppendLands(start: Sys, actions: seq<Action>, p: Pid)
    requires Start(start)
    requires p in Run(start, actions).procs && Run(start, actions).procs[p].AppendReading?
    ensures var s := Run(start, actions);
            var t := Step(Step(s, ReadForAppend(p, s.record)), Append(p));
            var entry := s.procs[p].entry;
            && t.procs[p] == Recorded(entry, s.now)
            && t.record.Some?
            && t.record.value.state == entry.state
            && t.record.value.error == (if entry.error.Some? then entry.error
                                        else if s.record.Some? then s.record.value.error else None)
            && (var attempts := if s.record.Some? then s.record.value.attempts else 0;
                t.record.value.attempts == if entry.attempt > attempts then entry.attempt else attempts)
            && t.record.value.updatedAt == s.now
            && t.record.value.submittedAt == (if s.record.Some? then s.record.value.submittedAt else s.now)
            && t.record.value.transitions ==
                 (if s.record.Some? then s.record.value.transitions else QueuedRecord(s.now).transitions)
                 + [Transition(entry.state, s.now, entry.attempt, Some(p))]
  {
    RunFromStart(start, actions);
    var s := Run(start, actions);
    assert s.record.Some? ==> s.record.value in s.past;
    hide Inv, Run;
    var s1 := Step(s, ReadForAppend(p, s.record));
    assert s1 == To(s, p, AppendWriting(s.procs[p].entry, s.procs[p].tries, s.record, s.now));
  }

  // --------------------------------------------------------------- the methods themselves

  predicate By(a: Action, p: Pid) {
    !a.Tick? && a.p == p
  }

  /**
   What surrounds one table operation of a method: the actions of others while it is awaited,
   whether the table answers with an error, and the answer of a stale read.
  */
  datatype Turn = Turn(others: seq<Action>, error: bool, stale: Option<Option<Record>>)

  ghost predicate Foreign(env: seq<Turn>, p: Pid) {
    forall t <- env, a <- t.others :: !By(a, p)
  }

  function At(env: seq<Turn>, k: nat): Turn {
    if k < |env| then env[k] else Turn([], false, None)
  }

  lemma OtherLeavesAlone(s: Sys, a: Action, p: Pid)
    requires !By(a, p)
    ensures p in Step(s, a).procs <==> p in s.procs
    ensures p in s.procs ==> Step(s, a).procs[p] == s.procs[p]
  {
  }

  lemma {:induction false} OthersLeaveAlone(s: Sys, batch: seq<Action>, p: Pid)
    requires forall a <- batch :: !By(a, p)
    ensures p in Run(s, batch).procs <==> p in s.procs
    ensures p in s.procs ==> Run(s, batch).procs[p] == s.procs[p]
    decreases |batch|
  {
    hide Step;
    if batch == [] {
    } else {
      var front := batch[..|batch| - 1];
      assert batch[|batch| - 1] in batch;
      OthersLeaveAlone(s, front, p);
      OtherLeavesAlone(Run(s, front), batch[|batch| - 1], p);
    }
  }

  /** The tracker with its one-item table. */
  class JobStatusTracker {
    var now: int
    var record: Option<Record>
    var past: set<Record>
    var procs: map<Pid, Pc>
    var createdWith: Option<int>

    function View(): Sys
      reads this
    {
      Sys(now, record, past, procs, createdWith)
    }

    ghost predicate Valid()
      reads this
    {
      Inv(View())
    }

    constructor (now: int)
      ensures Valid() && Start(View())
    {
      this.now, record, past, procs, createdWith := now, None, {}, map[], None;
    }

    method Await(ghost p: Pid, others: seq<Action>)
      requires Valid() && forall a <- others :: !By(a, p)
      modifies this
      ensures Valid() && View() == Run(old(View()), others)
      ensures p in procs <==> p in old(procs)
      ensures p in procs ==> procs[p] == old(procs)[p]
      ensures others == [] ==> View() == old(View())
    {
      hide Step, Inv;
      OthersLeaveAlone(View(), others, p);
      for i := 0 to |others|
        invariant Valid() && View() == Run(old(View()), others[..i])
      {
        StepKeepsInv(View(), others[i]);
        assert others[..i + 1][..i] == others[..i];
        var t := Step(View(), others[i]);
        now, record, past, procs, createdWith := t.now, t.record, t.past, t.procs, t.createdWith;
      }
      assert others[..|others|] == others;
    }

    /** A conditional put of `next`: over the version that was read, or only if no record exists. */
    method PutIf(existing: Option<Record>, next: Record) returns (ok: bool)
      modifies this`record, this`past, this`createdWith
      ensures ok <==> MayWrite(old(View()), existing)
      ensures View() == if ok then Write(old(View()), next) else old(View())
    {
      ok := if existing.Some? then record.Some? && record.value.version == existing.value.version else record.None?;
      if ok {
        if record.None? {
          createdWith := Some(next.submittedAt);
        }
        record, past := Some(next), past + {next};
      }
    }

    /** What a read answers: the current record, or the stale one the schedule names. */
    function Answer(t: Turn): Option<Record>
      reads this
    {
      if t.stale.Some? && (t.stale.value.Some? ==> t.stale.value.value in past) then t.stale.value else record
    }

    method GetForAppend(p: Pid, entry: Entry, tries: nat, turn: Turn) returns (existing: Option<Record>, at: int)
      requires Valid() && p in procs && procs[p] == AppendReading(entry, tries)
      modifies this
      ensures Valid() && existing == old(Answer(turn)) && View() == Step(old(View()), ReadForAppend(p, existing))
      ensures p in procs && procs[p] == AppendWriting(entry, tries, existing, at) && at == now
      ensures record == old(record)
    {
      existing := Answer(turn);
      StepKeepsInv(View(), ReadForAppend(p, existing));
      at := now;
      procs := procs[p := AppendWriting(entry, tries, existing, at)];
    }

    method PutAppended(p: Pid, entry: Entry, tries: nat, existing: Option<Record>, at: int) returns (ok: bool)
      requires Valid() && p in procs && procs[p] == AppendWriting(entry, tries, existing, at)
      modifies this
      ensures Valid() && View() == Step(old(View()), Append(p)) && (ok <==> MayWrite(old(View()), existing))
      ensures p in procs && procs[p] == if ok then Recorded(entry, at) else AfterLostAppend(entry, tries)
    {
      StepKeepsInv(View(), Append(p));
      ok := PutIf(existing, Appended(existing, entry, at, p));
      procs := procs[p := if ok then Recorded(entry, at) else AfterLostAppend(entry, tries)];
    }

    method Fail(p: Pid)
      requires Valid() && p in procs
      modifies this
      ensures Valid() && View() == Step(old(View()), StoreError(p))
      ensures p in procs && procs[p] == AfterError(old(procs[p]))
    {
      StepKeepsInv(View(), StoreError(p));
      procs := procs[p := AfterError(procs[p])];
    }

    method BeginAppend(p: Pid, entry: Entry)
      requires Valid() && p !in procs
      modifies this
      ensures Valid() && View() == Step(old(View()), StartAppend(p, entry))
      ensures p in procs && procs[p] == AppendReading(entry, 0) && record == old(record)
    {
      StepKeepsInv(View(), StartAppend(p, entry));
      procs := procs[p := AppendReading(entry, 0)];
    }

    /** `recordTransition`: read, append, swap; at most five attempts. */
    method RecordTransition(p: Pid, entry: Entry, env: seq<Turn>) returns (ok: bool, ghost trace: seq<Action>)
      requires Valid() && Foreign(env, p) && p !in procs
      modifies this
      ensures Valid() && View() == Run(old(View()), trace)
      ensures p in procs && if ok then procs[p].Recorded? && procs[p].entry == entry else procs[p] == NotRecorded
      ensures env == [] ==> ok
    {
      hide Step, Inv;
      BeginAppend(p, entry);
      Runs.Extend(Step, old(View()), [], [], StartAppend(p, entry), old(View()));
      trace := [] + ([] + [StartAppend(p, entry)]);
      var cas := 0;
      while true
        invariant Valid() && View() == Run(old(View()), trace)
        invariant cas < MAX_CAS_ATTEMPTS && p in procs && procs[p] == AppendReading(entry, cas)
        decreases MAX_CAS_ATTEMPTS - cas
      {
        Await(p, At(env, 2 * cas).others);
        ghost var mid := View();
        if At(env, 2 * cas).error {
          Fail(p);
          Runs.Extend(Step, old(View()), trace, At(env, 2 * cas).others, Action.StoreError(p), mid);
          return false, trace + (At(env, 2 * cas).others + [Action.StoreError(p)]);
        }
        var existing, at := GetForAppend(p, entry, cas, At(env, 2 * cas));
        Runs.Extend(Step, old(View()), trace, At(env, 2 * cas).others, ReadForAppend(p, existing), mid);
        trace := trace + (At(env, 2 * cas).others + [ReadForAppend(p, existing)]);
        ghost var part;
        ok, part := WriteAppended(p, entry, cas, existing, at, At(env, 2 * cas + 1));
        Runs.Concat(Step, old(View()), trace, part);
        trace := trace + part;
        if procs[p].Recorded? || procs[p].NotRecorded? {
          return ok, trace;
        }
        cas := cas + 1;
      }
    }

    method WriteAppended(p: Pid, entry: Entry, tries: nat, existing: Option<Record>, at: int, turn: Turn)
      returns (ok: bool, ghost trace: seq<Action>)
      requires Valid() && p in procs && procs[p] == AppendWriting(entry, tries, existing, at)
      requires forall a <- turn.others :: !By(a, p)
      modifies this
      ensures Valid() && View() == Run(old(View()), trace) && p in procs
      ensures procs[p] == if ok then Recorded(entry, at)
                          else if turn.error then NotRecorded else AfterLostAppend(entry, tries)
      ensures turn == Turn([], false, None) && existing == old(record) ==> ok
    {
      hide Step, Inv;
      Await(p, turn.others);
      ghost var mid := View();
      if turn.error {
        Fail(p);
        Runs.Extend(Step, old(View()), [], turn.others, Action.StoreError(p), mid);
        return false, [] + (turn.others + [Action.StoreError(p)]);
      }
      ok := PutAppended(p, entry, tries, existing, at);
      Runs.Extend(Step, old(View()), [], turn.others, Append(p), mid);
      trace := [] + (turn.others + [Append(p)]);
    }

    method BeginQueued(p: Pid, at: int)
      requires Valid() && p !in procs
      modifies this
      ensures Valid() && View() == Step(old(View()), StartQueued(p, at))
      ensures p in procs && procs[p] == Creating(at) && record == old(record)
    {
      StepKeepsInv(View(), StartQueued(p, at));
      procs := procs[p := Creating(at)];
    }

    method PutQueued(p: Pid, at: int) returns (ok: bool)
      requires Valid() && p in procs && procs[p] == Creating(at)
      modifies this
      ensures Valid() && View() == Step(old(View()), Create(p)) && (ok <==> old(record).None?) && record.Some?
      ensures p in procs && procs[p] == if ok then Submitted(at, Created) else BackdateReading(at, 0)
    {
      StepKeepsInv(View(), Create(p));
      ok := PutIf(None, QueuedRecord(at));
      procs := procs[p := if ok then Submitted(at, Created) else BackdateReading(at, 0)];
    }

    method GetForBackdate(p: Pid, at: int, tries: nat, turn: Turn) returns (existing: Option<Record>)
      requires Valid() && p in procs && procs[p] == BackdateReading(at, tries)
      modifies this
      ensures Valid() && existing == old(Answer(turn)) && View() == Step(old(View()), ReadForBackdate(p, existing))
      ensures p in procs && procs[p] == AfterBackdateRead(at, tries, existing)
      ensures record == old(record)
    {
      existing := Answer(turn);
      StepKeepsInv(View(), ReadForBackdate(p, existing));
      procs := procs[p := AfterBackdateRead(at, tries, existing)];
    }

    method PutBackdated(p: Pid, at: int, tries: nat, existing: Record) returns (ok: bool)
      requires Valid() && p in procs && procs[p] == BackdateWriting(at, tries, existing)
      modifies this
      ensures Valid() && View() == Step(old(View()), Backdate(p)) && (ok <==> MayWrite(old(View()), Some(existing)))
      ensures p in procs && procs[p] == if ok then Submitted(at, Corrected) else AfterLostBackdate(at, tries)
    {
      StepKeepsInv(View(), Backdate(p));
      ok := PutIf(Some(existing), Backdated(existing, at));
      procs := procs[p := if ok then Submitted(at, Corrected) else AfterLostBackdate(at, tries)];
    }

    /** `backdateSubmission`: move the submission time earlier, with at most five attempts. */
    method BackdateSubmission(p: Pid, at: int, env: seq<Turn>) returns (ghost trace: seq<Action>)
      requires Valid() && Foreign(env, p) && p in procs && procs[p] == BackdateReading(at, 0)
      modifies this
      ensures Valid() && View() == Run(old(View()), trace)
      ensures p in procs && procs[p].Submitted? && procs[p].at == at
      ensures env == [] && old(record).Some? ==> Settled(procs[p].how)
    {
      hide Step, Inv;
      trace := [];
      var cas := 0;
      while true
        invariant Valid() && View() == Run(old(View()), trace)
        invariant cas < MAX_CAS_ATTEMPTS && p in procs && procs[p] == BackdateReading(at, cas)
        invariant env == [] ==> cas == 0 && record == old(record)
        decreases MAX_CAS_ATTEMPTS - cas
      {
        Await(p, At(env, 2 * cas + 1).others);
        ghost var mid := View();
        if At(env, 2 * cas + 1).error {
          Fail(p);
          Runs.Extend(Step, old(View()), trace, At(env, 2 * cas + 1).others, Action.StoreError(p), mid);
          return trace + (At(env, 2 * cas + 1).others + [Action.StoreError(p)]);
        }
        var existing := GetForBackdate(p, at, cas, At(env, 2 * cas + 1));
        Runs.Extend(Step, old(View()), trace, At(env, 2 * cas + 1).others, ReadForBackdate(p, existing), mid);
        trace := trace + (At(env, 2 * cas + 1).others + [ReadForBackdate(p, existing)]);
        if existing.None? || !(at < existing.value.submittedAt) {
          return trace;
        }
        ghost var part := WriteBackdated(p, at, cas, existing.value, At(env, 2 * cas + 2));
        Runs.Concat(Step, old(View()), trace, part);
        trace := trace + part;
        if procs[p].Submitted? {
          return trace;
        }
        cas := cas + 1;
      }
    }

    method WriteBackdated(p: Pid, at: int, tries: nat, existing: Record, turn: Turn) returns (ghost trace: seq<Action>)
      requires Valid() && p in procs && procs[p] == BackdateWriting(at, tries, existing)
      requires forall a <- turn.others :: !By(a, p)
      modifies this
      ensures Valid() && View() == Run(old(View()), trace) && p in procs
      ensures || procs[p] == Submitted(at, Corrected)
              || procs[p] == if turn.error then Submitted(at, GaveUp) else AfterLostBackdate(at, tries)
      ensures turn == Turn([], false, None) && Some(existing) == old(record) ==> procs[p] == Submitted(at, Corrected)
    {
      hide Step, Inv;
      Await(p, turn.others);
      ghost var mid := View();
      if turn.error {
        Fail(p);
        Runs.Extend(Step, old(View()), [], turn.others, Action.StoreError(p), mid);
        return [] + (turn.others + [Action.StoreError(p)]);
      }
      var ok := PutBackdated(p, at, tries, existing);
      Runs.Extend(Step, old(View()), [], turn.others, Backdate(p), mid);
      trace := [] + (turn.others + [Backdate(p)]);
    }

    /** `recordQueued`: create the record, or correct the submission time of the one already there. */
    method RecordQueued(p: Pid, at: int, env: seq<Turn>) returns (ok: bool, ghost trace: seq<Action>)
      requires Valid() && Foreign(env, p) && p !in procs
      modifies this
      ensures Valid() && View() == Run(old(View()), trace)
      ensures p in procs && if ok then procs[p].Submitted? && procs[p].at == at else procs[p] == SubmitFailed
      ensures env == [] ==> ok && Settled(procs[p].how)
    {
      hide Step, Inv;
      BeginQueued(p, at);
      Runs.Extend(Step, old(View()), [], [], StartQueued(p, at), old(View()));
      trace := [] + ([] + [StartQueued(p, at)]);
      Await(p, At(env, 0).others);
      ghost var mid := View();
      if At(env, 0).error {
        Fail(p);
        Runs.Extend(Step, old(View()), trace, At(env, 0).others, Action.StoreError(p), mid);
        return false, trace + (At(env, 0).others + [Action.StoreError(p)]);
      }
      var created := PutQueued(p, at);
      Runs.Extend(Step, old(View()), trace, At(env, 0).others, Create(p), mid);
      trace := trace + (At(env, 0).others + [Create(p)]);
      if created {
        return true, trace;
      }
      ghost var part := BackdateSubmission(p, at, env);
      Runs.Concat(Step, old(View()), trace, part);
      return true, trace + part;
    }
  }
}
