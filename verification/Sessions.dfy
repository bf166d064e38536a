/**
 Session invalidation in AuthBasic: session epochs bumped by password resets, tokens that carry
 the epoch they were issued under, and sign-out markers that live until the token's own expiry.

 Resets, sign-ins, sign-outs and session checks of one user interleave freely. Epoch reads name
 the position of the value they return in the list of all values the marker ever had, so a
 read is fresh when it names the last one.
*/
module Sessions {
  import opened Maybe
  import opened EpochText
  import Runs

  const MAX_EPOCH_BUMP_ATTEMPTS: nat := 3

  type Pid = nat
  type Jti = nat
  type Hash = string

  /** Which of the two bumps of a reset is under way. */
  datatype Round = First | Second(bumpedAt: nat, wroteAt: nat)

  /** A signed token: its claims, and (for the theorems) where its epoch was read. */
  datatype Token = Token(ep: nat, exp: int, saw: nat, readAt: nat)

  /**
   A session check under way: when it verified the token, whether the token was already on the
   revocation list then, and what the concurrent reads have answered so far.
  */
  datatype Check = Check(
    jti: Jti, startedAt: int, listed: bool,
    revoked: Option<bool>, missed: bool, revokedReadAt: int,
    saw: Option<nat>, epochReadAt: nat)

  datatype Pc =
    | Bumping(hash: Hash, round: Round, tries: nat)
    | Swapping(hash: Hash, round: Round, tries: nat, raw: Option<string>)
    | Writing(hash: Hash, bumpedAt: nat)
    | ResetDone(bumpedAt: nat, wroteAt: nat, again: Option<nat>)
    | ResetFailed
    | SigningIn
    | SignedIn(jti: Jti)
    | SigningOut(jti: Jti)
    | SignedOut(jti: Jti)
    | Checking(check: Check)
    | Checked(check: Check, accepted: bool)
    | Ended

  /** A password and the number of epoch values that existed when it was written. */
  datatype Password = Password(hash: Hash, wroteAt: nat)

  datatype Sys = Sys(
    now: int,
    epochs: seq<Option<string>>,
    passwords: seq<Password>,
    tokens: map<Jti, Token>,
    markers: map<Jti, int>,
    procs: map<Pid, Pc>)

  datatype Action =
    | Tick(seconds: nat)
    | StartReset(p: Pid, hash: Hash)
    | ReadForBump(p: Pid, i: nat)
    | Swap(p: Pid)
    | StoreError(p: Pid)
    | WritePassword(p: Pid)
    | StartSignIn(p: Pid, hash: Hash, i: nat)
    | Mint(p: Pid, i: nat, jti: Jti, duration: int)
    | StartSignOut(p: Pid, jti: Jti)
    | PutMarker(p: Pid)
    | StartCheck(p: Pid, jti: Jti)
    | ReadMarker(p: Pid, missed: bool)
    | ReadEpoch(p: Pid, i: nat)
    | Decide(p: Pid)

  ghost predicate Start(s: Sys) {
    && |s.epochs| == 1 && |s.passwords| == 1 && s.passwords[0].wroteAt == 0
    && s.tokens == map[] && s.markers == map[] && s.procs == map[]
  }

  function Epoch(s: Sys): Option<string>
    requires |s.epochs| > 0
  {
    s.epochs[|s.epochs| - 1]
  }

  function To(s: Sys, p: Pid, pc: Pc): Sys {
    s.(procs := s.procs[p := pc])
  }

  /** A failed attempt is retried twice; then the first bump fails the reset, the second is given up. */
  function AfterFailure(hash: Hash, round: Round, tries: nat): Pc {
    if tries + 1 < MAX_EPOCH_BUMP_ATTEMPTS then Bumping(hash, round, tries + 1)
    else match round
         case First => ResetFailed
         case Second(b, w) => ResetDone(b, w, None)
  }

  function AfterSwap(hash: Hash, round: Round, at: nat): Pc {
    match round
    case First => Writing(hash, at)
    case Second(b, w) => ResetDone(b, w, Some(at))
  }

  function StepReset(s: Sys, a: Action): Sys
    requires |s.epochs| > 0
    requires a.ReadForBump? || a.Swap? || a.StoreError? || a.WritePassword?
  {
    if a.p !in s.procs then s else
    var pc := s.procs[a.p];
    match a
    case ReadForBump(p, i) =>
      if pc.Bumping? && i < |s.epochs| then To(s, p, Swapping(pc.hash, pc.round, pc.tries, s.epochs[i])) else s
    case Swap(p) =>
      if !pc.Swapping? then s
      else if Epoch(s) == pc.raw then
        To(s.(epochs := s.epochs + [Some(Bumped(pc.raw))]), p, AfterSwap(pc.hash, pc.round, |s.epochs|))
      else To(s, p, AfterFailure(pc.hash, pc.round, pc.tries))
    case StoreError(p) =>
      if pc.Bumping? || pc.Swapping? then To(s, p, AfterFailure(pc.hash, pc.round, pc.tries))
      else if pc.Writing? then To(s, p, Ended)
      else s
    case WritePassword(p) =>
      if pc.Writing? then
        To(s.(passwords := s.passwords + [Password(pc.hash, |s.epochs|)]),
           p, Bumping(pc.hash, Second(pc.bumpedAt, |s.epochs|), 0))
      else s
  }

  /** The verdict of `resolveSession` once its reads are in. */
  predicate Admits(s: Sys, c: Check)
    requires c.jti in s.tokens && c.revoked.Some? && c.saw.Some? && c.saw.value < |s.epochs|
  {
    !c.revoked.value && ParseEpoch(s.epochs[c.saw.value]) <= s.tokens[c.jti].ep
  }

  function StepCheck(s: Sys, a: Action): Sys
    requires a.ReadMarker? || a.ReadEpoch? || a.Decide?
  {
    if a.p !in s.procs || !s.procs[a.p].Checking? || s.procs[a.p].check.jti !in s.tokens then s else
    var c := s.procs[a.p].check;
    match a
    case ReadMarker(p, missed) =>
      if c.revoked.Some? then s
      else To(s, p, Checking(c.(revoked := Some(!missed && c.jti in s.markers && s.now < s.markers[c.jti]),
                               missed := missed, revokedReadAt := s.now)))
    case ReadEpoch(p, i) =>
      if c.saw.Some? || i >= |s.epochs| then s
      else To(s, p, Checking(c.(saw := Some(i), epochReadAt := |s.epochs|)))
    case Decide(p) =>
      if c.revoked.None? || c.saw.None? || c.saw.value >= |s.epochs| then s
      else To(s, p, Checked(c, Admits(s, c)))
  }

  function Step(s: Sys, a: Action): Sys {
    if |s.epochs| == 0 then s else
    match a
    case Tick(n) => s.(now := s.now + n)
    case StartReset(p, hash) => if p in s.procs then s else To(s, p, Bumping(hash, First, 0))
    case StartSignIn(p, hash, i) =>
      if p in s.procs || i >= |s.passwords| || s.passwords[i].hash != hash then s else To(s, p, SigningIn)
    case Mint(p, i, jti, duration) =>
      if p in s.procs && s.procs[p].SigningIn? && i < |s.epochs| && jti !in s.tokens then
        To(s.(tokens := s.tokens[jti := Token(ParseEpoch(s.epochs[i]), s.now + duration, i, |s.epochs|)]),
           p, SignedIn(jti))
      else s
    case StartSignOut(p, jti) =>
      if p in s.procs || jti !in s.tokens then s
      else To(s, p, if s.now < s.tokens[jti].exp then SigningOut(jti) else Ended)
    case PutMarker(p) =>
      if p in s.procs && s.procs[p].SigningOut? && s.procs[p].jti in s.tokens then
        var jti := s.procs[p].jti;
        To(s.(markers := s.markers[jti := s.tokens[jti].exp]), p, SignedOut(jti))
      else s
    case StartCheck(p, jti) =>
      if p in s.procs || jti !in s.tokens then s
      else To(s, p, if s.now < s.tokens[jti].exp
                    then Checking(Check(jti, s.now, jti in s.markers, None, false, s.now, None, 0)) else Ended)
    case ReadForBump(_, _) => StepReset(s, a)
    case Swap(_) => StepReset(s, a)
    case StoreError(_) => StepReset(s, a)
    case WritePassword(_) => StepReset(s, a)
    case ReadMarker(_, _) => StepCheck(s, a)
    case ReadEpoch(_, _) => StepCheck(s, a)
    case Decide(_) => StepCheck(s, a)
  }

  function Run(s: Sys, actions: seq<Action>): Sys {
    Runs.Run(Step, s, actions)
  }

  // ---------------------------------------------------------------- the invariant

  /** Every committed bump adds one, as long as the epoch stays a safe integer. */
  ghost predicate EpochsClimb(s: Sys) {
    && |s.epochs| > 0
    && (ParseEpoch(s.epochs[0]) + |s.epochs| - 1 <= MAX_SAFE ==>
          forall k | 0 <= k < |s.epochs| :: ParseEpoch(s.epochs[k]) == ParseEpoch(s.epochs[0]) + k)
  }

  ghost predicate TokenOk(s: Sys, t: Token) {
    t.saw < t.readAt <= |s.epochs| && t.ep == ParseEpoch(s.epochs[t.saw])
  }

  ghost predicate CheckOk(s: Sys, c: Check) {
    && c.jti in s.tokens
    && c.startedAt < s.tokens[c.jti].exp
    && (c.listed ==> c.jti in s.markers)
    && (c.saw.Some? ==> c.saw.value < c.epochReadAt <= |s.epochs|)
    && (c.listed && c.revoked.Some? ==>
          (c.revoked.value <==> !c.missed && c.revokedReadAt < s.tokens[c.jti].exp))
  }

  ghost predicate RoundOk(s: Sys, r: Round) {
    r.Second? ==> r.bumpedAt < r.wroteAt <= |s.epochs|
  }

  ghost predicate PcOk(s: Sys, pc: Pc) {
    match pc
    case Bumping(_, r, _) => RoundOk(s, r)
    case Swapping(_, r, _, _) => RoundOk(s, r)
    case Writing(_, b) => 0 < b < |s.epochs|
    case ResetDone(b, w, again) =>
      b < w <= |s.epochs| && (again.Some? ==> w <= again.value < |s.epochs|)
    case SignedOut(jti) => jti in s.markers && jti in s.tokens
    case Checking(c) => CheckOk(s, c)
    case Checked(c, accepted) =>
      CheckOk(s, c) && c.revoked.Some? && c.saw.Some? && (accepted <==> Admits(s, c))
    case _ => true
  }

  ghost predicate Inv(s: Sys) {
    && EpochsClimb(s)
    && (forall j <- s.tokens :: TokenOk(s, s.tokens[j]))
    && (forall j <- s.markers :: j in s.tokens && s.markers[j] == s.tokens[j].exp)
    && (forall p <- s.procs :: PcOk(s, s.procs[p]))
  }

  /** The parts of the state that other requests may have changed only by growing. */
  ghost predicate Grows(s: Sys, t: Sys) {
    && s.epochs <= t.epochs
    && s.passwords <= t.passwords
    && s.tokens.Keys <= t.tokens.Keys && (forall j <- s.tokens :: t.tokens[j] == s.tokens[j])
    && s.markers.Keys <= t.markers.Keys
    && s.now <= t.now
  }

  lemma GrowthKeepsPc(s: Sys, t: Sys, pc: Pc)
    requires Grows(s, t) && PcOk(s, pc)
    ensures PcOk(t, pc)
  {
  }

  lemma GrowthKeepsTokens(s: Sys, t: Sys)
    requires Grows(s, t) && forall j <- s.tokens :: TokenOk(s, s.tokens[j])
    ensures forall j <- s.tokens :: TokenOk(t, t.tokens[j])
  {
    forall j <- s.tokens ensures TokenOk(t, t.tokens[j]) {
      assert TokenOk(s, s.tokens[j]);
    }
  }

  /** A move of one request to a sound position, on top of growth, keeps the invariant. */
  lemma MoveKeepsInv(s: Sys, mid: Sys, p: Pid, pc: Pc)
    requires Inv(s) && Grows(s, mid) && mid.procs == s.procs && EpochsClimb(mid)
    requires mid.tokens == s.tokens && mid.markers == s.markers
    requires PcOk(mid, pc)
    ensures Inv(To(mid, p, pc))
  {
    var t := To(mid, p, pc);
    GrowthKeepsTokens(s, mid);
    forall j <- t.tokens ensures TokenOk(t, t.tokens[j]) { assert TokenOk(mid, mid.tokens[j]); }
    forall q <- t.procs ensures PcOk(t, t.procs[q]) {
      if q != p { GrowthKeepsPc(s, mid, s.procs[q]); GrowthKeepsPc(mid, t, s.procs[q]); }
      else { GrowthKeepsPc(mid, t, pc); }
    }
  }

  lemma BumpClimbs(s: Sys)
    requires EpochsClimb(s)
    ensures EpochsClimb(s.(epochs := s.epochs + [Some(Bumped(Epoch(s)))]))
  {
    var t := s.(epochs := s.epochs + [Some(Bumped(Epoch(s)))]);
    var n := |s.epochs|;
    if ParseEpoch(t.epochs[0]) + n <= MAX_SAFE {
      assert ParseEpoch(s.epochs[n - 1]) == ParseEpoch(s.epochs[0]) + n - 1;
      BumpRaisesIff(s.epochs[n - 1]);
    }
  }

  lemma SwapKeepsInv(s: Sys, p: Pid)
    requires Inv(s)
    ensures Inv(Step(s, Swap(p)))
  {
    if p in s.procs && s.procs[p].Swapping? {
      var pc := s.procs[p];
      assert PcOk(s, pc);
      if Epoch(s) == pc.raw {
        BumpClimbs(s);
        var mid := s.(epochs := s.epochs + [Some(Bumped(pc.raw))]);
        MoveKeepsInv(s, mid, p, AfterSwap(pc.hash, pc.round, |s.epochs|));
      } else {
        MoveKeepsInv(s, s, p, AfterFailure(pc.hash, pc.round, pc.tries));
      }
    }
  }

  lemma WritePasswordKeepsInv(s: Sys, p: Pid)
    requires Inv(s) && p in s.procs && s.procs[p].Writing?
    ensures Inv(Step(s, WritePassword(p)))
  {
    var pc := s.procs[p];
    assert PcOk(s, pc);
    var mid := s.(passwords := s.passwords + [Password(pc.hash, |s.epochs|)]);
    hide EpochsClimb;
    EpochsOnly(s, mid);
    MoveKeepsInv(s, mid, p, Bumping(pc.hash, Second(pc.bumpedAt, |s.epochs|), 0));
  }

  lemma EpochsOnly(s: Sys, t: Sys)
    requires EpochsClimb(s) && t.epochs == s.epochs
    ensures EpochsClimb(t)
  {
  }

  lemma ResetKeepsInv(s: Sys, a: Action)
    requires Inv(s) && (a.ReadForBump? || a.StoreError? || a.WritePassword?)
    ensures Inv(Step(s, a))
  {
    hide EpochsClimb, TokenOk, CheckOk;
    if a.p in s.procs {
      var pc := s.procs[a.p];
      assert PcOk(s, pc);
      if a.WritePassword? {
        if pc.Writing? { WritePasswordKeepsInv(s, a.p); }
      } else if Step(s, a) != s {
        MoveKeepsInv(s, s, a.p, Step(s, a).procs[a.p]);
      }
    }
  }

  lemma CheckKeepsInv(s: Sys, a: Action)
    requires Inv(s) && (a.ReadMarker? || a.ReadEpoch? || a.Decide?)
    ensures Inv(Step(s, a))
  {
    hide EpochsClimb, TokenOk;
    if a.p in s.procs && Step(s, a) != s {
      assert PcOk(s, s.procs[a.p]);
      MoveKeepsInv(s, s, a.p, Step(s, a).procs[a.p]);
    }
  }

  lemma MintKeepsInv(s: Sys, p: Pid, i: nat, jti: Jti, duration: int)
    requires Inv(s)
    ensures Inv(Step(s, Mint(p, i, jti, duration)))
  {
    var t := Step(s, Mint(p, i, jti, duration));
    if t != s {
      forall q <- t.procs ensures PcOk(t, t.procs[q]) {
        if q != p { GrowthKeepsPc(s, t, s.procs[q]); }
      }
      GrowthKeepsTokens(s, t);
      assert TokenOk(t, t.tokens[jti]);
    }
  }

  lemma PutMarkerKeepsInv(s: Sys, p: Pid)
    requires Inv(s)
    ensures Inv(Step(s, PutMarker(p)))
  {
    var t := Step(s, PutMarker(p));
    if t != s {
      forall q <- t.procs ensures PcOk(t, t.procs[q]) {
        if q != p { GrowthKeepsPc(s, t, s.procs[q]); }
      }
      GrowthKeepsTokens(s, t);
    }
  }

  lemma StartKeepsInv(s: Sys, a: Action)
    requires Inv(s) && (a.Tick? || a.StartReset? || a.StartSignIn? || a.StartSignOut? || a.StartCheck?)
    ensures Inv(Step(s, a))
  {
    hide EpochsClimb, TokenOk;
    var t := Step(s, a);
    if a.Tick? {
      EpochsOnly(s, t);
      forall q <- t.procs ensures PcOk(t, t.procs[q]) { GrowthKeepsPc(s, t, s.procs[q]); }
      GrowthKeepsTokens(s, t);
    } else if t != s {
      MoveKeepsInv(s, s, a.p, t.procs[a.p]);
    }
  }

  lemma StepKeepsInv(s: Sys, a: Action)
    requires Inv(s)
    ensures Inv(Step(s, a)) && |Step(s, a).epochs| > 0
  {
    if a.Swap? { SwapKeepsInv(s, a.p); }
    else if a.ReadForBump? || a.StoreError? || a.WritePassword? { ResetKeepsInv(s, a); }
    else if a.ReadMarker? || a.ReadEpoch? || a.Decide? { CheckKeepsInv(s, a); }
    else if a.Mint? { MintKeepsInv(s, a.p, a.i, a.jti, a.duration); }
    else if a.PutMarker? { PutMarkerKeepsInv(s, a.p); }
    else { StartKeepsInv(s, a); }
  }

  lemma RunFromStart(s: Sys, actions: seq<Action>)
    requires Start(s)
    ensures Inv(Run(s, actions))
  {
    forall t, a | Inv(t) ensures Inv(Step(t, a)) { StepKeepsInv(t, a); }
    Runs.Keeps(Step, Inv, s, actions);
  }

  // ------------------------------------------------------------------ theorems

  /** The epoch has not reached the largest safe integer. */
  ghost predicate Safe(s: Sys) {
    |s.epochs| > 0 && ParseEpoch(s.epochs[0]) + |s.epochs| - 1 <= MAX_SAFE
  }

  /** However many resets run at once and however stale their reads, each committed bump raises the epoch. */
  lemma CommittedBumpsRaiseTheEpoch(s: Sys, actions: seq<Action>, i: nat, j: nat)
    requires Start(s) && i < j < |Run(s, actions).epochs| && Safe(Run(s, actions))
    ensures ParseEpoch(Run(s, actions).epochs[i]) < ParseEpoch(Run(s, actions).epochs[j])
  {
    RunFromStart(s, actions);
  }

  /** The check's epoch read returned the newest value there was. */
  ghost predicate FreshEpoch(c: Check) {
    c.saw.Some? && c.saw.value + 1 == c.epochReadAt
  }

  /**
   A check with a fresh epoch read admits a token exactly when it is not seen revoked and the
   token's epoch read returned the newest value too.
  */
  lemma AdmittedIffEpochCurrent(s: Sys, actions: seq<Action>, q: Pid)
    requires Start(s)
    requires var t := Run(s, actions); q in t.procs && t.procs[q].Checked? && Safe(t)
    requires FreshEpoch(Run(s, actions).procs[q].check)
    ensures var t := Run(s, actions);
            var c := t.procs[q].check;
            c.jti in t.tokens && c.revoked.Some? &&
            (t.procs[q].accepted <==> !c.revoked.value && c.epochReadAt <= t.tokens[c.jti].saw + 1)
  {
    RunFromStart(s, actions);
    var t := Run(s, actions);
    var c := t.procs[q].check;
    assert PcOk(t, t.procs[q]) && TokenOk(t, t.tokens[c.jti]);
  }

  /**
   A token whose epoch was read before some committed bump (the one that wrote value `k`) is refused
   by every check that reads the epoch after that bump.
  */
  lemma BumpRefusesEarlierTokens(s: Sys, actions: seq<Action>, q: Pid, k: nat)
    requires Start(s)
    requires var t := Run(s, actions); q in t.procs && t.procs[q].Checked? && Safe(t)
    requires var t := Run(s, actions); var c := t.procs[q].check;
             FreshEpoch(c) && k < c.epochReadAt && c.jti in t.tokens && t.tokens[c.jti].readAt <= k
    ensures !Run(s, actions).procs[q].accepted
  {
    AdmittedIffEpochCurrent(s, actions, q);
    RunFromStart(s, actions);
    var t := Run(s, actions);
    assert TokenOk(t, t.tokens[t.procs[q].check.jti]);
  }

  /**
   A finished reset: tokens whose epoch was read before its first bump are refused, and when its
   second bump succeeded so are those whose epoch was read before the new password was written.
  */
  lemma ResetEndsEarlierSessions(s: Sys, actions: seq<Action>, p: Pid, q: Pid)
    requires Start(s)
    requires var t := Run(s, actions);
             p in t.procs && t.procs[p].ResetDone? && q in t.procs && t.procs[q].Checked? && Safe(t)
    requires FreshEpoch(Run(s, actions).procs[q].check)
    ensures var t := Run(s, actions);
            var c := t.procs[q].check;
            var done := t.procs[p];
            c.jti in t.tokens &&
            (c.epochReadAt > done.bumpedAt && t.tokens[c.jti].readAt <= done.bumpedAt ==> !t.procs[q].accepted) &&
            (done.again.Some? && c.epochReadAt > done.again.value && t.tokens[c.jti].readAt <= done.wroteAt ==>
               !t.procs[q].accepted)
  {
    AdmittedIffEpochCurrent(s, actions, q);
    RunFromStart(s, actions);
    var t := Run(s, actions);
    assert PcOk(t, t.procs[p]);
    assert TokenOk(t, t.tokens[t.procs[q].check.jti]);
  }

  /** A password goes live only after a bump committed: a reset whose first bump failed changed nothing. */
  lemma PasswordsFollowABump(start: Sys, actions: seq<Action>, a: Action)
    requires Start(start) && Step(Run(start, actions), a).passwords != Run(start, actions).passwords
    ensures var s := Run(start, actions);
            && a.WritePassword? && a.p in s.procs && s.procs[a.p].Writing?
            && 0 < s.procs[a.p].bumpedAt < |s.epochs|
            && Step(s, a).passwords == s.passwords + [Password(s.procs[a.p].hash, |s.epochs|)]
  {
    RunFromStart(start, actions);
    var s := Run(start, actions);
    hide Run;
    assert PcOk(s, s.procs[a.p]);
  }

  // ------------------------------------------- tokens, passwords and the requests behind them

  /** The request at position `i` is a sign-in that presents the hash of a password stored by then. */
  ghost predicate PresentsAPassword(s: Sys, actions: seq<Action>, i: nat, p: Pid) {
    && i < |actions| && actions[i].StartSignIn? && actions[i].p == p
    && actions[i].i < |Run(s, actions[..i]).passwords|
    && Run(s, actions[..i]).passwords[actions[i].i].hash == actions[i].hash
  }

  /** The request at position `i` asks for a reset to `hash`. */
  ghost predicate AsksForReset(actions: seq<Action>, i: nat, p: Pid, hash: Hash) {
    i < |actions| && actions[i] == StartReset(p, hash)
  }

  ghost predicate InSignIn(s: Sys, p: Pid) {
    p in s.procs && (s.procs[p].SigningIn? || s.procs[p].SignedIn?)
  }

  ghost predicate InReset(s: Sys, p: Pid, hash: Hash) {
    p in s.procs &&
    match s.procs[p]
    case Bumping(h, _, _) => h == hash
    case Swapping(h, _, _, _) => h == hash
    case Writing(h, _) => h == hash
    case _ => false
  }

  lemma SignInStep(s: Sys, a: Action, p: Pid)
    requires InSignIn(Step(s, a), p) && !InSignIn(s, p)
    ensures a.StartSignIn? && a.p == p && a.i < |s.passwords| && s.passwords[a.i].hash == a.hash
  {
  }

  lemma InResetStep(s: Sys, a: Action, p: Pid, hash: Hash)
    requires InReset(Step(s, a), p, hash) && !InReset(s, p, hash)
    ensures a == StartReset(p, hash)
  {
  }

  lemma TokensStep(s: Sys, a: Action, jti: Jti)
    requires jti in Step(s, a).tokens && jti !in s.tokens
    ensures a.Mint? && a.jti == jti && InSignIn(s, a.p) && a.i < |s.epochs|
    ensures Step(s, a).tokens[jti] == Token(ParseEpoch(s.epochs[a.i]), s.now + a.duration, a.i, |s.epochs|)
  {
  }

  lemma PasswordsStep(s: Sys, a: Action)
    ensures Step(s, a).passwords == s.passwords
         || (a.WritePassword? && a.p in s.procs && s.procs[a.p].Writing?
             && Step(s, a).passwords == s.passwords + [Password(s.procs[a.p].hash, |s.epochs|)])
  {
  }

  /** Whoever is signing in, or has signed in, presented a stored password when its request began. */
  lemma {:induction false} SignInPresented(s: Sys, actions: seq<Action>, p: Pid)
    requires Start(s) && InSignIn(Run(s, actions), p)
    ensures exists i: nat :: PresentsAPassword(s, actions, i, p)
    decreases |actions|
  {
    hide Step;
    if actions != [] {
      var n := |actions| - 1;
      var front := actions[..n];
      if InSignIn(Run(s, front), p) {
        SignInPresented(s, front, p);
        var i: nat :| PresentsAPassword(s, front, i, p);
        assert front[..i] == actions[..i];
        assert PresentsAPassword(s, actions, i, p);
      } else {
        SignInStep(Run(s, front), actions[n], p);
        assert PresentsAPassword(s, actions, n, p);
      }
    }
  }

  lemma {:induction false} ResetWasAskedFor(s: Sys, actions: seq<Action>, p: Pid, hash: Hash)
    requires Start(s) && InReset(Run(s, actions), p, hash)
    ensures exists i: nat :: AsksForReset(actions, i, p, hash)
    decreases |actions|
  {
    hide Step;
    if actions != [] {
      var n := |actions| - 1;
      var front := actions[..n];
      if InReset(Run(s, front), p, hash) {
        ResetWasAskedFor(s, front, p, hash);
        var i: nat :| AsksForReset(front, i, p, hash);
        assert AsksForReset(actions, i, p, hash);
      } else {
        InResetStep(Run(s, front), actions[n], p, hash);
        assert AsksForReset(actions, n, p, hash);
      }
    }
  }

  /** Position `j` mints `jti` for a request whose sign-in at position `i` presented a stored password. */
  ghost predicate MintedFor(s: Sys, actions: seq<Action>, i: nat, j: nat, jti: Jti, t: Token) {
    && i < j < |actions| && actions[j].Mint? && actions[j].jti == jti
    && PresentsAPassword(s, actions, i, actions[j].p)
    && var at := Run(s, actions[..j]);
       actions[j].i < |at.epochs|
       && t == Token(ParseEpoch(at.epochs[actions[j].i]), at.now + actions[j].duration, actions[j].i, |at.epochs|)
  }

  /**
   Over every run: each token was minted for a request that, earlier in the run, presented the hash of
   a password stored by then, and it carries the epoch read and the lifetime counted when it was minted.
  */
  lemma {:induction false} EveryTokenHasItsPassword(s: Sys, actions: seq<Action>, jti: Jti)
    requires Start(s) && jti in Run(s, actions).tokens
    ensures exists i: nat, j: nat :: MintedFor(s, actions, i, j, jti, Run(s, actions).tokens[jti])
    decreases |actions|
  {
    hide Step;
    if actions != [] {
      var n := |actions| - 1;
      var front := actions[..n];
      var t := Run(s, actions).tokens[jti];
      if jti in Run(s, front).tokens {
        EveryTokenHasItsPassword(s, front, jti);
        StepGrows(Run(s, front), actions[n]);
        var i: nat, j: nat :| MintedFor(s, front, i, j, jti, t);
        assert front[..i] == actions[..i] && front[..j] == actions[..j];
        assert MintedFor(s, actions, i, j, jti, t);
      } else {
        TokensStep(Run(s, front), actions[n], jti);
        SignInPresented(s, front, actions[n].p);
        var i: nat :| PresentsAPassword(s, front, i, actions[n].p);
        assert front[..i] == actions[..i];
        assert MintedFor(s, actions, i, n, jti, t);
      }
    }
  }

  lemma WhatIsPresentedIsStored(s: Sys, actions: seq<Action>, i: nat, p: Pid)
    requires PresentsAPassword(s, actions, i, p)
    ensures exists w <- Run(s, actions).passwords :: w.hash == actions[i].hash
  {
    hide Step;
    LaterGrows(s, actions, i);
    var w := Run(s, actions[..i]).passwords[actions[i].i];
    assert w in Run(s, actions).passwords;
  }

  /** A request that only ever presents hashes that no stored password has is never signed in and mints nothing. */
  lemma AWrongPasswordGetsNoToken(s: Sys, actions: seq<Action>, p: Pid)
    requires Start(s)
    requires forall i | 0 <= i < |actions| && actions[i].StartSignIn? && actions[i].p == p ::
               forall w <- Run(s, actions).passwords :: w.hash != actions[i].hash
    ensures !InSignIn(Run(s, actions), p)
    ensures forall j | 0 <= j < |actions| && actions[j].Mint? && actions[j].p == p ::
              Run(s, actions[..j + 1]) == Run(s, actions[..j])
  {
    forall i: nat ensures !PresentsAPassword(s, actions, i, p) {
      if PresentsAPassword(s, actions, i, p) { WhatIsPresentedIsStored(s, actions, i, p); }
    }
    if InSignIn(Run(s, actions), p) { SignInPresented(s, actions, p); }
    forall j | 0 <= j < |actions| && actions[j].Mint? && actions[j].p == p
      ensures Run(s, actions[..j + 1]) == Run(s, actions[..j])
    {
      if InSignIn(Run(s, actions[..j]), p) {
        SignInPresented(s, actions[..j], p);
        var i: nat :| PresentsAPassword(s, actions[..j], i, p);
        assert actions[..j][..i] == actions[..i];
        assert PresentsAPassword(s, actions, i, p);
      }
      assert actions[..j + 1][..j] == actions[..j];
    }
  }

  /** What a run had, the run still has later. */
  lemma {:induction false} LaterGrows(s: Sys, actions: seq<Action>, i: nat)
    requires i <= |actions|
    ensures Grows(Run(s, actions[..i]), Run(s, actions))
    decreases |actions|
  {
    hide Step;
    var n := |actions|;
    if i == n {
      assert actions[..i] == actions;
    } else {
      LaterGrows(s, actions[..n - 1], i);
      assert actions[..n - 1][..i] == actions[..i];
      StepGrows(Run(s, actions[..n - 1]), actions[n - 1]);
    }
  }

  /** Over every run: each password after the first is the one its own reset was asked for. */
  lemma {:induction false} EveryPasswordWasAskedFor(s: Sys, actions: seq<Action>, k: nat)
    requires Start(s) && 0 < k < |Run(s, actions).passwords|
    ensures exists i: nat, j: nat ::
              i < j < |actions| && actions[j].WritePassword? &&
              AsksForReset(actions, i, actions[j].p, Run(s, actions).passwords[k].hash)
    decreases |actions|
  {
    hide Step;
    if actions != [] {
      var n := |actions| - 1;
      var front := actions[..n];
      var hash := Run(s, actions).passwords[k].hash;
      PasswordsStep(Run(s, front), actions[n]);
      if k < |Run(s, front).passwords| {
        EveryPasswordWasAskedFor(s, front, k);
        var i: nat, j: nat :| i < j < |front| && front[j].WritePassword? && AsksForReset(front, i, front[j].p, hash);
        assert AsksForReset(actions, i, actions[j].p, hash);
      } else {
        ResetWasAskedFor(s, front, actions[n].p, hash);
        var i: nat :| AsksForReset(front, i, actions[n].p, hash);
        assert AsksForReset(actions, i, actions[n].p, hash);
      }
    }
  }

  ghost predicate InCheck(s: Sys, q: Pid, jti: Jti) {
    q in s.procs &&
    match s.procs[q]
    case Checking(c) => c.jti == jti
    case Checked(c, _) => c.jti == jti
    case _ => false
  }

  lemma InCheckStep(s: Sys, a: Action, q: Pid, jti: Jti)
    requires InCheck(Step(s, a), q, jti) && !InCheck(s, q, jti)
    ensures a == StartCheck(q, jti) && jti in s.tokens && s.now < s.tokens[jti].exp
  {
  }

  /** Position `i` begins the check, before the token expires. */
  ghost predicate BeganInTime(s: Sys, actions: seq<Action>, i: nat, q: Pid, jti: Jti, exp: int) {
    && i < |actions| && actions[i] == StartCheck(q, jti)
    && jti in Run(s, actions[..i]).tokens && Run(s, actions[..i]).tokens[jti].exp == exp
    && Run(s, actions[..i]).now < exp
  }

  /** Over every run: a check that reached a verdict, or will, began before its token expired. */
  lemma {:induction false} EveryCheckBeganInTime(s: Sys, actions: seq<Action>, q: Pid, jti: Jti)
    requires Start(s) && InCheck(Run(s, actions), q, jti)
    ensures jti in Run(s, actions).tokens
    ensures exists i: nat :: BeganInTime(s, actions, i, q, jti, Run(s, actions).tokens[jti].exp)
    decreases |actions|
  {
    hide Step;
    if actions != [] {
      var n := |actions| - 1;
      var front := actions[..n];
      StepGrows(Run(s, front), actions[n]);
      if InCheck(Run(s, front), q, jti) {
        EveryCheckBeganInTime(s, front, q, jti);
        var exp := Run(s, front).tokens[jti].exp;
        var i: nat :| BeganInTime(s, front, i, q, jti, exp);
        assert front[..i] == actions[..i];
        assert BeganInTime(s, actions, i, q, jti, exp);
      } else {
        InCheckStep(Run(s, front), actions[n], q, jti);
        assert BeganInTime(s, actions, n, q, jti, Run(s, front).tokens[jti].exp);
      }
    }
  }

  // ------------------------------------------------------------ when a reset gives up

  /** An attempt of `p` at a bump that fails: a store error, or a swap that the current value refuses. */
  predicate FailsTry(s: Sys, a: Action, p: Pid) {
    && p in s.procs
    && ((a == StoreError(p) && (s.procs[p].Bumping? || s.procs[p].Swapping?))
        || (a == Swap(p) && s.procs[p].Swapping? && Step(s, a).epochs == s.epochs))
  }

  /** How many attempts of `p` failed since its reset began or, later, since it wrote the password. */
  function FailedTries(s: Sys, actions: seq<Action>, p: Pid): nat
    decreases |actions|
  {
    if actions == [] then 0
    else
      var front, a := actions[..|actions| - 1], actions[|actions| - 1];
      var t := Run(s, front);
      if a == WritePassword(p) && p in t.procs && t.procs[p].Writing? then 0
      else FailedTries(s, front, p) + if FailsTry(t, a, p) then 1 else 0
  }

  ghost predicate TriesOk(pc: Pc, failed: nat) {
    match pc
    case Bumping(_, _, tries) => failed == tries <= 2
    case Swapping(_, _, tries, _) => failed == tries <= 2
    case Writing(_, _) => failed <= 2
    case ResetDone(_, _, again) => if again.Some? then failed <= 2 else failed == 3
    case ResetFailed => failed == 3
    case _ => true
  }

  lemma TriesStep(s: Sys, a: Action, p: Pid, failed: nat)
    requires |s.epochs| > 0 && p in s.procs && TriesOk(s.procs[p], failed)
    ensures p in Step(s, a).procs
    ensures TriesOk(Step(s, a).procs[p],
                    if a == WritePassword(p) && s.procs[p].Writing? then 0
                    else failed + if FailsTry(s, a, p) then 1 else 0)
  {
    hide ParseEpoch, Bumped;
  }

  lemma FirstTry(s: Sys, a: Action, p: Pid)
    requires |s.epochs| > 0 && p !in s.procs
    ensures !FailsTry(s, a, p) && (p in Step(s, a).procs ==> TriesOk(Step(s, a).procs[p], 0))
  {
  }

  lemma {:induction false} TriesAreCounted(s: Sys, actions: seq<Action>, p: Pid)
    requires Start(s)
    ensures |Run(s, actions).epochs| > 0
    ensures if p in Run(s, actions).procs then TriesOk(Run(s, actions).procs[p], FailedTries(s, actions, p))
            else FailedTries(s, actions, p) == 0
    decreases |actions|
  {
    hide Step, FailsTry, TriesOk;
    if actions == [] {
    } else {
      var front, a := actions[..|actions| - 1], actions[|actions| - 1];
      TriesAreCounted(s, front, p);
      StepGrows(Run(s, front), a);
      if p in Run(s, front).procs { TriesStep(Run(s, front), a, p, FailedTries(s, front, p)); }
      else { FirstTry(Run(s, front), a, p); }
    }
  }

  /** Over every run: a reset fails, or is done without its second bump, only when three attempts in a row failed. */
  lemma GivesUpOnlyAfterThreeFailures(s: Sys, actions: seq<Action>, p: Pid)
    requires Start(s) && p in Run(s, actions).procs
    requires var pc := Run(s, actions).procs[p]; pc.ResetFailed? || (pc.ResetDone? && pc.again.None?)
    ensures FailedTries(s, actions, p) == 3
  {
    TriesAreCounted(s, actions, p);
  }

  ghost predicate InSignOut(s: Sys, o: Pid, jti: Jti) {
    o in s.procs && (s.procs[o] == SigningOut(jti) || s.procs[o] == SignedOut(jti))
  }

  lemma InSignOutStep(s: Sys, a: Action, o: Pid, jti: Jti)
    requires InSignOut(Step(s, a), o, jti) && !InSignOut(s, o, jti)
    ensures a == StartSignOut(o, jti) && jti in s.tokens && s.now < s.tokens[jti].exp
  {
  }

  lemma MarkersStep(s: Sys, a: Action, jti: Jti)
    requires jti in Step(s, a).markers && jti !in s.markers
    ensures a.PutMarker? && InSignOut(s, a.p, jti)
  {
  }

  /** Position `i` begins a sign-out of a token that is still alive. */
  ghost predicate SignsOutInTime(s: Sys, actions: seq<Action>, i: nat, o: Pid, jti: Jti) {
    && i < |actions| && actions[i] == StartSignOut(o, jti)
    && jti in Run(s, actions[..i]).tokens && Run(s, actions[..i]).now < Run(s, actions[..i]).tokens[jti].exp
  }

  lemma {:induction false} EverySignOutBeganInTime(s: Sys, actions: seq<Action>, o: Pid, jti: Jti)
    requires Start(s) && InSignOut(Run(s, actions), o, jti)
    ensures exists i: nat :: SignsOutInTime(s, actions, i, o, jti)
    decreases |actions|
  {
    hide Step;
    if actions != [] {
      var n := |actions| - 1;
      var front := actions[..n];
      if InSignOut(Run(s, front), o, jti) {
        EverySignOutBeganInTime(s, front, o, jti);
        var i: nat :| SignsOutInTime(s, front, i, o, jti);
        assert front[..i] == actions[..i];
        assert SignsOutInTime(s, actions, i, o, jti);
      } else {
        InSignOutStep(Run(s, front), actions[n], o, jti);
        assert SignsOutInTime(s, actions, n, o, jti);
      }
    }
  }

  /** Over every run: a marker was written for a sign-out that began while its token was alive. */
  lemma {:induction false} EveryMarkerWasAskedFor(s: Sys, actions: seq<Action>, jti: Jti)
    requires Start(s) && jti in Run(s, actions).markers
    ensures exists i: nat, o :: SignsOutInTime(s, actions, i, o, jti)
    decreases |actions|
  {
    hide Step;
    if actions != [] {
      var n := |actions| - 1;
      var front := actions[..n];
      if jti in Run(s, front).markers {
        EveryMarkerWasAskedFor(s, front, jti);
        var i: nat, o :| SignsOutInTime(s, front, i, o, jti);
        assert front[..i] == actions[..i];
        assert SignsOutInTime(s, actions, i, o, jti);
      } else {
        MarkersStep(Run(s, front), actions[n], jti);
        EverySignOutBeganInTime(s, front, actions[n].p, jti);
        var i: nat :| SignsOutInTime(s, front, i, actions[n].p, jti);
        assert front[..i] == actions[..i];
        assert SignsOutInTime(s, actions, i, actions[n].p, jti);
      }
    }
  }

  ghost predicate ListedCheck(s: Sys, q: Pid, jti: Jti) {
    q in s.procs &&
    match s.procs[q]
    case Checking(c) => c.listed && c.jti == jti
    case Checked(c, _) => c.listed && c.jti == jti
    case Ended => true
    case _ => false
  }

  lemma ListedStays(s: Sys, a: Action, q: Pid, jti: Jti)
    requires Inv(s) && ListedCheck(s, q, jti)
    ensures ListedCheck(Step(s, a), q, jti)
  {
  }

  /** A run up to a returned sign-out, then a check of its token among whatever else happens. */
  ghost predicate CheckAfterSignOut(s: Sys, before: seq<Action>, p: Pid, q: Pid, jti: Jti) {
    && Start(s)
    && p in Run(s, before).procs && Run(s, before).procs[p] == SignedOut(jti) && q !in Run(s, before).procs
  }

  function AfterCheckStarted(s: Sys, before: seq<Action>, q: Pid, jti: Jti, after: seq<Action>): Sys {
    Run(Step(Run(s, before), StartCheck(q, jti)), after)
  }

  lemma TheCheckKnowsTheSignOut(s: Sys, before: seq<Action>, p: Pid, q: Pid, jti: Jti, after: seq<Action>)
    requires CheckAfterSignOut(s, before, p, q, jti)
    ensures var t := AfterCheckStarted(s, before, q, jti, after);
            Inv(t) && ListedCheck(t, q, jti) && jti in t.tokens
  {
    hide Step;
    RunFromStart(s, before);
    var mid := Run(s, before);
    assert PcOk(mid, mid.procs[p]);
    var start := Step(mid, StartCheck(q, jti));
    StepKeepsInv(mid, StartCheck(q, jti));
    StartCheckStep(mid, q, jti);
    var inv := (t: Sys) => Inv(t) && ListedCheck(t, q, jti) && jti in t.tokens;
    forall t, a | inv(t) ensures inv(Step(t, a)) {
      StepKeepsInv(t, a);
      ListedStays(t, a, q, jti);
      StepGrows(t, a);
    }
    Runs.Keeps(Step, inv, start, after);
  }

  /**
   A token whose sign-out returned is admitted by no later check that reads the revocation list
   before the token's own expiry (and whose read is not stale).
  */
  lemma SignedOutTokenIsRefused(s: Sys, before: seq<Action>, p: Pid, q: Pid, jti: Jti, after: seq<Action>)
    requires CheckAfterSignOut(s, before, p, q, jti)
    ensures var t := AfterCheckStarted(s, before, q, jti, after);
            jti in t.tokens && q in t.procs &&
            (t.procs[q].Checked? && t.procs[q].accepted && !t.procs[q].check.missed ==>
               t.procs[q].check.jti == jti && t.tokens[jti].exp <= t.procs[q].check.revokedReadAt)
  {
    TheCheckKnowsTheSignOut(s, before, p, q, jti, after);
    var t := AfterCheckStarted(s, before, q, jti, after);
    hide AfterCheckStarted;
    assert PcOk(t, t.procs[q]);
  }

  /**
   The exact verdict, over every run: a check that begins after the sign-out returned, and reads the
   epoch fresh, admits the token if and only if its read of the revocation list was stale or came at
   or after the token's expiry, and the token's epoch was read as the newest.
  */
  lemma SignedOutTokenIsAdmittedIff(s: Sys, before: seq<Action>, p: Pid, q: Pid, jti: Jti, after: seq<Action>)
    requires CheckAfterSignOut(s, before, p, q, jti)
    requires var t := AfterCheckStarted(s, before, q, jti, after);
             q in t.procs && t.procs[q].Checked? && Safe(t) && FreshEpoch(t.procs[q].check)
    ensures var t := AfterCheckStarted(s, before, q, jti, after);
            var c := t.procs[q].check;
            c.jti == jti && jti in t.tokens &&
            (t.procs[q].accepted <==>
               (c.missed || t.tokens[jti].exp <= c.revokedReadAt) && c.epochReadAt <= t.tokens[jti].saw + 1)
  {
    TheCheckKnowsTheSignOut(s, before, p, q, jti, after);
    var t := AfterCheckStarted(s, before, q, jti, after);
    hide AfterCheckStarted;
    assert PcOk(t, t.procs[q]) && TokenOk(t, t.tokens[jti]);
  }

  /** A check that reads the list once the marker has lapsed, in any state with a marker and a current token. */
  lemma LapsedMarkerIsNotSeen(s: Sys, q: Pid, jti: Jti)
    requires Inv(s) && jti in s.markers && q !in s.procs && s.now < s.tokens[jti].exp
    requires ParseEpoch(Epoch(s)) <= s.tokens[jti].ep
    ensures var t := Run(s, StraddlingCheck(q, jti, s.tokens[jti].exp - s.now, |s.epochs| - 1));
            && q in t.procs && t.procs[q].Checked? && t.procs[q].accepted && !t.procs[q].check.missed
            && t.procs[q].check.jti == jti
  {
    hide Step;
    StartCheckStep(s, q, jti);
    var s1 := Step(s, StartCheck(q, jti));
    var wait := s.tokens[jti].exp - s.now;
    TickStep(s1, wait);
    var s2 := Step(s1, Tick(wait));
    CheckSteps(s2, q);
    TwoSteps(s, StartCheck(q, jti), Tick(wait));
    Runs.Concat(Step, s, [StartCheck(q, jti), Tick(wait)], WholeCheck(q, |s.epochs| - 1));
  }

  /** The reads and the verdict of a check that nobody disturbs. */
  function WholeCheck(q: Pid, last: nat): seq<Action> {
    [ReadMarker(q, false), ReadEpoch(q, last), Decide(q)]
  }

  /** A check that is verified before, and reads after, a wait. */
  function StraddlingCheck(q: Pid, jti: Jti, wait: nat, last: nat): seq<Action> {
    [StartCheck(q, jti), Tick(wait)] + WholeCheck(q, last)
  }

  /** Sign in, with a token that lives for `duration`, and sign out again. */
  function SignInAndOut(s: Sys, p: Pid, o: Pid, jti: Jti, duration: nat): seq<Action>
    requires |s.passwords| > 0
  {
    [StartSignIn(p, s.passwords[0].hash, 0), Mint(p, 0, jti, duration)] + [StartSignOut(o, jti), Action.PutMarker(o)]
  }

  lemma SignedInAndOut(s: Sys, p: Pid, o: Pid, jti: Jti, duration: nat)
    requires Start(s) && p != o && duration > 0
    ensures var t := Run(s, SignInAndOut(s, p, o, jti, duration));
            && t.procs == map[p := SignedIn(jti), o := SignedOut(jti)] && t.now == s.now && t.epochs == s.epochs
            && t.markers == map[jti := s.now + duration]
            && t.tokens == map[jti := Token(ParseEpoch(s.epochs[0]), s.now + duration, 0, 1)]
  {
    hide Step, ParseEpoch;
    var a, b := StartSignIn(p, s.passwords[0].hash, 0), Mint(p, 0, jti, duration);
    TwoSteps(s, a, b);
    StartSignInStep(s, p);
    var s1 := Step(s, a);
    MintStep(s1, p, 0, jti, duration);
    var s2 := Step(s1, b);
    assert s2.procs == map[p := SignedIn(jti)];
    Runs.Concat(Step, s, [a, b], [StartSignOut(o, jti), Action.PutMarker(o)]);
    TwoSteps(s2, StartSignOut(o, jti), Action.PutMarker(o));
    SignOutSteps(s2, o, jti);
  }

  /**
   A whole run from the start in which a signed-out token is admitted: sign in, sign out, begin a check
   while the token is alive, and read the revocation list at the moment the token and its marker expire.
  */
  lemma StraddlingCheckIsAdmitted(s: Sys, p: Pid, o: Pid, q: Pid, jti: Jti, duration: nat)
    requires Start(s) && p != o && q != p && q != o && duration > 0
    ensures CheckAfterSignOut(s, SignInAndOut(s, p, o, jti, duration), o, q, jti)
    ensures var t := Run(s, SignInAndOut(s, p, o, jti, duration) + StraddlingCheck(q, jti, duration, 0));
            && o in t.procs && t.procs[o] == SignedOut(jti)
            && q in t.procs && t.procs[q].Checked? && t.procs[q].check.jti == jti
            && t.procs[q].accepted && !t.procs[q].check.missed
  {
    hide Step, SignInAndOut, Inv, ParseEpoch;
    SignedInAndOut(s, p, o, jti, duration);
    RunFromStart(s, SignInAndOut(s, p, o, jti, duration));
    var mid := Run(s, SignInAndOut(s, p, o, jti, duration));
    LapsedMarkerIsNotSeen(mid, q, jti);
    Runs.Concat(Step, s, SignInAndOut(s, p, o, jti, duration), StraddlingCheck(q, jti, duration, 0));
    OthersLeaveAlone(mid, StraddlingCheck(q, jti, duration, 0), o);
  }

  /** A pending sign-in that reads the epoch last obtains a token that is admitted. */
  lemma PendingSignInIsAdmitted(s: Sys, p: Pid, q: Pid, jti: Jti, duration: nat)
    requires Inv(s) && p in s.procs && s.procs[p].SigningIn? && jti !in s.tokens && q !in s.procs && duration > 0
    ensures var t := Run(s, [Mint(p, |s.epochs| - 1, jti, duration), StartCheck(q, jti), ReadMarker(q, false),
                             ReadEpoch(q, |s.epochs| - 1), Decide(q)]);
            q in t.procs && t.procs[q].Checked? && t.procs[q].check.jti == jti && t.procs[q].accepted
  {
    hide Step;
    var last := |s.epochs| - 1;
    MintStep(s, p, last, jti, duration);
    var s1 := Step(s, Mint(p, last, jti, duration));
    StartCheckStep(s1, q, jti);
    var s2 := Step(s1, StartCheck(q, jti));
    CheckSteps(s2, q);
    Runs.Concat(Step, s, [Mint(p, last, jti, duration), StartCheck(q, jti)], [ReadMarker(q, false), ReadEpoch(q, last), Decide(q)]);
    Runs.Snoc(Step, s, [Mint(p, last, jti, duration)], StartCheck(q, jti));
    Runs.Snoc(Step, s, [], Mint(p, last, jti, duration));
    assert [Mint(p, last, jti, duration), StartCheck(q, jti)] + [ReadMarker(q, false), ReadEpoch(q, last), Decide(q)]
        == [Mint(p, last, jti, duration), StartCheck(q, jti), ReadMarker(q, false), ReadEpoch(q, last), Decide(q)];
    assert [Mint(p, last, jti, duration)] + [StartCheck(q, jti)] == [Mint(p, last, jti, duration), StartCheck(q, jti)];
    assert [] + [Mint(p, last, jti, duration)] == [Mint(p, last, jti, duration)];
  }

  /** A sign-in matches the first password, then a whole reset to `next` runs with both its bumps. */
  function ResetDuringSignIn(s: Sys, p: Pid, r: Pid, next: Hash): seq<Action>
    requires |s.passwords| > 0
  {
    [StartSignIn(p, s.passwords[0].hash, 0), StartReset(r, next)] + BumpBy(r, 0) + [WritePassword(r)] + BumpBy(r, 1)
  }

  /** An attempt that reads value `i`. */
  function BumpBy(r: Pid, i: nat): seq<Action> {
    [ReadForBump(r, i), Action.Swap(r)]
  }

  lemma TwoSteps(s: Sys, a: Action, b: Action)
    ensures Run(s, [a, b]) == Step(Step(s, a), b)
  {
    hide Step;
    Runs.Snoc(Step, s, [], a);
    Runs.Snoc(Step, s, [a], b);
    assert [] + [a] == [a] && [a] + [b] == [a, b];
  }

  lemma BumpByCommits(s: Sys, r: Pid, hash: Hash, round: Round)
    requires |s.epochs| > 0 && r in s.procs && s.procs[r] == Bumping(hash, round, 0)
    ensures Run(s, BumpBy(r, |s.epochs| - 1))
         == To(s.(epochs := s.epochs + [Some(Bumped(Epoch(s)))]), r, AfterSwap(hash, round, |s.epochs|))
  {
    hide Step;
    TwoSteps(s, ReadForBump(r, |s.epochs| - 1), Action.Swap(r));
    ReadForBumpStep(s, r);
    var mid := To(s, r, Swapping(hash, round, 0, Epoch(s)));
    SwapStep(mid, r);
    var t := To(s.(epochs := s.epochs + [Some(Bumped(Epoch(s)))]), r, AfterSwap(hash, round, |s.epochs|));
    assert Step(mid, Action.Swap(r)).procs == t.procs;
  }

  lemma BothStart(s: Sys, p: Pid, r: Pid, next: Hash)
    requires Start(s) && p != r
    ensures Run(s, [StartSignIn(p, s.passwords[0].hash, 0), StartReset(r, next)])
         == s.(procs := map[p := SigningIn, r := Bumping(next, First, 0)])
  {
    TwoSteps(s, StartSignIn(p, s.passwords[0].hash, 0), StartReset(r, next));
    var s1 := Step(s, StartSignIn(p, s.passwords[0].hash, 0));
    assert s1.procs == map[p := SigningIn];
    assert Step(s1, StartReset(r, next)).procs == map[p := SigningIn, r := Bumping(next, First, 0)];
  }

  lemma ResetParts(s: Sys, p: Pid, r: Pid, next: Hash)
    requires |s.passwords| > 0
    ensures Run(s, ResetDuringSignIn(s, p, r, next)) ==
              Run(Step(Run(Run(s, [StartSignIn(p, s.passwords[0].hash, 0), StartReset(r, next)]), BumpBy(r, 0)),
                       WritePassword(r)), BumpBy(r, 1))
  {
    hide Step, BumpBy;
    var a := [StartSignIn(p, s.passwords[0].hash, 0), StartReset(r, next)];
    Runs.Concat(Step, s, a, BumpBy(r, 0));
    Runs.Snoc(Step, s, a + BumpBy(r, 0), WritePassword(r));
    Runs.Concat(Step, s, a + BumpBy(r, 0) + [WritePassword(r)], BumpBy(r, 1));
  }

  /** The first bump and the password write of a reset, undisturbed. */
  lemma BumpAndWrite(s: Sys, p: Pid, r: Pid, next: Hash)
    requires |s.epochs| == 1 && p != r && s.procs == map[p := SigningIn, r := Bumping(next, First, 0)]
    ensures var t := Step(Run(s, BumpBy(r, 0)), WritePassword(r));
            && t.procs == map[p := SigningIn, r := Bumping(next, Second(1, 2), 0)] && t.tokens == s.tokens
            && t.epochs == s.epochs + [Some(Bumped(Epoch(s)))] && t.passwords == s.passwords + [Password(next, 2)]
  {
    hide Step, BumpBy, Bumped;
    BumpByCommits(s, r, next, First);
    WritePasswordStep(Run(s, BumpBy(r, 0)), r);
  }

  /** The sign-in is still pending when the reset is done. */
  lemma SignInStillPending(s: Sys, p: Pid, r: Pid, next: Hash)
    requires Start(s) && p != r
    ensures var t := Run(s, ResetDuringSignIn(s, p, r, next));
            && t.procs == map[p := SigningIn, r := ResetDone(1, 2, Some(2))] && t.tokens == map[] && |t.epochs| == 3
            && t.passwords == s.passwords + [Password(next, 2)]
  {
    hide Step, BumpBy, Bumped, Run, ResetDuringSignIn;
    ResetParts(s, p, r, next);
    BothStart(s, p, r, next);
    var s1 := s.(procs := map[p := SigningIn, r := Bumping(next, First, 0)]);
    BumpAndWrite(s1, p, r, next);
    BumpByCommits(Step(Run(s1, BumpBy(r, 0)), WritePassword(r)), r, next, Second(1, 2));
  }

  /** The sign-in reads the epoch and gets its token; then a whole check of the token. */
  function MintAndCheck(p: Pid, q: Pid, jti: Jti, duration: nat, last: nat): seq<Action> {
    [Mint(p, last, jti, duration), StartCheck(q, jti), ReadMarker(q, false), ReadEpoch(q, last), Decide(q)]
  }

  lemma {:induction false} OnlyResetsWritePasswords(s: Sys, batch: seq<Action>)
    requires forall a <- batch :: !a.WritePassword?
    ensures Run(s, batch).passwords == s.passwords
    decreases |batch|
  {
    if batch == [] {
    } else {
      assert batch[|batch| - 1] in batch;
      OnlyResetsWritePasswords(s, batch[..|batch| - 1]);
    }
  }

  /**
   Only the moment of the epoch read matters. In this run from the start a sign-in matches a password, a
   reset replaces that password and commits both its bumps, and the sign-in, reading the epoch after
   them, still obtains a token that is admitted.
  */
  lemma SlowSignInIsAdmitted(s: Sys, p: Pid, r: Pid, q: Pid, next: Hash, jti: Jti, duration: nat)
    requires Start(s) && p != r && q != p && q != r && duration > 0 && next != s.passwords[0].hash
    ensures var t := Run(s, ResetDuringSignIn(s, p, r, next) + MintAndCheck(p, q, jti, duration, 2));
            && r in t.procs && t.procs[r] == ResetDone(1, 2, Some(2))
            && t.passwords == s.passwords + [Password(next, 2)]
            && q in t.procs && t.procs[q].Checked? && t.procs[q].check.jti == jti && t.procs[q].accepted
  {
    hide Step, ResetDuringSignIn, Inv;
    SignInStillPending(s, p, r, next);
    var mid := Run(s, ResetDuringSignIn(s, p, r, next));
    RunFromStart(s, ResetDuringSignIn(s, p, r, next));
    PendingSignInIsAdmitted(mid, p, q, jti, duration);
    var rest := MintAndCheck(p, q, jti, duration, 2);
    Runs.Concat(Step, s, ResetDuringSignIn(s, p, r, next), rest);
    OthersLeaveAlone(mid, rest, r);
    OnlyResetsWritePasswords(mid, rest);
  }

  /** The three reads and the verdict of a check that nobody disturbs. */
  lemma CheckSteps(s: Sys, q: Pid)
    requires |s.epochs| > 0 && q in s.procs && s.procs[q].Checking?
    requires var c := s.procs[q].check;
             c.jti in s.tokens && c.revoked.None? && c.saw.None?
             && (c.jti in s.markers ==> s.markers[c.jti] <= s.now)
             && ParseEpoch(Epoch(s)) <= s.tokens[c.jti].ep
    ensures var t := Run(s, [ReadMarker(q, false), ReadEpoch(q, |s.epochs| - 1), Decide(q)]);
            && q in t.procs && t.procs[q].Checked? && t.procs[q].accepted && !t.procs[q].check.missed
            && t.procs[q].check.jti == s.procs[q].check.jti
  {
    hide Step;
    var last := |s.epochs| - 1;
    ReadMarkerStep(s, q);
    var s1 := Step(s, ReadMarker(q, false));
    ReadEpochStep(s1, q, last);
    var s2 := Step(s1, ReadEpoch(q, last));
    DecideStep(s2, q);
    Runs.Snoc(Step, s, [ReadMarker(q, false), ReadEpoch(q, last)], Decide(q));
    Runs.Snoc(Step, s, [ReadMarker(q, false)], ReadEpoch(q, last));
    Runs.Snoc(Step, s, [], ReadMarker(q, false));
    assert [ReadMarker(q, false), ReadEpoch(q, last)] + [Decide(q)] == [ReadMarker(q, false), ReadEpoch(q, last), Decide(q)];
    assert [ReadMarker(q, false)] + [ReadEpoch(q, last)] == [ReadMarker(q, false), ReadEpoch(q, last)];
    assert [] + [ReadMarker(q, false)] == [ReadMarker(q, false)];
  }

  // Single steps, spelled out.

  lemma StartCheckStep(s: Sys, q: Pid, jti: Jti)
    requires |s.epochs| > 0 && q !in s.procs && jti in s.tokens
    ensures Step(s, StartCheck(q, jti)) ==
              To(s, q, if s.now < s.tokens[jti].exp
                       then Checking(Check(jti, s.now, jti in s.markers, None, false, s.now, None, 0)) else Ended)
  {
  }

  lemma StartSignInStep(s: Sys, p: Pid)
    requires Start(s)
    ensures Step(s, StartSignIn(p, s.passwords[0].hash, 0)) == s.(procs := map[p := SigningIn])
  {
  }

  lemma SignOutSteps(s: Sys, o: Pid, jti: Jti)
    requires |s.epochs| > 0 && o !in s.procs && jti in s.tokens && s.now < s.tokens[jti].exp
    ensures Step(Step(s, StartSignOut(o, jti)), Action.PutMarker(o))
         == s.(markers := s.markers[jti := s.tokens[jti].exp], procs := s.procs[o := SignedOut(jti)])
  {
    var mid := Step(s, StartSignOut(o, jti));
    assert mid == To(s, o, SigningOut(jti));
    assert mid.procs[o := SignedOut(jti)] == s.procs[o := SignedOut(jti)];
  }

  lemma TickStep(s: Sys, n: nat)
    requires |s.epochs| > 0
    ensures Step(s, Tick(n)) == s.(now := s.now + n)
  {
  }

  lemma MintStep(s: Sys, p: Pid, i: nat, jti: Jti, duration: int)
    requires p in s.procs && s.procs[p].SigningIn? && i < |s.epochs| && jti !in s.tokens
    ensures Step(s, Mint(p, i, jti, duration)) ==
              To(s.(tokens := s.tokens[jti := Token(ParseEpoch(s.epochs[i]), s.now + duration, i, |s.epochs|)]),
                 p, SignedIn(jti))
  {
  }

  ghost predicate Undecided(s: Sys, q: Pid) {
    |s.epochs| > 0 && q in s.procs && s.procs[q].Checking? && s.procs[q].check.jti in s.tokens
  }

  lemma ReadMarkerStep(s: Sys, q: Pid)
    requires Undecided(s, q) && s.procs[q].check.revoked.None?
    ensures var c := s.procs[q].check;
            Step(s, ReadMarker(q, false)) ==
              To(s, q, Checking(c.(revoked := Some(c.jti in s.markers && s.now < s.markers[c.jti]),
                                   missed := false, revokedReadAt := s.now)))
  {
  }

  lemma ReadEpochStep(s: Sys, q: Pid, i: nat)
    requires Undecided(s, q) && s.procs[q].check.saw.None? && i < |s.epochs|
    ensures Step(s, ReadEpoch(q, i)) ==
              To(s, q, Checking(s.procs[q].check.(saw := Some(i), epochReadAt := |s.epochs|)))
  {
  }

  lemma DecideStep(s: Sys, q: Pid)
    requires Undecided(s, q)
    requires var c := s.procs[q].check; c.revoked.Some? && c.saw.Some? && c.saw.value < |s.epochs|
    ensures Step(s, Decide(q)) == To(s, q, Checked(s.procs[q].check, Admits(s, s.procs[q].check)))
  {
  }

  lemma ReadForBumpStep(s: Sys, r: Pid)
    requires |s.epochs| > 0 && r in s.procs && s.procs[r].Bumping?
    ensures var pc := s.procs[r];
            Step(s, ReadForBump(r, |s.epochs| - 1)) == To(s, r, Swapping(pc.hash, pc.round, pc.tries, Epoch(s)))
  {
  }

  lemma WritePasswordStep(s: Sys, r: Pid)
    requires |s.epochs| > 0 && r in s.procs && s.procs[r].Writing?
    ensures var pc := s.procs[r];
            Step(s, WritePassword(r)) ==
              To(s.(passwords := s.passwords + [Password(pc.hash, |s.epochs|)]),
                 r, Bumping(pc.hash, Second(pc.bumpedAt, |s.epochs|), 0))
  {
  }

  lemma SwapStep(s: Sys, p: Pid)
    requires |s.epochs| > 0 && p in s.procs && s.procs[p].Swapping?
    ensures var pc := s.procs[p];
            Step(s, Swap(p)) ==
              if Epoch(s) == pc.raw then
                To(s.(epochs := s.epochs + [Some(Bumped(pc.raw))]), p, AfterSwap(pc.hash, pc.round, |s.epochs|))
              else To(s, p, AfterFailure(pc.hash, pc.round, pc.tries))
  {
  }

  /** No step takes anything back. */
  lemma StepGrows(s: Sys, a: Action)
    ensures Grows(s, Step(s, a))
  {
  }

  // --------------------------------------------------------------- the methods themselves

  predicate By(a: Action, p: Pid) {
    !a.Tick? && a.p == p
  }

  /**
   What surrounds one store operation of a method: the actions of others while it is awaited,
   whether the store answers with an error, and which past value a stale read returns.
  */
  datatype Turn = Turn(others: seq<Action>, error: bool, stale: Option<nat>)

  lemma EmptyRun(s: Sys)
    ensures Run(s, []) == s
  {
  }

  ghost predicate Foreign(env: seq<Turn>, p: Pid) {
    forall t <- env, a <- t.others :: !By(a, p)
  }

  function At(env: seq<Turn>, k: nat): Turn {
    if k < |env| then env[k] else Turn([], false, None)
  }

  lemma OtherLeavesAlone(s: Sys, a: Action, p: Pid)
    requires !By(a, p)
    ensures p in Step(s, a).procs <==> p in s.procs
    ensures p in s.procs ==> Step(s, a).procs[p] == s.procs[p]
  {
  }

  lemma {:induction false} OthersLeaveAlone(s: Sys, batch: seq<Action>, p: Pid)
    requires forall a <- batch :: !By(a, p)
    ensures p in Run(s, batch).procs <==> p in s.procs
    ensures p in s.procs ==> Run(s, batch).procs[p] == s.procs[p]
    decreases |batch|
  {
    hide Step;
    if batch == [] {
    } else {
      var front := batch[..|batch| - 1];
      assert batch[|batch| - 1] in batch;
      OthersLeaveAlone(s, front, p);
      OtherLeavesAlone(Run(s, front), batch[|batch| - 1], p);
    }
  }

  /** The stores of one user, with the methods that reset a password and bump the epoch. */
  class SessionStore {
    var now: int
    var epochs: seq<Option<string>>
    var passwords: seq<Password>
    var tokens: map<Jti, Token>
    var markers: map<Jti, int>
    var procs: map<Pid, Pc>

    function View(): Sys
      reads this
    {
      Sys(now, epochs, passwords, tokens, markers, procs)
    }

    ghost predicate Valid()
      reads this
    {
      Inv(View()) && |epochs| > 0
    }

    constructor (now: int, hash: Hash, marker: Option<string>)
      ensures Valid() && Start(View())
    {
      this.now, epochs, passwords := now, [marker], [Password(hash, 0)];
      tokens, markers, procs := map[], map[], map[];
    }

    method Await(ghost p: Pid, others: seq<Action>)
      requires Valid() && forall a <- others :: !By(a, p)
      modifies this
      ensures Valid() && View() == Run(old(View()), others) && |epochs| > 0
      ensures p in procs <==> p in old(procs)
      ensures p in procs ==> procs[p] == old(procs)[p]
      ensures others == [] ==> View() == old(View())
    {
      hide Step, Inv;
      OthersLeaveAlone(View(), others, p);
      for i := 0 to |others|
        invariant Valid() && View() == Run(old(View()), others[..i])
      {
        StepKeepsInv(View(), others[i]);
        assert others[..i + 1][..i] == others[..i];
        var t := Step(View(), others[i]);
        now, epochs, passwords, tokens, markers, procs := t.now, t.epochs, t.passwords, t.tokens, t.markers, t.procs;
      }
      assert others[..|others|] == others;
    }

    /** One pass through the loop body of `bumpSessionEpoch`: read, then swap against what was read. */
    method TryBump(p: Pid, hash: Hash, round: Round, attempt: nat, env: seq<Turn>, k: nat)
      returns (ok: bool, ghost trace: seq<Action>)
      requires Valid() && Foreign(env, p) && p in procs && procs[p] == Bumping(hash, round, attempt)
      modifies this
      ensures Valid() && View() == Run(old(View()), trace) && p in procs
      ensures if ok then |epochs| > 1 && procs[p] == AfterSwap(hash, round, |epochs| - 1)
              else procs[p] == AfterFailure(hash, round, attempt)
      ensures env == [] ==> ok && passwords == old(passwords)
                            && epochs == old(epochs) + [Some(Bumped(Epoch(old(View()))))]
    {
      hide Inv, Step;
      Await(p, At(env, k).others);
      ghost var mid := View();
      ok := false;
      if At(env, k).error {
        Fail(p, hash, round, attempt);
        Runs.Extend(Step, old(View()), [], At(env, k).others, Action.StoreError(p), mid);
        return false, [] + (At(env, k).others + [Action.StoreError(p)]);
      }
      var stale := At(env, k).stale;
      var i := if stale.Some? && stale.value < |epochs| then stale.value else |epochs| - 1;
      var raw := Read(p, hash, round, attempt, i);
      Runs.Extend(Step, old(View()), [], At(env, k).others, ReadForBump(p, i), mid);
      trace := [] + (At(env, k).others + [ReadForBump(p, i)]);

      ghost var part;
      ok, part := SwapAfterRead(p, hash, round, attempt, raw, At(env, k + 1));
      Runs.Concat(Step, old(View()), trace, part);
      trace := trace + part;
    }

    method SwapAfterRead(p: Pid, hash: Hash, round: Round, attempt: nat, raw: Option<string>, turn: Turn)
      returns (ok: bool, ghost trace: seq<Action>)
      requires Valid() && p in procs && procs[p] == Swapping(hash, round, attempt, raw)
      requires forall a <- turn.others :: !By(a, p)
      modifies this
      ensures Valid() && View() == Run(old(View()), trace) && p in procs
      ensures if ok then |epochs| > 1 && procs[p] == AfterSwap(hash, round, |epochs| - 1)
              else procs[p] == AfterFailure(hash, round, attempt)
      ensures turn.others == [] && !turn.error && raw == Epoch(old(View())) ==>
                ok && passwords == old(passwords) && epochs == old(epochs) + [Some(Bumped(raw))]
    {
      hide Inv, Step;
      Await(p, turn.others);
      ghost var mid := View();
      if turn.error {
        Fail(p, hash, round, attempt);
        Runs.Extend(Step, old(View()), [], turn.others, Action.StoreError(p), mid);
        return false, [] + (turn.others + [Action.StoreError(p)]);
      }
      ok := PutIfEquals(p, hash, round, attempt, raw);
      Runs.Extend(Step, old(View()), [], turn.others, Action.Swap(p), mid);
      trace := [] + (turn.others + [Action.Swap(p)]);
    }

    method Fail(p: Pid, hash: Hash, round: Round, attempt: nat)
      requires Valid() && p in procs
      requires procs[p] == Bumping(hash, round, attempt)
            || (procs[p].Swapping? && procs[p] == Swapping(hash, round, attempt, procs[p].raw))
      modifies this
      ensures Valid() && View() == Step(old(View()), StoreError(p)) && epochs == old(epochs) && passwords == old(passwords)
      ensures p in procs && procs[p] == AfterFailure(hash, round, attempt)
    {
      StepKeepsInv(View(), StoreError(p));
      procs := procs[p := AfterFailure(hash, round, attempt)];
    }

    method Read(p: Pid, hash: Hash, round: Round, attempt: nat, i: nat) returns (raw: Option<string>)
      requires Valid() && p in procs && procs[p] == Bumping(hash, round, attempt) && i < |epochs|
      modifies this
      ensures Valid() && View() == Step(old(View()), ReadForBump(p, i)) && epochs == old(epochs) && passwords == old(passwords)
      ensures raw == epochs[i] && p in procs && procs[p] == Swapping(hash, round, attempt, raw)
    {
      StepKeepsInv(View(), ReadForBump(p, i));
      raw := epochs[i];
      procs := procs[p := Swapping(hash, round, attempt, raw)];
    }

    method PutIfEquals(p: Pid, hash: Hash, round: Round, attempt: nat, raw: Option<string>) returns (ok: bool)
      requires Valid() && p in procs && procs[p] == Swapping(hash, round, attempt, raw)
      modifies this
      ensures Valid() && View() == Step(old(View()), Action.Swap(p)) && p in procs
      ensures |old(epochs)| > 0 && (ok <==> old(epochs)[|old(epochs)| - 1] == raw)
      ensures epochs == (if ok then old(epochs) + [Some(Bumped(raw))] else old(epochs)) && passwords == old(passwords)
      ensures procs[p] == if ok then AfterSwap(hash, round, |epochs| - 1) else AfterFailure(hash, round, attempt)
    {
      hide Step, Inv;
      StepKeepsInv(View(), Action.Swap(p));
      SwapStep(View(), p);
      var next := Bumped(raw);
      ok := epochs[|epochs| - 1] == raw;
      if ok {
        epochs := epochs + [Some(next)];
        procs := procs[p := AfterSwap(hash, round, |epochs| - 1)];
      } else {
        procs := procs[p := AfterFailure(hash, round, attempt)];
      }
    }

    /** `bumpSessionEpoch`: at most three attempts; the result says whether one of them committed. */
    method BumpSessionEpoch(p: Pid, hash: Hash, round: Round, env: seq<Turn>, k: nat)
      returns (ok: bool, ghost trace: seq<Action>)
      requires Valid() && Foreign(env, p) && p in procs && procs[p] == Bumping(hash, round, 0)
      modifies this
      ensures Valid() && View() == Run(old(View()), trace) && p in procs
      ensures if ok then |epochs| > 1 && procs[p] == AfterSwap(hash, round, |epochs| - 1)
              else procs[p] == AfterFailure(hash, round, MAX_EPOCH_BUMP_ATTEMPTS - 1)
      ensures env == [] ==> ok && passwords == old(passwords)
                            && epochs == old(epochs) + [Some(Bumped(Epoch(old(View()))))]
    {
      hide Inv, Step, Foreign, Bumped, Runs.Run;
      ghost var start := View();
      EmptyRun(start);
      trace := [];
      var attempt := 0;
      while attempt < MAX_EPOCH_BUMP_ATTEMPTS
        invariant attempt <= MAX_EPOCH_BUMP_ATTEMPTS
        invariant Valid() && View() == Run(old(View()), trace) && p in procs
        invariant procs[p] == if attempt < MAX_EPOCH_BUMP_ATTEMPTS then Bumping(hash, round, attempt)
                              else AfterFailure(hash, round, MAX_EPOCH_BUMP_ATTEMPTS - 1)
        invariant env == [] ==> attempt == 0 && passwords == old(passwords) && epochs == old(epochs)
      {
        ghost var part;
        ok, part := TryBump(p, hash, round, attempt, env, k + 2 * attempt);
        Runs.Concat(Step, start, trace, part);
        trace := trace + part;
        if ok {
          return true, trace;
        }
        attempt := attempt + 1;
      }
      return false, trace;
    }

    /** `confirmResetPassword` once its code was accepted: bump, write the password, bump again. */
    method ConfirmResetPassword(p: Pid, hash: Hash, env: seq<Turn>) returns (ok: bool, ghost trace: seq<Action>)
      requires Valid() && Foreign(env, p) && p !in procs
      modifies this
      ensures Valid() && View() == Run(old(View()), trace) && p in procs
      ensures ok <==> procs[p].ResetDone?
      ensures !ok ==> procs[p] == ResetFailed || procs[p] == Ended
      ensures env == [] ==> ok && |epochs| == |old(epochs)| + 2
                            && passwords == old(passwords) + [Password(hash, |old(epochs)| + 1)]
    {
      hide Inv, Step;
      Begin(p, hash);
      Runs.Extend(Step, old(View()), [], [], StartReset(p, hash), old(View()));
      trace := [] + ([] + [StartReset(p, hash)]);
      ghost var part;
      ok, part := BumpSessionEpoch(p, hash, First, env, 0);
      Runs.Concat(Step, old(View()), trace, part);
      trace := trace + part;
      if !ok {
        return false, trace;
      }
      var bumpedAt := procs[p].bumpedAt;
      Await(p, At(env, 6).others);
      ghost var mid := View();
      if At(env, 6).error {
        GiveUp(p);
        Runs.Extend(Step, old(View()), trace, At(env, 6).others, Action.StoreError(p), mid);
        return false, trace + (At(env, 6).others + [Action.StoreError(p)]);
      }
      PutPassword(p, hash, bumpedAt);
      Runs.Extend(Step, old(View()), trace, At(env, 6).others, Action.WritePassword(p), mid);
      trace := trace + (At(env, 6).others + [Action.WritePassword(p)]);
      ok, part := BumpSessionEpoch(p, hash, procs[p].round, env, 7);
      Runs.Concat(Step, old(View()), trace, part);
      return true, trace + part;
    }

    method Begin(p: Pid, hash: Hash)
      requires Valid() && p !in procs
      modifies this
      ensures Valid() && View() == Step(old(View()), StartReset(p, hash))
      ensures p in procs && procs[p] == Bumping(hash, First, 0)
      ensures epochs == old(epochs) && passwords == old(passwords)
    {
      StepKeepsInv(View(), StartReset(p, hash));
      procs := procs[p := Bumping(hash, First, 0)];
    }

    method GiveUp(p: Pid)
      requires Valid() && p in procs && procs[p].Writing?
      modifies this
      ensures Valid() && View() == Step(old(View()), StoreError(p)) && p in procs && procs[p] == Ended
    {
      StepKeepsInv(View(), StoreError(p));
      procs := procs[p := Ended];
    }

    method PutPassword(p: Pid, hash: Hash, bumpedAt: nat)
      requires Valid() && p in procs && procs[p] == Writing(hash, bumpedAt)
      modifies this
      ensures Valid() && View() == Step(old(View()), Action.WritePassword(p))
      ensures p in procs && procs[p] == Bumping(hash, Second(bumpedAt, |old(epochs)|), 0)
      ensures passwords == old(passwords) + [Password(hash, |old(epochs)|)] && epochs == old(epochs)
    {
      StepKeepsInv(View(), Action.WritePassword(p));
      passwords := passwords + [Password(hash, |epochs|)];
      procs := procs[p := Bumping(hash, Second(bumpedAt, |epochs|), 0)];
    }
  }
}
