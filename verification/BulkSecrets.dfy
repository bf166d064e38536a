/**
 The deploy-time handler that reconciles a stack's secret parameters: create what is declared, re-encrypt
 what changed its key, delete what is gone, and leave runtime-written values alone.

 `minted` gives the random value drawn for each name during one event.
*/
module BulkSecrets {
  import opened Maybe
  import Runs

  datatype Key = DefaultKey | Cmk(arn: string)

  datatype Param = Param(name: string, keyId: Option<string>)

  datatype Secret = Secret(value: string, key: Key)

  type Store = map<string, Secret>

  type Minted = map<string, string>

  /** The old properties of an update: today's shape, the one before keys existed, or none. */
  datatype OldProps = Parameters(params: seq<Param>) | ParameterNames(names: seq<string>) | NoProps

  datatype Event = Create(params: seq<Param>) | Update(params: seq<Param>, prior: OldProps) | Delete(params: seq<Param>)

  datatype Outcome = Outcome(store: Store, ok: bool)

  /** An absent and an empty key both mean the default key. */
  function KeyOf(p: Param): Key {
    if p.keyId.None? || p.keyId.value == "" then DefaultKey else Cmk(p.keyId.value)
  }

  function Names(params: seq<Param>): set<string> {
    set p | p in params :: p.name
  }

  function Value(minted: Minted, name: string): string {
    if name in minted then minted[name] else ""
  }

  function PutSecret(store: Store, p: Param, minted: Minted): Store {
    if p.name in store then store else store[p.name := Secret(Value(minted, p.name), KeyOf(p))]
  }

  /** Re-encryption of a parameter that is not there throws. */
  function Reencrypt(store: Store, p: Param): Outcome {
    if p.name in store then Outcome(store[p.name := Secret(store[p.name].value, KeyOf(p))], true)
    else Outcome(store, false)
  }

  function ReadOld(prior: OldProps): seq<Param> {
    match prior
    case Parameters(params) => params
    case ParameterNames(names) => seq(|names|, i requires 0 <= i < |names| => Param(names[i], None))
    case NoProps => []
  }

  /** `Object.fromEntries`: the last entry with a name wins. */
  function ByName(params: seq<Param>): (m: map<string, Param>)
    ensures m.Keys == Names(params)
    ensures forall n <- m :: m[n] in params && m[n].name == n
  {
    if params == [] then map[]
    else
      var front, last := params[..|params| - 1], params[|params| - 1];
      assert params == front + [last];
      ByName(front)[last.name := last]
  }

  function CreateAll(store: Store, params: seq<Param>, minted: Minted): Store {
    if params == [] then store
    else PutSecret(CreateAll(store, params[..|params| - 1], minted), params[|params| - 1], minted)
  }

  function UpdateOne(store: Store, prior: map<string, Param>, p: Param, minted: Minted): Outcome {
    if p.name !in prior then Outcome(PutSecret(store, p, minted), true)
    else if KeyOf(prior[p.name]) != KeyOf(p) then Reencrypt(store, p)
    else Outcome(store, true)
  }

  function UpdateAll(store: Store, prior: map<string, Param>, params: seq<Param>, minted: Minted): Outcome {
    if params == [] then Outcome(store, true)
    else
      var o := UpdateAll(store, prior, params[..|params| - 1], minted);
      if o.ok then UpdateOne(o.store, prior, params[|params| - 1], minted) else o
  }

  function Handle(store: Store, e: Event, minted: Minted): Outcome {
    match e
    case Create(params) => Outcome(CreateAll(store, params, minted), true)
    case Update(params, prior) =>
      var byName := ByName(ReadOld(prior));
      var o := UpdateAll(store, byName, params, minted);
      if o.ok then Outcome(o.store - (byName.Keys - Names(params)), true) else o
    case Delete(params) => Outcome(store - Names(params), true)
  }

  // ----------------------------------------------------- what one event does, name by name

  ghost predicate UniqueNames(params: seq<Param>) {
    forall i, j | 0 <= i < j < |params| :: params[i].name != params[j].name
  }

  function At(store: Store, name: string): Option<Secret> {
    if name in store then Some(store[name]) else None
  }

  /** What an update leaves under a declared name: `None` if nothing is there. */
  function Expected(store: Store, prior: map<string, Param>, p: Param, minted: Minted): Option<Secret> {
    var now := At(store, p.name);
    if p.name !in prior then (if now.Some? then now else Some(Secret(Value(minted, p.name), KeyOf(p))))
    else if now.Some? && KeyOf(prior[p.name]) != KeyOf(p) then Some(Secret(now.value.value, KeyOf(p)))
    else now
  }

  /** The update cannot go on when a parameter to be re-encrypted is not there. */
  predicate Stuck(store: Store, prior: map<string, Param>, p: Param) {
    p.name in prior && KeyOf(prior[p.name]) != KeyOf(p) && p.name !in store
  }

  lemma {:induction false} UpdateAllSays(store: Store, prior: map<string, Param>, params: seq<Param>, minted: Minted)
    requires UniqueNames(params)
    ensures var o := UpdateAll(store, prior, params, minted);
            && o.ok == (forall p <- params :: !Stuck(store, prior, p))
            && (forall n | n !in Names(params) :: At(o.store, n) == At(store, n))
            && (o.ok ==> forall p <- params :: At(o.store, p.name) == Expected(store, prior, p, minted))
    decreases |params|
  {
    if params == [] {
    } else {
      var front, last := params[..|params| - 1], params[|params| - 1];
      UpdateAllSays(store, prior, front, minted);
      LastIsNew(params);
      var o := UpdateAll(store, prior, front, minted);
      if o.ok { OneUpdateSays(store, o.store, prior, front, last, minted); }
      assert forall p :: p in params <==> p in front || p == last;
      assert Names(params) == Names(front) + {last.name};
      hide UpdateOne, Expected;
    }
  }

  lemma LastIsNew(params: seq<Param>)
    requires UniqueNames(params) && params != []
    ensures params[|params| - 1].name !in Names(params[..|params| - 1])
  {
  }

  lemma OneUpdateSays(store: Store, mid: Store, prior: map<string, Param>, front: seq<Param>, last: Param, minted: Minted)
    requires last.name !in Names(front) && At(mid, last.name) == At(store, last.name)
    requires forall p <- front :: At(mid, p.name) == Expected(store, prior, p, minted)
    ensures var o := UpdateOne(mid, prior, last, minted);
            && o.ok == !Stuck(store, prior, last)
            && (forall n | n != last.name :: At(o.store, n) == At(mid, n))
            && (o.ok ==> At(o.store, last.name) == Expected(store, prior, last, minted))
            && (forall p <- front :: At(o.store, p.name) == Expected(store, prior, p, minted))
  {
    var o := UpdateOne(mid, prior, last, minted);
    OneUpdateAt(store, mid, prior, last, minted);
    hide UpdateOne, Expected;
    forall p | p in front ensures At(o.store, p.name) == Expected(store, prior, p, minted) {
      assert p.name in Names(front);
    }
  }

  lemma OneUpdateAt(store: Store, mid: Store, prior: map<string, Param>, last: Param, minted: Minted)
    requires At(mid, last.name) == At(store, last.name)
    ensures var o := UpdateOne(mid, prior, last, minted);
            && o.ok == !Stuck(store, prior, last)
            && (forall n | n != last.name :: At(o.store, n) == At(mid, n))
            && (o.ok ==> At(o.store, last.name) == Expected(store, prior, last, minted))
  {
  }

  /** Creating is updating from nothing. */
  lemma {:induction false} CreateIsUpdateFromNothing(store: Store, params: seq<Param>, minted: Minted)
    ensures UpdateAll(store, map[], params, minted) == Outcome(CreateAll(store, params, minted), true)
    decreases |params|
  {
    if params == [] {
    } else {
      CreateIsUpdateFromNothing(store, params[..|params| - 1], minted);
    }
  }

  /**
   An update either throws, exactly when a declared parameter that changed its key is missing, or does
   this: every declared name has its expected secret, names declared before and no longer are gone,
   and every other name is untouched.
  */
  lemma UpdateSays(store: Store, params: seq<Param>, prior: OldProps, minted: Minted)
    requires UniqueNames(params)
    ensures var o := Handle(store, Update(params, prior), minted);
            var before := ByName(ReadOld(prior));
            && o.ok == (forall p <- params :: !Stuck(store, before, p))
            && (o.ok ==>
                  && (forall p <- params :: At(o.store, p.name) == Expected(store, before, p, minted))
                  && (forall n | n in before && n !in Names(params) :: n !in o.store)
                  && (forall n | n !in before && n !in Names(params) :: At(o.store, n) == At(store, n)))
  {
    var before := ByName(ReadOld(prior));
    UpdateAllSays(store, before, params, minted);
    var mid := UpdateAll(store, before, params, minted);
    if mid.ok {
      var o := Handle(store, Update(params, prior), minted);
      hide UpdateAll, Expected, ByName, ReadOld;
      forall p | p in params ensures At(o.store, p.name) == At(mid.store, p.name) {
        assert p.name in Names(params);
      }
    }
  }

  /** Every declared name is stored under its declared key. */
  ghost predicate Synced(store: Store, params: seq<Param>) {
    forall p <- params :: p.name in store && store[p.name].key == KeyOf(p)
  }

  /** What the store must hold for an update to leave `p` under its declared key. */
  predicate ReadyFor(store: Store, before: map<string, Param>, p: Param) {
    if p.name !in before then p.name in store ==> store[p.name].key == KeyOf(p)
    else if KeyOf(before[p.name]) != KeyOf(p) then p.name in store
    else p.name in store && store[p.name].key == KeyOf(p)
  }

  ghost predicate Ready(store: Store, before: map<string, Param>, params: seq<Param>) {
    forall p <- params :: ReadyFor(store, before, p)
  }

  lemma OneSyncsIff(store: Store, before: map<string, Param>, p: Param, minted: Minted)
    ensures ReadyFor(store, before, p) <==>
              var s := Expected(store, before, p, minted); !Stuck(store, before, p) && s.Some? && s.value.key == KeyOf(p)
  {
  }

  /**
   An update ends well exactly when parameters it thinks it created are there under the key it thinks
   they have, and parameters it did not create are absent or already under the declared key.
  */
  lemma UpdateSyncsIff(store: Store, params: seq<Param>, prior: OldProps, minted: Minted)
    requires UniqueNames(params)
    ensures var o := Handle(store, Update(params, prior), minted);
            o.ok && Synced(o.store, params) <==> Ready(store, ByName(ReadOld(prior)), params)
  {
    UpdateSays(store, params, prior, minted);
    var o := Handle(store, Update(params, prior), minted);
    var before := ByName(ReadOld(prior));
    forall p | p in params
      ensures o.ok ==> (ReadyFor(store, before, p) <==> p.name in o.store && o.store[p.name].key == KeyOf(p))
      ensures ReadyFor(store, before, p) ==> !Stuck(store, before, p)
    {
      OneSyncsIff(store, before, p, minted);
      assert o.ok ==> At(o.store, p.name) == Expected(store, before, p, minted);
    }
    hide Handle, ByName, ReadOld, ReadyFor, Expected, Stuck, At;
  }

  /** The same for a create: it never throws, and keeps whatever it finds. */
  lemma CreateSyncsIff(store: Store, params: seq<Param>, minted: Minted)
    requires UniqueNames(params)
    ensures var o := Handle(store, Create(params), minted);
            o.ok && (Synced(o.store, params) <==> forall p <- params :: p.name in store ==> store[p.name].key == KeyOf(p))
  {
    CreateIsUpdateFromNothing(store, params, minted);
    UpdateAllSays(store, map[], params, minted);
    var o := Handle(store, Create(params), minted);
    assert forall p <- params :: At(o.store, p.name) == Expected(store, map[], p, minted);
    hide UpdateAll, CreateAll;
  }

  // ----------------------------------------------------------- deployments over time

  /** The stack: its parameters, what it declares, and the last event its handler was given. */
  datatype Sys = Sys(store: Store, declared: seq<Param>, deployed: bool, last: Option<Event>)

  datatype Action =
    | Deploy(params: seq<Param>, minted: Minted)
    | Teardown
    | Redeliver(minted: Minted)
    | RuntimeWrite(name: string, value: string)

  function Init(): Sys {
    Sys(map[], [], false, None)
  }

  function EventOf(s: Sys, params: seq<Param>): Event {
    if s.deployed then Update(params, Parameters(s.declared)) else Create(params)
  }

  function Step(s: Sys, a: Action): Sys {
    match a
    case Deploy(params, minted) =>
      var e := EventOf(s, params);
      s.(store := Handle(s.store, e, minted).store, declared := params, deployed := true, last := Some(e))
    case Teardown =>
      s.(store := Handle(s.store, Delete(s.declared), map[]).store, declared := [], deployed := false,
         last := Some(Delete(s.declared)))
    case Redeliver(minted) =>
      if s.last.Some? then s.(store := Handle(s.store, s.last.value, minted).store) else s
    case RuntimeWrite(name, value) =>
      if name in ByName(s.declared)
      then s.(store := s.store[name := Secret(value, KeyOf(ByName(s.declared)[name]))])
      else s
  }

  function Run(s: Sys, actions: seq<Action>): Sys {
    Runs.Run(Step, s, actions)
  }

  /** Each deployment declares a name at most once. */
  ghost predicate Proper(s: Sys, a: Action) {
    a.Deploy? ==> UniqueNames(a.params)
  }

  ghost predicate LastFits(s: Sys) {
    match s.last
    case None => s.declared == []
    case Some(Create(params)) => params == s.declared
    case Some(Update(params, _)) => params == s.declared
    case Some(Delete(params)) => s.declared == []
  }

  /** Exactly the declared names are stored, each under its declared key. */
  ghost predicate Inv(s: Sys) {
    && UniqueNames(s.declared) && s.store.Keys == Names(s.declared) && Synced(s.store, s.declared)
    && LastFits(s) && (!s.deployed ==> s.declared == [])
  }

  lemma ByNameHas(params: seq<Param>, p: Param)
    requires UniqueNames(params) && p in params
    ensures p.name in ByName(params) && ByName(params)[p.name] == p
  {
  }

  lemma SameStore(a: Store, b: Store)
    requires forall n :: At(a, n) == At(b, n)
    ensures a == b
  {
    forall n ensures n in a <==> n in b { assert At(a, n) == At(b, n); }
    forall n | n in a ensures a[n] == b[n] { assert At(a, n) == At(b, n); }
  }

  lemma DeployKeeps(s: Sys, params: seq<Param>, minted: Minted)
    requires Inv(s) && UniqueNames(params)
    ensures Inv(Step(s, Deploy(params, minted))) && Handle(s.store, EventOf(s, params), minted).ok
  {
    var e := EventOf(s, params);
    var o := Handle(s.store, e, minted);
    if s.deployed {
      DeclaredIsReady(s, params);
      UpdateSyncsIff(s.store, params, Parameters(s.declared), minted);
      UpdateSays(s.store, params, Parameters(s.declared), minted);
    } else {
      CreateSyncsIff(s.store, params, minted);
      CreateIsUpdateFromNothing(s.store, params, minted);
      UpdateAllSays(s.store, map[], params, minted);
    }
    hide Handle, UpdateAll, ByName, Expected, ReadyFor, UniqueNames;
    forall n ensures n in o.store <==> n in Names(params) {
      if n in Names(params) {
        var p :| p in params && p.name == n;
      } else {
        assert At(o.store, n) == None;
      }
    }
  }

  lemma DeclaredIsReady(s: Sys, params: seq<Param>)
    requires Inv(s)
    ensures Ready(s.store, ByName(s.declared), params)
  {
    forall p | p in params && p.name in ByName(s.declared)
      ensures p.name in s.store && s.store[p.name].key == KeyOf(ByName(s.declared)[p.name])
    {
      assert ByName(s.declared)[p.name] in s.declared;
    }
    hide ByName;
  }

  /** In a state where the store matches the declaration, the last event changes nothing. */
  lemma RedeliverDoesNothing(s: Sys, minted: Minted)
    requires Inv(s)
    ensures Step(s, Redeliver(minted)) == s
  {
    if s.last.Some? {
      var o := Handle(s.store, s.last.value, minted);
      match s.last.value
      case Create(params) =>
        CreateIsUpdateFromNothing(s.store, params, minted);
        UpdateAllSays(s.store, map[], params, minted);
        SameAsDeclared(s, map[], params, minted, o.store);
      case Update(params, prior) =>
        UpdateSays(s.store, params, prior, minted);
        SameAsDeclared(s, ByName(ReadOld(prior)), params, minted, o.store);
      case Delete(params) =>
        assert s.store == map[];
    }
  }

  lemma SameAsDeclared(s: Sys, before: map<string, Param>, params: seq<Param>, minted: Minted, after: Store)
    requires Inv(s) && params == s.declared
    requires (forall p <- params :: !Stuck(s.store, before, p)) ==>
               && (forall p <- params :: At(after, p.name) == Expected(s.store, before, p, minted))
               && (forall n | n !in Names(params) :: n in before ==> n !in after)
               && (forall n | n !in Names(params) :: n !in before ==> At(after, n) == At(s.store, n))
    ensures after == s.store
  {
    hide UniqueNames, LastFits;
    forall n ensures At(after, n) == At(s.store, n) {
      if n in Names(params) {
        var p :| p in params && p.name == n;
        assert At(after, n) == Expected(s.store, before, p, minted);
        assert s.store[n] == Secret(s.store[n].value, KeyOf(p));
      }
    }
    SameStore(after, s.store);
  }

  lemma WriteSyncs(store: Store, params: seq<Param>, name: string, value: string)
    requires UniqueNames(params) && Synced(store, params) && name in ByName(params)
    ensures Synced(store[name := Secret(value, KeyOf(ByName(params)[name]))], params)
  {
    forall p | p in params ensures p.name in ByName(params) && ByName(params)[p.name] == p { ByNameHas(params, p); }
    hide UniqueNames, ByName;
  }

  lemma WriteKeeps(s: Sys, name: string, value: string)
    requires Inv(s)
    ensures Inv(Step(s, RuntimeWrite(name, value)))
  {
    hide UniqueNames, Synced, Handle, Names;
    if name in ByName(s.declared) { WriteSyncs(s.store, s.declared, name, value); }
    hide ByName;
  }

  lemma TeardownKeeps(s: Sys)
    requires Inv(s)
    ensures Inv(Step(s, Teardown))
  {
    assert s.store - Names(s.declared) == map[];
  }

  lemma StepKeeps(s: Sys, a: Action)
    requires Inv(s) && Proper(s, a)
    ensures Inv(Step(s, a))
  {
    hide Inv, Step, UniqueNames;
    match a
    case Deploy(params, minted) => DeployKeeps(s, params, minted);
    case Teardown => TeardownKeeps(s);
    case Redeliver(minted) => RedeliverDoesNothing(s, minted);
    case RuntimeWrite(name, value) => WriteKeeps(s, name, value);
  }

  lemma RunKeeps(actions: seq<Action>)
    requires Runs.Always(Step, Proper, Init(), actions)
    ensures Inv(Run(Init(), actions))
  {
    hide Step, Proper;
    assert Inv(Init());
    hide Inv;
    forall t, a | Inv(t) && Proper(t, a) ensures Inv(Step(t, a)) { StepKeeps(t, a); }
    Runs.KeepsWhen(Step, Proper, Inv, Init(), actions);
  }

  // ------------------------------------------------------------------------- theorems

  /** The key that a declaration asks for: the default key when it names none, else the one it names. */
  ghost predicate AskedFor(keyId: Option<string>, key: Key) {
    match keyId
    case None => key == DefaultKey
    case Some(arn) => if |arn| == 0 then key == DefaultKey else key == Cmk(arn)
  }

  /**
   After any history of deployments, teardowns, redeliveries and runtime writes, the stored names are
   the declared names, each under its declared key, and the next deployment will not throw.
  */
  lemma StoreMatchesTheDeclaration(actions: seq<Action>, params: seq<Param>, minted: Minted)
    requires Runs.Always(Step, Proper, Init(), actions) && UniqueNames(params)
    ensures var s := Run(Init(), actions);
            && s.store.Keys == Names(s.declared)
            && (forall p <- s.declared :: p.name in s.store && AskedFor(p.keyId, s.store[p.name].key))
            && Handle(s.store, EventOf(s, params), minted).ok
  {
    hide Step, UniqueNames, Proper;
    RunKeeps(actions);
    DeployKeeps(Run(Init(), actions), params, minted);
  }

  /** Old properties from before keys existed are those of parameters without a key. */
  lemma OldNamesHadNoKey(store: Store, params: seq<Param>, names: seq<string>, before: seq<Param>, minted: Minted)
    requires |before| == |names| && forall i | 0 <= i < |names| :: before[i].name == names[i] && before[i].keyId.None?
    ensures Handle(store, Update(params, ParameterNames(names)), minted) == Handle(store, Update(params, Parameters(before)), minted)
  {
    assert ReadOld(ParameterNames(names)) == before;
  }

  /** Redelivering the last event changes no name, value or key, also after runtime writes. */
  lemma RedeliveryChangesNothing(actions: seq<Action>, minted: Minted)
    requires Runs.Always(Step, Proper, Init(), actions)
    ensures Step(Run(Init(), actions), Redeliver(minted)) == Run(Init(), actions)
  {
    hide Step, Proper, Inv;
    RunKeeps(actions);
    RedeliverDoesNothing(Run(Init(), actions), minted);
  }

  /** A name kept by a deployment keeps its value, even when it is moved to another key. */
  lemma KeptNamesKeepTheirValues(actions: seq<Action>, params: seq<Param>, minted: Minted, p: Param)
    requires Runs.Always(Step, Proper, Init(), actions) && UniqueNames(params) && p in params
    requires p.name in Names(Run(Init(), actions).declared)
    ensures var s := Run(Init(), actions);
            var t := Step(s, Deploy(params, minted));
            && p.name in s.store && p.name in t.store
            && t.store[p.name].value == s.store[p.name].value && AskedFor(p.keyId, t.store[p.name].key)
  {
    RunKeeps(actions);
    hide Proper, UniqueNames;
    var s := Run(Init(), actions);
    KeptOne(s, params, minted, p);
  }

  /** A name that was not declared before gets the value drawn for it, under its declared key. */
  lemma NewNamesGetTheirDrawnValues(actions: seq<Action>, params: seq<Param>, minted: Minted, p: Param)
    requires Runs.Always(Step, Proper, Init(), actions) && UniqueNames(params) && p in params
    requires p.name !in Names(Run(Init(), actions).declared) && p.name in minted
    ensures var t := Step(Run(Init(), actions), Deploy(params, minted));
            && p.name in t.store && t.store[p.name].value == minted[p.name] && AskedFor(p.keyId, t.store[p.name].key)
  {
    RunKeeps(actions);
    hide Proper, UniqueNames;
    NewOne(Run(Init(), actions), params, minted, p);
  }

  lemma NewOne(s: Sys, params: seq<Param>, minted: Minted, p: Param)
    requires Inv(s) && UniqueNames(params) && p in params && p.name !in Names(s.declared)
    ensures At(Step(s, Deploy(params, minted)).store, p.name) == Some(Secret(Value(minted, p.name), KeyOf(p)))
  {
    DeployKeeps(s, params, minted);
    if s.deployed {
      UpdateSays(s.store, params, Parameters(s.declared), minted);
    } else {
      CreateIsUpdateFromNothing(s.store, params, minted);
      UpdateAllSays(s.store, map[], params, minted);
    }
  }

  lemma KeptOne(s: Sys, params: seq<Param>, minted: Minted, p: Param)
    requires Inv(s) && UniqueNames(params) && p in params && p.name in Names(s.declared)
    ensures p.name in s.store
    ensures At(Step(s, Deploy(params, minted)).store, p.name) == Some(Secret(s.store[p.name].value, KeyOf(p)))
  {
    DeployKeeps(s, params, minted);
    UpdateSays(s.store, params, Parameters(s.declared), minted);
    assert ByName(s.declared)[p.name] in s.declared;
  }

  // ------------------------------------------------------------------ the handler itself

  /** The parameter store as the handler's client sees it. */
  class ParameterStore {
    var store: Store

    constructor (store: Store)
      ensures this.store == store
    {
      this.store := store;
    }

    method Put(p: Param, minted: Minted)
      modifies this
      ensures store == PutSecret(old(store), p, minted)
    {
      if p.name !in store { store := store[p.name := Secret(Value(minted, p.name), KeyOf(p))]; }
    }

    method Rekey(p: Param) returns (ok: bool)
      modifies this
      ensures Outcome(store, ok) == Reencrypt(old(store), p)
    {
      if p.name !in store { return false; }
      var value := store[p.name].value;
      store := store[p.name := Secret(value, KeyOf(p))];
      return true;
    }

    /** Delete the names of `gone` that `kept` does not have; names already deleted are no error. */
    method RemoveGone(gone: seq<Param>, kept: seq<Param>)
      modifies this
      ensures store == old(store) - (Names(gone) - Names(kept))
    {
      var i := 0;
      while i < |gone|
        invariant 0 <= i <= |gone|
        invariant store == old(store) - (Names(gone[..i]) - Names(kept))
      {
        assert Names(gone[..i + 1]) == Names(gone[..i]) + {gone[i].name};
        if gone[i].name !in Names(kept) { store := store - {gone[i].name}; }
        i := i + 1;
      }
      assert gone[..i] == gone;
    }

    /** The Lambda handler: one CloudFormation event. */
    method HandleEvent(e: Event, minted: Minted) returns (ok: bool)
      modifies this
      ensures Outcome(store, ok) == Handle(old(store), e, minted)
    {
      hide Names, ByName, UpdateAll, CreateAll;
      match e
      case Delete(params) =>
        RemoveGone(params, []);
        assert Names(params) - Names([]) == Names(params) by { NoNames(); }
        return true;
      case Create(params) =>
        OnCreate(params, minted);
        return true;
      case Update(params, prior) =>
        ok := OnUpdate(params, ByName(ReadOld(prior)), minted);
        if ok { RemoveGone(ReadOld(prior), params); }
    }

    method OnCreate(params: seq<Param>, minted: Minted)
      modifies this
      ensures store == CreateAll(old(store), params, minted)
    {
      var i := 0;
      while i < |params|
        invariant 0 <= i <= |params|
        invariant store == CreateAll(old(store), params[..i], minted)
      {
        assert params[..i + 1][..i] == params[..i];
        Put(params[i], minted);
        i := i + 1;
      }
      assert params[..i] == params;
    }

    method OnUpdate(params: seq<Param>, oldByName: map<string, Param>, minted: Minted) returns (ok: bool)
      modifies this
      ensures Outcome(store, ok) == UpdateAll(old(store), oldByName, params, minted)
    {
      var i := 0;
      while i < |params|
        invariant 0 <= i <= |params|
        invariant UpdateAll(old(store), oldByName, params[..i], minted) == Outcome(store, true)
      {
        var p := params[i];
        assert params[..i + 1][..i] == params[..i];
        if p.name !in oldByName {
          Put(p, minted);
        } else if KeyOf(oldByName[p.name]) != KeyOf(p) {
          var done := Rekey(p);
          if !done {
            StuckStays(old(store), oldByName, params, i + 1, minted);
            return false;
          }
        }
        i := i + 1;
      }
      assert params[..i] == params;
      return true;
    }
  }

  lemma NoNames()
    ensures Names([]) == {}
  {
  }

  lemma {:induction false} StuckStays(store: Store, prior: map<string, Param>, params: seq<Param>, i: nat, minted: Minted)
    requires i <= |params| && !UpdateAll(store, prior, params[..i], minted).ok
    ensures UpdateAll(store, prior, params, minted) == UpdateAll(store, prior, params[..i], minted)
    decreases |params|
  {
    if i == |params| {
      assert params[..i] == params;
    } else {
      var front := params[..|params| - 1];
      assert front[..i] == params[..i];
      StuckStays(store, prior, front, i, minted);
    }
  }
}
