/**
 `InProcessThreadLock`: the registry's atomic sections as methods on real objects, each proved equal to a
 function of the registry's value, and the interleavings of those sections by any number of threads.
 */
module InProcessLock {
  import opened Common

  type Key = (string, string)
  type Token = string
  type Tid = nat

  /** `_KeyState`. */
  class KeyState {
    var locked: bool
    var token: Option<Token>
    var refs: int

    constructor ()
      ensures !locked && token == None && refs == 0
    {
      locked, token, refs := false, None, 0;
    }
  }

  /** The value of one `_KeyState`, and of the registry with every state object it ever created. */
  datatype Cell = Cell(locked: bool, token: Option<Token>, refs: int)

  datatype Registry = Registry(states: map<Key, KeyState>, cells: map<KeyState, Cell>)

  // ---------------------------------------------------------------- the atomic sections, on values

  /** `_maybe_gc`. */
  ghost function Gc(r: Registry, key: Key, s: KeyState): Registry
    requires s in r.cells
  {
    if r.cells[s].refs == 0 && key in r.states && r.states[key] == s then r.(states := r.states - {key}) else r
  }

  /** First section of `acquire`: find or create the state and reserve a reference. */
  ghost function Reserve(r: Registry, key: Key, created: KeyState): Registry {
    if key in r.states && r.states[key] in r.cells then
      var s := r.states[key];
      r.(cells := r.cells[s := r.cells[s].(refs := r.cells[s].refs + 1)])
    else Registry(r.states[key := created], r.cells[created := Cell(false, None, 1)])
  }

  ghost function Lock(r: Registry, s: KeyState): Registry
    requires s in r.cells
  {
    r.(cells := r.cells[s := r.cells[s].(locked := true)])
  }

  /** Last section of a successful `acquire`. */
  ghost function Publish(r: Registry, s: KeyState, token: Token): Registry
    requires s in r.cells
  {
    r.(cells := r.cells[s := r.cells[s].(token := Some(token))])
  }

  /** Last section of a failed `acquire`. */
  ghost function Unreserve(r: Registry, key: Key, s: KeyState): Registry
    requires s in r.cells
  {
    Gc(r.(cells := r.cells[s := r.cells[s].(refs := r.cells[s].refs - 1)]), key, s)
  }

  /** `release` finds its owner: the key is registered and carries this token. */
  ghost predicate Owns(r: Registry, key: Key, token: Token) {
    key in r.states && r.states[key] in r.cells && r.cells[r.states[key]].token == Some(token)
  }

  /** The primitive unlock inside `release`, visible to threads blocked on the primitive at once. */
  ghost function Unlock(r: Registry, s: KeyState): Registry
    requires s in r.cells
  {
    r.(cells := r.cells[s := r.cells[s].(locked := false)])
  }

  /** The bookkeeping that follows it under the same guard. */
  ghost function Forget(r: Registry, key: Key, s: KeyState): Registry
    requires s in r.cells
  {
    Gc(r.(cells := r.cells[s := r.cells[s].(token := None, refs := r.cells[s].refs - 1)]), key, s)
  }

  // ---------------------------------------------------------------- the class

  class InProcessThreadLock {
    var states: map<Key, KeyState>
    ghost var known: set<KeyState>

    ghost predicate Valid()
      reads this
    {
      forall key :: key in states ==> states[key] in known
    }

    ghost function Value(): Registry
      reads this, known
    {
      Registry(states, map s | s in known :: Cell(s.locked, s.token, s.refs))
    }

    constructor ()
      ensures Valid() && Value() == Registry(map[], map[])
    {
      states, known := map[], {};
    }

    method ReserveSection(key: Key) returns (s: KeyState)
      requires Valid()
      modifies this, known
      ensures Valid() && s in known && key in states && states[key] == s
      ensures known == old(known) + {s} && (s in old(known) <==> key in old(states)) && fresh(known - old(known))
      ensures Value() == Reserve(old(Value()), key, s)
    {
      if key in states {
        s := states[key];
      } else {
        s := new KeyState();
        states := states[key := s];
        known := known + {s};
      }
      s.refs := s.refs + 1;
    }

    /** One attempt at the primitive lock. */
    method TryLock(s: KeyState) returns (acquired: bool)
      requires Valid() && s in known
      modifies s`locked
      ensures acquired == !old(s.locked)
      ensures Value() == if acquired then Lock(old(Value()), s) else old(Value())
    {
      acquired := !s.locked;
      s.locked := true;
    }

    method PublishSection(s: KeyState, token: Token)
      requires Valid() && s in known
      modifies s`token
      ensures Value() == Publish(old(Value()), s, token)
    {
      s.token := Some(token);
    }

    /** `_maybe_gc`. */
    method MaybeGc(key: Key, s: KeyState)
      requires Valid() && s in known
      modifies this`states
      ensures Valid() && Value() == Gc(old(Value()), key, s)
    {
      if s.refs == 0 && key in states && states[key] == s {
        states := states - {key};
      }
    }

    method UnreserveSection(key: Key, s: KeyState)
      requires Valid() && s in known
      modifies this`states, s`refs
      ensures Valid() && Value() == Unreserve(old(Value()), key, s)
    {
      s.refs := s.refs - 1;
      MaybeGc(key, s);
    }

    /** `release`, undisturbed: a token that does not match changes nothing. */
    method Release(key: Key, token: Token)
      requires Valid()
      modifies this`states, known
      ensures Valid()
      ensures !Owns(old(Value()), key, token) ==> Value() == old(Value())
      ensures Owns(old(Value()), key, token) ==>
                var s := old(states)[key]; Value() == Forget(Unlock(old(Value()), s), key, s)
      ensures key in old(states) && old(states[key].token) == Some(token) ==>
                var s := old(states)[key];
                && !s.locked && s.token == None && s.refs == old(s.refs) - 1
                && states == if s.refs == 0 then old(states) - {key} else old(states)
      ensures !(key in old(states) && old(states[key].token) == Some(token)) ==> states == old(states)
    {
      if key !in states || states[key].token != Some(token) {
        return;
      }
      var s := states[key];
      s.locked := false;
      s.token := None;
      s.refs := s.refs - 1;
      MaybeGc(key, s);
    }

    /** `acquire`, undisturbed. */
    method Acquire(key: Key, minted: Token) returns (token: Option<Token>)
      requires Valid()
      modifies this, known
      ensures Valid()
      ensures token == (if key in old(states) && old(states[key].locked) then None else Some(minted))
      ensures token.Some? ==> Owns(Value(), key, minted)
      ensures token.Some? ==>
                && key in states && states[key].locked && states[key].token == Some(minted)
                && states[key].refs == 1 + if key in old(states) then old(states[key].refs) else 0
      ensures token.None? && old(states[key].refs) > 0 ==> Value() == old(Value())
    {
      var s := ReserveSection(key);
      var acquired := TryLock(s);
      if !acquired {
        UnreserveSection(key, s);
        return None;
      }
      PublishSection(s, minted);
      token := Some(minted);
    }
  }

  // ---------------------------------------------------------------- interleavings

  /** Where one call of `acquire` is after reserving. */
  datatype Stage = Waiting | Holding | Failing

  /** Bookkeeping about one state object: the key it was created for and the calls working on it. */
  datatype Work = Work(key: Key, calls: map<Tid, Stage>)

  /**
   `releasing` is the object whose release is between its unlock and its bookkeeping; that release holds the
   guard. `live` holds every token returned by `acquire` and not yet given to a completed matching `release`.
   */
  datatype System = System(
    reg: Registry, work: map<KeyState, Work>, releasing: Option<KeyState>, live: map<Token, Key>, issued: set<Token>)

  datatype Action =
    | DoReserve(call: Tid, key: Key, created: KeyState)
    | DoLock(call: Tid, s: KeyState)
    | GiveUp(call: Tid, s: KeyState)
    | DoPublish(call: Tid, s: KeyState, token: Token)
    | DoUnreserve(call: Tid, s: KeyState)
    | DoRelease(key: Key, token: Token)
    | DoForget

  ghost predicate At(m: System, s: KeyState, call: Tid, stage: Stage) {
    s in m.work && s in m.reg.cells && call in m.work[s].calls && m.work[s].calls[call] == stage
  }

  /**
   Sections under the guard wait for it; trying the primitive lock does not, so it may succeed inside a
   release, right after the unlock. New calls, state objects and tokens are fresh.
   */
  ghost predicate Enabled(m: System, a: Action) {
    match a
    case DoReserve(call, key, created) =>
      m.releasing.None? && created !in m.reg.cells && forall s :: s in m.work ==> call !in m.work[s].calls
    case DoLock(call, s) => At(m, s, call, Waiting) && !m.reg.cells[s].locked
    case GiveUp(call, s) => At(m, s, call, Waiting)
    case DoPublish(call, s, token) => m.releasing.None? && At(m, s, call, Holding) && token !in m.issued
    case DoUnreserve(call, s) => m.releasing.None? && At(m, s, call, Failing)
    case DoRelease(key, token) => m.releasing.None? && Owns(m.reg, key, token)
    case DoForget => m.releasing.Some? && m.releasing.value in m.work && Releasable(m.reg, m.releasing.value)
  }

  ghost predicate Releasable(r: Registry, s: KeyState) { s in r.cells && r.cells[s].token.Some? }

  ghost function SetStage(work: map<KeyState, Work>, s: KeyState, call: Tid, stage: Stage): map<KeyState, Work>
    requires s in work
  {
    work[s := Work(work[s].key, work[s].calls[call := stage])]
  }

  ghost function EndCall(work: map<KeyState, Work>, s: KeyState, call: Tid): map<KeyState, Work>
    requires s in work
  {
    work[s := Work(work[s].key, work[s].calls - {call})]
  }

  ghost function ReserveStep(m: System, call: Tid, key: Key, created: KeyState): System {
    var reg := Reserve(m.reg, key, created);
    var s := reg.states[key];
    m.(reg := reg,
       work := if s in m.work then SetStage(m.work, s, call, Waiting) else m.work[s := Work(key, map[call := Waiting])])
  }

  ghost function LockStep(m: System, call: Tid, s: KeyState): System
    requires s in m.work && s in m.reg.cells
  {
    m.(reg := Lock(m.reg, s), work := SetStage(m.work, s, call, Holding))
  }

  ghost function PublishStep(m: System, call: Tid, s: KeyState, token: Token): System
    requires s in m.work && s in m.reg.cells
  {
    m.(reg := Publish(m.reg, s, token), work := EndCall(m.work, s, call),
       live := m.live[token := m.work[s].key], issued := m.issued + {token})
  }

  ghost function UnreserveStep(m: System, call: Tid, s: KeyState): System
    requires s in m.work && s in m.reg.cells
  {
    m.(reg := Unreserve(m.reg, m.work[s].key, s), work := EndCall(m.work, s, call))
  }

  ghost function UnlockStep(m: System, s: KeyState): System
    requires s in m.reg.cells
  {
    m.(reg := Unlock(m.reg, s), releasing := Some(s))
  }

  ghost function ForgetStep(m: System, s: KeyState): System
    requires s in m.work && Releasable(m.reg, s)
  {
    m.(reg := Forget(m.reg, m.work[s].key, s), releasing := None, live := m.live - {m.reg.cells[s].token.value})
  }

  ghost function Step(m: System, a: Action): System {
    if !Enabled(m, a) then m else
    match a
    case DoReserve(call, key, created) => ReserveStep(m, call, key, created)
    case DoLock(call, s) => LockStep(m, call, s)
    case GiveUp(call, s) => m.(work := SetStage(m.work, s, call, Failing))
    case DoPublish(call, s, token) => PublishStep(m, call, s, token)
    case DoUnreserve(call, s) => UnreserveStep(m, call, s)
    case DoRelease(key, token) => UnlockStep(m, m.reg.states[key])
    case DoForget => ForgetStep(m, m.releasing.value)
  }

  ghost function Run(m: System, actions: seq<Action>): System
    decreases |actions|
  {
    if actions == [] then m else Run(Step(m, actions[0]), actions[1..])
  }

  ghost const START := System(Registry(map[], map[]), map[], None, map[], {})

  ghost predicate Registered(r: Registry, key: Key, s: KeyState) { key in r.states && r.states[key] == s }

  /** One state object, whether or not the registry still maps its key to it. */
  ghost predicate CellOk(cell: Cell, calls: map<Tid, Stage>, registered: bool, releasing: bool) {
    && cell.refs == |calls| + (if cell.token.Some? then 1 else 0)
    && (registered <==> cell.refs > 0)
    && (forall t, u :: t in calls && u in calls && calls[t].Holding? && calls[u].Holding? ==> t == u)
    && (forall t :: t in calls && calls[t].Holding? ==> cell.locked && (cell.token.Some? ==> releasing))
    && (cell.token.Some? && !releasing ==> cell.locked)
    && (releasing ==> cell.token.Some?)
  }

  ghost predicate ObjectOk(m: System, s: KeyState) {
    s in m.reg.cells && s in m.work
    && CellOk(m.reg.cells[s], m.work[s].calls, Registered(m.reg, m.work[s].key, s), m.releasing == Some(s))
  }

  ghost predicate RegistryOk(m: System) {
    && m.work.Keys == m.reg.cells.Keys
    && (forall key :: key in m.reg.states ==> m.reg.states[key] in m.work && m.work[m.reg.states[key]].key == key)
    && (m.releasing.Some? ==> m.releasing.value in m.work)
  }

  ghost predicate TokensOk(m: System) {
    && (forall t :: t in m.live ==> t in m.issued && Owns(m.reg, m.live[t], t))
    && (forall s :: s in m.reg.cells && s in m.work && m.reg.cells[s].token.Some? ==>
          m.reg.cells[s].token.value in m.live && m.live[m.reg.cells[s].token.value] == m.work[s].key)
  }

  ghost predicate Inv(m: System) {
    RegistryOk(m) && TokensOk(m) && forall s :: s in m.work ==> ObjectOk(m, s)
  }

  /** A step works on one object: every other keeps its cell, its calls and its standing. */
  ghost predicate WorksOn(m: System, after: System, s: KeyState) {
    && after.work.Keys == m.work.Keys + {s} && after.reg.cells.Keys == m.reg.cells.Keys + {s}
    && (forall o :: o in m.work && o != s ==> OtherKept(m, after, o))
  }

  ghost predicate OtherKept(m: System, after: System, o: KeyState)
    requires o in m.work
  {
    && o in after.work && after.work[o] == m.work[o]
    && (o in m.reg.cells ==> o in after.reg.cells && after.reg.cells[o] == m.reg.cells[o])
    && (after.releasing == Some(o) <==> m.releasing == Some(o))
    && (Registered(after.reg, m.work[o].key, o) <==> Registered(m.reg, m.work[o].key, o))
  }

  lemma InvBy(m: System, after: System, s: KeyState)
    requires Inv(m) && WorksOn(m, after, s)
    requires RegistryOk(after) && TokensOk(after) && ObjectOk(after, s)
    ensures Inv(after)
  {
    forall o | o in after.work ensures ObjectOk(after, o) {
      if o != s { assert o in m.work && ObjectOk(m, o) && OtherKept(m, after, o); }
    }
  }

  lemma CallsCount(calls: map<Tid, Stage>, call: Tid, stage: Stage)
    ensures |calls[call := stage]| == |calls| + (if call in calls then 0 else 1)
    ensures |calls - {call}| == |calls| - (if call in calls then 1 else 0)
  {
    assert calls[call := stage].Keys == calls.Keys + {call};
    assert (calls - {call}).Keys == calls.Keys - {call};
    assert |calls[call := stage].Keys| == |calls[call := stage]| && |(calls - {call}).Keys| == |calls - {call}|;
  }

  // ---- reserve

  lemma ReserveOld(m: System, call: Tid, key: Key, created: KeyState)
    requires key in m.reg.states && ObjectOk(m, m.reg.states[key]) && m.work[m.reg.states[key]].key == key
    requires call !in m.work[m.reg.states[key]].calls
    ensures var after := ReserveStep(m, call, key, created); ObjectOk(after, after.reg.states[key])
  {
    CallsCount(m.work[m.reg.states[key]].calls, call, Waiting);
  }

  lemma ReserveNew(m: System, call: Tid, key: Key, created: KeyState)
    requires key !in m.reg.states && created !in m.reg.cells && created !in m.work && m.releasing.None?
    ensures var after := ReserveStep(m, call, key, created); ObjectOk(after, after.reg.states[key])
  {
    assert |map[call := Waiting]| == 1;
  }

  lemma ReserveObject(m: System, call: Tid, key: Key, created: KeyState)
    requires Inv(m) && m.releasing.None? && created !in m.reg.cells && (forall s :: s in m.work ==> call !in m.work[s].calls)
    ensures var after := ReserveStep(m, call, key, created); ObjectOk(after, after.reg.states[key])
  {
    if key in m.reg.states {
      assert ObjectOk(m, m.reg.states[key]);
      ReserveOld(m, call, key, created);
    } else {
      ReserveNew(m, call, key, created);
    }
  }

  lemma ReserveRegistry(m: System, call: Tid, key: Key, created: KeyState)
    requires RegistryOk(m) && m.releasing.None? && created !in m.reg.cells
    ensures var after := ReserveStep(m, call, key, created);
            RegistryOk(after) && WorksOn(m, after, after.reg.states[key])
  {}

  lemma ReserveTokens(m: System, call: Tid, key: Key, created: KeyState)
    requires RegistryOk(m) && TokensOk(m) && created !in m.reg.cells
    ensures TokensOk(ReserveStep(m, call, key, created))
  {}

  // ---- lock, give up

  lemma LockObject(m: System, call: Tid, s: KeyState)
    requires ObjectOk(m, s) && At(m, s, call, Waiting) && !m.reg.cells[s].locked
    ensures ObjectOk(LockStep(m, call, s), s)
  {
    CallsCount(m.work[s].calls, call, Holding);
  }

  lemma FailObject(m: System, call: Tid, s: KeyState)
    requires ObjectOk(m, s) && At(m, s, call, Waiting)
    ensures ObjectOk(m.(work := SetStage(m.work, s, call, Failing)), s)
  {
    CallsCount(m.work[s].calls, call, Failing);
  }

  lemma LockRest(m: System, call: Tid, s: KeyState)
    requires RegistryOk(m) && TokensOk(m) && At(m, s, call, Waiting)
    ensures var after := LockStep(m, call, s); RegistryOk(after) && TokensOk(after) && WorksOn(m, after, s)
  {}

  lemma FailRest(m: System, call: Tid, s: KeyState)
    requires RegistryOk(m) && TokensOk(m) && At(m, s, call, Waiting)
    ensures var after := m.(work := SetStage(m.work, s, call, Failing));
            RegistryOk(after) && TokensOk(after) && WorksOn(m, after, s)
  {}

  // ---- publish

  lemma PublishObject(m: System, call: Tid, s: KeyState, token: Token)
    requires ObjectOk(m, s) && m.releasing.None? && At(m, s, call, Holding)
    ensures m.reg.cells[s].token.None? && Registered(m.reg, m.work[s].key, s) && ObjectOk(PublishStep(m, call, s, token), s)
  {
    CallsCount(m.work[s].calls, call, Holding);
  }

  lemma PublishRegistry(m: System, call: Tid, s: KeyState, token: Token)
    requires RegistryOk(m) && At(m, s, call, Holding)
    ensures var after := PublishStep(m, call, s, token); RegistryOk(after) && WorksOn(m, after, s)
  {}

  lemma PublishTokens(m: System, call: Tid, s: KeyState, token: Token)
    requires RegistryOk(m) && TokensOk(m) && At(m, s, call, Holding) && Registered(m.reg, m.work[s].key, s)
    requires token !in m.issued && m.reg.cells[s].token.None?
    ensures TokensOk(PublishStep(m, call, s, token))
  {}

  // ---- unreserve

  lemma UnreserveObject(m: System, call: Tid, s: KeyState)
    requires ObjectOk(m, s) && At(m, s, call, Failing)
    ensures ObjectOk(UnreserveStep(m, call, s), s)
    ensures Registered(m.reg, m.work[s].key, s) && (m.reg.cells[s].refs == 1 ==> m.reg.cells[s].token.None?)
  {
    CallsCount(m.work[s].calls, call, Failing);
  }

  lemma UnreserveRegistry(m: System, call: Tid, s: KeyState)
    requires RegistryOk(m) && At(m, s, call, Failing) && Registered(m.reg, m.work[s].key, s)
    ensures var after := UnreserveStep(m, call, s); RegistryOk(after) && WorksOn(m, after, s)
  {}

  lemma UnreserveTokens(m: System, call: Tid, s: KeyState)
    requires RegistryOk(m) && TokensOk(m) && At(m, s, call, Failing)
    requires Registered(m.reg, m.work[s].key, s) && (m.reg.cells[s].refs == 1 ==> m.reg.cells[s].token.None?)
    ensures TokensOk(UnreserveStep(m, call, s))
  {}

  // ---- release

  lemma UnlockKeeps(m: System, key: Key, token: Token)
    requires Inv(m) && m.releasing.None? && Owns(m.reg, key, token)
    ensures var s := m.reg.states[key]; var after := UnlockStep(m, s);
            RegistryOk(after) && TokensOk(after) && WorksOn(m, after, s) && ObjectOk(after, s)
  {
    assert ObjectOk(m, m.reg.states[key]);
  }

  lemma ForgetObject(m: System, s: KeyState)
    requires Inv(m) && m.releasing == Some(s)
    ensures Releasable(m.reg, s) && s in m.work && ObjectOk(ForgetStep(m, s), s)
  {
    assert ObjectOk(m, s);
  }

  lemma ForgetRest(m: System, s: KeyState)
    requires RegistryOk(m) && m.releasing == Some(s) && Releasable(m.reg, s) && s in m.work
    ensures var after := ForgetStep(m, s); RegistryOk(after) && WorksOn(m, after, s)
  {}

  lemma OwnersRegistered(m: System)
    requires Inv(m)
    ensures forall o :: o in m.work && o in m.reg.cells && m.reg.cells[o].token.Some? ==> Registered(m.reg, m.work[o].key, o)
  {
    forall o | o in m.work ensures ObjectOk(m, o) {}
  }

  lemma ForgetTokens(m: System, s: KeyState)
    requires forall o :: o in m.work && o in m.reg.cells && m.reg.cells[o].token.Some? ==> Registered(m.reg, m.work[o].key, o)
    requires RegistryOk(m) && TokensOk(m) && m.releasing == Some(s) && Releasable(m.reg, s) && s in m.work
    ensures TokensOk(ForgetStep(m, s))
  {
    var gone := m.reg.cells[s].token.value;
    assert gone in m.live && m.live[gone] == m.work[s].key;
    forall t | t in m.live && t != gone ensures m.live[t] != m.work[s].key {}
  }

  lemma InvStep(m: System, a: Action)
    requires Inv(m)
    ensures Inv(Step(m, a))
  {
    if Enabled(m, a) {
      var after := Step(m, a);
      match a
      case DoReserve(call, key, created) =>
        ReserveObject(m, call, key, created);
        ReserveRegistry(m, call, key, created);
        ReserveTokens(m, call, key, created);
        InvBy(m, after, after.reg.states[key]);
      case DoLock(call, s) =>
        assert ObjectOk(m, s);
        LockObject(m, call, s);
        LockRest(m, call, s);
        InvBy(m, after, s);
      case GiveUp(call, s) =>
        assert ObjectOk(m, s);
        FailObject(m, call, s);
        FailRest(m, call, s);
        InvBy(m, after, s);
      case DoPublish(call, s, token) =>
        assert ObjectOk(m, s);
        PublishObject(m, call, s, token);
        PublishRegistry(m, call, s, token);
        PublishTokens(m, call, s, token);
        InvBy(m, after, s);
      case DoUnreserve(call, s) =>
        assert ObjectOk(m, s);
        UnreserveObject(m, call, s);
        UnreserveRegistry(m, call, s);
        UnreserveTokens(m, call, s);
        InvBy(m, after, s);
      case DoRelease(key, token) => UnlockKeeps(m, key, token); InvBy(m, after, m.reg.states[key]);
      case DoForget =>
        var s := m.releasing.value;
        ForgetObject(m, s);
        ForgetRest(m, s);
        OwnersRegistered(m);
        ForgetTokens(m, s);
        InvBy(m, after, s);
    }
  }

  lemma {:induction false} InvRun(m: System, actions: seq<Action>)
    requires Inv(m)
    ensures Inv(Run(m, actions))
    decreases |actions|
  {
    if actions != [] {
      InvStep(m, actions[0]);
      InvRun(Step(m, actions[0]), actions[1..]);
    }
  }

  // ---------------------------------------------------------------- every reachable state

  /** At most one unreleased token exists per key. */
  lemma MutualExclusion(actions: seq<Action>, t: Token, u: Token)
    ensures var m := Run(START, actions);
            t in m.live && u in m.live && m.live[t] == m.live[u] ==> t == u
  {
    InvRun(START, actions);
  }

  lemma ReserveAlone(m: System, call: Tid, key: Key, created: KeyState)
    requires m.releasing.None? && key !in m.reg.states && created !in m.reg.cells && created !in m.work
    requires forall s :: s in m.work ==> call !in m.work[s].calls
    ensures Step(m, DoReserve(call, key, created))
              == m.(reg := Registry(m.reg.states[key := created], m.reg.cells[created := Cell(false, None, 1)]),
                    work := m.work[created := Work(key, map[call := Waiting])])
  {}

  lemma LockAlone(m: System, call: Tid, key: Key, s: KeyState)
    requires s in m.reg.cells && s in m.work
    requires m.reg.cells[s] == Cell(false, None, 1) && m.work[s] == Work(key, map[call := Waiting])
    ensures Step(m, DoLock(call, s))
              == m.(reg := m.reg.(cells := m.reg.cells[s := Cell(true, None, 1)]),
                    work := m.work[s := Work(key, map[call := Holding])])
  {
    assert map[call := Waiting][call := Holding] == map[call := Holding];
  }

  lemma PublishAlone(m: System, call: Tid, key: Key, s: KeyState, token: Token)
    requires m.releasing.None? && token !in m.issued && s in m.reg.cells && s in m.work
    requires m.reg.cells[s] == Cell(true, None, 1) && m.work[s] == Work(key, map[call := Holding])
    ensures Step(m, DoPublish(call, s, token))
              == m.(reg := m.reg.(cells := m.reg.cells[s := Cell(true, Some(token), 1)]),
                    work := m.work[s := Work(key, map[])], live := m.live[token := key], issued := m.issued + {token})
  {
    assert map[call := Holding] - {call} == map[];
  }

  /** A call that finds the key unused, and is left alone, gets the lock. */
  lemma AcquireUndisturbed(m: System, call: Tid, key: Key, created: KeyState, token: Token)
    requires m.releasing.None? && key !in m.reg.states && created !in m.reg.cells && created !in m.work
    requires token !in m.issued && forall s :: s in m.work ==> call !in m.work[s].calls
    ensures Step(Step(Step(m, DoReserve(call, key, created)), DoLock(call, created)), DoPublish(call, created, token))
              == m.(reg := Registry(m.reg.states[key := created], m.reg.cells[created := Cell(true, Some(token), 1)]),
                    work := m.work[created := Work(key, map[])],
                    live := m.live[token := key], issued := m.issued + {token})
  {
    ReserveAlone(m, call, key, created);
    var reserved := Step(m, DoReserve(call, key, created));
    LockAlone(reserved, call, key, created);
    var locked := Step(reserved, DoLock(call, created));
    PublishAlone(locked, call, key, created, token);
    var held := Step(locked, DoPublish(call, created, token));
    assert held.reg.cells == m.reg.cells[created := Cell(true, Some(token), 1)];
    assert held.work == m.work[created := Work(key, map[])];
  }

  /** The release of its token by the last participant frees the key and leaves no entry. */
  lemma ReleaseUndisturbed(m: System, key: Key, s: KeyState, token: Token)
    requires m.releasing.None? && key in m.reg.states && m.reg.states[key] == s
    requires s in m.reg.cells && m.reg.cells[s] == Cell(true, Some(token), 1) && s in m.work && m.work[s].key == key
    ensures Step(Step(m, DoRelease(key, token)), DoForget)
              == m.(reg := Registry(m.reg.states - {key}, m.reg.cells[s := Cell(false, None, 0)]), live := m.live - {token})
  {
    var unlocked := Step(m, DoRelease(key, token));
    assert unlocked.reg.cells == m.reg.cells[s := Cell(false, Some(token), 1)];
    var freed := Step(unlocked, DoForget);
    assert freed.reg.cells == m.reg.cells[s := Cell(false, None, 0)];
  }

  /** When a call obtains the lock and publishes its token, no other token of the key is unreleased. */
  lemma PublishingFindsNoOwner(actions: seq<Action>, call: Tid, s: KeyState, token: Token)
    ensures var m := Run(START, actions);
            Enabled(m, DoPublish(call, s, token)) ==> forall t :: t in m.live ==> m.live[t] != m.work[s].key
  {
    InvRun(START, actions);
    var m := Run(START, actions);
    if Enabled(m, DoPublish(call, s, token)) { assert ObjectOk(m, s); }
  }

  /** Every call and every owner of a key works on the one state object the registry maps the key to. */
  lemma OneStatePerKey(actions: seq<Action>, s: KeyState, u: KeyState)
    ensures var m := Run(START, actions);
            (s in m.work && u in m.work && m.work[s].key == m.work[u].key && s in m.reg.cells && u in m.reg.cells
             && m.reg.cells[s].refs > 0 && m.reg.cells[u].refs > 0) ==> s == u
  {
    InvRun(START, actions);
    var m := Run(START, actions);
    if s in m.work && u in m.work { assert ObjectOk(m, s) && ObjectOk(m, u); }
  }

  /** The reference count is exact: calls in flight plus the owner. */
  lemma RefsAreExact(actions: seq<Action>, key: Key)
    ensures var m := Run(START, actions);
            key in m.reg.states ==>
              var s := m.reg.states[key];
              && s in m.reg.cells && s in m.work
              && m.reg.cells[s].refs == |m.work[s].calls| + (if exists t :: t in m.live && m.live[t] == key then 1 else 0)
  {
    InvRun(START, actions);
    var m := Run(START, actions);
    if key in m.reg.states {
      var s := m.reg.states[key];
      assert ObjectOk(m, s);
      if m.reg.cells[s].token.Some? { assert m.reg.cells[s].token.value in m.live; }
    }
  }

  /** A release whose token is not the live one of its key changes nothing at all. */
  lemma StaleReleaseIsNoOp(actions: seq<Action>, key: Key, token: Token)
    ensures var m := Run(START, actions);
            (token !in m.live || m.live[token] != key) ==> Step(m, DoRelease(key, token)) == m
  {
    InvRun(START, actions);
    var m := Run(START, actions);
    if Owns(m.reg, key, token) { assert ObjectOk(m, m.reg.states[key]); }
  }

  /** The registry entry exists exactly while a call is in flight or a token is unreleased under the key. */
  lemma EntryIffParticipants(actions: seq<Action>, key: Key)
    ensures var m := Run(START, actions);
            key in m.reg.states <==>
              (exists s :: s in m.work && m.work[s].key == key && m.work[s].calls != map[])
              || (exists t :: t in m.live && m.live[t] == key)
  {
    InvRun(START, actions);
    var m := Run(START, actions);
    if key in m.reg.states {
      var s := m.reg.states[key];
      assert ObjectOk(m, s);
      if m.reg.cells[s].token.Some? { assert m.reg.cells[s].token.value in m.live; }
    }
    if s :| s in m.work && m.work[s].key == key && m.work[s].calls != map[] {
      assert ObjectOk(m, s);
      assert |m.work[s].calls| > 0;
    }
  }
}
