/**
 Every interleaving of `acquire`, `release`, renewal and `close` on one AzureBlobLeaseThreadLock, section by
 section, and of the lock-free ownership check, read by read.
 */
module LeaseRuns {
  import opened Common
  import opened LeaseLock

  /** A lease obtained from the service, together with the `_LeaseState` made for it. */
  type Lease = nat
  type Pid = nat

  /** Where one call is. `Entered` and `Cleared` are inside the registration section and hold the mutex. */
  datatype Phase =
    | Asking(key: Key)
    | Granted(key: Key, lease: Lease)
    | Entered(key: Key, lease: Lease)
    | Cleared(key: Key, lease: Lease)
    | Surplus(key: Key, lease: Lease)
    | Popped(lease: Lease)
    | SawOpen
    | Closing
    | Draining(remaining: set<Lease>)

  datatype Lock = Lock(
    closed: bool, active: map<Key, Lease>, records: map<Lease, Record>, phase: map<Pid, Phase>, mutex: Option<Pid>,
    obtained: set<Lease>, attempts: map<Lease, nat>, dropped: set<Lease>, drained: bool)

  datatype Action =
    | BeginAcquire(pid: Pid, key: Key)
    | Grant(pid: Pid, lease: Lease, token: Token)
    | Refuse(pid: Pid)
    | Enter(pid: Pid)
    | CheckClosed(pid: Pid)
    | Register(pid: Pid)
    | GiveBack(pid: Pid)
    | BeginRelease(pid: Pid, key: Key, token: Token)
    | EndRelease(pid: Pid)
    | Renewed(key: Key, lease: Lease, outcome: Renewal)
    | BeginClose(pid: Pid)
    | SetClosed(pid: Pid)
    | Drain(pid: Pid)
    | DrainOne(pid: Pid, lease: Lease)

  ghost predicate At(m: Lock, pid: Pid, p: Phase) { pid in m.phase && m.phase[pid] == p }

  ghost predicate Known(m: Lock, lease: Lease) { lease in m.records && lease in m.attempts }

  /** One service release attempt, unless the lease is known to be lost. */
  ghost function Attempt(m: Lock, lease: Lease): Lock
    requires lease in m.attempts
  {
    m.(attempts := m.attempts[lease := m.attempts[lease] + 1])
  }

  ghost function GiveUpLease(m: Lock, lease: Lease): Lock
    requires Known(m, lease)
  {
    if m.records[lease].lost then m.(dropped := m.dropped + {lease}) else Attempt(m, lease)
  }

  ghost function Leases(active: map<Key, Lease>): set<Lease> { set k | k in active :: active[k] }

  ghost function Step(m: Lock, a: Action): Lock {
    match a
    case BeginAcquire(pid, key) =>
      if m.mutex.Some? || pid in m.phase || m.closed || key in m.active then m
      else m.(phase := m.phase[pid := Asking(key)])
    case Refuse(pid) =>
      if pid in m.phase && m.phase[pid].Asking? then m.(phase := m.phase - {pid}) else m
    case Grant(pid, lease, token) =>
      if pid !in m.phase || !m.phase[pid].Asking? || lease in m.obtained || (exists l :: l in m.records && m.records[l].token == token)
      then m
      else m.(phase := m.phase[pid := Granted(m.phase[pid].key, lease)], obtained := m.obtained + {lease},
              records := m.records[lease := Record(token, 0, false)], attempts := m.attempts[lease := 0])
    case Enter(pid) =>
      if m.mutex.Some? || pid !in m.phase || !m.phase[pid].Granted? then m else
        var p := m.phase[pid];
        m.(mutex := Some(pid),
           phase := m.phase[pid := if p.key in m.active then Surplus(p.key, p.lease) else Entered(p.key, p.lease)])
    case CheckClosed(pid) =>
      if pid !in m.phase || !m.phase[pid].Entered? then m else
        var p := m.phase[pid];
        m.(phase := m.phase[pid := if m.closed then Surplus(p.key, p.lease) else Cleared(p.key, p.lease)])
    case Register(pid) =>
      if pid !in m.phase || !m.phase[pid].Cleared? then m else
        var p := m.phase[pid];
        m.(active := m.active[p.key := p.lease], phase := m.phase - {pid}, mutex := None)
    case GiveBack(pid) =>
      if pid !in m.phase || !m.phase[pid].Surplus? || !Known(m, m.phase[pid].lease) then m
      else Attempt(m, m.phase[pid].lease).(phase := m.phase - {pid}, mutex := None)
    case BeginRelease(pid, key, token) =>
      if m.mutex.Some? || pid in m.phase || key !in m.active || m.active[key] !in m.records || m.records[m.active[key]].token != token
      then m
      else m.(active := m.active - {key}, phase := m.phase[pid := Popped(m.active[key])])
    case EndRelease(pid) =>
      if pid !in m.phase || !m.phase[pid].Popped? || !Known(m, m.phase[pid].lease) then m
      else GiveUpLease(m, m.phase[pid].lease).(phase := m.phase - {pid})
    case Renewed(key, lease, outcome) =>
      if m.mutex.Some? || key !in m.active || m.active[key] != lease || lease !in m.records then m
      else m.(records := m.records[lease := AfterRenewal(m.records[lease], outcome)])
    case BeginClose(pid) => if m.closed || pid in m.phase then m else m.(phase := m.phase[pid := SawOpen])
    case SetClosed(pid) => if At(m, pid, SawOpen) then m.(closed := true, phase := m.phase[pid := Closing]) else m
    case Drain(pid) =>
      if m.mutex.Some? || !At(m, pid, Closing) then m
      else m.(active := map[], phase := m.phase[pid := Draining(Leases(m.active))], drained := true)
    case DrainOne(pid, lease) =>
      if pid !in m.phase || !m.phase[pid].Draining? || lease !in m.phase[pid].remaining || !Known(m, lease) then m
      else
        var rest := m.phase[pid].remaining - {lease};
        GiveUpLease(m, lease).(phase := if rest == {} then m.phase - {pid} else m.phase[pid := Draining(rest)])
  }

  ghost function Run(m: Lock, actions: seq<Action>): Lock {
    if actions == [] then m else Step(Run(m, actions[..|actions| - 1]), actions[|actions| - 1])
  }

  ghost const START := Lock(false, map[], map[], map[], None, {}, map[], {}, false)

  /** The leases a call has in its hands. */
  ghost function Hands(p: Phase): set<Lease> {
    match p
    case Granted(_, l) => {l}
    case Entered(_, l) => {l}
    case Cleared(_, l) => {l}
    case Surplus(_, l) => {l}
    case Popped(l) => {l}
    case Draining(s) => s
    case _ => {}
  }

  ghost predicate Tracked(m: Lock, l: Lease) { exists k :: TrackedAt(m, k, l) }
  ghost predicate TrackedAt(m: Lock, k: Key, l: Lease) { k in m.active && m.active[k] == l }
  ghost predicate InHand(m: Lock, l: Lease) { exists pid :: HeldBy(m, pid, l) }
  ghost predicate HeldBy(m: Lock, pid: Pid, l: Lease) { pid in m.phase && l in Hands(m.phase[pid]) }
  ghost predicate Tried(m: Lock, l: Lease) { l in m.attempts && m.attempts[l] == 1 }
  ghost predicate Dropped(m: Lock, l: Lease) { l in m.dropped && l in m.records && m.records[l].lost }

  /** A single place, recorded nowhere in the lock: the invariant says the data always agree with one. */
  datatype Place = Key(key: Key) | Hand(pid: Pid) | GivenBack | Gone

  ghost predicate Agrees(m: Lock, l: Lease, place: Place) {
    && Known(m, l)
    && (forall k :: TrackedAt(m, k, l) <==> place == Place.Key(k))
    && (forall pid :: HeldBy(m, pid, l) <==> place == Hand(pid))
    && m.attempts[l] == (if place.GivenBack? then 1 else 0)
    && (l in m.dropped <==> place.Gone?)
    && (place.Gone? ==> m.records[l].lost)
  }

  ghost predicate LeasesOk(m: Lock) {
    forall l :: l in m.obtained ==> exists place :: Agrees(m, l, place)
  }

  ghost predicate MutexOk(m: Lock) {
    && (forall pid :: pid in m.phase && (m.phase[pid].Entered? || m.phase[pid].Cleared? || m.phase[pid].Surplus?)
                      <==> m.mutex == Some(pid))
    && (forall pid :: pid in m.phase && (m.phase[pid].Entered? || m.phase[pid].Cleared?) ==> m.phase[pid].key !in m.active)
    && (m.drained ==> m.closed && m.active == map[] && forall pid :: pid in m.phase ==> !m.phase[pid].Cleared?)
    && (forall pid :: pid in m.phase && m.phase[pid].Closing? ==> m.closed)
  }

  /** Every lease obtained has one record; tokens are unique. */
  ghost predicate RecordsOk(m: Lock) {
    && m.records.Keys == m.obtained && m.attempts.Keys == m.obtained
    && (forall l, l' :: l in m.records && l' in m.records && m.records[l].token == m.records[l'].token ==> l == l')
  }

  /** Only obtained leases are tracked or in somebody's hands. */
  ghost predicate OnlyObtained(m: Lock) {
    && (forall k :: k in m.active ==> m.active[k] in m.obtained)
    && (forall pid :: pid in m.phase ==> Hands(m.phase[pid]) <= m.obtained)
  }

  ghost predicate Inv(m: Lock) {
    LeasesOk(m) && MutexOk(m) && RecordsOk(m) && OnlyObtained(m) && m.dropped <= m.obtained
  }

  lemma MutexAcquiring(m: Lock, a: Action)
    requires MutexOk(m) && (a.BeginAcquire? || a.Grant? || a.Refuse? || a.Enter? || a.CheckClosed? || a.Register? || a.GiveBack?)
    ensures MutexOk(Step(m, a))
  {}

  lemma MutexEnding(m: Lock, a: Action)
    requires MutexOk(m) && (a.BeginRelease? || a.EndRelease? || a.Renewed?)
    ensures MutexOk(Step(m, a))
  {}

  lemma MutexClosing(m: Lock, a: Action)
    requires MutexOk(m) && (a.BeginClose? || a.SetClosed?)
    ensures MutexOk(Step(m, a))
  {}

  lemma MutexDrain(m: Lock, a: Action)
    requires MutexOk(m) && a.Drain?
    ensures MutexOk(Step(m, a))
  {}

  lemma MutexDrainOne(m: Lock, a: Action)
    requires MutexOk(m) && a.DrainOne?
    ensures MutexOk(Step(m, a))
  {}

  lemma MutexStep(m: Lock, a: Action)
    requires MutexOk(m)
    ensures MutexOk(Step(m, a))
  {
    if a.BeginRelease? || a.EndRelease? || a.Renewed? {
      MutexEnding(m, a);
    } else if a.BeginClose? || a.SetClosed? {
      MutexClosing(m, a);
    } else if a.Drain? {
      MutexDrain(m, a);
    } else if a.DrainOne? {
      MutexDrainOne(m, a);
    } else {
      MutexAcquiring(m, a);
    }
  }

  /** The actions of `acquire`, up to its registration. */
  predicate Acquires(a: Action) { a.BeginAcquire? || a.Grant? || a.Refuse? || a.Enter? || a.CheckClosed? || a.Register? }

  /** The actions that give a lease up. */
  predicate GivesUp(a: Action) { a.GiveBack? || a.EndRelease? || a.DrainOne? }

  /** Which leases were obtained, and their records, stay as they are. */
  ghost predicate SameRecords(m: Lock, after: Lock) {
    && after.records == m.records && after.obtained == m.obtained
    && (m.attempts.Keys == m.obtained ==> after.attempts.Keys == m.obtained)
  }

  lemma AcquireSameRecords(m: Lock, a: Action)
    requires Acquires(a) && !a.Grant?
    ensures SameRecords(m, Step(m, a))
  {}

  lemma AttemptSameRecords(m: Lock, lease: Lease)
    requires Known(m, lease)
    ensures SameRecords(m, Attempt(m, lease)) && SameRecords(m, GiveUpLease(m, lease))
  {}

  lemma GiveUpSameRecords(m: Lock, a: Action)
    requires GivesUp(a)
    ensures SameRecords(m, Step(m, a))
  {
    match a
    case DrainOne(_, lease) => if Known(m, lease) { AttemptSameRecords(m, lease); }
    case GiveBack(pid) =>
      if pid in m.phase && m.phase[pid].Surplus? && Known(m, m.phase[pid].lease) {
        AttemptSameRecords(m, m.phase[pid].lease);
      }
    case EndRelease(pid) =>
      if pid in m.phase && m.phase[pid].Popped? && Known(m, m.phase[pid].lease) {
        AttemptSameRecords(m, m.phase[pid].lease);
      }
  }

  lemma OtherSameRecords(m: Lock, a: Action)
    requires !Acquires(a) && !GivesUp(a) && !a.Renewed?
    ensures SameRecords(m, Step(m, a))
  {}

  lemma RecordsRest(m: Lock, a: Action)
    requires !a.Grant? && !a.Renewed?
    ensures SameRecords(m, Step(m, a))
  {
    if Acquires(a) {
      AcquireSameRecords(m, a);
    } else if GivesUp(a) {
      GiveUpSameRecords(m, a);
    } else {
      OtherSameRecords(m, a);
    }
  }

  lemma RecordsGrant(m: Lock, a: Action)
    requires RecordsOk(m) && a.Grant?
    ensures RecordsOk(Step(m, a))
  {}

  lemma RecordsRenew(m: Lock, a: Action)
    requires RecordsOk(m) && a.Renewed?
    ensures RecordsOk(Step(m, a))
  {}

  lemma RecordsStep(m: Lock, a: Action)
    requires RecordsOk(m)
    ensures RecordsOk(Step(m, a))
  {
    match a
    case Grant(_, _, _) => RecordsGrant(m, a);
    case Renewed(_, _, _) => RecordsRenew(m, a);
    case _ => RecordsRest(m, a);
  }

  lemma OnlyObtainedAcquiring(m: Lock, a: Action)
    requires OnlyObtained(m) && Acquires(a)
    ensures OnlyObtained(Step(m, a))
  {}

  lemma OnlyObtainedGiving(m: Lock, a: Action)
    requires OnlyObtained(m) && (a.GiveBack? || a.EndRelease?)
    ensures OnlyObtained(Step(m, a))
  {}

  lemma OnlyObtainedDraining(m: Lock, a: Action)
    requires OnlyObtained(m) && a.DrainOne?
    ensures OnlyObtained(Step(m, a))
  {}

  lemma OnlyObtainedEnding(m: Lock, a: Action)
    requires OnlyObtained(m) && !Acquires(a) && !GivesUp(a)
    ensures OnlyObtained(Step(m, a))
  {}

  lemma OnlyObtainedStep(m: Lock, a: Action)
    requires OnlyObtained(m)
    ensures OnlyObtained(Step(m, a))
  {
    if Acquires(a) {
      OnlyObtainedAcquiring(m, a);
    } else if a.DrainOne? {
      OnlyObtainedDraining(m, a);
    } else if GivesUp(a) {
      OnlyObtainedGiving(m, a);
    } else {
      OnlyObtainedEnding(m, a);
    }
  }

  /** A lease just granted is in its call's hands and nowhere else. */
  lemma GrantPlaces(m: Lock, a: Action)
    requires OnlyObtained(m) && m.dropped <= m.obtained && a.Grant? && a.lease !in m.obtained && a.lease in Step(m, a).obtained
    ensures Agrees(Step(m, a), a.lease, Hand(a.pid))
  {}

  /** Where a lease goes in one step. */
  ghost function Moved(m: Lock, a: Action, l: Lease, place: Place): Place
    requires l in m.records
  {
    var after := if m.records[l].lost then Gone else GivenBack;
    match a
    case Register(pid) => if place == Hand(pid) && pid in m.phase && m.phase[pid].Cleared? then Place.Key(m.phase[pid].key) else place
    case GiveBack(pid) => if place == Hand(pid) && pid in m.phase && m.phase[pid].Surplus? then GivenBack else place
    case BeginRelease(pid, key, token) =>
      if place == Place.Key(key) && m.mutex.None? && pid !in m.phase && m.records[l].token == token then Hand(pid) else place
    case EndRelease(pid) => if place == Hand(pid) && pid in m.phase && m.phase[pid].Popped? then after else place
    case Drain(pid) => if place.Key? && m.mutex.None? && At(m, pid, Closing) then Hand(pid) else place
    case DrainOne(pid, lease) => if place == Hand(pid) && lease == l && pid in m.phase && m.phase[pid].Draining? then after else place
    case _ => place
  }

  lemma GrantMoves(m: Lock, a: Action, l: Lease, place: Place)
    requires RecordsOk(m) && Agrees(m, l, place) && a.Grant?
    ensures Agrees(Step(m, a), l, place)
  {}

  lemma AcquireMoves(m: Lock, a: Action, l: Lease, place: Place)
    requires Agrees(m, l, place) && (a.BeginAcquire? || a.Refuse? || a.Enter? || a.CheckClosed?)
    ensures Agrees(Step(m, a), l, place)
  {}

  lemma RegisterMoves(m: Lock, a: Action, l: Lease, place: Place)
    requires MutexOk(m) && Agrees(m, l, place) && (a.Register? || a.GiveBack?)
    ensures Agrees(Step(m, a), l, Moved(m, a, l, place))
  {
    if a.pid in m.phase && (m.phase[a.pid].Cleared? || m.phase[a.pid].Surplus?) {
      assert HeldBy(m, a.pid, l) <==> m.phase[a.pid].lease == l;
    }
  }

  /** The releasing call takes its lease out of the map. */
  lemma PopOwn(m: Lock, pid: Pid, key: Key, token: Token, l: Lease)
    requires Agrees(m, l, Place.Key(key)) && m.mutex.None? && pid !in m.phase && m.records[l].token == token
    ensures Agrees(Step(m, BeginRelease(pid, key, token)), l, Hand(pid))
  {
    assert TrackedAt(m, key, l);
    var after := Step(m, BeginRelease(pid, key, token));
    forall k ensures !TrackedAt(after, k, l) { assert TrackedAt(m, k, l) <==> k == key; }
    forall p ensures HeldBy(after, p, l) <==> p == pid { assert !HeldBy(m, p, l); }
  }

  lemma PopOther(m: Lock, pid: Pid, key: Key, token: Token, l: Lease, place: Place)
    requires Agrees(m, l, place) && key in m.active && m.active[key] != l
    ensures Agrees(Step(m, BeginRelease(pid, key, token)), l, place)
  {
    var after := Step(m, BeginRelease(pid, key, token));
    forall k ensures TrackedAt(after, k, l) <==> TrackedAt(m, k, l) {}
    forall p ensures HeldBy(after, p, l) <==> HeldBy(m, p, l) {}
  }

  lemma BeginReleaseMoves(m: Lock, a: Action, l: Lease, place: Place)
    requires Agrees(m, l, place) && a.BeginRelease?
    ensures Agrees(Step(m, a), l, Moved(m, a, l, place))
  {
    if a.key in m.active {
      assert TrackedAt(m, a.key, l) <==> m.active[a.key] == l;
      if m.active[a.key] != l {
        PopOther(m, a.pid, a.key, a.token, l, place);
      } else if m.mutex.None? && a.pid !in m.phase && m.records[l].token == a.token {
        PopOwn(m, a.pid, a.key, a.token, l);
      }
    }
  }

  lemma EndOwnRelease(m: Lock, pid: Pid, l: Lease)
    requires Agrees(m, l, Hand(pid)) && pid in m.phase && m.phase[pid] == Popped(l)
    ensures Agrees(Step(m, EndRelease(pid)), l, if m.records[l].lost then Gone else GivenBack)
  {
    assert HeldBy(m, pid, l);
  }

  lemma EndOtherRelease(m: Lock, pid: Pid, l: Lease, place: Place)
    requires Agrees(m, l, place) && pid in m.phase && m.phase[pid].Popped? && m.phase[pid].lease != l
    ensures Agrees(Step(m, EndRelease(pid)), l, place)
  {
    assert !HeldBy(m, pid, l);
  }

  lemma EndReleaseMoves(m: Lock, a: Action, l: Lease, place: Place)
    requires Agrees(m, l, place) && a.EndRelease?
    ensures Agrees(Step(m, a), l, Moved(m, a, l, place))
  {
    if a.pid in m.phase && m.phase[a.pid].Popped? {
      assert HeldBy(m, a.pid, l) <==> m.phase[a.pid].lease == l;
      if m.phase[a.pid].lease == l {
        EndOwnRelease(m, a.pid, l);
      } else {
        EndOtherRelease(m, a.pid, l, place);
      }
    }
  }

  lemma CloseMoves(m: Lock, a: Action, l: Lease, place: Place)
    requires Agrees(m, l, place) && (a.BeginClose? || a.SetClosed? || a.Renewed?)
    ensures Agrees(Step(m, a), l, place)
  {}

  lemma DrainMoves(m: Lock, a: Action, l: Lease, place: Place)
    requires Agrees(m, l, place) && a.Drain?
    ensures Agrees(Step(m, a), l, Moved(m, a, l, place))
  {
    if m.mutex.None? && At(m, a.pid, Closing) {
      if place.Key? {
        assert TrackedAt(m, place.key, l);
        assert l in Leases(m.active);
      } else if l in Leases(m.active) {
        var k :| k in m.active && m.active[k] == l;
        assert TrackedAt(m, k, l);
        assert false;
      }
    }
  }

  lemma DrainOwn(m: Lock, pid: Pid, l: Lease)
    requires Agrees(m, l, Hand(pid)) && pid in m.phase && m.phase[pid].Draining? && l in m.phase[pid].remaining
    ensures Agrees(Step(m, DrainOne(pid, l)), l, if m.records[l].lost then Gone else GivenBack)
  {
    var after := Step(m, DrainOne(pid, l));
    forall p ensures !HeldBy(after, p, l) {
      assert HeldBy(m, p, l) <==> p == pid;
      assert l !in m.phase[pid].remaining - {l};
    }
  }

  lemma DrainOther(m: Lock, pid: Pid, other: Lease, l: Lease, place: Place)
    requires Agrees(m, l, place) && other != l
    ensures Agrees(Step(m, DrainOne(pid, other)), l, place)
  {
    var after := Step(m, DrainOne(pid, other));
    forall p ensures HeldBy(after, p, l) <==> HeldBy(m, p, l) {
      if p == pid && p in m.phase && m.phase[p].Draining? {
        assert l in m.phase[p].remaining - {other} <==> l in m.phase[p].remaining;
      }
    }
  }

  lemma DrainOneMoves(m: Lock, a: Action, l: Lease, place: Place)
    requires Agrees(m, l, place) && a.DrainOne?
    ensures Agrees(Step(m, a), l, Moved(m, a, l, place))
  {
    if a.lease != l {
      DrainOther(m, a.pid, a.lease, l, place);
    } else if a.pid in m.phase && m.phase[a.pid].Draining? && l in m.phase[a.pid].remaining {
      assert HeldBy(m, a.pid, l);
      DrainOwn(m, a.pid, l);
    } else {
      assert a.pid in m.phase && m.phase[a.pid].Draining? ==> !HeldBy(m, a.pid, l);
    }
  }

  /** Where the lease is after any action. */
  lemma PlaceStep(m: Lock, a: Action, l: Lease, place: Place) returns (next: Place)
    requires MutexOk(m) && RecordsOk(m) && Agrees(m, l, place)
    ensures Agrees(Step(m, a), l, next)
  {
    next := place;
    match a {
      case Grant(_, _, _) => GrantMoves(m, a, l, place);
      case Register(_) => next := Moved(m, a, l, place); RegisterMoves(m, a, l, place);
      case GiveBack(_) => next := Moved(m, a, l, place); RegisterMoves(m, a, l, place);
      case BeginRelease(_, _, _) => next := Moved(m, a, l, place); BeginReleaseMoves(m, a, l, place);
      case EndRelease(_) => next := Moved(m, a, l, place); EndReleaseMoves(m, a, l, place);
      case Drain(_) => next := Moved(m, a, l, place); DrainMoves(m, a, l, place);
      case DrainOne(_, _) => next := Moved(m, a, l, place); DrainOneMoves(m, a, l, place);
      case BeginClose(_) => CloseMoves(m, a, l, place);
      case SetClosed(_) => CloseMoves(m, a, l, place);
      case Renewed(_, _, _) => CloseMoves(m, a, l, place);
      case _ => AcquireMoves(m, a, l, place);
    }
  }

  lemma DroppedStep(m: Lock, a: Action)
    requires m.dropped <= m.obtained && m.records.Keys == m.obtained
    ensures Step(m, a).dropped <= Step(m, a).obtained
  {}

  lemma ObtainedByGrant(m: Lock, a: Action, l: Lease)
    requires m.records.Keys == m.obtained && l in Step(m, a).obtained && l !in m.obtained
    ensures a.Grant? && a.lease == l
  {
    if !a.Grant? && !a.Renewed? { RecordsRest(m, a); }
  }

  lemma SomePlace(m: Lock, a: Action, l: Lease)
    requires Inv(m) && l in Step(m, a).obtained
    ensures exists place :: Agrees(Step(m, a), l, place)
  {
    if l in m.obtained {
      var place :| Agrees(m, l, place);
      var next := PlaceStep(m, a, l, place);
    } else {
      ObtainedByGrant(m, a, l);
      GrantPlaces(m, a);
    }
  }

  lemma LeasesStep(m: Lock, a: Action)
    requires Inv(m)
    ensures LeasesOk(Step(m, a))
  {
    forall l | l in Step(m, a).obtained ensures exists place :: Agrees(Step(m, a), l, place) { SomePlace(m, a, l); }
  }

  lemma {:induction false} InvRun(actions: seq<Action>)
    ensures Inv(Run(START, actions))
  {
    if actions != [] {
      var m, a := Run(START, actions[..|actions| - 1]), actions[|actions| - 1];
      InvRun(actions[..|actions| - 1]);
      MutexStep(m, a);
      RecordsStep(m, a);
      OnlyObtainedStep(m, a);
      DroppedStep(m, a);
      LeasesStep(m, a);
    }
  }

  // ---------------------------------------------------------------- conservation

  /**
   In every reachable state each lease ever obtained is in exactly one place: tracked under exactly one key,
   in the hands of exactly one call that is registering or giving it up, given exactly one release attempt,
   or dropped because it was known to be lost.
   */
  lemma {:induction false} LeasesAreConserved(actions: seq<Action>, l: Lease)
    ensures var m := Run(START, actions);
            l in m.obtained ==>
              && (Tracked(m, l) || InHand(m, l) || Tried(m, l) || Dropped(m, l))
              && !(Tracked(m, l) && InHand(m, l)) && !(Tracked(m, l) && Tried(m, l)) && !(InHand(m, l) && Tried(m, l))
              && (l in m.dropped ==> !Tracked(m, l) && !InHand(m, l) && !Tried(m, l))
              && (forall k, k' :: TrackedAt(m, k, l) && TrackedAt(m, k', l) ==> k == k')
              && (forall p, p' :: HeldBy(m, p, l) && HeldBy(m, p', l) ==> p == p')
              && l in m.attempts && m.attempts[l] <= 1
  {
    InvRun(actions);
    var m := Run(START, actions);
    if l in m.obtained {
      var place :| Agrees(m, l, place);
      if place.Key? { assert TrackedAt(m, place.key, l); }
      if place.Hand? { assert HeldBy(m, place.pid, l); }
    }
  }

  /** Registering never replaces an entry, so a key whose lease is lost but unreleased is not reacquired. */
  lemma RegistrationFindsKeyFree(actions: seq<Action>, pid: Pid, key: Key)
    ensures var m := Run(START, actions);
            Step(m, Register(pid)) != m && pid in m.phase && m.phase[pid].Cleared? && m.phase[pid].key == key ==> key !in m.active
  {
    InvRun(actions);
  }

  lemma EntryLeaves(m: Lock, a: Action, key: Key)
    requires key in m.active && !(key in Step(m, a).active && Step(m, a).active[key] == m.active[key])
    requires MutexOk(m)
    ensures a.Drain? || (a.BeginRelease? && a.key == key && m.active[key] in m.records && m.records[m.active[key]].token == a.token)
  {}

  /** A tracked entry leaves the map only by the release of its own token or by close. */
  lemma EntryLeavesOnlyByOwner(actions: seq<Action>, a: Action, key: Key)
    ensures var m := Run(START, actions); var after := Step(m, a);
            key in m.active && !(key in after.active && after.active[key] == m.active[key]) ==>
              a.Drain? || (a.BeginRelease? && a.key == key && m.active[key] in m.records && m.records[m.active[key]].token == a.token)
  {
    InvRun(actions);
    var m := Run(START, actions);
    if key in m.active && !(key in Step(m, a).active && Step(m, a).active[key] == m.active[key]) { EntryLeaves(m, a, key); }
  }

  /** Once close has cleared the map, nothing is ever registered again. */
  lemma NothingAfterDrain(actions: seq<Action>)
    ensures Run(START, actions).drained ==> Run(START, actions).active == map[]
  {
    InvRun(actions);
  }

  // ---------------------------------------------------------------- the sections of one call, undisturbed

  /** An acquisition that nobody disturbs registers its lease exactly if the lock is open and the key is free. */
  lemma AcquireUndisturbed(m: Lock, pid: Pid, key: Key, lease: Lease, token: Token)
    requires m.mutex.None? && pid !in m.phase && !m.closed && key !in m.active
    requires lease !in m.obtained && lease !in m.attempts && forall l :: l in m.records ==> m.records[l].token != token
    ensures var asked := Step(Step(m, BeginAcquire(pid, key)), Grant(pid, lease, token));
            Step(Step(Step(asked, Enter(pid)), CheckClosed(pid)), Register(pid))
              == m.(active := m.active[key := lease], obtained := m.obtained + {lease},
                    records := m.records[lease := Record(token, 0, false)], attempts := m.attempts[lease := 0])
  {
    var asked := Step(m, BeginAcquire(pid, key));
    assert asked.phase - {pid} == m.phase;
    var granted := Step(asked, Grant(pid, lease, token));
    var entered := Step(granted, Enter(pid));
    var cleared := Step(entered, CheckClosed(pid));
    assert cleared.phase - {pid} == m.phase;
  }

  /** A lease granted under a key that is taken, or to a lock closed meanwhile, is given back by one attempt. */
  lemma SurplusUndisturbed(m: Lock, pid: Pid, key: Key, lease: Lease)
    requires m.mutex.None? && pid in m.phase && m.phase[pid] == Granted(key, lease) && lease in m.records && lease in m.attempts
    requires key in m.active || m.closed
    ensures var entered := Step(m, Enter(pid));
            Step(if key in m.active then entered else Step(entered, CheckClosed(pid)), GiveBack(pid))
              == m.(attempts := m.attempts[lease := m.attempts[lease] + 1], phase := m.phase - {pid})
  {
    var entered := Step(m, Enter(pid));
    var surplus := if key in m.active then entered else Step(entered, CheckClosed(pid));
    assert surplus.phase - {pid} == m.phase - {pid};
  }

  /** The owner's release removes its entry and gives the lease back once, unless it is lost. */
  lemma ReleaseUndisturbed(m: Lock, pid: Pid, key: Key, token: Token)
    requires m.mutex.None? && pid !in m.phase && key in m.active
    requires m.active[key] in m.records && m.active[key] in m.attempts && m.records[m.active[key]].token == token
    ensures var lease := m.active[key]; var after := Step(Step(m, BeginRelease(pid, key, token)), EndRelease(pid));
            && after.active == m.active - {key} && after.records == m.records && after.phase == m.phase
            && (if m.records[lease].lost then after.dropped == m.dropped + {lease} && after.attempts == m.attempts
                else after.dropped == m.dropped && after.attempts == m.attempts[lease := m.attempts[lease] + 1])
  {
    var begun := Step(m, BeginRelease(pid, key, token));
    assert begun.phase - {pid} == m.phase;
  }

  /** A close takes every entry away at once, and an outcome of a renewal touches the record of its own lease only. */
  lemma CloseUndisturbed(m: Lock, pid: Pid)
    requires m.mutex.None? && pid !in m.phase && !m.closed
    ensures var after := Step(Step(Step(m, BeginClose(pid)), SetClosed(pid)), Drain(pid));
            && after.closed && after.active == map[] && after.records == m.records && after.attempts == m.attempts
            && pid in after.phase && after.phase[pid].Draining?
            && forall l :: l in after.phase[pid].remaining <==> exists k :: k in m.active && m.active[k] == l
  {}

  lemma RenewalUndisturbed(m: Lock, key: Key, outcome: Renewal)
    requires m.mutex.None? && key in m.active && m.active[key] in m.records
    ensures Step(m, Renewed(key, m.active[key], outcome))
              == m.(records := m.records[m.active[key] := AfterRenewal(m.records[m.active[key]], outcome)])
  {}
}
