/**
 Cancellation-safe use of a synchronous lock from coroutines.

 A worker thread cannot be interrupted, so a caller that is cancelled keeps awaiting it. First each coroutine is
 run against any schedule of cancellations around its worker; then any number of callers share one lock.
 */
module AsyncOwnership {
  import opened Common

  /** How a worker thread ends. `Fatal` is an exception outside `Exception`. */
  datatype Outcome = Value(value: Option<nat>) | Error | Fatal

  /**
   What happens around a coroutine suspended in `await asyncio.shield(task)`: a cancellation raised at the await, a
   cancellation that only the task's `cancelling()` count shows, the worker's end, the await giving its result.
   */
  datatype Wake = Interrupt | Request | Finish(outcome: Outcome) | Resume

  datatype Why = Cancelled | WorkerError | WorkerFatal

  /** How a call stands once its schedule is used up. */
  datatype End = Suspended | Returned(value: Option<nat>) | Raised(why: Why)

  predicate Cancels(wake: Wake) { wake.Interrupt? || wake.Request? }

  predicate Wakes(wake: Wake) { wake.Interrupt? || wake.Resume? }

  predicate CancelIn(schedule: seq<Wake>) {
    exists i :: 0 <= i < |schedule| && Cancels(schedule[i])
  }

  /** The worker ends at `f`, and `r` is the first time the caller runs after that. */
  ghost predicate Concludes(schedule: seq<Wake>, f: nat, r: nat) {
    && f < r < |schedule|
    && schedule[f].Finish? && (forall i :: 0 <= i < f ==> !schedule[i].Finish?)
    && Wakes(schedule[r]) && (forall i :: f < i < r ==> !Wakes(schedule[i]))
  }

  lemma ConcludesMeans(schedule: seq<Wake>, f: nat, r: nat)
    ensures Concludes(schedule, f, r) <==>
              && f < r < |schedule| && schedule[f].Finish? && (forall i :: 0 <= i < f ==> !schedule[i].Finish?)
              && schedule[r] in {Interrupt, Resume} && forall i :: f < i < r ==> schedule[i] !in {Interrupt, Resume}
  {}

  lemma ConcludesOnce(schedule: seq<Wake>, f: nat, r: nat, g: nat, q: nat)
    requires Concludes(schedule, f, r) && Concludes(schedule, g, q)
    ensures f == g && r == q
  {}

  /** What the caller knows when its loop is over. `last` is the event that woke it. */
  datatype Woken = Asleep | Awake(outcome: Outcome, delivered: bool, requested: bool, last: Wake)

  ghost function WokenAt(schedule: seq<Wake>, f: nat, r: nat): Woken
    requires Concludes(schedule, f, r)
  {
    Awake(schedule[f].outcome, Interrupt in schedule[..r + 1], Request in schedule[..r + 1], schedule[r])
  }

  ghost function Woke(schedule: seq<Wake>): Woken {
    if exists f: nat, r: nat :: Concludes(schedule, f, r) then
      var f: nat, r: nat :| Concludes(schedule, f, r);
      WokenAt(schedule, f, r)
    else Asleep
  }

  lemma WokeAt(schedule: seq<Wake>, f: nat, r: nat)
    requires Concludes(schedule, f, r)
    ensures Woke(schedule) == WokenAt(schedule, f, r)
  {
    var g: nat, q: nat :| Concludes(schedule, g, q) && Woke(schedule) == WokenAt(schedule, g, q);
    ConcludesOnce(schedule, f, r, g, q);
  }

  /** The loop `while not task.done()` of every function here; what each does on waking is below. */
  method AwaitShielded(schedule: seq<Wake>) returns (woken: Woken)
    ensures woken == Woke(schedule)
  {
    var task: Option<Outcome> := None;
    var delivered, requested, running := false, false, true;
    var at := 0;
    ghost var f: nat := 0;
    while !(task.Some? && running) && at < |schedule|
      invariant at <= |schedule|
      invariant delivered <==> Interrupt in schedule[..at]
      invariant requested <==> Request in schedule[..at]
      invariant task.None? ==> forall i :: 0 <= i < at ==> !schedule[i].Finish?
      invariant task.Some? ==> f < at && schedule[f] == Finish(task.value) && forall i :: 0 <= i < f ==> !schedule[i].Finish?
      invariant task.Some? && !running ==> forall i :: f < i < at ==> !Wakes(schedule[i])
      invariant task.Some? && running ==> Concludes(schedule, f, at - 1)
    {
      assert schedule[..at + 1] == schedule[..at] + [schedule[at]];
      match schedule[at] {
        case Interrupt =>
          delivered := true;
          running := true;
        case Request =>
          requested := true;
          running := false;
        case Finish(outcome) =>
          if task.None? {
            task := Some(outcome);
            f := at;
          }
          running := false;
        case Resume =>
          running := task.Some?;
      }
      at := at + 1;
    }
    if task.Some? && running {
      WokeAt(schedule, f, at - 1);
      return Awake(task.value, delivered, requested, schedule[at - 1]);
    }
    return Asleep;
  }

  // ---------------------------------------------------------------- what each function does on waking

  function AfterWork(cancelled: bool, outcome: Outcome): End {
    if outcome.Fatal? then Raised(WorkerFatal)
    else if cancelled then Raised(Cancelled)
    else if outcome.Error? then Raised(WorkerError)
    else Returned(outcome.value)
  }

  /** `release_thread_lock` inside a call that would otherwise end as `after`. */
  function AfterRelease(after: End, cancelled: bool, outcome: Outcome): End {
    match outcome
    case Fatal => Raised(WorkerFatal)
    case Error => Raised(WorkerError)
    case Value(_) => if cancelled then Raised(Cancelled) else after
  }

  /** Both ways a cancellation shows count. */
  function CancelSeen(woken: Woken): bool
    requires woken.Awake?
  {
    woken.delivered || woken.requested
  }

  /** A token got by a cancelled caller is released before the cancellation is raised. */
  function AcquireEnd(acquiring: Woken, releasing: Woken): End {
    if acquiring.Asleep? then Suspended
    else if CancelSeen(acquiring) && acquiring.outcome.Value? && acquiring.outcome.value.Some? then
      if releasing.Asleep? then Suspended else AfterRelease(Raised(Cancelled), CancelSeen(releasing), releasing.outcome)
    else AfterWork(CancelSeen(acquiring), acquiring.outcome)
  }

  function WorkEnd(woken: Woken): End {
    if woken.Asleep? then Suspended else AfterWork(CancelSeen(woken), woken.outcome)
  }

  /** Workers one after another, up to the first that does not return normally. */
  ghost function BodyEnd(workers: seq<seq<Wake>>): End {
    if workers == [] then Returned(None)
    else
      var front := BodyEnd(workers[..|workers| - 1]);
      if front.Returned? then WorkEnd(Woke(workers[|workers| - 1])) else front
  }

  lemma {:induction false} BodyStops(workers: seq<seq<Wake>>, n: nat)
    requires n <= |workers| && !BodyEnd(workers[..n]).Returned?
    ensures BodyEnd(workers) == BodyEnd(workers[..n])
  {
    if n < |workers| {
      var front := workers[..|workers| - 1];
      assert front[..n] == workers[..n];
      BodyStops(front, n);
    } else {
      assert workers[..n] == workers;
    }
  }

  /** The call ends with its worker: fatally if that does, else by any cancellation up to then, else as the worker. */
  lemma WorkEndsAs(schedule: seq<Wake>, f: nat, r: nat)
    requires Concludes(schedule, f, r)
    ensures WorkEnd(Woke(schedule)) ==
              match schedule[f].outcome
              case Fatal => Raised(WorkerFatal)
              case Error => Raised(if Interrupt in schedule[..r + 1] || Request in schedule[..r + 1] then Cancelled else WorkerError)
              case Value(v) => if Interrupt in schedule[..r + 1] || Request in schedule[..r + 1] then Raised(Cancelled) else Returned(v)
  {
    WokeAt(schedule, f, r);
  }

  lemma AsleepWithoutEnd(schedule: seq<Wake>)
    ensures Woke(schedule).Asleep? <==> forall f: nat, r: nat :: !Concludes(schedule, f, r)
  {
    if f: nat, r: nat :| Concludes(schedule, f, r) { WokeAt(schedule, f, r); }
  }

  /** `run_sync_retaining_ownership`. */
  method RunSyncRetainingOwnership(schedule: seq<Wake>) returns (end: End)
    ensures end == WorkEnd(Woke(schedule))
    ensures end == Suspended <==> forall f: nat, r: nat :: !Concludes(schedule, f, r)
    ensures forall f: nat, r: nat :: Concludes(schedule, f, r) ==>
              end == match schedule[f].outcome
                     case Fatal => Raised(WorkerFatal)
                     case Error => Raised(if Interrupt in schedule[..r + 1] || Request in schedule[..r + 1] then Cancelled else WorkerError)
                     case Value(v) => if Interrupt in schedule[..r + 1] || Request in schedule[..r + 1] then Raised(Cancelled) else Returned(v)
  {
    AsleepWithoutEnd(schedule);
    forall f: nat, r: nat | Concludes(schedule, f, r) ensures WorkEnd(Woke(schedule)) != Suspended { WorkEndsAs(schedule, f, r); }
    var woken := AwaitShielded(schedule);
    match woken {
      case Asleep => return Suspended;
      case Awake(outcome, delivered, requested, _) =>
        var cancellation := delivered;
        if !cancellation && requested {
          cancellation := true;
        }
        match outcome {
          case Fatal => return Raised(WorkerFatal);
          case Error =>
            if cancellation { return Raised(Cancelled); }
            return Raised(WorkerError);
          case Value(value) =>
            if cancellation { return Raised(Cancelled); }
            return Returned(value);
        }
    }
  }

  /** The call ends only after its worker, and any cancellation up to then is raised, at whichever moment it came. */
  lemma CancellationWaitsForWorker(schedule: seq<Wake>, f: nat, r: nat)
    requires Concludes(schedule, f, r)
    ensures Woke(schedule).Awake? && Woke(schedule).outcome == schedule[f].outcome
    ensures CancelSeen(Woke(schedule)) <==> CancelIn(schedule[..r + 1])
    ensures (exists i :: 0 <= i <= r && schedule[i] in {Interrupt, Request}) && !schedule[f].outcome.Fatal? ==>
              WorkEnd(Woke(schedule)) == Raised(Cancelled)
  {
    WokeAt(schedule, f, r);
    if i :| 0 <= i <= r && schedule[i] in {Interrupt, Request} { assert schedule[..r + 1][i] == schedule[i]; }
    var seen := schedule[..r + 1];
    if Interrupt in seen {
      var i :| 0 <= i < |seen| && seen[i] == Interrupt;
      assert Cancels(seen[i]);
    }
    if Request in seen {
      var i :| 0 <= i < |seen| && seen[i] == Request;
      assert Cancels(seen[i]);
    }
  }

  // ---------------------------------------------------------------- one caller

  /** What happens to the lock and under it, in order. */
  datatype Act = Acquired(token: nat) | Started(token: nat) | Finished(token: nat) | Released(token: nat, outcome: Outcome)

  /** The protected work of one call: complete workers, then perhaps one that is still running. */
  ghost predicate Bracket(acts: seq<Act>, token: nat) {
    if acts == [] then true
    else if |acts| == 1 then acts[0] == Started(token)
    else acts[0] == Started(token) && acts[1] == Finished(token) && Bracket(acts[2..], token)
  }

  lemma {:induction false} BracketGrows(acts: seq<Act>, token: nat)
    requires Bracket(acts, token) && |acts| % 2 == 0
    ensures Bracket(acts + [Started(token)], token) && Bracket(acts + [Started(token), Finished(token)], token)
  {
    if acts == [] {
      assert [Started(token), Finished(token)][2..] == [];
    } else {
      BracketGrows(acts[2..], token);
      assert (acts + [Started(token)])[2..] == acts[2..] + [Started(token)];
      assert (acts + [Started(token), Finished(token)])[2..] == acts[2..] + [Started(token), Finished(token)];
    }
  }

  /**
   What one call has done to the lock, given how it stands. A token is handed over, or has had exactly one release
   attempt, which came after every worker had finished; only a suspended call can be in between.
   */
  ghost predicate Settled(acts: seq<Act>, end: End) {
    || acts == []
    || exists token: nat, work: seq<Act> ::
         Bracket(work, token)
         && if end.Suspended? then acts == [Acquired(token)] + work
            else |work| % 2 == 0 && exists outcome :: acts == [Acquired(token)] + work + [Released(token, outcome)]
  }

  /** How `async with async_thread_lock(...)` around the workers ends: an error of the release wins over the body's. */
  ghost function LockedEnd(acquiring: Woken, workers: seq<seq<Wake>>, releasing: Woken): End {
    var acquired := AcquireEnd(acquiring, releasing);
    if !acquired.Returned? || acquired.value.None? then acquired
    else if BodyEnd(workers).Suspended? || releasing.Asleep? then Suspended
    else AfterRelease(BodyEnd(workers), CancelSeen(releasing), releasing.outcome)
  }

  /** A token that a cancelled caller got is given back before the cancellation is raised; a failing release wins. */
  lemma AcquireEndsAs(acquiring: seq<Wake>, f: nat, r: nat, releasing: seq<Wake>, g: nat, q: nat)
    requires Concludes(acquiring, f, r) && Concludes(releasing, g, q)
    ensures var cancelled := Interrupt in acquiring[..r + 1] || Request in acquiring[..r + 1];
            AcquireEnd(Woke(acquiring), Woke(releasing)) ==
              match acquiring[f].outcome
              case Fatal => Raised(WorkerFatal)
              case Error => Raised(if cancelled then Cancelled else WorkerError)
              case Value(token) =>
                if !cancelled then Returned(token)
                else if token.None? || releasing[g].outcome.Value? then Raised(Cancelled)
                else if releasing[g].outcome.Fatal? then Raised(WorkerFatal) else Raised(WorkerError)
  {
    WokeAt(acquiring, f, r);
    WokeAt(releasing, g, q);
  }

  /** A failing release wins over how the body ended, and so does a cancellation while it runs. */
  lemma ReleaseEndsAs(after: End, releasing: seq<Wake>, g: nat, q: nat)
    requires Concludes(releasing, g, q)
    ensures AfterRelease(after, CancelSeen(Woke(releasing)), Woke(releasing).outcome) ==
              match releasing[g].outcome
              case Fatal => Raised(WorkerFatal)
              case Error => Raised(WorkerError)
              case Value(_) => if Interrupt in releasing[..q + 1] || Request in releasing[..q + 1] then Raised(Cancelled) else after
  {
    WokeAt(releasing, g, q);
  }

  lemma {:induction false} BodyEndsAs(workers: seq<seq<Wake>>, n: nat)
    requires n <= |workers| && forall i :: 0 <= i < n ==> WorkEnd(Woke(workers[i])).Returned?
    ensures BodyEnd(workers[..n]) == if n == 0 then Returned(None) else WorkEnd(Woke(workers[n - 1]))
  {
    if n > 0 {
      BodyEndsAs(workers, n - 1);
      assert workers[..n][..n - 1] == workers[..n - 1];
    }
  }

  /**
   The whole `async with`, for a caller that got a token: as its body, the first worker that does not return normally or
   else the last, unless the release says otherwise.
   */
  lemma LockedEndsAs(acquiring: seq<Wake>, f: nat, r: nat, workers: seq<seq<Wake>>, n: nat, releasing: seq<Wake>, g: nat, q: nat)
    requires Concludes(acquiring, f, r) && Concludes(releasing, g, q)
    requires acquiring[f].outcome.Value? && acquiring[f].outcome.value.Some?
    requires Interrupt !in acquiring[..r + 1] && Request !in acquiring[..r + 1]
    requires n <= |workers| && forall i :: 0 <= i < n ==> WorkEnd(Woke(workers[i])).Returned?
    requires n < |workers| ==> WorkEnd(Woke(workers[n])).Raised?
    ensures LockedEnd(Woke(acquiring), workers, Woke(releasing)) ==
              match releasing[g].outcome
              case Fatal => Raised(WorkerFatal)
              case Error => Raised(WorkerError)
              case Value(_) =>
                if Interrupt in releasing[..q + 1] || Request in releasing[..q + 1] then Raised(Cancelled)
                else if n < |workers| then WorkEnd(Woke(workers[n]))
                else if n == 0 then Returned(None)
                else WorkEnd(Woke(workers[n - 1]))
  {
    AcquireEndsAs(acquiring, f, r, releasing, g, q);
    BodyEndsAs(workers, n);
    if n < |workers| {
      assert workers[..n + 1][..n] == workers[..n];
      BodyStops(workers, n + 1);
    } else {
      assert workers[..n] == workers;
    }
    ReleaseEndsAs(BodyEnd(workers), releasing, g, q);
    WokeAt(releasing, g, q);
  }

  class Holder {
    var acts: seq<Act>

    constructor ()
      ensures acts == []
    {
      acts := [];
    }

    /** `release_thread_lock`; the worker's `release` is the attempt, whether or not the caller still waits. */
    method ReleaseThreadLock(token: nat, schedule: seq<Wake>) returns (end: End)
      modifies this
      ensures Woke(schedule).Asleep? ==> end == Suspended && acts == old(acts)
      ensures Woke(schedule).Awake? ==>
                && end == AfterRelease(Returned(None), CancelSeen(Woke(schedule)), Woke(schedule).outcome)
                && acts == old(acts) + [Released(token, Woke(schedule).outcome)]
    {
      var woken := AwaitShielded(schedule);
      match woken {
        case Asleep => return Suspended;
        case Awake(outcome, delivered, requested, _) =>
          acts := acts + [Released(token, outcome)];
          if outcome.Error? {
            return Raised(WorkerError);
          } else if outcome.Fatal? {
            return Raised(WorkerFatal);
          } else if delivered || requested {
            return Raised(Cancelled);
          }
          return Returned(None);
      }
    }

    /** `acquire_thread_lock`: `acquiring` surrounds the lock's `acquire`, `releasing` the release of an unwanted token. */
    method AcquireThreadLock(acquiring: seq<Wake>, releasing: seq<Wake>) returns (end: End)
      modifies this
      ensures end == AcquireEnd(Woke(acquiring), Woke(releasing))
      ensures end.Returned? ==> acts == old(acts) + if end.value.Some? then [Acquired(end.value.value)] else []
      ensures !end.Returned? ==> old(acts) <= acts && Settled(acts[|old(acts)|..], end)
    {
      var woken := AwaitShielded(acquiring);
      if woken.Asleep? {
        return Suspended;
      }
      var cancellation := woken.delivered || woken.requested;
      if woken.outcome.Fatal? {
        return Raised(WorkerFatal);
      } else if woken.outcome.Error? {
        return Raised(if cancellation then Cancelled else WorkerError);
      }
      var token := woken.outcome.value;
      if token.Some? {
        acts := acts + [Acquired(token.value)];
      }
      if cancellation {
        if token.Some? {
          assert Bracket([], token.value);
          var released := ReleaseThreadLock(token.value, releasing);
          if released.Suspended? {
            assert acts[|old(acts)|..] == [Acquired(token.value)] + [];
            return Suspended;
          }
          assert acts[|old(acts)|..] == [Acquired(token.value)] + [] + [Released(token.value, Woke(releasing).outcome)];
          if released.Raised? && released.why != Cancelled {
            return released;
          }
        }
        return Raised(Cancelled);
      }
      return Returned(token);
    }

    /** The body of an `async with`: workers run one after another until one does not return normally. */
    method RunWorkers(token: nat, workers: seq<seq<Wake>>) returns (end: End)
      modifies this
      ensures old(acts) <= acts && Bracket(acts[|old(acts)|..], token)
      ensures end.Suspended? || (|acts| - |old(acts)|) % 2 == 0
      ensures end == BodyEnd(workers)
    {
      end := Returned(None);
      var i := 0;
      while i < |workers| && end.Returned?
        invariant old(acts) <= acts && Bracket(acts[|old(acts)|..], token)
        invariant end.Suspended? || (|acts| - |old(acts)|) % 2 == 0
        invariant i <= |workers| && end == BodyEnd(workers[..i])
        decreases |workers| - i
      {
        ghost var work := acts[|old(acts)|..];
        assert workers[..i + 1][..i] == workers[..i];
        BracketGrows(work, token);
        acts := acts + [Started(token)];
        assert acts[|old(acts)|..] == work + [Started(token)];
        end := RunSyncRetainingOwnership(workers[i]);
        if !end.Suspended? {
          acts := acts + [Finished(token)];
          assert acts[|old(acts)|..] == work + [Started(token), Finished(token)];
        }
        i := i + 1;
      }
      if end.Returned? {
        assert workers[..i] == workers;
      } else {
        BodyStops(workers, i);
      }
    }

    /** `async_thread_lock` around such a body. Without a thread id there is no lock for a body to be run under. */
    method AsyncThreadLock(threadId: Option<string>, acquiring: seq<Wake>, workers: seq<seq<Wake>>, releasing: seq<Wake>)
      returns (end: End)
      modifies this
      ensures old(acts) <= acts && Settled(acts[|old(acts)|..], end)
      ensures threadId.None? ==> acts == old(acts) && end == Returned(None)
      ensures threadId.Some? ==> end == LockedEnd(Woke(acquiring), workers, Woke(releasing))
    {
      if threadId.None? {
        return Returned(None);
      }
      var acquired := AcquireThreadLock(acquiring, releasing);
      if !acquired.Returned? || acquired.value.None? {
        return acquired;
      }
      var token := acquired.value.value;
      ghost var start := acts;
      var body := RunWorkers(token, workers);
      ghost var work := acts[|start|..];
      ghost var done := acts;
      assert acts[|old(acts)|..] == [Acquired(token)] + work;
      if body.Suspended? {
        return Suspended;
      }
      var released := ReleaseThreadLock(token, releasing);
      if released.Suspended? {
        return Suspended;
      }
      assert acts[|old(acts)|..] == [Acquired(token)] + work + [Released(token, Woke(releasing).outcome)];
      return if released.Raised? then released else body;
    }
  }

  // ---------------------------------------------------------------- any number of callers on one lock

  datatype Task = Acquire | Work(token: nat) | Release(token: nat, after: End)

  /** `Awaiting`: in the loop above, `done` once the worker has ended. `Inside`: the body, with the token. */
  datatype Caller = Awaiting(task: Task, cancelled: bool, done: Option<Outcome>) | Inside(token: nat) | Ended(end: End)

  /** `issuer` says who got each token the lock ever gave, `attempts` how often its release was started. */
  datatype World = World(owner: Option<nat>, callers: map<nat, Caller>, issuer: map<nat, nat>, attempts: map<nat, nat>)

  const EMPTY := World(None, map[], map[], map[])

  datatype Action =
    | Begin
    | Cancel
    | WorkerEnds(outcome: Outcome, freed: bool)
    | Proceed
    | StartWork
    | Leave(how: End)

  function Put(w: World, id: nat, caller: Caller): World { w.(callers := w.callers[id := caller]) }

  function StartRelease(w: World, id: nat, token: nat, after: End): World {
    Put(w, id, Awaiting(Release(token, after), false, None))
      .(attempts := w.attempts[token := (if token in w.attempts then w.attempts[token] else 0) + 1])
  }

  /** The caller runs on after its worker has ended. */
  function Proceeded(w: World, id: nat, task: Task, cancelled: bool, outcome: Outcome): World {
    match task
    case Acquire =>
      if cancelled && outcome.Value? && outcome.value.Some?
      then StartRelease(w, id, outcome.value.value, Raised(Cancelled))
      else if AfterWork(cancelled, outcome).Returned? && outcome.value.Some?
      then Put(w, id, Inside(outcome.value.value))
      else Put(w, id, Ended(AfterWork(cancelled, outcome)))
    case Work(token) => Put(w, id, Inside(token))
    case Release(token, after) => Put(w, id, Ended(AfterRelease(after, cancelled, outcome)))
  }

  /** What the lock lets a worker do: a granted token is new, a release that returns has freed the lock. */
  predicate WorkerMay(w: World, task: Task, outcome: Outcome, freed: bool) {
    match task
    case Acquire => outcome.Value? && outcome.value.Some? ==> w.owner.None? && outcome.value.value !in w.issuer
    case Work(_) => true
    case Release(_, _) => outcome.Value? ==> freed
  }

  function WorkerEnded(w: World, id: nat, caller: Caller, outcome: Outcome, freed: bool): World
    requires caller.Awaiting?
  {
    var w' := Put(w, id, caller.(done := Some(outcome)));
    match caller.task
    case Acquire =>
      if outcome.Value? && outcome.value.Some? then
        var token := outcome.value.value;
        w'.(owner := Some(token), issuer := w.issuer[token := id], attempts := w.attempts[token := 0])
      else w'
    case Work(_) => w'
    case Release(token, _) => w'.(owner := if freed && w.owner == Some(token) then None else w.owner)
  }

  ghost predicate Step(w: World, next: World, id: nat, action: Action) {
    match action
    case Begin => id !in w.callers && next == Put(w, id, Awaiting(Acquire, false, None))
    case Cancel =>
      id in w.callers && w.callers[id].Awaiting? && next == Put(w, id, w.callers[id].(cancelled := true))
    case WorkerEnds(outcome, freed) =>
      id in w.callers && w.callers[id].Awaiting? && w.callers[id].done.None?
      && WorkerMay(w, w.callers[id].task, outcome, freed)
      && next == WorkerEnded(w, id, w.callers[id], outcome, freed)
    case Proceed =>
      id in w.callers && w.callers[id].Awaiting? && w.callers[id].done.Some?
      && next == Proceeded(w, id, w.callers[id].task, w.callers[id].cancelled, w.callers[id].done.value)
    case StartWork =>
      id in w.callers && w.callers[id].Inside? && next == Put(w, id, Awaiting(Work(w.callers[id].token), false, None))
    case Leave(how) =>
      id in w.callers && w.callers[id].Inside? && !how.Suspended? && next == StartRelease(w, id, w.callers[id].token, how)
  }

  ghost predicate Run(worlds: seq<World>, steps: seq<(nat, Action)>) {
    && |worlds| == |steps| + 1 && worlds[0] == EMPTY
    && forall k :: 0 <= k < |steps| ==> Step(worlds[k], worlds[k + 1], steps[k].0, steps[k].1)
  }

  /** The token a caller got and has not started to release. */
  function Keeps(caller: Caller): Option<nat> {
    match caller
    case Inside(token) => Some(token)
    case Awaiting(Work(token), _, _) => Some(token)
    case Awaiting(Acquire, _, Some(Value(Some(token)))) => Some(token)
    case _ => None
  }

  /** The token a caller certainly still owns: kept, or its release has not ended. */
  function Owns(caller: Caller): Option<nat> {
    match caller
    case Awaiting(Release(token, _), _, None) => Some(token)
    case _ => Keeps(caller)
  }

  ghost predicate CallerOk(w: World, id: nat)
    requires id in w.callers
  {
    Owns(w.callers[id]).Some? ==>
      var token := Owns(w.callers[id]).value;
      w.owner == Some(token) && token in w.issuer && w.issuer[token] == id
  }

  ghost predicate TokenOk(w: World, token: nat)
    requires token in w.issuer
  {
    && w.issuer[token] in w.callers && token in w.attempts
    && w.attempts[token] == if Keeps(w.callers[w.issuer[token]]) == Some(token) then 0 else 1
  }

  ghost predicate Inv(w: World) {
    && (forall id :: id in w.callers ==> CallerOk(w, id))
    && (forall token :: token in w.issuer ==> TokenOk(w, token))
  }

  lemma CallersStep(w: World, next: World, id: nat, action: Action)
    requires (forall id :: id in w.callers ==> CallerOk(w, id)) && Step(w, next, id, action)
    ensures forall id :: id in next.callers ==> CallerOk(next, id)
  {
    assert id in w.callers ==> CallerOk(w, id);
    forall other | other in next.callers ensures CallerOk(next, other) {
      if other in w.callers { assert CallerOk(w, other); }
    }
  }

  lemma TokensStep(w: World, next: World, id: nat, action: Action, token: nat)
    requires token in w.issuer && TokenOk(w, token) && (id in w.callers ==> CallerOk(w, id)) && Step(w, next, id, action)
    ensures token in next.issuer && TokenOk(next, token)
  {}

  lemma InvStep(w: World, next: World, id: nat, action: Action)
    requires Inv(w) && Step(w, next, id, action)
    ensures Inv(next)
  {
    CallersStep(w, next, id, action);
    forall token | token in next.issuer ensures TokenOk(next, token) {
      if token in w.issuer { TokensStep(w, next, id, action, token); }
    }
  }

  lemma {:induction false} InvRun(worlds: seq<World>, steps: seq<(nat, Action)>, k: nat)
    requires Run(worlds, steps) && k < |worlds|
    ensures Inv(worlds[k])
  {
    if k > 0 {
      InvRun(worlds, steps, k - 1);
      InvStep(worlds[k - 1], worlds[k], steps[k - 1].0, steps[k - 1].1);
    }
  }

  /** A worker thread of this caller's body is executing. */
  predicate Working(w: World, id: nat) {
    id in w.callers && w.callers[id].Awaiting? && w.callers[id].task.Work? && w.callers[id].done.None?
  }

  /**
   Whoever is cancelled, however often and whenever: a worker executes only while its caller's token owns the lock,
   so no two callers' workers ever overlap.
   */
  lemma WorkersNeverOverlap(worlds: seq<World>, steps: seq<(nat, Action)>, k: nat, a: nat, b: nat)
    requires Run(worlds, steps) && k < |worlds|
    requires Working(worlds[k], a)
    ensures worlds[k].owner == Some(worlds[k].callers[a].task.token)
    ensures Working(worlds[k], b) ==> a == b
  {
    InvRun(worlds, steps, k);
    var w := worlds[k];
    assert CallerOk(w, a) && (b in w.callers ==> CallerOk(w, b));
  }

  /**
   No token is leaked and none is released twice: one release attempt is started for every token the lock gave,
   exactly when its caller no longer has it.
   */
  lemma EveryTokenReleasedOnce(worlds: seq<World>, steps: seq<(nat, Action)>, k: nat, token: nat)
    requires Run(worlds, steps) && k < |worlds| && token in worlds[k].issuer
    ensures worlds[k].issuer[token] in worlds[k].callers && token in worlds[k].attempts
    ensures worlds[k].attempts[token] <= 1
    ensures worlds[k].attempts[token] == 0 <==> Keeps(worlds[k].callers[worlds[k].issuer[token]]) == Some(token)
    ensures worlds[k].callers[worlds[k].issuer[token]].Ended? ==> worlds[k].attempts[token] == 1
  {
    InvRun(worlds, steps, k);
    assert TokenOk(worlds[k], token);
  }

  // ---------------------------------------------------------------- one caller's loop is a run of the machine

  /** What one event around a caller's loop is in the machine; `f` is where its worker ends. */
  function ActionsOf(schedule: seq<Wake>, f: nat, freed: bool, i: nat): seq<Action>
    requires i < |schedule|
  {
    match schedule[i]
    case Interrupt => [Cancel]
    case Request => [Cancel]
    case Finish(outcome) => if i == f then [WorkerEnds(outcome, freed)] else []
    case Resume => []
  }

  function ActionsUpTo(schedule: seq<Wake>, f: nat, freed: bool, n: nat): seq<Action>
    requires n <= |schedule|
  {
    if n == 0 then [] else ActionsUpTo(schedule, f, freed, n - 1) + ActionsOf(schedule, f, freed, n - 1)
  }

  ghost predicate Path(worlds: seq<World>, id: nat, actions: seq<Action>) {
    |worlds| == |actions| + 1 && forall k :: 0 <= k < |actions| ==> Step(worlds[k], worlds[k + 1], id, actions[k])
  }

  /** The steps of one caller, nobody else moving, lead from `w` to `end`. */
  ghost predicate Leads(w: World, id: nat, actions: seq<Action>, end: World) {
    exists worlds :: Path(worlds, id, actions) && worlds[0] == w && worlds[|actions|] == end
  }

  lemma LeadsNowhere(w: World, id: nat)
    ensures Leads(w, id, [], w)
  {
    assert Path([w], id, []);
  }

  lemma LeadsOnce(w: World, id: nat, action: Action, end: World)
    requires Step(w, end, id, action)
    ensures Leads(w, id, [action], end)
  {
    assert Path([w, end], id, [action]);
  }

  lemma LeadsOn(w: World, id: nat, first: seq<Action>, mid: World, second: seq<Action>, end: World)
    requires Leads(w, id, first, mid) && Leads(mid, id, second, end)
    ensures Leads(w, id, first + second, end)
  {
    var a :| Path(a, id, first) && a[0] == w && a[|first|] == mid;
    var b :| Path(b, id, second) && b[0] == mid && b[|second|] == end;
    var worlds, actions := a + b[1..], first + second;
    forall k | 0 <= k < |actions| ensures Step(worlds[k], worlds[k + 1], id, actions[k]) {
      if k < |first| {
        assert Step(a[k], a[k + 1], id, first[k]);
      } else {
        assert Step(b[k - |first|], b[k - |first| + 1], id, second[k - |first|]);
      }
    }
    assert Path(worlds, id, actions);
  }

  /** The world after the first `n` events, the caller still in its loop. */
  function Waiting(w: World, id: nat, task: Task, schedule: seq<Wake>, f: nat, freed: bool, n: nat): World
    requires n <= |schedule| && f < |schedule| && schedule[f].Finish?
  {
    var cancelled := CancelIn(schedule[..n]);
    if n <= f then Put(w, id, Awaiting(task, cancelled, None))
    else WorkerEnded(w, id, Awaiting(task, cancelled, None), schedule[f].outcome, freed)
  }

  lemma CancelInNext(schedule: seq<Wake>, n: nat)
    requires n < |schedule|
    ensures CancelIn(schedule[..n + 1]) <==> CancelIn(schedule[..n]) || Cancels(schedule[n])
  {
    var longer, shorter := schedule[..n + 1], schedule[..n];
    assert forall i :: 0 <= i < n ==> longer[i] == shorter[i];
    if Cancels(schedule[n]) { assert Cancels(longer[n]); }
    if CancelIn(shorter) {
      var i :| 0 <= i < |shorter| && Cancels(shorter[i]);
      assert Cancels(longer[i]);
    }
  }

  lemma WaitingNext(w: World, id: nat, task: Task, schedule: seq<Wake>, f: nat, r: nat, freed: bool, n: nat)
    requires Concludes(schedule, f, r) && n < |schedule| && WorkerMay(w, task, schedule[f].outcome, freed)
    ensures var before, after := Waiting(w, id, task, schedule, f, freed, n), Waiting(w, id, task, schedule, f, freed, n + 1);
            match schedule[n]
            case Interrupt => Step(before, after, id, Cancel)
            case Request => Step(before, after, id, Cancel)
            case Finish(outcome) => if n == f then Step(before, after, id, WorkerEnds(outcome, freed)) else after == before
            case Resume => after == before
  {
    CancelInNext(schedule, n);
    if n == f {
      WorkerStarts(w, id, task, CancelIn(schedule[..n]), schedule[f].outcome, freed);
    } else if Cancels(schedule[n]) {
      CancelCommutes(w, id, task, CancelIn(schedule[..n]), schedule[f].outcome, freed);
    }
  }

  lemma WorkerStarts(w: World, id: nat, task: Task, cancelled: bool, outcome: Outcome, freed: bool)
    requires WorkerMay(w, task, outcome, freed)
    ensures var caller := Awaiting(task, cancelled, None);
            Step(Put(w, id, caller), WorkerEnded(w, id, caller, outcome, freed), id, WorkerEnds(outcome, freed))
  {
    var caller := Awaiting(task, cancelled, None);
    var after := caller.(done := Some(outcome));
    assert w.callers[id := caller][id := after] == w.callers[id := after];
  }

  lemma CancelCommutes(w: World, id: nat, task: Task, cancelled: bool, outcome: Outcome, freed: bool)
    ensures var caller, later := Awaiting(task, cancelled, None), Awaiting(task, true, None);
            && Step(Put(w, id, caller), Put(w, id, later), id, Cancel)
            && Step(WorkerEnded(w, id, caller, outcome, freed), WorkerEnded(w, id, later, outcome, freed), id, Cancel)
  {
    var caller, later := Awaiting(task, cancelled, None), Awaiting(task, true, None);
    assert w.callers[id := caller][id := later] == w.callers[id := later];
    var c, l := caller.(done := Some(outcome)), later.(done := Some(outcome));
    assert w.callers[id := c][id := l] == w.callers[id := l];
  }

  lemma WaitingLeads(w: World, id: nat, task: Task, schedule: seq<Wake>, f: nat, r: nat, freed: bool, n: nat)
    requires Concludes(schedule, f, r) && n < |schedule| && WorkerMay(w, task, schedule[f].outcome, freed)
    ensures Leads(Waiting(w, id, task, schedule, f, freed, n), id, ActionsOf(schedule, f, freed, n),
                  Waiting(w, id, task, schedule, f, freed, n + 1))
  {
    WaitingNext(w, id, task, schedule, f, r, freed, n);
    var before, after := Waiting(w, id, task, schedule, f, freed, n), Waiting(w, id, task, schedule, f, freed, n + 1);
    var actions := ActionsOf(schedule, f, freed, n);
    if actions == [] { LeadsNowhere(before, id); } else { LeadsOnce(before, id, actions[0], after); }
  }

  lemma {:induction false} WaitingFollowsLoop(w: World, id: nat, task: Task, schedule: seq<Wake>, f: nat, r: nat, freed: bool, n: nat)
    requires Concludes(schedule, f, r) && n <= |schedule| && WorkerMay(w, task, schedule[f].outcome, freed)
    requires id in w.callers && w.callers[id] == Awaiting(task, false, None)
    ensures Leads(w, id, ActionsUpTo(schedule, f, freed, n), Waiting(w, id, task, schedule, f, freed, n))
  {
    if n == 0 {
      assert w.callers[id := w.callers[id]] == w.callers;
      LeadsNowhere(w, id);
    } else {
      WaitingFollowsLoop(w, id, task, schedule, f, r, freed, n - 1);
      WaitingLeads(w, id, task, schedule, f, r, freed, n - 1);
      LeadsOn(w, id, ActionsUpTo(schedule, f, freed, n - 1), Waiting(w, id, task, schedule, f, freed, n - 1),
              ActionsOf(schedule, f, freed, n - 1), Waiting(w, id, task, schedule, f, freed, n));
    }
  }

  /** The world once a caller whose loop meets `schedule` has run on. */
  function RanOn(w: World, id: nat, task: Task, schedule: seq<Wake>, f: nat, r: nat, freed: bool): World
    requires f < r < |schedule| && schedule[f].Finish?
  {
    Proceeded(Waiting(w, id, task, schedule, f, freed, r + 1), id, task, CancelIn(schedule[..r + 1]), schedule[f].outcome)
  }

  /**
   Left alone, a caller that waits in the loop goes through steps of the machine, and goes on from the loop exactly when
   the loop's own account says so, with the outcome and the cancellations that account has.
   */
  lemma CallerFollowsLoop(w: World, id: nat, task: Task, schedule: seq<Wake>, f: nat, r: nat, freed: bool)
    requires Concludes(schedule, f, r) && WorkerMay(w, task, schedule[f].outcome, freed)
    requires id in w.callers && w.callers[id] == Awaiting(task, false, None)
    ensures Leads(w, id, ActionsUpTo(schedule, f, freed, r + 1) + [Proceed], RanOn(w, id, task, schedule, f, r, freed))
    ensures Woke(schedule).Awake? && Woke(schedule).outcome == schedule[f].outcome
    ensures CancelSeen(Woke(schedule)) == CancelIn(schedule[..r + 1])
  {
    WaitingFollowsLoop(w, id, task, schedule, f, r, freed, r + 1);
    var before := Waiting(w, id, task, schedule, f, freed, r + 1);
    LeadsOnce(before, id, Proceed, RanOn(w, id, task, schedule, f, r, freed));
    LeadsOn(w, id, ActionsUpTo(schedule, f, freed, r + 1), before, [Proceed], RanOn(w, id, task, schedule, f, r, freed));
    CancellationWaitsForWorker(schedule, f, r);
  }

  /** How a caller stands in the machine when its `acquire_thread_lock` has ended. */
  function Standing(end: End): Caller {
    if end.Returned? && end.value.Some? then Inside(end.value.value) else Ended(end)
  }

  /** From the start of `acquire_thread_lock` to the end of its loop, and where the caller is then. */
  lemma AcquireLoop(w: World, id: nat, acquiring: seq<Wake>, f: nat, r: nat) returns (actions: seq<Action>, mid: World)
    requires id !in w.callers && Concludes(acquiring, f, r) && WorkerMay(w, Acquire, acquiring[f].outcome, true)
    ensures Leads(w, id, actions, mid) && id in mid.callers
    ensures var woken := Woke(acquiring);
            mid.callers[id] ==
              if CancelSeen(woken) && woken.outcome.Value? && woken.outcome.value.Some?
              then Awaiting(Release(woken.outcome.value.value, Raised(Cancelled)), false, None)
              else Standing(AfterWork(CancelSeen(woken), woken.outcome))
  {
    var begun := Put(w, id, Awaiting(Acquire, false, None));
    LeadsOnce(w, id, Begin, begun);
    CallerFollowsLoop(begun, id, Acquire, acquiring, f, r, true);
    var loop := ActionsUpTo(acquiring, f, true, r + 1) + [Proceed];
    actions, mid := [Begin] + loop, RanOn(begun, id, Acquire, acquiring, f, r, true);
    LeadsOn(w, id, [Begin], begun, loop, mid);
  }

  /** The release of an unwanted token, and where it leaves its caller. */
  lemma ReleaseLoop(w: World, id: nat, token: nat, after: End, releasing: seq<Wake>, g: nat, q: nat, freed: bool)
    returns (actions: seq<Action>, end: World)
    requires Concludes(releasing, g, q) && (releasing[g].outcome.Value? ==> freed)
    requires id in w.callers && w.callers[id] == Awaiting(Release(token, after), false, None)
    ensures Leads(w, id, actions, end) && id in end.callers
    ensures end.callers[id] == Ended(AfterRelease(after, CancelSeen(Woke(releasing)), Woke(releasing).outcome))
  {
    CallerFollowsLoop(w, id, Release(token, after), releasing, g, q, freed);
    actions := ActionsUpTo(releasing, g, freed, q + 1) + [Proceed];
    end := RanOn(w, id, Release(token, after), releasing, g, q, freed);
  }

  /**
   A whole `acquire_thread_lock`, from its start, is a run of the machine, and leaves its caller as the method's contract
   says; `releasing` is waited in exactly if a cancelled caller got a token.
   */
  lemma AcquireIsMachine(w: World, id: nat, acquiring: seq<Wake>, f: nat, r: nat, releasing: seq<Wake>, g: nat, q: nat, freed: bool)
    returns (actions: seq<Action>, end: World)
    requires id !in w.callers && Concludes(acquiring, f, r) && Concludes(releasing, g, q)
    requires WorkerMay(w, Acquire, acquiring[f].outcome, true) && (releasing[g].outcome.Value? ==> freed)
    ensures Leads(w, id, actions, end) && id in end.callers
    ensures end.callers[id] == Standing(AcquireEnd(Woke(acquiring), Woke(releasing)))
  {
    CancellationWaitsForWorker(acquiring, f, r);
    CancellationWaitsForWorker(releasing, g, q);
    actions, end := AcquireLoop(w, id, acquiring, f, r);
    if end.callers[id].Awaiting? {
      var mid := end;
      var more;
      more, end := ReleaseLoop(mid, id, mid.callers[id].task.token, Raised(Cancelled), releasing, g, q, freed);
      LeadsOn(w, id, actions, mid, more, end);
      actions := actions + more;
    }
  }

  /** One worker of the body, started and waited for. */
  lemma WorkerIsMachine(w: World, id: nat, token: nat, schedule: seq<Wake>) returns (actions: seq<Action>, end: World)
    requires id in w.callers && w.callers[id] == Inside(token) && Woke(schedule).Awake?
    ensures Leads(w, id, actions, end) && id in end.callers && end.callers[id] == Inside(token)
  {
    var f: nat, r: nat :| Concludes(schedule, f, r);
    var begun := Put(w, id, Awaiting(Work(token), false, None));
    LeadsOnce(w, id, StartWork, begun);
    CallerFollowsLoop(begun, id, Work(token), schedule, f, r, true);
    var loop := ActionsUpTo(schedule, f, true, r + 1) + [Proceed];
    actions, end := [StartWork] + loop, RanOn(begun, id, Work(token), schedule, f, r, true);
    LeadsOn(w, id, [StartWork], begun, loop, end);
  }

  lemma {:induction false} WorkersAreMachine(w: World, id: nat, token: nat, workers: seq<seq<Wake>>)
    returns (actions: seq<Action>, end: World)
    requires id in w.callers && w.callers[id] == Inside(token)
    requires forall i :: 0 <= i < |workers| ==> Woke(workers[i]).Awake?
    ensures Leads(w, id, actions, end) && id in end.callers && end.callers[id] == Inside(token)
    decreases |workers|
  {
    actions, end := [], w;
    if workers == [] {
      LeadsNowhere(w, id);
    } else {
      var n := |workers| - 1;
      var mid, more;
      actions, mid := WorkersAreMachine(w, id, token, workers[..n]);
      more, end := WorkerIsMachine(mid, id, token, workers[n]);
      LeadsOn(w, id, actions, mid, more, end);
      actions := actions + more;
    }
  }

  /** `n` of the workers run: all, or those up to the first that does not return normally. */
  ghost predicate RunsFirst(workers: seq<seq<Wake>>, n: nat) {
    && n <= |workers| && (forall i :: 0 <= i < n ==> Woke(workers[i]).Awake?)
    && (n < |workers| ==> !BodyEnd(workers[..n]).Returned?)
  }

  lemma BodyNotSuspended(workers: seq<seq<Wake>>)
    requires forall i :: 0 <= i < |workers| ==> Woke(workers[i]).Awake?
    ensures !BodyEnd(workers).Suspended?
    decreases |workers|
  {
    if workers != [] { BodyNotSuspended(workers[..|workers| - 1]); }
  }

  lemma BodyOfFirst(workers: seq<seq<Wake>>, n: nat)
    requires RunsFirst(workers, n)
    ensures BodyEnd(workers[..n]) == BodyEnd(workers) && !BodyEnd(workers).Suspended?
  {
    BodyNotSuspended(workers[..n]);
    if n < |workers| { BodyStops(workers, n); } else { assert workers[..n] == workers; }
  }

  /** The body and the release that ends it, from the token on. */
  lemma BodyIsMachine(w: World, id: nat, token: nat, workers: seq<seq<Wake>>, n: nat, releasing: seq<Wake>, freed: bool)
    returns (actions: seq<Action>, end: World)
    requires id in w.callers && w.callers[id] == Inside(token) && RunsFirst(workers, n)
    requires Woke(releasing).Awake? && (Woke(releasing).outcome.Value? ==> freed)
    ensures Leads(w, id, actions, end) && id in end.callers
    ensures end.callers[id] == Ended(AfterRelease(BodyEnd(workers), CancelSeen(Woke(releasing)), Woke(releasing).outcome))
  {
    BodyOfFirst(workers, n);
    var how := BodyEnd(workers);
    var worked, mid := WorkersAreMachine(w, id, token, workers[..n]);
    var left := StartRelease(mid, id, token, how);
    LeadsOnce(mid, id, Leave(how), left);
    LeadsOn(w, id, worked, mid, [Leave(how)], left);
    var g: nat, q: nat :| Concludes(releasing, g, q);
    CancellationWaitsForWorker(releasing, g, q);
    var more;
    more, end := ReleaseLoop(left, id, token, how, releasing, g, q, freed);
    LeadsOn(w, id, worked + [Leave(how)], left, more, end);
    actions := worked + [Leave(how)] + more;
  }

  /**
   A whole `async with async_thread_lock(...)`, acquisition, body workers and release, is a run of the machine that ends its
   caller as the method's contract says; so what holds of every run of the machine holds of it.
   */
  lemma BracketIsMachine(w: World, id: nat, acquiring: seq<Wake>, workers: seq<seq<Wake>>, n: nat, releasing: seq<Wake>,
                         freed: bool)
    returns (actions: seq<Action>, end: World)
    requires id !in w.callers && Woke(acquiring).Awake? && Woke(releasing).Awake? && RunsFirst(workers, n)
    requires WorkerMay(w, Acquire, Woke(acquiring).outcome, true) && (Woke(releasing).outcome.Value? ==> freed)
    ensures Leads(w, id, actions, end) && id in end.callers
    ensures end.callers[id] == Ended(LockedEnd(Woke(acquiring), workers, Woke(releasing)))
  {
    BodyOfFirst(workers, n);
    var f: nat, r: nat :| Concludes(acquiring, f, r);
    var g: nat, q: nat :| Concludes(releasing, g, q);
    CancellationWaitsForWorker(acquiring, f, r);
    CancellationWaitsForWorker(releasing, g, q);
    actions, end := AcquireIsMachine(w, id, acquiring, f, r, releasing, g, q, freed);
    if end.callers[id].Inside? {
      var mid := end;
      var more;
      more, end := BodyIsMachine(mid, id, mid.callers[id].token, workers, n, releasing, freed);
      LeadsOn(w, id, actions, mid, more, end);
      actions := actions + more;
    }
  }
}
