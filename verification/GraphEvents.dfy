/** Pulling a synchronous graph stream from a coroutine: one worker thread at a time touches the iterator. */
module GraphEvents {
  import opened Common
  import opened AsyncOwnership

  /** What is done to the iterator, and what is passed on, in order. */
  datatype Io = NextStarts | NextEnds | Yields(item: nat) | CloseStarts | CloseEnds

  /**
   `_await_sync_worker`. Unlike the lock's helpers it looks at delivered cancellations only, and lets an exception
   that wakes it propagate even if it was cancelled before.
   */
  function SyncEnd(woken: Woken): End {
    if woken.Asleep? then Suspended
    else match woken.outcome
      case Fatal => Raised(WorkerFatal)
      case Error => Raised(if woken.last.Interrupt? then Cancelled else WorkerError)
      case Value(value) => if woken.delivered then Raised(Cancelled) else Returned(value)
  }

  /** The wait ends with the worker; only a cancellation raised at the await counts, and a failing worker that wakes it wins. */
  lemma SyncEndsAs(schedule: seq<Wake>, f: nat, r: nat)
    requires Concludes(schedule, f, r)
    ensures SyncEnd(Woke(schedule)) ==
              match schedule[f].outcome
              case Fatal => Raised(WorkerFatal)
              case Error => Raised(if schedule[r] == Interrupt then Cancelled else WorkerError)
              case Value(v) => if Interrupt in schedule[..r + 1] then Raised(Cancelled) else Returned(v)
  {
    WokeAt(schedule, f, r);
  }

  method AwaitSyncWorker(schedule: seq<Wake>) returns (end: End)
    ensures end == SyncEnd(Woke(schedule))
  {
    var woken := AwaitShielded(schedule);
    match woken {
      case Asleep => return Suspended;
      case Awake(outcome, delivered, _, last) =>
        if outcome.Value? {
          return if delivered then Raised(Cancelled) else Returned(outcome.value);
        } else if outcome.Error? && last.Interrupt? {
          return Raised(Cancelled);
        }
        return Raised(if outcome.Error? then WorkerError else WorkerFatal);
    }
  }

  /**
   A cancellation delivered while the iterator works is raised once it is done, unless the worker then fails: its
   own exception wins exactly when the caller is woken by it, not by a further cancellation.
   */
  lemma SyncCancellation(schedule: seq<Wake>, f: nat, r: nat)
    requires Concludes(schedule, f, r) && Interrupt in schedule[..r + 1]
    ensures SyncEnd(Woke(schedule)) == Raised(Cancelled) <==>
              schedule[f].outcome.Value? || (schedule[f].outcome.Error? && schedule[r].Interrupt?)
  {
    WokeAt(schedule, f, r);
  }

  /** A cancellation delivered while the worker runs, which then fails and wakes its caller. */
  const REPLACED: seq<Wake> := [Interrupt, Finish(Error), Resume]

  /** A delivered cancellation can be replaced by the worker's exception, which the lock's own helper never lets happen. */
  lemma CancellationReplaced()
    ensures Woke(REPLACED).Awake? && Woke(REPLACED).delivered
    ensures SyncEnd(Woke(REPLACED)) == Raised(WorkerError)
    ensures WorkEnd(Woke(REPLACED)) == Raised(Cancelled)
  {
    assert Concludes(REPLACED, 1, 2);
    WokeAt(REPLACED, 1, 2);
    assert REPLACED[..3][0] == Interrupt;
  }

  predicate Starts(io: Io) { io.NextStarts? || io.CloseStarts? }

  predicate Ends(io: Io) { io.NextEnds? || io.CloseEnds? }

  function EndOf(io: Io): Io
    requires Starts(io)
  {
    if io.NextStarts? then NextEnds else CloseEnds
  }

  /** A worker that has started ends before anything else happens. */
  ghost predicate OneAtATime(log: seq<Io>) {
    && (forall i :: 0 <= i < |log| - 1 && Starts(log[i]) ==> log[i + 1] == EndOf(log[i]))
    && (forall i :: 0 <= i < |log| && Ends(log[i]) ==> i > 0 && Starts(log[i - 1]))
  }

  /** No worker is executing after `log`. */
  predicate Idle(log: seq<Io>) { log == [] || !Starts(log[|log| - 1]) }

  predicate NeverClosed(log: seq<Io>) { CloseStarts !in log && CloseEnds !in log }

  /** Everything before the iterator's close, with no worker executing. */
  ghost predicate Open(log: seq<Io>) { OneAtATime(log) && Idle(log) && NeverClosed(log) }

  lemma Extends(log: seq<Io>, io: Io)
    requires OneAtATime(log) && Idle(log) && !Ends(io)
    ensures OneAtATime(log + [io])
  {}

  lemma ExtendsByPair(log: seq<Io>, io: Io)
    requires OneAtATime(log) && Idle(log) && Starts(io)
    ensures OneAtATime(log + [io, EndOf(io)]) && Idle(log + [io, EndOf(io)])
  {}

  /** The item a `next` gave, if it gave one: `None` is the sentinel at the end of the stream. */
  predicate Gave(end: End) { end.Returned? && end.value.Some? }

  /** The items handed on: one per pull that gave one, up to the first that did not or whose consumer broke off. */
  ghost function Items(pulls: seq<seq<Wake>>, accepted: nat): seq<nat> {
    if pulls == [] || !Gave(SyncEnd(Woke(pulls[0]))) then []
    else [SyncEnd(Woke(pulls[0])).value.value] + if accepted == 0 then [] else Items(pulls[1..], accepted - 1)
  }

  function Yielded(log: seq<Io>): seq<nat> {
    if log == [] then []
    else Yielded(log[..|log| - 1]) + if log[|log| - 1].Yields? then [log[|log| - 1].item] else []
  }

  lemma YieldedGrows(log: seq<Io>, io: Io)
    ensures Yielded(log + [io]) == Yielded(log) + if io.Yields? then [io.item] else []
  {
    assert (log + [io])[..|log|] == log;
  }

  lemma PairYieldsNothing(log: seq<Io>, start: Io)
    requires Starts(start)
    ensures Yielded(log + [start]) == Yielded(log) == Yielded(log + [start, EndOf(start)])
  {
    YieldedGrows(log, start);
    YieldedGrows(log + [start], EndOf(start));
    assert log + [start] + [EndOf(start)] == log + [start, EndOf(start)];
  }

  /** One worker run on the iterator, `next` or `close`. */
  method RunWorker(log: seq<Io>, start: Io, schedule: seq<Wake>) returns (after: seq<Io>, end: End)
    requires Open(log) && Starts(start)
    ensures end == SyncEnd(Woke(schedule)) && Yielded(after) == Yielded(log)
    ensures after == log + if end.Suspended? then [start] else [start, EndOf(start)]
    ensures OneAtATime(after) && (!end.Suspended? ==> Idle(after))
    ensures start.NextStarts? ==> NeverClosed(after) && (!end.Suspended? ==> Open(after))
  {
    end := AwaitSyncWorker(schedule);
    if end.Suspended? {
      Extends(log, start);
    } else {
      ExtendsByPair(log, start);
    }
    PairYieldsNothing(log, start);
    after := log + if end.Suspended? then [start] else [start, EndOf(start)];
  }

  lemma AfterYield(log: seq<Io>, item: nat)
    requires Open(log)
    ensures var next := log + [Yields(item)];
            Open(next) && Yielded(next) == Yielded(log) + [item]
  {
    YieldedGrows(log, Yields(item));
    Extends(log, Yields(item));
  }

  /** How the iteration ends, as far as the loop goes: `BrokenOff` is what the consumer throws in at a `yield`. */
  datatype Stop = Exhausted | Failed(why: Why) | BrokenOff | StillPulling

  ghost function StopOf(pulls: seq<seq<Wake>>, accepted: nat): Stop {
    if pulls == [] then StillPulling
    else
      var end := SyncEnd(Woke(pulls[0]));
      match end
      case Suspended => StillPulling
      case Raised(why) => Failed(why)
      case Returned(value) => if value.None? then Exhausted else if accepted == 0 then BrokenOff else StopOf(pulls[1..], accepted - 1)
  }

  /** The items and the end of a loop that has handed on `given` and has `rest` to pull, `left` to be accepted. */
  ghost function Outlook(rest: seq<seq<Wake>>, left: nat, given: seq<nat>): (seq<nat>, Stop) {
    (Joined(given, Items(rest, left)), StopOf(rest, left))
  }

  ghost predicate Ahead(pulls: seq<seq<Wake>>, accepted: nat, rest: seq<seq<Wake>>, left: nat, given: seq<nat>) {
    Outlook(rest, left, given) == Outlook(pulls, accepted, [])
  }

  /** How a pull that gives no item ends the loop. */
  function StopAt(end: End): Stop {
    match end
    case Suspended => StillPulling
    case Raised(why) => Failed(why)
    case Returned(_) => Exhausted
  }

  lemma NoItem(pulls: seq<seq<Wake>>, accepted: nat, rest: seq<seq<Wake>>, left: nat, given: seq<nat>)
    requires rest != [] && Ahead(pulls, accepted, rest, left, given) && !Gave(SyncEnd(Woke(rest[0])))
    ensures given == Items(pulls, accepted) && StopOf(pulls, accepted) == StopAt(SyncEnd(Woke(rest[0])))
  {}

  /** An item is handed on, and then the consumer breaks off or the next one is pulled. */
  lemma OneItem(pulls: seq<seq<Wake>>, accepted: nat, rest: seq<seq<Wake>>, left: nat, given: seq<nat>)
    requires rest != [] && Ahead(pulls, accepted, rest, left, given) && Gave(SyncEnd(Woke(rest[0])))
    ensures var next := given + [SyncEnd(Woke(rest[0])).value.value];
            if left == 0 then next == Items(pulls, accepted) && StopOf(pulls, accepted) == BrokenOff
            else Ahead(pulls, accepted, rest[1..], left - 1, next)
  {
    JoinNext(given, Items(rest, left));
    assert Items(rest, left)[1..] == if left == 0 then [] else Items(rest[1..], left - 1);
  }

  /** A `next` that does not come back within the schedule. */
  function StartPull(log: seq<Io>): (after: seq<Io>)
    requires Open(log)
    ensures OneAtATime(after) && NeverClosed(after) && Yielded(after) == Yielded(log)
  {
    PairYieldsNothing(log, NextStarts);
    Extends(log, NextStarts);
    log + [NextStarts]
  }

  /** One round of the loop: a `next`, and its item handed on if it gave one. */
  method PullOne(log: seq<Io>, pull: seq<Wake>) returns (after: seq<Io>, end: End)
    requires Open(log)
    ensures end == SyncEnd(Woke(pull))
    ensures OneAtATime(after) && NeverClosed(after) && (!end.Suspended? ==> Open(after))
    ensures Yielded(after) == Yielded(log) + if Gave(end) then [end.value.value] else []
  {
    after, end := RunWorker(log, NextStarts, pull);
    if Gave(end) {
      AfterYield(after, end.value.value);
      after := after + [Yields(end.value.value)];
    }
  }

  /** One round and what it means for the loop: `stop` once it is over. */
  method PullStep(pulls: seq<seq<Wake>>, accepted: nat, rest: seq<seq<Wake>>, left: nat, log: seq<Io>)
    returns (after: seq<Io>, stop: Option<Stop>)
    requires rest != [] && Open(log) && Ahead(pulls, accepted, rest, left, Yielded(log))
    ensures OneAtATime(after) && NeverClosed(after) && (stop != Some(StillPulling) ==> Open(after))
    ensures stop.Some? ==> Yielded(after) == Items(pulls, accepted) && stop.value == StopOf(pulls, accepted)
    ensures stop.None? ==> left > 0 && Ahead(pulls, accepted, rest[1..], left - 1, Yielded(after))
  {
    var end;
    after, end := PullOne(log, rest[0]);
    if !Gave(end) {
      NoItem(pulls, accepted, rest, left, Yielded(log));
      return after, Some(StopAt(end));
    }
    OneItem(pulls, accepted, rest, left, Yielded(log));
    stop := if left == 0 then Some(BrokenOff) else None;
  }

  /** Up to the iterator's close. */
  method PullAll(pulls: seq<seq<Wake>>, accepted: nat) returns (log: seq<Io>, stop: Stop)
    ensures OneAtATime(log) && NeverClosed(log) && (!stop.StillPulling? ==> Open(log))
    ensures Yielded(log) == Items(pulls, accepted) && stop == StopOf(pulls, accepted)
  {
    log := [];
    var rest, left := pulls, accepted;
    while rest != []
      invariant Open(log) && Ahead(pulls, accepted, rest, left, Yielded(log))
      decreases |rest|
    {
      var over;
      log, over := PullStep(pulls, accepted, rest, left, log);
      if over.Some? {
        return log, over.value;
      }
      rest, left := rest[1..], left - 1;
    }
    log, stop := StartPull(log), StillPulling;
  }

  function Joined(a: seq<nat>, b: seq<nat>): (r: seq<nat>)
    ensures b == [] ==> r == a
    ensures a == [] ==> r == b
  {
    a + b
  }

  lemma JoinNext(a: seq<nat>, b: seq<nat>)
    requires b != []
    ensures Joined(a + [b[0]], b[1..]) == Joined(a, b)
  {
    assert b == [b[0]] + b[1..];
  }

  /** How the generator ends. An error of the iterator's `close` wins over what ended the loop. */
  datatype Ending = Running | Done | Raises(why: Why) | ThrownInto

  function EndingOf(stop: Stop, hasClose: bool, close: End): Ending {
    if stop.StillPulling? || (hasClose && close.Suspended?) then Running
    else if hasClose && close.Raised? then Raises(close.why)
    else match stop
      case Failed(why) => Raises(why)
      case BrokenOff => ThrownInto
      case _ => Done
  }

  /** The items are those of the first pulls, in order; the loop ends with the consumer, or with the first pull that gives none. */
  lemma {:induction false} IterationExactly(pulls: seq<seq<Wake>>, accepted: nat)
    ensures var items := Items(pulls, accepted); var n := |items|;
            && n <= |pulls| && n <= accepted + 1
            && (forall i :: 0 <= i < n ==> SyncEnd(Woke(pulls[i])) == Returned(Some(items[i])))
            && if n == accepted + 1 then StopOf(pulls, accepted) == BrokenOff
               else if n == |pulls| then StopOf(pulls, accepted) == StillPulling
               else match SyncEnd(Woke(pulls[n]))
                 case Suspended => StopOf(pulls, accepted) == StillPulling
                 case Raised(why) => StopOf(pulls, accepted) == Failed(why)
                 case Returned(value) => value.None? && StopOf(pulls, accepted) == Exhausted
    decreases |pulls|
  {
    if pulls != [] && Gave(SyncEnd(Woke(pulls[0]))) && accepted > 0 {
      IterationExactly(pulls[1..], accepted - 1);
      var items, rest := Items(pulls, accepted), Items(pulls[1..], accepted - 1);
      assert items == [SyncEnd(Woke(pulls[0])).value.value] + rest;
      forall i | 0 <= i < |items| ensures SyncEnd(Woke(pulls[i])) == Returned(Some(items[i])) {
        if i > 0 { assert pulls[1..][i - 1] == pulls[i] && items[i] == rest[i - 1]; }
      }
    }
  }

  /** An error of the iterator's `close` wins over what ended the loop; otherwise the loop's own end is the generator's. */
  lemma EndingExactly(stop: Stop, hasClose: bool, close: End)
    ensures EndingOf(stop, hasClose, close).Running? <==> stop.StillPulling? || (hasClose && close.Suspended?)
    ensures !stop.StillPulling? && hasClose && close.Raised? ==> EndingOf(stop, hasClose, close) == Raises(close.why)
    ensures !hasClose || close.Returned? ==>
              && (stop.Failed? ==> EndingOf(stop, hasClose, close) == Raises(stop.why))
              && (stop.BrokenOff? ==> EndingOf(stop, hasClose, close) == ThrownInto)
              && (stop.Exhausted? ==> EndingOf(stop, hasClose, close) == Done)
  {}

  /**
   The synchronous branch of `_aiter_graph_events`. The consumer takes `accepted` items and breaks off at the next;
   `closing` surrounds the iterator's `close`, if it has one. A stream whose pulls run out is suspended in a `next`.
   */
  method IterateSync(pulls: seq<seq<Wake>>, accepted: nat, hasClose: bool, closing: seq<Wake>)
    returns (log: seq<Io>, ending: Ending)
    ensures OneAtATime(log) && (!ending.Running? ==> Idle(log))
    ensures Yielded(log) == Items(pulls, accepted)
    ensures ending == EndingOf(StopOf(pulls, accepted), hasClose, SyncEnd(Woke(closing)))
    ensures !ending.Running? && hasClose ==> exists before :: NeverClosed(before) && log == before + [CloseStarts, CloseEnds]
    ensures !hasClose || StopOf(pulls, accepted).StillPulling? ==> NeverClosed(log)
  {
    var stop;
    log, stop := PullAll(pulls, accepted);
    if stop.StillPulling? {
      return log, Running;
    }
    var close := Suspended;
    if hasClose {
      log, close := RunWorker(log, CloseStarts, closing);
    }
    ending := EndingOf(stop, hasClose, close);
  }
}
