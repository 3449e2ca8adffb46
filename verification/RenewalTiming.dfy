/**
 The renewal cadence of one lease in time. The unit is a third of a second, so a lease of `d` seconds lasts
 `3 * d` units and both the wait between ticks and the bound on one renewal call are `d` units. Only the wait
 and the bounded call take time.
 */
module RenewalTiming {
  import opened LeaseLock

  /** What a run of the renewal worker shows about one lease. Times are absolute, in units. */
  datatype Watch = Watch(
    now: nat,            // end of the last tick
    base: nat,           // registration, or the start of the last tick that renewed the lease
    recorded: nat,       // `last_successful_renewal`
    renewed: bool,       // whether any renewal was recorded
    expiry: nat,         // when the service lets the lease lapse
    failures: nat,       // consecutive transient failures
    lost: bool,
    lostAt: nat,
    definitive: bool)    // lost through a definitive error

  /** `f * d` for the few failures a lease can have before it is lost. */
  function Times(f: nat, d: nat): nat { if f == 0 then 0 else if f == 1 then d else d + d }

  /** Everything the cadence guarantees at the end of every tick. */
  ghost predicate OnTime(w: Watch, d: nat, registeredAt: nat) {
    && w.base + 3 * d <= w.expiry && registeredAt <= w.base && (!w.renewed ==> w.base == registeredAt)
    && (w.failures > 0 || w.lost || w.renewed ==> w.base <= w.now)
    && (!w.lost ==>
          && w.failures < MAX_CONSECUTIVE_RENEWAL_FAILURES
          && w.now <= w.base + d + 2 * Times(w.failures, d)
          && (w.renewed ==> w.recorded + Times(w.failures, d) <= w.now)
          && (w.failures == 1 ==> w.base <= w.now) && (w.failures == 2 ==> w.base + d <= w.now))
    && (w.lost ==>
          && w.lostAt <= w.base + 7 * d
          && (!w.definitive && w.renewed ==> w.recorded + 3 * d <= w.lostAt)
          && (!w.definitive && !w.renewed ==> w.base + 2 * d <= w.lostAt))
  }

  /** One tick seen from a tracked lease: wait `d`, then its call takes `duration`. */
  function Tick(w: Watch, d: nat, duration: nat, outcome: Renewal, served: nat): Watch {
    var start := w.now + d;
    var end := start + duration;
    if w.lost then w.(now := end) else
    match outcome
    case Succeeded =>
      w.(now := end, base := start, recorded := end, renewed := true, expiry := start + served + 3 * d, failures := 0)
    case Definitive => w.(now := end, lost := true, lostAt := end, definitive := true)
    case Transient =>
      var lost := w.failures + 1 >= MAX_CONSECUTIVE_RENEWAL_FAILURES;
      w.(now := end, failures := w.failures + 1, lost := lost, lostAt := if lost then end else w.lostAt)
  }

  lemma SuccessOnTime(w: Watch, d: nat, registeredAt: nat, duration: nat, served: nat)
    requires OnTime(w, d, registeredAt) && duration <= d && registeredAt <= w.now + d && !w.lost
    ensures OnTime(Tick(w, d, duration, Succeeded, served), d, registeredAt)
  {
    var after := Tick(w, d, duration, Succeeded, served);
    assert after.now == after.recorded == after.base + duration && after.failures == 0 && !after.lost;
  }

  lemma DefinitiveOnTime(w: Watch, d: nat, registeredAt: nat, duration: nat, served: nat)
    requires OnTime(w, d, registeredAt) && duration <= d && registeredAt <= w.now + d && !w.lost
    ensures OnTime(Tick(w, d, duration, Definitive, served), d, registeredAt)
  {
    var after := Tick(w, d, duration, Definitive, served);
    assert after.lostAt == w.now + d + duration && w.now <= w.base + 5 * d;
  }

  lemma FailureOnTime(w: Watch, d: nat, registeredAt: nat, duration: nat, served: nat)
    requires OnTime(w, d, registeredAt) && duration <= d && registeredAt <= w.now + d && !w.lost
    ensures OnTime(Tick(w, d, duration, Transient, served), d, registeredAt)
  {
    var after := Tick(w, d, duration, Transient, served);
    assert after.now == w.now + d + duration && after.failures == w.failures + 1;
    assert w.failures in {0, 1, 2};
    assert !after.lost ==> Times(after.failures, d) == Times(w.failures, d) + d;
  }

  lemma TickOnTime(w: Watch, d: nat, registeredAt: nat, duration: nat, outcome: Renewal, served: nat)
    requires OnTime(w, d, registeredAt) && duration <= d && registeredAt <= w.now + d
    ensures OnTime(Tick(w, d, duration, outcome, served), d, registeredAt)
  {
    if !w.lost {
      match outcome
      case Succeeded => SuccessOnTime(w, d, registeredAt, duration, served);
      case Definitive => DefinitiveOnTime(w, d, registeredAt, duration, served);
      case Transient => FailureOnTime(w, d, registeredAt, duration, served);
    }
  }

  /** The same tick as the worker performs it: wait, renew, classify, update the record in place. */
  method RunTick(w: Watch, d: nat, duration: nat, outcome: Renewal, served: nat) returns (after: Watch)
    ensures after == Tick(w, d, duration, outcome, served)
  {
    var tickStart := w.now + d;
    var tickEnd := tickStart + duration;
    after := w.(now := tickEnd);
    if w.lost {
      return;
    }
    match outcome {
      case Succeeded =>
        after := after.(base := tickStart, recorded := tickEnd, renewed := true,
                        expiry := tickStart + served + 3 * d, failures := 0);
      case Definitive =>
        after := after.(lost := true, lostAt := tickEnd, definitive := true);
      case Transient =>
        after := after.(failures := after.failures + 1);
        if after.failures >= MAX_CONSECUTIVE_RENEWAL_FAILURES {
          after := after.(lost := true, lostAt := tickEnd);
        }
    }
  }

  /** A lease just registered, as the worker last ended a tick at `now`. */
  function Registered(now: nat, at: nat, d: nat): Watch {
    Watch(now, at, at, false, at + 3 * d, 0, false, 0, false)
  }

  /**
   `_renewal_worker` for `ticks` rounds from its start, watching the lease registered at `registeredAt`. Tick
   `k` takes `durations(k)`, the call for this lease ends in `outcomes(k)`, and a successful call reached the
   service `served(k)` after the tick's start. A lease registered after a tick's snapshot waits for the next.
   */
  method RenewalWorker(d: nat, startedAt: nat, registeredAt: nat, ticks: nat,
                       durations: nat -> nat, outcomes: nat -> Renewal, served: nat -> nat)
    returns (w: Watch)
    ensures w == Watched(d, startedAt, registeredAt, durations, outcomes, served, ticks)
    ensures startedAt <= registeredAt && (forall k :: durations(k) <= d) ==> OnTime(w, d, registeredAt)
  {
    if startedAt <= registeredAt && (forall k :: durations(k) <= d) {
      WatchedOnTime(d, startedAt, registeredAt, durations, outcomes, served, ticks);
    }
    w := Registered(startedAt, registeredAt, d);
    var k := 0;
    while k < ticks
      invariant 0 <= k <= ticks
      invariant w == Watched(d, startedAt, registeredAt, durations, outcomes, served, k)
    {
      if w.now + d < registeredAt {
        w := w.(now := w.now + d + durations(k));
      } else {
        w := RunTick(w, d, durations(k), outcomes(k), served(k));
      }
      k := k + 1;
    }
  }

  /** The watch after `k` ticks. */
  function Watched(d: nat, startedAt: nat, registeredAt: nat,
                   durations: nat -> nat, outcomes: nat -> Renewal, served: nat -> nat, k: nat): Watch
  {
    if k == 0 then Registered(startedAt, registeredAt, d)
    else
      var w := Watched(d, startedAt, registeredAt, durations, outcomes, served, k - 1);
      if w.now + d < registeredAt then w.(now := w.now + d + durations(k - 1))
      else Tick(w, d, durations(k - 1), outcomes(k - 1), served(k - 1))
  }

  lemma {:induction false} WatchedOnTime(d: nat, startedAt: nat, registeredAt: nat,
                                         durations: nat -> nat, outcomes: nat -> Renewal, served: nat -> nat, k: nat)
    requires startedAt <= registeredAt && forall j :: durations(j) <= d
    ensures OnTime(Watched(d, startedAt, registeredAt, durations, outcomes, served, k), d, registeredAt)
  {
    if k > 0 {
      WatchedOnTime(d, startedAt, registeredAt, durations, outcomes, served, k - 1);
      var w := Watched(d, startedAt, registeredAt, durations, outcomes, served, k - 1);
      if registeredAt <= w.now + d {
        TickOnTime(w, d, registeredAt, durations(k - 1), outcomes(k - 1), served(k - 1));
      }
    }
  }

  /**
   The timing bounds, after any number of ticks whatever their outcomes. A lease is marked lost no later than
   7d/3 seconds after its base (registration or the start of its last successful tick), hence at most 4d/3 past
   service expiry; it is still unmarked only while the worker has not yet got 5d/3 past the base. By the
   transient path it is never marked sooner than d after a recorded renewal, nor 2d/3 after acquisition.
   */
  lemma RenewalBounds(d: nat, startedAt: nat, registeredAt: nat,
                      durations: nat -> nat, outcomes: nat -> Renewal, served: nat -> nat, k: nat)
    requires startedAt <= registeredAt && forall j :: durations(j) <= d
    ensures var w := Watched(d, startedAt, registeredAt, durations, outcomes, served, k);
            && (w.lost ==> w.lostAt <= w.base + 7 * d && w.lostAt <= w.expiry + 4 * d)
            && (!w.lost ==> w.now <= w.base + 5 * d)
            && (w.lost && !w.definitive && w.renewed ==> w.lostAt >= w.recorded + 3 * d)
            && (w.lost && !w.definitive && !w.renewed ==> w.lostAt >= registeredAt + 2 * d)
            && (!w.renewed ==> w.base == registeredAt)
  {
    WatchedOnTime(d, startedAt, registeredAt, durations, outcomes, served, k);
  }

  lemma {:induction false} NeverRenewed(d: nat, startedAt: nat, registeredAt: nat,
                                        durations: nat -> nat, outcomes: nat -> Renewal, served: nat -> nat, k: nat)
    requires forall j :: outcomes(j) != Succeeded
    ensures !Watched(d, startedAt, registeredAt, durations, outcomes, served, k).renewed
    ensures Watched(d, startedAt, registeredAt, durations, outcomes, served, k).now >= startedAt + k * d
  {
    if k > 0 {
      NeverRenewed(d, startedAt, registeredAt, durations, outcomes, served, k - 1);
      assert k * d == (k - 1) * d + d;
    }
  }

  /** With every renewal failing, enough ticks always bring the loss, within 7d/3 of registration. */
  lemma AllFailingIsLost(d: nat, startedAt: nat, registeredAt: nat,
                         durations: nat -> nat, outcomes: nat -> Renewal, served: nat -> nat, k: nat)
    requires startedAt <= registeredAt && forall j :: durations(j) <= d
    requires forall j :: outcomes(j) != Succeeded
    requires startedAt + k * d > registeredAt + 5 * d
    ensures var w := Watched(d, startedAt, registeredAt, durations, outcomes, served, k);
            w.lost && w.lostAt <= registeredAt + 7 * d
  {
    RenewalBounds(d, startedAt, registeredAt, durations, outcomes, served, k);
    NeverRenewed(d, startedAt, registeredAt, durations, outcomes, served, k);
  }

  ghost function Always<T>(x: T): nat -> T { _ => x }

  lemma WatchedNext(d: nat, startedAt: nat, registeredAt: nat,
                    durations: nat -> nat, outcomes: nat -> Renewal, served: nat -> nat, k: nat)
    ensures var w := Watched(d, startedAt, registeredAt, durations, outcomes, served, k);
            Watched(d, startedAt, registeredAt, durations, outcomes, served, k + 1) ==
              if w.now + d < registeredAt then w.(now := w.now + d + durations(k))
              else Tick(w, d, durations(k), outcomes(k), served(k))
    ensures Watched(d, startedAt, registeredAt, durations, outcomes, served, 0) == Registered(startedAt, registeredAt, d)
  {}

  /** Registered one unit after a snapshot, with every call running into its timeout: the 7d/3 bound less that unit. */
  lemma UpperBoundIsReached(d: nat)
    requires d >= 1
    ensures var w := Watched(d, 0, d + 1, Always(d), Always(Transient), Always(0), 4);
            w.lost && !w.definitive && w.lostAt == w.base + 7 * d - 1
  {
    WatchedNext(d, 0, d + 1, Always(d), Always(Transient), Always(0), 0);
    WatchedNext(d, 0, d + 1, Always(d), Always(Transient), Always(0), 1);
    WatchedNext(d, 0, d + 1, Always(d), Always(Transient), Always(0), 2);
    WatchedNext(d, 0, d + 1, Always(d), Always(Transient), Always(0), 3);
  }

  /** Calls that fail at once: lost 2d/3 after acquisition, no sooner. */
  lemma LowerBoundIsReached(d: nat)
    requires d >= 1
    ensures var w := Watched(d, 0, d, Always(0), Always(Transient), Always(0), 3);
            w.lost && !w.definitive && w.lostAt == w.base + 2 * d
  {
    WatchedNext(d, 0, d, Always(0), Always(Transient), Always(0), 0);
    WatchedNext(d, 0, d, Always(0), Always(Transient), Always(0), 1);
    WatchedNext(d, 0, d, Always(0), Always(Transient), Always(0), 2);
  }
}
