/**
 `AzureBlobLeaseThreadLock`: the tracking of held leases, on real `_LeaseState` objects, and the renewal
 policy. Module LeaseRuns interleaves these sections.
 */
module LeaseLock {
  import opened Common

  type Key = (string, string)
  type Token = string

  const MAX_CONSECUTIVE_RENEWAL_FAILURES := 3

  /** `_LeaseState`; `released` counts the release calls sent to the service for this lease. */
  class LeaseState {
    const token: Token
    var failures: nat
    var lost: bool
    var released: nat

    constructor (token: Token)
      ensures this.token == token && failures == 0 && !lost && released == 0
    {
      this.token := token;
      failures, lost, released := 0, false, 0;
    }
  }

  /** Result of one `renew()` call: success, a definitive loss, or anything else (timeouts included). */
  datatype Renewal = Succeeded | Definitive | Transient

  /** An exception from the service, by the two attributes the classifiers look at. */
  datatype ServiceError = ServiceError(errorCode: Option<string>, statusCode: Option<int>)

  /** What one `renew()` call came to within its bound. */
  datatype Call = Returned | Failed(e: ServiceError) | TimedOut

  /** No letter outside ASCII has one of the codes' letters as its lower case. */
  function Lower(s: string): (r: string)
    ensures |r| == |s|
    ensures forall i :: 0 <= i < |s| ==> r[i] == if 'A' <= s[i] <= 'Z' then s[i] - 'A' + 'a' else s[i]
  {
    if s == "" then "" else [if 'A' <= s[0] <= 'Z' then s[0] - 'A' + 'a' else s[0]] + Lower(s[1..])
  }

  const DEFINITIVE_CODES: set<string> := {
    "leaselost", "leaseidmismatchwithleaseoperation", "leasenotpresentwithleaseoperation", "leaseidmissing"}

  /** `_is_definitive_lease_loss`. */
  predicate IsDefinitive(e: ServiceError) {
    (e.errorCode.Some? && Lower(e.errorCode.value) in DEFINITIVE_CODES) || e.statusCode == Some(412)
  }

  /** `_is_lease_conflict`. */
  predicate IsConflict(e: ServiceError) {
    (e.errorCode.Some? && "lease" <= Lower(e.errorCode.value)) || e.statusCode == Some(409)
  }

  /** How `_renew_all_once` and `_handle_renew_failure` take a call's outcome. */
  function Classify(call: Call): Renewal {
    match call
    case Returned => Succeeded
    case Failed(e) => if IsDefinitive(e) then Definitive else Transient
    case TimedOut => Transient
  }

  /** What `acquire` does about a failed request for a lease. */
  datatype Refusal = Raises | GivesUp | AsksAgain

  function Refused(e: ServiceError, timeLeft: bool): Refusal {
    if !IsConflict(e) then Raises else if timeLeft then AsksAgain else GivesUp
  }

  /**
   A renewal ends the lease at once exactly for one of the four codes in any letter case or a 412; in particular a
   timeout never does, nor a 409 or any other status without such a code. An error that does so and is no conflict is
   a 412 whose code is none of the lease's.
   */
  lemma DefinitiveExactly(call: Call)
    ensures Classify(call) == Definitive <==>
              call.Failed?
              && (call.e.statusCode == Some(412)
                  || (call.e.errorCode.Some?
                      && Lower(call.e.errorCode.value) in {"leaselost", "leaseidmismatchwithleaseoperation",
                                                           "leasenotpresentwithleaseoperation", "leaseidmissing"}))
    ensures Classify(call) == Succeeded <==> call.Returned?
    ensures call.Failed? && Classify(call) == Definitive && Refused(call.e, false) == Raises ==>
              call.e.statusCode == Some(412) && (call.e.errorCode.Some? ==> !("lease" <= Lower(call.e.errorCode.value)))
  {
    assert forall code :: code in DEFINITIVE_CODES ==> "lease" <= code;
  }

  /** A failed request for a lease is repeated or given up only for a 409 or a code of the lease's, else raised. */
  lemma ConflictExactly(e: ServiceError, timeLeft: bool)
    ensures Refused(e, timeLeft) == Raises <==>
              e.statusCode != Some(409) && (e.errorCode.Some? ==> !("lease" <= Lower(e.errorCode.value)))
    ensures Refused(e, timeLeft) != Raises ==> Refused(e, timeLeft) == if timeLeft then AsksAgain else GivesUp
  {}

  /** Neither classifier looks at the letter case of the code. */
  lemma CaseIsIgnored(e: ServiceError, f: ServiceError)
    requires e.statusCode == f.statusCode && (e.errorCode.Some? <==> f.errorCode.Some?)
    requires e.errorCode.Some? ==> Lower(e.errorCode.value) == Lower(f.errorCode.value)
    ensures Classify(Failed(e)) == Classify(Failed(f)) && Refused(e, true) == Refused(f, true)
  {}

  datatype Reason = LostLease | ReleasedToken | Superseded

  /** The value of one `_LeaseState`. */
  datatype Record = Record(token: Token, failures: nat, lost: bool)

  /** What one classified renewal does to the record of a lease that is still tracked. */
  function AfterRenewal(r: Record, outcome: Renewal): Record {
    match outcome
    case Succeeded => r.(failures := 0)
    case Definitive => r.(lost := true)
    case Transient =>
      r.(failures := r.failures + 1, lost := r.lost || r.failures + 1 >= MAX_CONSECUTIVE_RENEWAL_FAILURES)
  }

  /** Failures in a row at the end of a history of renewals. */
  function TrailingFailures(history: seq<Renewal>): nat {
    if history == [] || history[|history| - 1] != Transient then 0 else 1 + TrailingFailures(history[..|history| - 1])
  }

  /** The `i`-th renewal is a definitive loss or the third transient failure in a row. */
  predicate FatalAt(history: seq<Renewal>, i: nat)
    requires 0 < i <= |history|
  {
    history[i - 1] == Definitive || TrailingFailures(history[..i]) >= MAX_CONSECUTIVE_RENEWAL_FAILURES
  }

  predicate Fatal(history: seq<Renewal>) {
    exists i :: 0 < i <= |history| && FatalAt(history, i)
  }

  function AfterRenewals(r: Record, history: seq<Renewal>): Record {
    if history == [] then r else AfterRenewal(AfterRenewals(r, history[..|history| - 1]), history[|history| - 1])
  }

  /** A lease never definitively lost keeps an exact count of its trailing transient failures. */
  lemma {:induction false} FailuresCounted(token: Token, history: seq<Renewal>)
    requires forall i :: 0 <= i < |history| ==> history[i] != Definitive
    ensures AfterRenewals(Record(token, 0, false), history).failures == TrailingFailures(history)
  {
    if history != [] { FailuresCounted(token, history[..|history| - 1]); }
  }

  lemma FatalExtends(history: seq<Renewal>, next: Renewal)
    ensures Fatal(history + [next]) <==> Fatal(history) || FatalAt(history + [next], |history| + 1)
  {
    var longer := history + [next];
    forall i | 0 < i <= |history| ensures FatalAt(longer, i) <==> FatalAt(history, i) {
      assert longer[..i] == history[..i] && longer[i - 1] == history[i - 1];
    }
  }

  lemma {:induction false} LostWhenFatal(token: Token, history: seq<Renewal>)
    ensures AfterRenewals(Record(token, 0, false), history).lost <==> Fatal(history)
  {
    if history != [] {
      var n := |history| - 1;
      var shorter := history[..n];
      assert history == shorter + [history[n]] && history[..n + 1] == history;
      LostWhenFatal(token, shorter);
      FatalExtends(shorter, history[n]);
      if !Fatal(shorter) {
        forall i | 0 <= i < n ensures shorter[i] != Definitive { assert !FatalAt(shorter, i + 1); }
        FailuresCounted(token, shorter);
      }
    }
  }

  lemma {:induction false} TrailingAre(history: seq<Renewal>, k: nat)
    ensures TrailingFailures(history) >= k <==>
              k <= |history| && forall j :: |history| - k <= j < |history| ==> history[j] == Transient
    decreases k
  {
    var n := |history|;
    if k > 0 && n > 0 && history[n - 1] == Transient {
      var front := history[..n - 1];
      TrailingAre(front, k - 1);
      assert forall j :: 0 <= j < n - 1 ==> front[j] == history[j];
    }
  }

  lemma FatalThrice(history: seq<Renewal>, i: nat)
    requires i < |history|
    ensures TrailingFailures(history[..i + 1]) >= 3 <==>
              i >= 2 && history[i - 2] == Transient && history[i - 1] == Transient && history[i] == Transient
  {
    var h := history[..i + 1];
    TrailingAre(h, 3);
    assert forall j :: 0 <= j <= i ==> h[j] == history[j];
  }

  /** From acquisition on, a lease is marked lost exactly by a definitive loss or by three transient failures in a row. */
  lemma LostExactlyWhenFatal(token: Token, history: seq<Renewal>)
    ensures AfterRenewals(Record(token, 0, false), history).lost <==>
              || (exists i :: 0 <= i < |history| && history[i] == Definitive)
              || (exists i :: 2 <= i < |history| && history[i] == Transient && history[i - 1] == Transient && history[i - 2] == Transient)
  {
    LostWhenFatal(token, history);
    if i :| 0 < i <= |history| && FatalAt(history, i) { FatalThrice(history, i - 1); }
    if i :| 0 <= i < |history| && history[i] == Definitive { assert FatalAt(history, i + 1); }
    if i :| 2 <= i < |history| && history[i] == Transient && history[i - 1] == Transient && history[i - 2] == Transient {
      FatalThrice(history, i);
      assert FatalAt(history, i + 1);
    }
  }

  /** `LockClosed` is the source's `RuntimeError`, `KeyTaken` its `None`. */
  datatype Registration = Registered(token: Token) | KeyTaken | LockClosed

  class AzureBlobLeaseThreadLock {
    var active: map<Key, LeaseState>
    var closed: bool

    constructor ()
      ensures active == map[] && !closed
    {
      active, closed := map[], false;
    }

    ghost predicate Valid()
      reads this
    {
      forall k, l :: k in active && l in active && active[k] == active[l] ==> k == l
    }

    /** The record of a tracked lease. */
    ghost function RecordOf(s: LeaseState): Record
      reads s
    {
      Record(s.token, s.failures, s.lost)
    }

    /** `_ownership_problem`, read at one instant. */
    function OwnershipProblem(key: Key, token: Token): (problem: Option<Reason>)
      reads this, if key in active then {active[key]} else {}
      ensures problem == None <==> !closed && key in active && active[key].token == token && !active[key].lost
      ensures problem == Some(ReleasedToken) <==> closed || key !in active
      ensures problem == Some(Superseded) <==> !closed && key in active && active[key].token != token
    {
      if closed then Some(ReleasedToken)
      else if key !in active then Some(ReleasedToken)
      else if active[key].token != token then Some(Superseded)
      else if active[key].lost then Some(LostLease)
      else None
    }

    /** Registration, the last section of a successful `acquire`: an unwanted lease is given back. */
    method Register(key: Key, lease: LeaseState) returns (r: Registration)
      requires Valid() && forall k :: k in active ==> active[k] != lease
      modifies this`active, lease`released
      ensures Valid()
      ensures r == if key in old(active) then KeyTaken else if closed then LockClosed else Registered(lease.token)
      ensures r.Registered? ==> active == old(active)[key := lease] && lease.released == old(lease.released)
      ensures !r.Registered? ==> active == old(active) && lease.released == old(lease.released) + 1
    {
      if key in active {
        lease.released := lease.released + 1;
        return KeyTaken;
      }
      if closed {
        lease.released := lease.released + 1;
        return LockClosed;
      }
      active := active[key := lease];
      r := Registered(lease.token);
    }

    /** `release`: the owner's lease is untracked, and given back unless it is known to be gone. */
    method Release(key: Key, token: Token)
      requires Valid()
      modifies this`active, set k | k in active :: active[k]`released
      ensures Valid()
      ensures (key !in old(active) || old(active)[key].token != token) ==>
                active == old(active) && forall k :: k in active ==> active[k].released == old(active[k].released)
      ensures key in old(active) && old(active)[key].token == token ==>
                var s := old(active)[key];
                && active == old(active) - {key}
                && s.released == old(s.released) + (if s.lost then 0 else 1)
                && forall k :: k in active ==> active[k].released == old(active[k].released)
    {
      if key !in active || active[key].token != token {
        return;
      }
      var s := active[key];
      active := active - {key};
      if s.lost {
        return;
      }
      s.released := s.released + 1;
    }

    /** `_record_renew_success` and `_handle_renew_failure`: only a lease still tracked under its key is touched. */
    method HandleRenewal(key: Key, s: LeaseState, outcome: Renewal)
      modifies s`failures, s`lost
      ensures key in active && active[key] == s ==> RecordOf(s) == AfterRenewal(old(RecordOf(s)), outcome)
      ensures !(key in active && active[key] == s) ==> RecordOf(s) == old(RecordOf(s))
    {
      if key !in active || active[key] != s {
        return;
      }
      match outcome {
        case Succeeded => s.failures := 0;
        case Definitive => s.lost := true;
        case Transient =>
          s.failures := s.failures + 1;
          if s.failures >= MAX_CONSECUTIVE_RENEWAL_FAILURES {
            s.lost := true;
          }
      }
    }

    /** `_renew_all_once`, undisturbed: every lease not yet lost gets the classified outcome of its one `renew()` call. */
    method RenewAllOnce(calls: map<Key, Call>)
      requires Valid() && active.Keys <= calls.Keys
      modifies set k | k in active :: active[k]`failures, set k | k in active :: active[k]`lost
      ensures forall k :: k in active ==>
                RecordOf(active[k]) == if old(active[k].lost) then old(RecordOf(active[k]))
                                       else AfterRenewal(old(RecordOf(active[k])), Classify(calls[k]))
    {
      var snapshot := set k | k in active && !active[k].lost;
      var todo := snapshot;
      while todo != {}
        invariant todo <= snapshot
        invariant forall k :: k in active && (k in todo || k !in snapshot) ==> RecordOf(active[k]) == old(RecordOf(active[k]))
        invariant forall k :: k in snapshot && k !in todo ==>
                    RecordOf(active[k]) == AfterRenewal(old(RecordOf(active[k])), Classify(calls[k]))
        decreases |todo|
      {
        var k :| k in todo;
        todo := todo - {k};
        HandleRenewal(k, active[k], Classify(calls[k]));
      }
    }

    /** `close`: terminal; every tracked lease is untracked, and given back once unless lost. */
    method Close()
      requires Valid()
      modifies this, set k | k in active :: active[k]`released
      ensures closed && Valid()
      ensures old(closed) ==> active == old(active) && forall k :: k in active ==> active[k].released == old(active[k].released)
      ensures !old(closed) ==> active == map[] && forall k :: k in old(active) ==>
                var s := old(active)[k]; s.released == old(s.released) + if s.lost then 0 else 1
    {
      if closed {
        return;
      }
      closed := true;
      var remaining := active;
      active := map[];
      GiveBackAll(remaining);
    }
  }

  /** The last loop of `close`. */
  method GiveBackAll(remaining: map<Key, LeaseState>)
    requires forall k, l :: k in remaining && l in remaining && remaining[k] == remaining[l] ==> k == l
    modifies set k | k in remaining :: remaining[k]`released
    ensures forall k :: k in remaining ==>
              remaining[k].released == old(remaining[k].released) + if remaining[k].lost then 0 else 1
  {
    var todo := remaining.Keys;
    while todo != {}
      invariant todo <= remaining.Keys
      invariant forall k :: k in remaining ==>
        remaining[k].released == old(remaining[k].released) + if k in todo || remaining[k].lost then 0 else 1
      decreases |todo|
    {
      var k :| k in todo;
      todo := todo - {k};
      if !remaining[k].lost {
        remaining[k].released := remaining[k].released + 1;
      }
    }
  }
}
