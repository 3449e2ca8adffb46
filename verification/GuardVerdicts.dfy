/**
 The ownership guard. Its check takes no lock: it reads `_closed`, then the key's entry, then that entry's
 `lost` flag, and anything may happen between the three reads.
 */
module GuardVerdicts {
  import opened Common
  import opened LeaseLock
  import opened LeaseRuns

  ghost function StateAt(actions: seq<Action>, n: nat): Lock
    requires n <= |actions|
  {
    Run(START, actions[..n])
  }

  /** `_ownership_problem` with its three reads at the states `a`, `b` and `c`. */
  ghost function Check(a: Lock, b: Lock, c: Lock, key: Key, token: Token): Option<Reason> {
    if a.closed then Some(ReleasedToken)
    else if key !in b.active || b.active[key] !in b.records then Some(ReleasedToken)
    else if b.records[b.active[key]].token != token then Some(Superseded)
    else if b.active[key] in c.records && c.records[b.active[key]].lost then Some(LostLease)
    else None
  }

  /** No call can still register this lease. */
  ghost predicate Settled(m: Lock, l: Lease) {
    l in m.obtained && forall pid :: pid in m.phase ==> !Registering(m.phase[pid], l)
  }

  ghost predicate Registering(p: Phase, l: Lease) {
    (p.Granted? || p.Entered? || p.Cleared?) && p.lease == l
  }

  ghost predicate IsLost(m: Lock, l: Lease) { l in m.records && m.records[l].lost }

  lemma TrackedIsSettled(actions: seq<Action>, key: Key, l: Lease)
    requires TrackedAt(Run(START, actions), key, l)
    ensures Settled(Run(START, actions), l)
  {
    InvRun(actions);
    var m := Run(START, actions);
    assert l in m.obtained;
    var place :| Agrees(m, l, place);
    forall pid | pid in m.phase ensures !Registering(m.phase[pid], l) {
      assert HeldBy(m, pid, l) <==> place == Hand(pid);
    }
  }

  lemma SettledStep(m: Lock, a: Action, l: Lease)
    requires Settled(m, l)
    ensures Settled(Step(m, a), l)
  {}

  /** The facts a check can trip over never go away: closed, lost, and untracked for a settled lease. */
  ghost predicate NoBetter(m: Lock, after: Lock, key: Key, l: Lease) {
    && (m.closed ==> after.closed)
    && (IsLost(m, l) ==> IsLost(after, l))
    && (!TrackedAt(m, key, l) ==> !TrackedAt(after, key, l))
    && l in m.records && l in after.records && after.records[l].token == m.records[l].token
  }

  /** Only a call that holds the lease to register it can make it tracked. */
  lemma StaysUntracked(m: Lock, a: Action, key: Key, l: Lease)
    requires Settled(m, l) && !TrackedAt(m, key, l)
    ensures !TrackedAt(Step(m, a), key, l)
  {}

  lemma StaysLost(m: Lock, a: Action, l: Lease)
    requires l in m.records && m.records.Keys == m.obtained
    ensures l in Step(m, a).records && Step(m, a).records[l].token == m.records[l].token
    ensures IsLost(m, l) ==> IsLost(Step(m, a), l)
  {
    if !a.Grant? && !a.Renewed? { RecordsRest(m, a); }
  }

  lemma StaysClosed(m: Lock, a: Action)
    requires m.closed
    ensures Step(m, a).closed
  {}

  lemma BadStays(m: Lock, a: Action, key: Key, l: Lease)
    requires m.records.Keys == m.obtained && Settled(m, l)
    ensures NoBetter(m, Step(m, a), key, l)
  {
    StaysLost(m, a, l);
    if m.closed { StaysClosed(m, a); }
    if !TrackedAt(m, key, l) { StaysUntracked(m, a, key, l); }
  }

  lemma {:induction false} BadStaysAlong(actions: seq<Action>, i: nat, j: nat, key: Key, l: Lease)
    requires i <= j <= |actions| && Settled(StateAt(actions, i), l)
    ensures Settled(StateAt(actions, j), l) && NoBetter(StateAt(actions, i), StateAt(actions, j), key, l)
    decreases j
  {
    if i < j {
      BadStaysAlong(actions, i, j - 1, key, l);
      assert actions[..j][..j - 1] == actions[..j - 1];
      OneMore(actions[..j], key, l);
    } else {
      InvRun(actions[..i]);
    }
  }

  lemma OneMore(actions: seq<Action>, key: Key, l: Lease)
    requires actions != [] && Settled(Run(START, actions[..|actions| - 1]), l)
    ensures Settled(Run(START, actions), l) && NoBetter(Run(START, actions[..|actions| - 1]), Run(START, actions), key, l)
  {
    var m, a := Run(START, actions[..|actions| - 1]), actions[|actions| - 1];
    InvRun(actions[..|actions| - 1]);
    SettledStep(m, a, l);
    BadStays(m, a, key, l);
  }

  /** What makes a check reject the token of lease `l`: at some read, closed, untracked under its key, or lost. */
  lemma RejectionMeans(actions: seq<Action>, i: nat, j: nat, k: nat, key: Key, l: Lease, token: Token)
    requires i <= j <= k <= |actions|
    requires l in StateAt(actions, j).records && StateAt(actions, j).records[l].token == token
    ensures Check(StateAt(actions, i), StateAt(actions, j), StateAt(actions, k), key, token) != None <==>
              || StateAt(actions, i).closed
              || !TrackedAt(StateAt(actions, j), key, l)
              || IsLost(StateAt(actions, k), l)
  {
    InvRun(actions[..j]);
    var b := StateAt(actions, j);
    if key in b.active && b.active[key] in b.records && b.records[b.active[key]].token == token {
      assert b.active[key] == l;
    }
  }

  /** A guard that has rejected its token rejects at every later check, whatever the lock does. */
  lemma RejectionIsPermanent(actions: seq<Action>, r: nat, key: Key, l: Lease, token: Token,
                             i: nat, j: nat, k: nat, i': nat, j': nat, k': nat)
    requires r <= i <= j <= k <= i' <= j' <= k' <= |actions|
    requires TrackedAt(StateAt(actions, r), key, l) && l in StateAt(actions, r).records
    requires StateAt(actions, r).records[l].token == token
    requires Check(StateAt(actions, i), StateAt(actions, j), StateAt(actions, k), key, token) != None
    ensures Check(StateAt(actions, i'), StateAt(actions, j'), StateAt(actions, k'), key, token) != None
  {
    TrackedIsSettled(actions[..r], key, l);
    BadStaysAlong(actions, r, i, key, l);
    BadStaysAlong(actions, r, j, key, l);
    BadStaysAlong(actions, r, k, key, l);
    BadStaysAlong(actions, i, i', key, l);
    BadStaysAlong(actions, j, j', key, l);
    BadStaysAlong(actions, k, k', key, l);
    RejectionMeans(actions, i, j, k, key, l, token);
    BadStaysAlong(actions, r, j', key, l);
    RejectionMeans(actions, i', j', k', key, l, token);
  }

  /** While the lock is open and the token's lease is tracked and not lost, its guard never rejects. */
  lemma OwnerIsNeverRejected(actions: seq<Action>, key: Key, l: Lease, token: Token, i: nat, j: nat, k: nat)
    requires i <= j <= k <= |actions|
    requires forall n :: i <= n <= k ==>
               var m := StateAt(actions, n);
               !m.closed && TrackedAt(m, key, l) && l in m.records && m.records[l].token == token && !m.records[l].lost
    ensures Check(StateAt(actions, i), StateAt(actions, j), StateAt(actions, k), key, token) == None
  {}

  /** The converse at one instant: a guard passes exactly while its own lease is tracked, not lost, and the lock open. */
  lemma PassesExactlyWhileOwned(actions: seq<Action>, n: nat, key: Key, l: Lease, token: Token)
    requires n <= |actions| && l in StateAt(actions, n).records && StateAt(actions, n).records[l].token == token
    ensures var m := StateAt(actions, n);
            Check(m, m, m, key, token) == None <==> !m.closed && TrackedAt(m, key, l) && !m.records[l].lost
  {
    RejectionMeans(actions, n, n, n, key, l, token);
  }

  // ---------------------------------------------------------------- the guard a write sees

  /** The instants of the three reads of a guard's n-th check in a run. */
  type Schedule = nat -> (nat, nat, nat)

  ghost predicate Ordered(actions: seq<Action>, at: Schedule, r: nat) {
    && (forall n :: r <= at(n).0 <= at(n).1 <= at(n).2 <= |actions|)
    && (forall n, n' :: n < n' ==> at(n).2 <= at(n').0)
  }

  ghost predicate Passes(actions: seq<Action>, at: Schedule, key: Key, token: Token, n: nat)
    requires at(n).0 <= |actions| && at(n).1 <= |actions| && at(n).2 <= |actions|
  {
    Check(StateAt(actions, at(n).0), StateAt(actions, at(n).1), StateAt(actions, at(n).2), key, token) == None
  }

  /** The verdicts of one guard, in the order of its checks, are passes followed by rejections only. */
  lemma {:induction false} VerdictsNeverRecover(actions: seq<Action>, at: Schedule, r: nat, key: Key, l: Lease,
                                               token: Token, n: nat, n': nat)
    requires r <= |actions| && Ordered(actions, at, r) && n <= n'
    requires TrackedAt(StateAt(actions, r), key, l) && l in StateAt(actions, r).records
    requires StateAt(actions, r).records[l].token == token
    requires !Passes(actions, at, key, token, n)
    ensures !Passes(actions, at, key, token, n')
  {
    if n < n' {
      RejectionIsPermanent(actions, r, key, l, token, at(n).0, at(n).1, at(n).2, at(n').0, at(n').1, at(n').2);
    }
  }
}
