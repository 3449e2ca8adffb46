/** Checkpoint writes under the ownership guard of one lease, over any number of calls. */
module GuardedWrites {
  import opened Common
  import opened Checkpoints
  import opened CheckpointSaver
  import opened GuardVerdicts
  import opened PendingWrites
  import LeaseLock
  import LeaseRuns

  datatype Op = PutOp(p: PutArgs) | WritesOp(id: Option<Id>, call: Call)

  /** Verdicts of a guard's checks, in order: once it rejects, it rejects for good. */
  ghost predicate Settles(verdict: nat -> bool) {
    forall n: nat, m: nat :: n <= m && !verdict(n) ==> !verdict(m)
  }

  function From(verdict: nat -> bool, offset: nat): nat -> bool { (n: nat) => verdict(offset + n) }

  /** The guard of a registered lease is of that kind, in every run of the lock and however its checks fall in it. */
  lemma {:induction false} LeaseGuardSettles(
    actions: seq<LeaseRuns.Action>, at: Schedule, r: nat, key: LeaseLock.Key, l: LeaseRuns.Lease, token: LeaseLock.Token,
    verdict: nat -> bool)
    requires r <= |actions| && Ordered(actions, at, r)
    requires LeaseRuns.TrackedAt(StateAt(actions, r), key, l) && l in StateAt(actions, r).records
    requires StateAt(actions, r).records[l].token == token
    requires forall n: nat :: at(n).0 <= |actions| && at(n).1 <= |actions| && at(n).2 <= |actions|
    requires forall n: nat :: verdict(n) <==> Passes(actions, at, key, token, n)
    ensures Settles(verdict)
  {
    forall n: nat, m: nat | n <= m && !verdict(n) ensures !verdict(m) {
      VerdictsNeverRecover(actions, at, r, key, l, token, n, m);
    }
  }

  /**
   A caller that goes on writing whatever happens, crashes included. Every check, passed or not, is a new one, so
   only a guard that rejects for good keeps a later call from uploading. `states[i]` is the container before the i-th
   call: after the first rejection none of them uploads anything.
   */
  method RunWrites(saver: AzureBlobCheckpointSaver, ops: seq<Op>, verdict: nat -> bool, crashes: nat -> nat)
    returns (outcomes: seq<Outcome>, ghost states: seq<Blobs>)
    requires Settles(verdict) && Special(saver.indexMap)
    modifies saver
    ensures |outcomes| == |ops| && |states| == |ops| + 1
    ensures states[0] == old(saver.blobs) && states[|ops|] == saver.blobs
    ensures forall i, j :: 0 <= i < j <= |ops| && outcomes[i] == Rejected ==> states[j] == states[i + 1]
  {
    outcomes, states := [], [saver.blobs];
    var checked: nat := 0;
    var i := 0;
    while i < |ops|
      invariant i <= |ops| && |outcomes| == i && |states| == i + 1
      invariant states[0] == old(saver.blobs) && states[i] == saver.blobs
      invariant forall j :: 0 <= j < i && outcomes[j] == Rejected ==> !verdict(checked)
      invariant forall j, k :: 0 <= j < k <= i && outcomes[j] == Rejected ==> states[k] == states[j + 1]
    {
      var guard := Some(From(verdict, checked));
      var outcome, passed;
      assert From(verdict, checked)(0) == verdict(checked);
      match ops[i] {
        case PutOp(p) =>
          outcome, passed := saver.Put(p, guard, crashes(i));
        case WritesOp(id, call) =>
          var seen, checks;
          outcome, seen, checks := saver.PutWrites(id, call, guard, crashes(i));
          passed := checks;
      }
      assert outcome == Rejected ==> !verdict(checked + passed);
      checked := checked + passed + if outcome in {Rejected, Crashed} then 1 else 0;
      outcomes, states := outcomes + [outcome], states + [saver.blobs];
      i := i + 1;
    }
  }
}
