/**
 Any number of clients of one table, interleaved request by request: what every conditional write does, and
 how the owner token fences a run lock over whole runs.
 */
module TableRuns {
  import opened Common
  import opened ThreadStore
  import opened TableStore

  type Pid = nat

  /** The call a client is in, decided from the row it read. */
  datatype Call =
    | Updating(c: Changes)
    | Acquiring(assistant: Option<string>)
    | Releasing(status: Status, values: Option<string>, owner: Option<Token>)
    | Renewing(renewer: Token)
    | Resetting(terminal: Status, cutoff: int)

  /** A client between its read and its conditional write. */
  datatype Pending = Pending(call: Call, id: Id, snapshot: Entity)

  /** `turns` counts acquisitions per thread; `minted` remembers which acquisition each token came from. */
  datatype World = World(
    table: Table, pending: map<Pid, Pending>, created: set<Id>, turns: map<Id, nat>, minted: map<Token, (Id, nat)>)

  datatype Action =
    | Read(pid: Pid, id: Id, call: Call)
    | Send(pid: Pid, now: int, token: Token)
    | Abandon(pid: Pid)
    | Create(id: Id, row: Thread)
    | Delete(id: Id)

  /** Whether the row read lets the call go on to its write; otherwise the call answers without writing. */
  ghost predicate Proceeds(call: Call, row: Thread) {
    match call
    case Updating(_) => true
    case Acquiring(assistant) => Obstacle(row, assistant).None?
    case Releasing(status, _, owner) => status != Busy && (owner.Some? ==> row.lockToken == owner)
    case Renewing(owner) => row.lockToken == Some(owner)
    case Resetting(terminal, cutoff) => terminal in {Idle, Error} && ResetDue(row, cutoff)
  }

  /** The row the call writes. */
  ghost function Result(call: Call, row: Thread, now: int, token: Token): Thread {
    match call
    case Updating(c) => Updated(row, c, now)
    case Acquiring(assistant) => Acquired(row, assistant, token, now)
    case Releasing(status, values, _) => Released(row, status, values, now)
    case Renewing(_) => Renewed(row, now)
    case Resetting(terminal, _) => row.(status := terminal, updatedAt := now)
  }

  /** A conditional write that the service accepts: the row still carries the ETag that was read. */
  ghost predicate Accepted(w: World, a: Action) {
    a.Send? && a.pid in w.pending
    && (var p := w.pending[a.pid];
        p.id in w.table.rows && p.id in w.turns && w.table.rows[p.id].etag == p.snapshot.etag
        && (p.call.Acquiring? ==> a.token !in w.minted))
  }

  ghost function TurnOf(w: World, id: Id): nat { if id in w.turns then w.turns[id] else 0 }

  ghost function Step(w: World, a: Action): World {
    match a
    case Read(pid, id, call) =>
      if id in w.table.rows && Proceeds(call, w.table.rows[id].row)
      then w.(pending := w.pending[pid := Pending(call, id, w.table.rows[id])])
      else w.(pending := w.pending - {pid})
    case Send(pid, now, token) =>
      if !Accepted(w, a) then w.(pending := w.pending - {pid}) else
        var p := w.pending[pid];
        var after := w.(table := Put(w.table, p.id, Result(p.call, p.snapshot.row, now, token)), pending := w.pending - {pid});
        if p.call.Acquiring? then
          after.(turns := w.turns[p.id := w.turns[p.id] + 1], minted := w.minted[token := (p.id, w.turns[p.id] + 1)])
        else after
    case Abandon(pid) => w.(pending := w.pending - {pid})
    case Create(id, row) =>
      if id in w.created || row.lockToken.Some? then w
      else w.(table := Put(w.table, id, row), created := w.created + {id}, turns := w.turns[id := 0])
    case Delete(id) => w.(table := w.table.(rows := w.table.rows - {id}))
  }

  ghost function Run(w: World, actions: seq<Action>): World {
    if actions == [] then w else Step(Run(w, actions[..|actions| - 1]), actions[|actions| - 1])
  }

  ghost const START := World(Table(map[], 0), map[], {}, map[], map[])

  /** A pending snapshot names either the current row or one that was replaced for good. */
  ghost predicate SnapshotOk(w: World, p: Pending) {
    && p.snapshot.etag < w.table.nextEtag
    && (p.id in w.table.rows && w.table.rows[p.id].etag == p.snapshot.etag ==> w.table.rows[p.id] == p.snapshot)
    && Proceeds(p.call, p.snapshot.row)
  }

  /** A row's token is the one of the latest acquisition of its thread. */
  ghost predicate RowOk(w: World, id: Id)
    requires id in w.table.rows
  {
    && id in w.created && id in w.turns && w.table.rows[id].etag < w.table.nextEtag
    && (w.table.rows[id].row.lockToken.Some? ==>
          var token := w.table.rows[id].row.lockToken.value;
          token in w.minted && w.minted[token] == (id, w.turns[id]))
  }

  ghost predicate Inv(w: World) {
    && (forall id :: id in w.table.rows ==> RowOk(w, id))
    && (forall pid :: pid in w.pending ==> SnapshotOk(w, w.pending[pid]))
    && (forall token :: token in w.minted ==> w.minted[token].0 in w.turns && w.minted[token].1 <= w.turns[w.minted[token].0])
    && w.turns.Keys == w.created
  }

  lemma RowsStep(w: World, a: Action)
    requires Inv(w)
    ensures forall id :: id in Step(w, a).table.rows ==> RowOk(Step(w, a), id)
  {
    if Accepted(w, a) { assert SnapshotOk(w, w.pending[a.pid]); }
  }

  lemma SnapshotsStep(w: World, a: Action)
    requires Inv(w)
    ensures forall pid :: pid in Step(w, a).pending ==> SnapshotOk(Step(w, a), Step(w, a).pending[pid])
  {}

  lemma InvStep(w: World, a: Action)
    requires Inv(w)
    ensures Inv(Step(w, a))
  {
    RowsStep(w, a);
    SnapshotsStep(w, a);
  }

  lemma {:induction false} InvRun(actions: seq<Action>)
    ensures Inv(Run(START, actions))
  {
    if actions != [] {
      InvRun(actions[..|actions| - 1]);
      InvStep(Run(START, actions[..|actions| - 1]), actions[|actions| - 1]);
    }
  }

  // ---------------------------------------------------------------- every write is the dictionary's

  /** What the dictionary would do, at this instant, for the call a client is in. */
  ghost function Atomic(ts: Threads, p: Pending, now: int, token: Token): Threads {
    match p.call
    case Updating(c) => Update(ts, p.id, c, now).0
    case Acquiring(assistant) => TryAcquire(ts, p.id, assistant, token, now).0
    case Releasing(status, values, owner) => Release(ts, p.id, status, values, owner, now).0
    case Renewing(owner) => Renew(ts, p.id, owner, now).0
    case Resetting(terminal, cutoff) =>
      if p.id in ts && ResetDue(ts[p.id], cutoff) then ts[p.id := ts[p.id].(status := terminal, updatedAt := now)] else ts
  }

  lemma AbsPut(t: Table, id: Id, row: Thread)
    ensures Abs(Put(t, id, row)) == Abs(t)[id := row]
  {}

  /** Onto the row it was decided from, a call writes what the dictionary's method stores. */
  lemma ResultIsAtomic(ts: Threads, p: Pending, now: int, token: Token)
    requires p.id in ts && ts[p.id] == p.snapshot.row && Proceeds(p.call, p.snapshot.row)
    ensures Atomic(ts, p, now, token) == ts[p.id := Result(p.call, p.snapshot.row, now, token)]
  {}

  /**
   In every reachable state, each request either leaves the threads as they are or, being a conditional write
   that the service accepts, has exactly the effect of the dictionary's method at that instant.
   */
  lemma RequestRefinesDictionary(actions: seq<Action>, a: Action)
    requires !a.Create? && !a.Delete?
    ensures var w := Run(START, actions);
            Abs(Step(w, a).table) ==
              if Accepted(w, a) then Atomic(Abs(w.table), w.pending[a.pid], a.now, a.token) else Abs(w.table)
  {
    InvRun(actions);
    var w := Run(START, actions);
    if Accepted(w, a) {
      var p := w.pending[a.pid];
      assert SnapshotOk(w, p) && w.table.rows[p.id] == p.snapshot;
      AbsPut(w.table, p.id, Result(p.call, p.snapshot.row, a.now, a.token));
      ResultIsAtomic(Abs(w.table), p, a.now, a.token);
    }
  }

  /**
   A call that nobody disturbs between its read and its write has exactly the effect of the dictionary's method, or for a
   stale reset frees the row exactly if it is busy and last stamped before the cutoff.
   */
  lemma UndisturbedCallIsAtomic(actions: seq<Action>, pid: Pid, id: Id, call: Call, now: int, token: Token)
    requires id in Run(START, actions).table.rows && (call.Acquiring? ==> token !in Run(START, actions).minted)
    ensures var w := Run(START, actions); var ts, row := Abs(w.table), w.table.rows[id].row;
            Abs(Step(Step(w, Read(pid, id, call)), Send(pid, now, token)).table) ==
              match call
              case Updating(c) => Update(ts, id, c, now).0
              case Acquiring(assistant) => TryAcquire(ts, id, assistant, token, now).0
              case Releasing(status, values, owner) => Release(ts, id, status, values, owner, now).0
              case Renewing(owner) => Renew(ts, id, owner, now).0
              case Resetting(terminal, cutoff) =>
                if terminal in {Idle, Error} && row.status == Busy && row.updatedAt < cutoff
                then ts[id := row.(status := terminal, updatedAt := now)] else ts
  {
    InvRun(actions);
    var w := Run(START, actions);
    assert RowOk(w, id);
    if Proceeds(call, w.table.rows[id].row) {
      var p := Pending(call, id, w.table.rows[id]);
      AbsPut(w.table, id, Result(call, p.snapshot.row, now, token));
      ResultIsAtomic(Abs(w.table), p, now, token);
    }
  }

  // ---------------------------------------------------------------- fencing

  /** The acquisition a call's token stands for, when the call carries one. */
  ghost predicate Carries(call: Call, token: Token) {
    (call.Releasing? && call.owner == Some(token)) || (call.Renewing? && call.renewer == token)
  }

  /**
   Once a newer acquisition of the thread has happened, no release or renewal carrying the older token changes
   anything, even one that read the row while the token was still good.
   */
  lemma OldTokensAreFenced(actions: seq<Action>, a: Action, token: Token)
    requires a.Send?
    ensures var w := Run(START, actions);
            a.pid in w.pending && Carries(w.pending[a.pid].call, token)
            && token in w.minted && w.minted[token].1 < TurnOf(w, w.minted[token].0)
            ==> Step(w, a).table == w.table
  {
    InvRun(actions);
    var w := Run(START, actions);
    if Accepted(w, a) && Carries(w.pending[a.pid].call, token) {
      var p := w.pending[a.pid];
      assert SnapshotOk(w, p) && RowOk(w, p.id);
    }
  }

  ghost predicate Acquires(w: World, a: Action, id: Id) {
    Accepted(w, a) && w.pending[a.pid].call.Acquiring? && w.pending[a.pid].id == id
  }

  /** The writes that can end a held lock: a release, a stale reset, an update that sets the status. */
  ghost predicate Frees(w: World, a: Action, id: Id) {
    Accepted(w, a) && w.pending[a.pid].id == id
    && match w.pending[a.pid].call
       case Releasing(_, _, _) => true
       case Resetting(_, _) => true
       case Updating(c) => c.status.Some?
       case _ => false
  }

  ghost predicate HeldOrGone(w: World, id: Id) {
    id in w.created && (id in w.table.rows ==> w.table.rows[id].row.status == Busy)
  }

  lemma HeldStep(w: World, a: Action, id: Id)
    requires Inv(w) && HeldOrGone(w, id) && !Frees(w, a, id)
    ensures HeldOrGone(Step(w, a), id) && !Acquires(w, a, id)
  {
    if Accepted(w, a) { assert SnapshotOk(w, w.pending[a.pid]); }
  }

  lemma AcquiringHolds(w: World, a: Action, id: Id)
    requires Inv(w) && Acquires(w, a, id)
    ensures HeldOrGone(Step(w, a), id)
  {
    assert SnapshotOk(w, w.pending[a.pid]) && RowOk(w, id);
  }

  /** A thread once acquired stays held, or is deleted, as long as nothing frees it. */
  lemma {:induction false} HeldAlong(actions: seq<Action>, id: Id, start: nat, stop: nat)
    requires start <= stop <= |actions| && HeldOrGone(Run(START, actions[..start]), id)
    requires forall k :: start <= k < stop ==> !Frees(Run(START, actions[..k]), actions[k], id)
    ensures HeldOrGone(Run(START, actions[..stop]), id)
    decreases stop
  {
    if start < stop {
      HeldAlong(actions, id, start, stop - 1);
      InvRun(actions[..stop - 1]);
      HeldStep(Run(START, actions[..stop - 1]), actions[stop - 1], id);
      assert actions[..stop][..stop - 1] == actions[..stop - 1];
    }
  }

  lemma NoSecondAcquisition(actions: seq<Action>, id: Id, i: nat, j: nat)
    requires i < j < |actions| && Acquires(Run(START, actions[..i]), actions[i], id)
    requires forall k :: i < k < j ==> !Frees(Run(START, actions[..k]), actions[k], id)
    requires !Frees(Run(START, actions[..j]), actions[j], id)
    ensures !Acquires(Run(START, actions[..j]), actions[j], id)
  {
    InvRun(actions[..i]);
    AcquiringHolds(Run(START, actions[..i]), actions[i], id);
    assert actions[..i + 1][..i] == actions[..i];
    HeldAlong(actions, id, i + 1, j);
    InvRun(actions[..j]);
    HeldStep(Run(START, actions[..j]), actions[j], id);
  }

  /**
   Between two successful acquisitions of one thread there is a release, a stale reset or a status-setting
   update that succeeded.
   */
  lemma AcquisitionsAreSeparated(actions: seq<Action>, id: Id, i: nat, j: nat)
    requires i < j < |actions|
    requires Acquires(Run(START, actions[..i]), actions[i], id) && Acquires(Run(START, actions[..j]), actions[j], id)
    ensures exists k :: i < k < j && Frees(Run(START, actions[..k]), actions[k], id)
  {
    if forall k :: i < k < j ==> !Frees(Run(START, actions[..k]), actions[k], id) {
      NoSecondAcquisition(actions, id, i, j);
    }
  }

  /** A stale reset writes only onto a row that is busy and last stamped before its cutoff at the instant of the write. */
  lemma ResetHitsOnlyStaleRows(actions: seq<Action>, a: Action)
    ensures var w := Run(START, actions);
            Accepted(w, a) && w.pending[a.pid].call.Resetting? ==>
              var row := w.table.rows[w.pending[a.pid].id].row;
              row.status == Busy && row.updatedAt < w.pending[a.pid].call.cutoff
  {
    InvRun(actions);
    var w := Run(START, actions);
    if Accepted(w, a) { assert SnapshotOk(w, w.pending[a.pid]); }
  }

  /** A write to the thread that the service accepts. */
  ghost predicate WritesTo(w: World, a: Action, id: Id) { Accepted(w, a) && w.pending[a.pid].id == id }

  ghost predicate StampedOrGone(w: World, id: Id, t: int) {
    id in w.created && (id in w.table.rows ==> w.table.rows[id].row.updatedAt == t)
  }

  /** Every accepted write stamps its row. */
  lemma WriteStamps(w: World, a: Action, id: Id)
    requires Inv(w) && WritesTo(w, a, id)
    ensures StampedOrGone(Step(w, a), id, a.now)
  {
    assert RowOk(w, id);
  }

  lemma StampStays(w: World, a: Action, id: Id, t: int)
    requires Inv(w) && StampedOrGone(w, id, t) && !WritesTo(w, a, id)
    ensures StampedOrGone(Step(w, a), id, t)
  {}

  lemma {:induction false} StampedAlong(actions: seq<Action>, id: Id, start: nat, stop: nat, t: int)
    requires start <= stop <= |actions| && StampedOrGone(Run(START, actions[..start]), id, t)
    requires forall k :: start <= k < stop ==> !WritesTo(Run(START, actions[..k]), actions[k], id)
    ensures StampedOrGone(Run(START, actions[..stop]), id, t)
    decreases stop
  {
    if start < stop {
      StampedAlong(actions, id, start, stop - 1, t);
      InvRun(actions[..stop - 1]);
      StampStays(Run(START, actions[..stop - 1]), actions[stop - 1], id, t);
      assert actions[..stop][..stop - 1] == actions[..stop - 1];
    }
  }

  /**
   A reset never frees a lock that was taken or renewed at or after its cutoff: if the last accepted write to the thread
   before an accepted reset was made at `t`, by an acquisition, a renewal or anything else, then `t` lies before the
   reset's cutoff. The reset's query may be older than that write.
   */
  lemma FreshLockIsNeverReset(actions: seq<Action>, id: Id, i: nat, j: nat)
    requires i < j < |actions|
    requires Accepted(Run(START, actions[..i]), actions[i]) && Run(START, actions[..i]).pending[actions[i].pid].id == id
    requires forall k :: i < k < j ==>
               !(Accepted(Run(START, actions[..k]), actions[k]) && Run(START, actions[..k]).pending[actions[k].pid].id == id)
    requires Accepted(Run(START, actions[..j]), actions[j]) && Run(START, actions[..j]).pending[actions[j].pid].id == id
    requires Run(START, actions[..j]).pending[actions[j].pid].call.Resetting?
    ensures actions[i].now < Run(START, actions[..j]).pending[actions[j].pid].call.cutoff
  {
    InvRun(actions[..i]);
    WriteStamps(Run(START, actions[..i]), actions[i], id);
    assert actions[..i + 1][..i] == actions[..i];
    forall k | i < k < j ensures !WritesTo(Run(START, actions[..k]), actions[k], id) {}
    StampedAlong(actions, id, i + 1, j, actions[i].now);
    ResetHitsOnlyStaleRows(actions[..j], actions[j]);
  }

  /** A reset leaves the token in place, so until the next acquisition the old owner's renewal still succeeds. */
  lemma ResetLeavesTokenRenewable(actions: seq<Action>, a: Action, token: Token, later: int)
    ensures var w := Run(START, actions);
            Accepted(w, a) && w.pending[a.pid].call.Resetting?
            && w.table.rows[w.pending[a.pid].id].row.lockToken == Some(token) ==>
              var id := w.pending[a.pid].id;
              Renew(Abs(Step(w, a).table), id, token, later).1 && Abs(Step(w, a).table)[id].status != Busy
  {
    InvRun(actions);
    var w := Run(START, actions);
    if Accepted(w, a) { assert SnapshotOk(w, w.pending[a.pid]); }
  }
}
