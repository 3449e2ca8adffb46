/**
 `AzureTableThreadStore` over a table other clients write to at any moment: `env(k)` is what they do before
 the k-th request of a call. Every row carries an ETag that each write replaces by a never-used one, so a
 conditional write (`If-Match`, section 13.1.1 of RFC 9110) succeeds only on the very row that was read.
 */
module TableStore {
  import opened Common
  import opened ThreadStore

  datatype Entity = Entity(row: Thread, etag: nat)

  datatype Table = Table(rows: map<Id, Entity>, nextEtag: nat)

  datatype Foreign = Write(id: Id, row: Thread) | Remove(id: Id)

  function Put(t: Table, id: Id, row: Thread): Table {
    Table(t.rows[id := Entity(row, t.nextEtag)], t.nextEtag + 1)
  }

  function ForeignStep(t: Table, f: Foreign): Table {
    match f
    case Write(id, row) => Put(t, id, row)
    case Remove(id) => t.(rows := t.rows - {id})
  }

  function ForeignRun(t: Table, fs: seq<Foreign>): Table {
    if fs == [] then t else ForeignStep(ForeignRun(t, fs[..|fs| - 1]), fs[|fs| - 1])
  }

  /** The table after the first `k` visits of the other clients, this client not having written. */
  ghost function Seen(t: Table, env: nat -> seq<Foreign>, k: nat): Table {
    if k == 0 then t else ForeignRun(Seen(t, env, k - 1), env(k - 1))
  }

  function Abs(t: Table): Threads { map id | id in t.rows :: t.rows[id].row }

  ghost predicate Valid(t: Table) { forall id :: id in t.rows ==> t.rows[id].etag < t.nextEtag }

  /** Whatever others did, a row either is the one that was there or carries a new ETag. */
  ghost predicate Evolved(t: Table, after: Table) {
    && Valid(after) && t.nextEtag <= after.nextEtag
    && forall id :: id in after.rows && after.rows[id].etag < t.nextEtag ==> id in t.rows && after.rows[id] == t.rows[id]
  }

  lemma {:induction false} ForeignRunEvolves(t: Table, fs: seq<Foreign>)
    requires Valid(t)
    ensures Evolved(t, ForeignRun(t, fs))
  {
    if fs != [] { ForeignRunEvolves(t, fs[..|fs| - 1]); }
  }

  lemma {:induction false} SeenEvolves(t: Table, env: nat -> seq<Foreign>, j: nat, k: nat)
    requires Valid(t) && j <= k
    ensures Evolved(Seen(t, env, j), Seen(t, env, k))
    decreases k
  {
    if j < k {
      SeenEvolves(t, env, j, k - 1);
      ForeignRunEvolves(Seen(t, env, k - 1), env(k - 1));
    } else if k > 0 {
      SeenEvolves(t, env, k - 1, k - 1);
      ForeignRunEvolves(Seen(t, env, k - 1), env(k - 1));
    }
  }

  // The dictionary's methods with a call's arguments.

  function UpdateAs(id: Id, c: Changes, now: int): Threads -> (Threads, Reply) { (ts: Threads) => Update(ts, id, c, now) }

  function AcquireAs(id: Id, assistant: Option<string>, token: Token, now: int): Threads -> (Threads, Reply) {
    (ts: Threads) => TryAcquire(ts, id, assistant, token, now)
  }

  function ReleaseAs(id: Id, status: Status, values: Option<string>, owner: Option<Token>, now: int): Threads -> (Threads, Reply) {
    (ts: Threads) => Release(ts, id, status, values, owner, now)
  }

  datatype Cas = Written | Modified | NotFound

  class AzureTableThreadStore {
    var table: Table

    constructor (table: Table)
      ensures this.table == table
    {
      this.table := table;
    }

    /** The other clients' visit before one of this client's requests. */
    method Interfere(fs: seq<Foreign>)
      modifies this
      ensures table == ForeignRun(old(table), fs)
    {
      var i := 0;
      while i < |fs|
        invariant 0 <= i <= |fs| && table == ForeignRun(old(table), fs[..i])
      {
        assert fs[..i + 1][..i] == fs[..i];
        table := ForeignStep(table, fs[i]);
        i := i + 1;
      }
      assert fs[..i] == fs;
    }

    /** `update_entity` with `IfNotModified`. */
    method UpdateEntity(id: Id, row: Thread, etag: nat) returns (cas: Cas)
      modifies this
      ensures cas == NotFound <==> id !in old(table).rows
      ensures cas == Written <==> id in old(table).rows && old(table).rows[id].etag == etag
      ensures table == if cas == Written then Put(old(table), id, row) else old(table)
    {
      if id !in table.rows {
        return NotFound;
      }
      if table.rows[id].etag != etag {
        return Modified;
      }
      table := Put(table, id, row);
      cas := Written;
    }

    /** The conditional write ending one round, after another visit of the other clients. */
    method WriteIfUnchanged(id: Id, row: Thread, read: Entity, env: nat -> seq<Foreign>, round: nat, ghost start: Table)
      returns (cas: Cas)
      requires Valid(start) && table == Seen(start, env, 2 * round + 1) && id in table.rows && table.rows[id] == read
      modifies this
      ensures var seen := Seen(start, env, 2 * round + 2);
              && (cas == NotFound <==> id !in seen.rows)
              && (cas == Modified <==> Conflict(start, env, id, round))
              && (cas == Written ==> seen.rows[id] == read && Abs(table) == Abs(seen)[id := row])
              && (cas != Written ==> table == seen)
    {
      Interfere(env(2 * round + 1));
      SameEtagSameRow(start, env, round, id);
      ghost var seen := table;
      assert seen == Seen(start, env, 2 * round + 2);
      cas := UpdateEntity(id, row, read.etag);
      if cas == Written { assert Abs(table) == Abs(seen)[id := row]; }
    }

    /** The write ending a round whose dictionary method would store `row` in place of the row read. */
    method WriteRound(id: Id, row: Thread, read: Entity, env: nat -> seq<Foreign>, fits: Thread -> bool, round: nat,
                      ghost start: Table, ghost atomic: Threads -> (Threads, Reply))
      returns (reply: Option<Reply>, ghost end: nat)
      requires Valid(start) && round < 3 && table == Seen(start, env, 2 * round + 1) && id in table.rows && table.rows[id] == read
      requires fits(row) && Stores(atomic, id, read.row, row) && MissesMissing(atomic, id)
      modifies this
      ensures reply.None? ==> table == Seen(start, env, 2 * round + 2) && Conflict(start, env, id, round)
      ensures reply.Some? ==> !reply.value.Exhausted? && Explained(start, env, id, end, end, table, reply.value, atomic, fits)
    {
      var cas := WriteIfUnchanged(id, row, read, env, round, start);
      end := 2 * round + 2;
      ghost var seen := Seen(start, env, end);
      match cas {
        case Written =>
          assert Abs(seen)[id] == read.row;
          return Some(Stored(row)), end;
        case NotFound =>
          assert id !in Abs(seen);
          return Some(Missing), end;
        case Modified =>
          return None, end;
      }
    }

    /** One round of `update`: `None` if another client got in between. */
    method UpdateRound(id: Id, c: Changes, now: int, env: nat -> seq<Foreign>, fits: Thread -> bool, round: nat, ghost start: Table)
      returns (reply: Option<Reply>, ghost at: nat, ghost end: nat)
      requires Valid(start) && round < 3 && table == Seen(start, env, 2 * round)
      modifies this
      ensures reply.None? ==> table == Seen(start, env, 2 * round + 2) && Conflict(start, env, id, round)
      ensures reply.Some? ==>
                !reply.value.Exhausted? && Explained(start, env, id, at, end, table, reply.value, UpdateAs(id, c, now), fits)
    {
      Interfere(env(2 * round));
      at, end := 2 * round + 1, 2 * round + 1;
      ghost var atomic := UpdateAs(id, c, now);
      assert table == Seen(start, env, 2 * round + 1);
      if id !in table.rows {
        AnsweredAtRead(start, env, id, round, table, Missing, atomic, fits);
        return Some(Missing), at, end;
      }
      var entity := table.rows[id];
      assert Abs(table)[id] == entity.row;
      var replacement := Updated(entity.row, c, now);
      if !fits(replacement) {
        TooLargeAtRead(start, env, id, round, table, replacement, atomic, fits);
        return Some(TooLarge), at, end;
      }
      reply, end := WriteRound(id, replacement, entity, env, fits, round, start, atomic);
      at := end;
    }

    /** `update`: at most three read / build / conditionally-replace rounds. */
    method UpdateThread(id: Id, c: Changes, env: nat -> seq<Foreign>, clock: nat -> int, fits: Thread -> bool)
      returns (reply: Reply, ghost at: nat, ghost end: nat, ghost round: nat)
      requires Valid(table)
      modifies this
      ensures at <= end <= 6
      ensures reply.Stored? ==>
                && at == end && fits(reply.thread)
                && (Abs(table), reply) == Update(Abs(Seen(old(table), env, at)), id, c, clock(round))
      ensures !reply.Stored? ==> table == Seen(old(table), env, end)
      ensures !reply.Stored? && !reply.TooLarge? && !reply.Exhausted? ==>
                (Abs(Seen(old(table), env, at)), reply)
                  == Update(Abs(Seen(old(table), env, at)), id, c, clock(round))
      ensures reply.TooLarge? ==>
                var (_, wanted) := Update(Abs(Seen(old(table), env, at)), id, c, clock(round));
                wanted.Stored? && !fits(wanted.thread)
      ensures reply.Exhausted? ==> forall i :: 0 <= i < 3 ==>
                var read, write := Seen(old(table), env, 2 * i + 1), Seen(old(table), env, 2 * i + 2);
                id in read.rows && id in write.rows && read.rows[id].etag != write.rows[id].etag
    {
      ghost var start := table;
      at, end, round := 0, 0, 0;
      var attempt := 0;
      while attempt < 3
        invariant attempt <= 3 && table == Seen(start, env, 2 * attempt)
        invariant forall i :: 0 <= i < attempt ==> Conflict(start, env, id, i)
      {
        var answer;
        answer, at, end := UpdateRound(id, c, clock(attempt), env, fits, attempt, start);
        round := attempt;
        if answer.Some? {
          return answer.value, at, end, round;
        }
        attempt := attempt + 1;
      }
      ConflictsMean(start, env, id);
      reply, at, end := Exhausted, 6, 6;
    }

    /** One round of `try_acquire_run_lock`: `None` if another client got in between. */
    method AcquireRound(id: Id, assistant: Option<string>, token: Token, now: int,
                        env: nat -> seq<Foreign>, fits: Thread -> bool, round: nat, ghost start: Table)
      returns (reply: Option<Reply>, ghost at: nat, ghost end: nat)
      requires Valid(start) && round < 3 && table == Seen(start, env, 2 * round)
      modifies this
      ensures reply.None? ==> table == Seen(start, env, 2 * round + 2) && Conflict(start, env, id, round)
      ensures reply.Some? ==>
                !reply.value.Exhausted? && Explained(start, env, id, at, end, table, reply.value, AcquireAs(id, assistant, token, now), fits)
    {
      Interfere(env(2 * round));
      at, end := 2 * round + 1, 2 * round + 1;
      ghost var atomic := AcquireAs(id, assistant, token, now);
      assert table == Seen(start, env, 2 * round + 1);
      if id !in table.rows {
        AnsweredAtRead(start, env, id, round, table, Missing, atomic, fits);
        return Some(Missing), at, end;
      }
      var entity := table.rows[id];
      assert Abs(table)[id] == entity.row;
      if entity.row.assistant.Some? && assistant.Some? && entity.row.assistant != assistant {
        AnsweredAtRead(start, env, id, round, table, BoundTo(entity.row.assistant.value), atomic, fits);
        return Some(BoundTo(entity.row.assistant.value)), at, end;
      }
      if entity.row.status == Busy {
        AnsweredAtRead(start, env, id, round, table, Occupied, atomic, fits);
        return Some(Occupied), at, end;
      }
      var replacement := Acquired(entity.row, assistant, token, now);
      if !fits(replacement) {
        TooLargeAtRead(start, env, id, round, table, replacement, atomic, fits);
        return Some(TooLarge), at, end;
      }
      reply, end := WriteRound(id, replacement, entity, env, fits, round, start, atomic);
      at := end;
    }

    /** `try_acquire_run_lock`. The source returns `None` both for a busy thread and after three conflicts. */
    method TryAcquireRunLock(id: Id, assistant: Option<string>, env: nat -> seq<Foreign>, clock: nat -> int,
                             tokens: nat -> Token, fits: Thread -> bool)
      returns (reply: Reply, ghost at: nat, ghost end: nat, ghost round: nat)
      requires Valid(table)
      modifies this
      ensures at <= end <= 6
      ensures reply.Stored? ==>
                && at == end && fits(reply.thread)
                && (Abs(table), reply) == TryAcquire(Abs(Seen(old(table), env, at)), id, assistant, tokens(round), clock(round))
      ensures !reply.Stored? ==> table == Seen(old(table), env, end)
      ensures !reply.Stored? && !reply.TooLarge? && !reply.Exhausted? ==>
                (Abs(Seen(old(table), env, at)), reply)
                  == TryAcquire(Abs(Seen(old(table), env, at)), id, assistant, tokens(round), clock(round))
      ensures reply.TooLarge? ==>
                var (_, wanted) := TryAcquire(Abs(Seen(old(table), env, at)), id, assistant, tokens(round), clock(round));
                wanted.Stored? && !fits(wanted.thread)
      ensures reply.Exhausted? ==> forall i :: 0 <= i < 3 ==>
                var read, write := Seen(old(table), env, 2 * i + 1), Seen(old(table), env, 2 * i + 2);
                id in read.rows && id in write.rows && read.rows[id].etag != write.rows[id].etag
    {
      ghost var start := table;
      at, end, round := 0, 0, 0;
      var attempt := 0;
      while attempt < 3
        invariant attempt <= 3 && table == Seen(start, env, 2 * attempt)
        invariant forall i :: 0 <= i < attempt ==> Conflict(start, env, id, i)
      {
        var answer;
        answer, at, end := AcquireRound(id, assistant, tokens(attempt), clock(attempt), env, fits, attempt, start);
        round := attempt;
        if answer.Some? {
          return answer.value, at, end, round;
        }
        attempt := attempt + 1;
      }
      ConflictsMean(start, env, id);
      reply, at, end := Exhausted, 6, 6;
    }

    /** One round of `release_run_lock`: `None` if another client got in between. */
    method ReleaseRound(id: Id, status: Status, values: Option<string>, owner: Option<Token>, now: int,
                        env: nat -> seq<Foreign>, fits: Thread -> bool, round: nat, ghost start: Table)
      returns (reply: Option<Reply>, ghost at: nat, ghost end: nat)
      requires status != Busy && Valid(start) && round < 3 && table == Seen(start, env, 2 * round)
      modifies this
      ensures reply.None? ==> table == Seen(start, env, 2 * round + 2) && Conflict(start, env, id, round)
      ensures reply.Some? ==>
                !reply.value.Exhausted? && Explained(start, env, id, at, end, table, reply.value, ReleaseAs(id, status, values, owner, now), fits)
    {
      Interfere(env(2 * round));
      at, end := 2 * round + 1, 2 * round + 1;
      ghost var atomic := ReleaseAs(id, status, values, owner, now);
      assert table == Seen(start, env, 2 * round + 1);
      if id !in table.rows {
        AnsweredAtRead(start, env, id, round, table, Missing, atomic, fits);
        return Some(Missing), at, end;
      }
      var entity := table.rows[id];
      assert Abs(table)[id] == entity.row;
      if owner.Some? && entity.row.lockToken != owner {
        AnsweredAtRead(start, env, id, round, table, Stale(entity.row), atomic, fits);
        return Some(Stale(entity.row)), at, end;
      }
      var replacement := Released(entity.row, status, values, now);
      if !fits(replacement) {
        TooLargeAtRead(start, env, id, round, table, replacement, atomic, fits);
        return Some(TooLarge), at, end;
      }
      reply, end := WriteRound(id, replacement, entity, env, fits, round, start, atomic);
      at := end;
    }

    /** `release_run_lock`. Running out of attempts raises `RunLockReleaseError`. */
    method ReleaseRunLock(id: Id, status: Status, values: Option<string>, owner: Option<Token>,
                          env: nat -> seq<Foreign>, clock: nat -> int, fits: Thread -> bool)
      returns (reply: Reply, ghost at: nat, ghost end: nat, ghost round: nat)
      requires Valid(table)
      modifies this
      ensures at <= end <= 6
      ensures reply.Stored? ==>
                && at == end && fits(reply.thread)
                && (Abs(table), reply) == Release(Abs(Seen(old(table), env, at)), id, status, values, owner, clock(round))
      ensures !reply.Stored? ==> table == Seen(old(table), env, end)
      ensures !reply.Stored? && !reply.TooLarge? && !reply.Exhausted? ==>
                (Abs(Seen(old(table), env, at)), reply)
                  == Release(Abs(Seen(old(table), env, at)), id, status, values, owner, clock(round))
      ensures reply.TooLarge? ==>
                var (_, wanted) := Release(Abs(Seen(old(table), env, at)), id, status, values, owner, clock(round));
                wanted.Stored? && !fits(wanted.thread)
      ensures reply.Exhausted? ==> forall i :: 0 <= i < 3 ==>
                var read, write := Seen(old(table), env, 2 * i + 1), Seen(old(table), env, 2 * i + 2);
                id in read.rows && id in write.rows && read.rows[id].etag != write.rows[id].etag
    {
      ghost var start := table;
      at, end, round := 0, 0, 0;
      if status == Busy {
        return Refused, at, end, round;
      }
      var attempt := 0;
      while attempt < 3
        invariant attempt <= 3 && table == Seen(start, env, 2 * attempt)
        invariant forall i :: 0 <= i < attempt ==> Conflict(start, env, id, i)
      {
        var answer;
        answer, at, end := ReleaseRound(id, status, values, owner, clock(attempt), env, fits, attempt, start);
        round := attempt;
        if answer.Some? {
          return answer.value, at, end, round;
        }
        attempt := attempt + 1;
      }
      ConflictsMean(start, env, id);
      reply, at, end := Exhausted, 6, 6;
    }

    /** One row of the reset pass: other clients first, then the conditional merge against the queried ETag. */
    method ResetRow(id: Id, queried: Entity, status: Status, fs: seq<Foreign>, now: int,
                    ghost start: Table, ghost trace: seq<Event>, ghost cutoff: int, ghost query: Table)
      returns (written: bool, ghost trace': seq<Event>)
      requires Traced(start, trace, table, cutoff, status) && Evolved(query, table)
      requires id in query.rows && query.rows[id] == queried && queried.etag < query.nextEtag && ResetDue(queried.row, cutoff)
      modifies this
      ensures Traced(start, trace', table, cutoff, status) && Evolved(query, table)
      ensures ResetCount(trace') == ResetCount(trace) + if written then 1 else 0
      ensures fs == [] && id in old(table).rows && old(table).rows[id] == queried ==>
                && written && table == Put(old(table), id, queried.row.(status := status, updatedAt := now))
    {
      ghost var before := table;
      Interfere(fs);
      ForeignRunEvolves(before, fs);
      ReplayNext(start, trace, Others(fs), cutoff, status);
      trace' := trace + [Others(fs)];
      var cas := UpdateEntity(id, queried.row.(status := status, updatedAt := now), queried.etag);
      written := cas == Written;
      if written {
        ReplayNext(start, trace', Reset(id, now), cutoff, status);
        trace' := trace' + [Reset(id, now)];
      }
    }

    /**
     `reset_stale_locks`: query once, then reset row by row, each only if it is still the row queried. `None` is the
     `ValueError` for a negative age or a status that is neither idle nor error.
     */
    method ResetStaleLocks(olderThan: int, status: Status, env: nat -> seq<Foreign>, clock: nat -> int)
      returns (count: Option<nat>, ghost trace: seq<Event>)
      requires Valid(table)
      modifies this
      ensures count.None? <==> olderThan < 0 || status !in {Idle, Error}
      ensures count.None? ==> table == old(table)
      ensures count.Some? ==> table == Replay(old(table), trace, status) && count.value == ResetCount(trace)
      ensures count.Some? ==> forall i :: 0 <= i < |trace| && trace[i].Reset? ==>
                var rows := Replay(old(table), trace[..i], status).rows;
                && trace[i].id in rows && rows[trace[i].id].row.status == Busy
                && rows[trace[i].id].row.updatedAt < clock(0) - olderThan
      ensures count.Some? && (forall k :: env(k) == []) ==> forall id :: id in old(table).rows ==>
                var row := old(table).rows[id].row;
                && id in table.rows
                && (row.status == Busy && clock(0) - row.updatedAt > olderThan ==> table.rows[id].row.status == status)
                && (row.status != Busy || clock(0) - row.updatedAt <= olderThan ==> table.rows[id] == old(table).rows[id])
    {
      if olderThan < 0 || (status != Idle && status != Error) {
        return None, [];
      }
      var cutoff := clock(0) - olderThan;
      ghost var start := table;
      Interfere(env(0));
      ForeignRunEvolves(start, env(0));
      ReplayNext(start, [], Others(env(0)), cutoff, status);
      var queried := table.rows;
      var due := set id | id in queried && queried[id].row.status == Busy && queried[id].row.updatedAt < cutoff;
      var resets;
      resets, trace := ResetRows(queried, due, status, env, clock, start, [] + [Others(env(0))], cutoff);
      count := Some(resets);
    }

    /** The loop over the queried rows that are due. */
    method ResetRows(queried: map<Id, Entity>, due: set<Id>, status: Status, env: nat -> seq<Foreign>, clock: nat -> int,
                     ghost start: Table, ghost trace: seq<Event>, ghost cutoff: int)
      returns (count: nat, ghost trace': seq<Event>)
      requires Valid(table) && table.rows == queried && due <= queried.Keys
      requires forall id :: id in due ==> ResetDue(queried[id].row, cutoff)
      requires Traced(start, trace, table, cutoff, status) && ResetCount(trace) == 0
      modifies this
      ensures Traced(start, trace', table, cutoff, status) && count == ResetCount(trace')
      ensures (forall k :: env(k) == []) ==> QuietProgress(old(table), table, due, {}, status)
    {
      ghost var query := table;
      trace' := trace;
      var todo := due;
      count := 0;
      var step := 1;
      while todo != {}
        invariant todo <= due && Evolved(query, table)
        invariant Traced(start, trace', table, cutoff, status) && count == ResetCount(trace')
        invariant (forall k :: env(k) == []) ==> QuietProgress(query, table, due, todo, status)
        decreases |todo|
      {
        var id :| id in todo;
        ghost var before := table;
        assert due <= query.rows.Keys;
        if env(step) == [] { QuietNext(query, before, due, todo, id, status, clock(step)); }
        var written;
        written, trace' := ResetRow(id, queried[id], status, env(step), clock(step), start, trace', cutoff, query);
        if written {
          count := count + 1;
        }
        todo := todo - {id};
        step := step + 1;
      }
    }

    /** `renew_run_lock`: one read, one conditional merge. `None` is the not-found error, where the dictionary says false. */
    method RenewRunLock(id: Id, owner: Token, env: nat -> seq<Foreign>, now: int)
      returns (renewed: Option<bool>, ghost at: nat)
      requires Valid(table)
      modifies this
      ensures at <= 2
      ensures renewed == Some(true) ==> (Abs(table), true) == Renew(Abs(Seen(old(table), env, at)), id, owner, now)
      ensures renewed != Some(true) ==> table == Seen(old(table), env, at)
      ensures renewed == Some(false) ==> (!Renew(Abs(Seen(old(table), env, at)), id, owner, now).1 && at == 1)
                                         || Conflict(old(table), env, id, 0)
      ensures renewed == None ==> id !in table.rows && Renew(Abs(Seen(old(table), env, at)), id, owner, now) == (Abs(table), false)
      ensures renewed != None ==> id in table.rows
    {
      ghost var start := table;
      Interfere(env(0));
      at := 1;
      assert Seen(start, env, 1) == table;
      if id !in table.rows {
        return None, at;
      }
      var entity := table.rows[id];
      if entity.row.lockToken != Some(owner) {
        return Some(false), at;
      }
      Interfere(env(1));
      at := 2;
      SameEtagSameRow(start, env, 0, id);
      ghost var before := table;
      var cas := UpdateEntity(id, Renewed(entity.row, now), entity.etag);
      match cas {
        case Written =>
          assert Abs(table) == Abs(before)[id := Renewed(entity.row, now)];
          return Some(true), at;
        case NotFound => return None, at;
        case Modified => return Some(false), at;
      }
    }
  }

  /** Between the read and the conditional write of round `i`, another client rewrote the row. */
  ghost predicate Conflict(start: Table, env: nat -> seq<Foreign>, id: Id, i: nat) {
    var read, write := Seen(start, env, 2 * i + 1), Seen(start, env, 2 * i + 2);
    id in read.rows && id in write.rows && read.rows[id].etag != write.rows[id].etag
  }

  lemma ConflictsMean(start: Table, env: nat -> seq<Foreign>, id: Id)
    requires forall i :: 0 <= i < 3 ==> Conflict(start, env, id, i)
    ensures forall i :: 0 <= i < 3 ==>
              var read, write := Seen(start, env, 2 * i + 1), Seen(start, env, 2 * i + 2);
              id in read.rows && id in write.rows && read.rows[id].etag != write.rows[id].etag
  {
    forall i | 0 <= i < 3
      ensures var read, write := Seen(start, env, 2 * i + 1), Seen(start, env, 2 * i + 2);
              id in read.rows && id in write.rows && read.rows[id].etag != write.rows[id].etag
    {
      assert Conflict(start, env, id, i);
    }
  }

  lemma SameEtagSameRow(start: Table, env: nat -> seq<Foreign>, i: nat, id: Id)
    requires Valid(start)
    ensures var read, write := Seen(start, env, 2 * i + 1), Seen(start, env, 2 * i + 2);
            id in read.rows && id in write.rows && read.rows[id].etag == write.rows[id].etag ==>
              write.rows[id] == read.rows[id]
  {
    SeenEvolves(start, env, 2 * i + 1, 2 * i + 2);
    SeenEvolves(start, env, 0, 2 * i + 1);
  }

  /**
   How a call is explained by the dictionary: `atomic` is the dictionary method with the call's arguments,
   `at` counts the foreign visits before its instant, `end` those before the call returned. A call that
   stores does it at that instant and is the last thing it does; any other reply is the dictionary's own at
   an instant the call saw, and the call wrote nothing; a thread is too large only if what the dictionary would
   store does not fit; running out of attempts means three conflicts.
   */
  ghost predicate Explained(start: Table, env: nat -> seq<Foreign>, id: Id, at: nat, end: nat, after: Table, reply: Reply,
                            atomic: Threads -> (Threads, Reply), fits: Thread -> bool)
  {
    var seen := Seen(start, env, at);
    && at <= end <= 6
    && if reply.Stored? then at == end && (Abs(after), reply) == atomic(Abs(seen)) && fits(reply.thread)
       else
         && after == Seen(start, env, end)
         && (reply != TooLarge && reply != Exhausted ==> (Abs(seen), reply) == atomic(Abs(seen)))
         && (reply == TooLarge ==> atomic(Abs(seen)).1.Stored? && !fits(atomic(Abs(seen)).1.thread))
         && (reply == Exhausted ==> forall i :: 0 <= i < 3 ==> Conflict(start, env, id, i))
  }

  /** Where it finds this row, the dictionary's method stores that one in its place. */
  ghost predicate Stores(atomic: Threads -> (Threads, Reply), id: Id, row: Thread, replacement: Thread) {
    forall ts: Threads :: id in ts && ts[id] == row ==> atomic(ts) == (ts[id := replacement], Stored(replacement))
  }

  ghost predicate MissesMissing(atomic: Threads -> (Threads, Reply), id: Id) {
    forall ts: Threads :: id !in ts ==> atomic(ts) == (ts, Missing)
  }

  lemma AnsweredAtRead(start: Table, env: nat -> seq<Foreign>, id: Id, round: nat, table: Table, reply: Reply,
                       atomic: Threads -> (Threads, Reply), fits: Thread -> bool)
    requires round < 3 && table == Seen(start, env, 2 * round + 1) && (Abs(table), reply) == atomic(Abs(table))
    requires !reply.Stored? && !reply.TooLarge? && !reply.Exhausted?
    ensures Explained(start, env, id, 2 * round + 1, 2 * round + 1, table, reply, atomic, fits)
  {}

  lemma TooLargeAtRead(start: Table, env: nat -> seq<Foreign>, id: Id, round: nat, table: Table, replacement: Thread,
                       atomic: Threads -> (Threads, Reply), fits: Thread -> bool)
    requires round < 3 && table == Seen(start, env, 2 * round + 1) && id in table.rows
    requires Stores(atomic, id, table.rows[id].row, replacement) && !fits(replacement)
    ensures Explained(start, env, id, 2 * round + 1, 2 * round + 1, table, TooLarge, atomic, fits)
  {
    assert Abs(table)[id] == table.rows[id].row;
  }

  // ---------------------------------------------------------------- traces of a reset pass

  datatype Event = Others(writes: seq<Foreign>) | Reset(id: Id, now: int)

  ghost predicate ResetDue(row: Thread, cutoff: int) { row.status == Busy && row.updatedAt < cutoff }

  ghost function ReplayStep(t: Table, e: Event, status: Status): Table {
    match e
    case Others(fs) => ForeignRun(t, fs)
    case Reset(id, now) =>
      if id in t.rows then Put(t, id, t.rows[id].row.(status := status, updatedAt := now)) else t
  }

  ghost function Replay(t: Table, trace: seq<Event>, status: Status): Table {
    if trace == [] then t else ReplayStep(Replay(t, trace[..|trace| - 1], status), trace[|trace| - 1], status)
  }

  /** Every reset hits, at the very instant of its write, a row that is busy and older than the cutoff. */
  ghost predicate OnlyStaleResets(t: Table, trace: seq<Event>, cutoff: int, status: Status) {
    forall i :: 0 <= i < |trace| && trace[i].Reset? ==> HitsStale(Replay(t, trace[..i], status), trace[i], cutoff)
  }

  ghost predicate HitsStale(t: Table, e: Event, cutoff: int)
    requires e.Reset?
  {
    e.id in t.rows && ResetDue(t.rows[e.id].row, cutoff)
  }

  /** The table is what the trace says, and every reset in it was due. */
  ghost predicate Traced(start: Table, trace: seq<Event>, table: Table, cutoff: int, status: Status) {
    table == Replay(start, trace, status) && OnlyStaleResets(start, trace, cutoff, status)
  }

  /** Without other clients, the rows handled so far have the terminal status and the rest are as queried. */
  ghost predicate QuietProgress(query: Table, table: Table, due: set<Id>, todo: set<Id>, status: Status) {
    forall id :: id in query.rows ==>
      && id in table.rows
      && (id in due && id !in todo ==> table.rows[id].row.status == status)
      && (id !in due || id in todo ==> table.rows[id] == query.rows[id])
  }

  lemma QuietNext(query: Table, table: Table, due: set<Id>, todo: set<Id>, id: Id, status: Status, now: int)
    requires id in todo && id in query.rows && todo <= due
    ensures QuietProgress(query, table, due, todo, status) ==>
              QuietProgress(query, Put(table, id, query.rows[id].row.(status := status, updatedAt := now)), due, todo - {id}, status)
  {}

  ghost function ResetCount(trace: seq<Event>): nat {
    if trace == [] then 0 else ResetCount(trace[..|trace| - 1]) + (if trace[|trace| - 1].Reset? then 1 else 0)
  }

  lemma ReplayNext(t: Table, trace: seq<Event>, e: Event, cutoff: int, status: Status)
    requires OnlyStaleResets(t, trace, cutoff, status)
    requires e.Reset? ==> HitsStale(Replay(t, trace, status), e, cutoff)
    ensures Replay(t, trace + [e], status) == ReplayStep(Replay(t, trace, status), e, status)
    ensures OnlyStaleResets(t, trace + [e], cutoff, status)
    ensures ResetCount(trace + [e]) == ResetCount(trace) + (if e.Reset? then 1 else 0)
  {
    var longer := trace + [e];
    assert longer[..|trace|] == trace;
    forall i | 0 <= i < |longer| && longer[i].Reset? ensures HitsStale(Replay(t, longer[..i], status), longer[i], cutoff) {
      if i < |trace| { assert longer[..i] == trace[..i]; }
    }
  }
}
