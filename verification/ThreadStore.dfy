/** The thread store's contract: a locked dictionary, and the class that is one. */
module ThreadStore {
  import opened Common

  type Id = string
  type Token = string

  datatype Status = Idle | Busy | Interrupted | Error

  /** A thread without its id; JSON payloads are abstract text. Times are in seconds. */
  datatype Thread = Thread(
    createdAt: int, updatedAt: int, metadata: Option<string>, status: Status, values: Option<string>,
    assistant: Option<string>, interrupts: string, lockToken: Option<Token>, lockExpires: Option<int>)

  type Threads = map<Id, Thread>

  const LEASE_SECONDS := 60

  /** The optional arguments of `update`; `None` leaves a field alone. */
  datatype Changes = Changes(
    metadata: Option<string>, status: Option<Status>, values: Option<string>, interrupts: Option<string>,
    assistant: Option<string>)

  /** What a call tells its caller. `Stale` is a release ignored for its owner token. */
  datatype Reply =
    | Stored(thread: Thread)
    | Stale(thread: Thread)
    | Occupied
    | BoundTo(assistant: string)
    | Missing
    | Refused
    | TooLarge
    | Exhausted

  function Or<T>(change: Option<T>, current: Option<T>): Option<T> {
    if change.Some? then change else current
  }

  function Updated(t: Thread, c: Changes, now: int): Thread {
    t.(updatedAt := now, metadata := Or(c.metadata, t.metadata), status := c.status.GetOr(t.status),
       values := Or(c.values, t.values), interrupts := c.interrupts.GetOr(t.interrupts),
       assistant := Or(c.assistant, t.assistant))
  }

  function Acquired(t: Thread, assistant: Option<string>, token: Token, now: int): Thread {
    t.(status := Busy, updatedAt := now, lockToken := Some(token), lockExpires := Some(now + LEASE_SECONDS),
       assistant := if t.assistant.None? then assistant else t.assistant)
  }

  function Released(t: Thread, status: Status, values: Option<string>, now: int): Thread {
    t.(status := status, updatedAt := now, lockToken := None, lockExpires := None, values := Or(values, t.values))
  }

  function Renewed(t: Thread, now: int): Thread {
    t.(updatedAt := now, lockExpires := Some(now + LEASE_SECONDS))
  }

  // ---------------------------------------------------------------- the dictionary's methods, as functions

  function Update(ts: Threads, id: Id, c: Changes, now: int): (Threads, Reply) {
    if id !in ts then (ts, Missing)
    else var t := Updated(ts[id], c, now); (ts[id := t], Stored(t))
  }

  /** Why a thread cannot be acquired, if it cannot. The assistant is checked before the status. */
  function Obstacle(t: Thread, assistant: Option<string>): Option<Reply> {
    if t.assistant.Some? && assistant.Some? && t.assistant != assistant then Some(BoundTo(t.assistant.value))
    else if t.status == Busy then Some(Occupied)
    else None
  }

  function TryAcquire(ts: Threads, id: Id, assistant: Option<string>, token: Token, now: int): (Threads, Reply) {
    if id !in ts then (ts, Missing)
    else if Obstacle(ts[id], assistant).Some? then (ts, Obstacle(ts[id], assistant).value)
    else var t := Acquired(ts[id], assistant, token, now); (ts[id := t], Stored(t))
  }

  function Release(ts: Threads, id: Id, status: Status, values: Option<string>, owner: Option<Token>, now: int): (Threads, Reply) {
    if status == Busy then (ts, Refused)
    else if id !in ts then (ts, Missing)
    else if owner.Some? && ts[id].lockToken != owner then (ts, Stale(ts[id]))
    else var t := Released(ts[id], status, values, now); (ts[id := t], Stored(t))
  }

  function Renew(ts: Threads, id: Id, owner: Token, now: int): (Threads, bool) {
    if id !in ts || ts[id].lockToken != Some(owner) then (ts, false)
    else (ts[id := Renewed(ts[id], now)], true)
  }

  // ---------------------------------------------------------------- what each method does to which field

  /** An update stamps the row and replaces exactly the fields given; the lock is not its business. */
  lemma UpdateGives(ts: Threads, id: Id, c: Changes, now: int)
    ensures var (after, reply) := Update(ts, id, c, now);
            if id !in ts then after == ts && reply == Missing
            else
              && id in after && after == ts[id := after[id]] && reply == Stored(after[id])
              && var t, u := ts[id], after[id];
                 && u.updatedAt == now
                 && u.metadata == (if c.metadata.Some? then c.metadata else t.metadata)
                 && u.status == (if c.status.Some? then c.status.value else t.status)
                 && u.values == (if c.values.Some? then c.values else t.values)
                 && u.interrupts == (if c.interrupts.Some? then c.interrupts.value else t.interrupts)
                 && u.assistant == (if c.assistant.Some? then c.assistant else t.assistant)
                 && u.createdAt == t.createdAt && u.lockToken == t.lockToken && u.lockExpires == t.lockExpires
  {}

  /**
   A thread is acquired exactly if it is not busy and not bound to another assistant, which is looked at first. It is
   then busy, stamped, under the new token for a minute, and bound if it was not.
   */
  lemma AcquireGives(ts: Threads, id: Id, assistant: Option<string>, token: Token, now: int)
    ensures var (after, reply) := TryAcquire(ts, id, assistant, token, now);
            if id !in ts then after == ts && reply == Missing
            else if ts[id].assistant.Some? && assistant.Some? && ts[id].assistant.value != assistant.value then
              after == ts && reply == BoundTo(ts[id].assistant.value)
            else if ts[id].status == Busy then after == ts && reply == Occupied
            else
              && id in after && after == ts[id := after[id]] && reply == Stored(after[id])
              && var t, u := ts[id], after[id];
                 && u.status == Busy && u.updatedAt == now && u.lockToken == Some(token) && u.lockExpires == Some(now + 60)
                 && u.assistant == (if t.assistant.Some? then t.assistant else assistant)
                 && u.createdAt == t.createdAt && u.metadata == t.metadata && u.values == t.values && u.interrupts == t.interrupts
  {}

  /** A release acts without an owner token or with the current one; it stores the given values and drops the lock. */
  lemma ReleaseGives(ts: Threads, id: Id, status: Status, values: Option<string>, owner: Option<Token>, now: int)
    ensures var (after, reply) := Release(ts, id, status, values, owner, now);
            if status == Busy then after == ts && reply == Refused
            else if id !in ts then after == ts && reply == Missing
            else if owner.Some? && ts[id].lockToken != owner then after == ts && reply == Stale(ts[id])
            else
              && id in after && after == ts[id := after[id]] && reply == Stored(after[id])
              && var t, u := ts[id], after[id];
                 && u.status == status && u.updatedAt == now && u.lockToken == None && u.lockExpires == None
                 && u.values == (if values.Some? then values else t.values)
                 && u.createdAt == t.createdAt && u.metadata == t.metadata && u.assistant == t.assistant
                 && u.interrupts == t.interrupts
  {}

  /** A renewal by the current token moves the stamp and the expiry, and nothing else. */
  lemma RenewGives(ts: Threads, id: Id, owner: Token, now: int)
    ensures var (after, renewed) := Renew(ts, id, owner, now);
            && (renewed <==> id in ts && ts[id].lockToken == Some(owner))
            && (!renewed ==> after == ts)
            && (renewed ==>
                  && id in after && after == ts[id := after[id]]
                  && var t, u := ts[id], after[id];
                     && u.updatedAt == now && u.lockExpires == Some(now + 60)
                     && u.createdAt == t.createdAt && u.metadata == t.metadata && u.status == t.status && u.values == t.values
                     && u.assistant == t.assistant && u.interrupts == t.interrupts && u.lockToken == t.lockToken)
  {}

  /** Acquiring then releasing with the token received frees the thread; any other token leaves it held. */
  lemma AcquireReleaseRoundTrip(ts: Threads, id: Id, assistant: Option<string>, token: Token, now: int,
                                status: Status, owner: Token, later: int)
    requires status != Busy && TryAcquire(ts, id, assistant, token, now).1.Stored?
    ensures var held := TryAcquire(ts, id, assistant, token, now).0;
            var (after, reply) := Release(held, id, status, None, Some(owner), later);
            if owner == token then after[id].status == status && after[id].lockToken == None
                                   && TryAcquire(after, id, assistant, token, later).1.Stored?
            else after == held && reply.Stale? && TryAcquire(after, id, assistant, token, later).1 == Occupied
  {
    var held := TryAcquire(ts, id, assistant, token, now).0;
    assert held[id] == Acquired(ts[id], assistant, token, now);
  }

  /** `InMemoryThreadStore`: every method runs under one re-entrant lock, so each is one atomic step. */
  class InMemoryThreadStore {
    var threads: Threads

    constructor ()
      ensures threads == map[]
    {
      threads := map[];
    }

    method UpdateThread(id: Id, c: Changes, now: int) returns (reply: Reply)
      modifies this
      ensures (threads, reply) == Update(old(threads), id, c, now)
    {
      if id !in threads {
        return Missing;
      }
      var updated := threads[id].(updatedAt := now);
      if c.metadata.Some? { updated := updated.(metadata := c.metadata); }
      if c.status.Some? { updated := updated.(status := c.status.value); }
      if c.values.Some? { updated := updated.(values := c.values); }
      if c.interrupts.Some? { updated := updated.(interrupts := c.interrupts.value); }
      if c.assistant.Some? { updated := updated.(assistant := c.assistant); }
      threads := threads[id := updated];
      reply := Stored(updated);
    }

    method TryAcquireRunLock(id: Id, assistant: Option<string>, token: Token, now: int) returns (reply: Reply)
      modifies this
      ensures (threads, reply) == TryAcquire(old(threads), id, assistant, token, now)
    {
      if id !in threads {
        return Missing;
      }
      var existing := threads[id];
      if existing.assistant.Some? && assistant.Some? && existing.assistant != assistant {
        return BoundTo(existing.assistant.value);
      }
      if existing.status == Busy {
        return Occupied;
      }
      var updated := existing.(status := Busy, updatedAt := now, lockToken := Some(token),
                               lockExpires := Some(now + LEASE_SECONDS));
      if existing.assistant.None? && assistant.Some? {
        updated := updated.(assistant := assistant);
      }
      threads := threads[id := updated];
      reply := Stored(updated);
    }

    method ReleaseRunLock(id: Id, status: Status, values: Option<string>, owner: Option<Token>, now: int)
      returns (reply: Reply)
      modifies this
      ensures (threads, reply) == Release(old(threads), id, status, values, owner, now)
    {
      if status == Busy {
        return Refused;
      }
      if id !in threads {
        return Missing;
      }
      var existing := threads[id];
      if owner.Some? && existing.lockToken != owner {
        return Stale(existing);
      }
      var updated := existing.(status := status, updatedAt := now, lockToken := None, lockExpires := None);
      if values.Some? {
        updated := updated.(values := values);
      }
      threads := threads[id := updated];
      reply := Stored(updated);
    }

    method RenewRunLock(id: Id, owner: Token, now: int) returns (renewed: bool)
      modifies this
      ensures (threads, renewed) == Renew(old(threads), id, owner, now)
    {
      if id !in threads || threads[id].lockToken != Some(owner) {
        return false;
      }
      threads := threads[id := threads[id].(updatedAt := now, lockExpires := Some(now + LEASE_SECONDS))];
      renewed := true;
    }
  }
}
