/** The server-sent-event generator: which frames and side effects it has, in which order, whatever fails. */
module SseStream {
  import opened Common

  /** `Cancelled` and `Exit` are asyncio's cancellation and generator exit; `Fatal` is outside `Exception`. */
  datatype Kind = Cancelled | Exit | Failure | Fatal

  datatype Exn = Exn(kind: Kind, code: nat)

  /** One step of the graph iteration; the source is exhausted after its last pull. */
  datatype Pull = Event | Unformattable(exn: Exn) | Breaks(exn: Exn)

  /**
   Everything around the generator. `replies[n]` is what the consumer throws in at the n-th frame, `guard`, `close`
   and `release` how the final check, `aclose` and the lock release fail, if they do.
   */
  datatype Env = Env(prime: bool, maxEvents: int, pulls: seq<Pull>, replies: seq<Option<Exn>>, guard: Option<Exn>,
                     close: Option<Exn>, locked: bool, release: Option<Exn>)

  datatype Out =
    | Prime | Data(index: nat) | LimitError | FailError
    | Closed | ReleaseTried | Observed(error: Option<Exn>) | EndFrame

  const LIMIT := Exn(Failure, 0)

  function Reply(env: Env, n: nat): Option<Exn> {
    if n < |env.replies| then env.replies[n] else None
  }

  predicate CancelLike(e: Option<Exn>) { e.Some? && (e.value.kind.Cancelled? || e.value.kind.Exit?) }

  // ---------------------------------------------------------------- frames

  /** How the `try` with its handlers ends: frames so far, `stream_error`, and the exception on its way out. */
  datatype Body = Body(frames: seq<Out>, error: Option<Exn>, pending: Option<Exn>)

  /** The `except` clauses. */
  function Handled(env: Env, frames: seq<Out>, exn: Exn): Body {
    if exn.kind.Failure? then Body(frames + [FailError], Some(exn), Reply(env, |frames|))
    else Body(frames, Some(exn), Some(exn))
  }

  function Iterated(env: Env, i: nat, frames: seq<Out>): Body
    decreases |env.pulls| - i
  {
    if i >= |env.pulls| then
      if env.guard.Some? then Handled(env, frames, env.guard.value) else Body(frames, None, None)
    else if env.pulls[i].Breaks? then Handled(env, frames, env.pulls[i].exn)
    else if i >= env.maxEvents then
      var sent := frames + [LimitError];
      if Reply(env, |frames|).Some? then Handled(env, sent, Reply(env, |frames|).value) else Body(sent, Some(LIMIT), None)
    else if env.pulls[i].Unformattable? then Handled(env, frames, env.pulls[i].exn)
    else
      var sent := frames + [Data(i)];
      if Reply(env, |frames|).Some? then Handled(env, sent, Reply(env, |frames|).value) else Iterated(env, i + 1, sent)
  }

  function BodyOf(env: Env): Body {
    if !env.prime then Iterated(env, 0, [])
    else if Reply(env, 0).Some? then Handled(env, [Prime], Reply(env, 0).value)
    else Iterated(env, 0, [Prime])
  }

  /** The handlers, once an exception has left the `try` block. */
  method Handle(env: Env, frames: seq<Out>, exn: Exn) returns (body: Body)
    ensures body == Handled(env, frames, exn)
  {
    match exn.kind {
      case Cancelled => return Body(frames, Some(exn), Some(exn));
      case Exit => return Body(frames, Some(exn), Some(exn));
      case Failure =>
        var sent := frames + [FailError];
        return Body(sent, Some(exn), Reply(env, |frames|));
      case Fatal => return Body(frames, Some(exn), Some(exn));
    }
  }

  method RunBody(env: Env) returns (body: Body)
    ensures body == BodyOf(env)
  {
    var frames: seq<Out> := [];
    if env.prime {
      frames := [Prime];
      var reply := Reply(env, 0);
      if reply.Some? {
        body := Handle(env, frames, reply.value);
        return;
      }
    }
    var count := 0;
    while count < |env.pulls|
      invariant count <= |env.pulls|
      invariant BodyOf(env) == Iterated(env, count, frames)
    {
      if env.pulls[count].Breaks? {
        body := Handle(env, frames, env.pulls[count].exn);
        return;
      }
      if count >= env.maxEvents {
        var reply := Reply(env, |frames|);
        frames := frames + [LimitError];
        if reply.Some? {
          body := Handle(env, frames, reply.value);
          return;
        }
        return Body(frames, Some(LIMIT), None);
      }
      if env.pulls[count].Unformattable? {
        body := Handle(env, frames, env.pulls[count].exn);
        return;
      }
      var reply := Reply(env, |frames|);
      frames := frames + [Data(count)];
      if reply.Some? {
        body := Handle(env, frames, reply.value);
        return;
      }
      count := count + 1;
    }
    if env.guard.Some? {
      body := Handle(env, frames, env.guard.value);
      return;
    }
    return Body(frames, None, None);
  }

  // ---------------------------------------------------------------- cleanup

  function ReleaseError(env: Env): Option<Exn> { if env.locked then env.release else None }

  /** The observer is told the first error there was. */
  function Terminal(env: Env): Option<Exn> {
    if BodyOf(env).error.Some? then BodyOf(env).error
    else if env.close.Some? then env.close
    else ReleaseError(env)
  }

  /** `aclose` failing replaces what is on its way out. */
  predicate CloseRaises(env: Env) {
    var primary := BodyOf(env).error;
    if CancelLike(env.close) then !CancelLike(primary)
    else env.close.Some? && env.close.value.kind.Fatal? && primary.None?
  }

  predicate ReleaseRaises(env: Env) {
    var primary := BodyOf(env).error;
    || (CancelLike(ReleaseError(env)) && !CancelLike(env.close) && !CancelLike(primary))
    || (ReleaseError(env).Some? && primary.None? && env.close.None?)
  }

  /** The exception the generator ends with. */
  function Escaping(env: Env): Option<Exn> {
    if ReleaseRaises(env) then ReleaseError(env)
    else if CloseRaises(env) then env.close
    else BodyOf(env).pending
  }

  function TraceOf(env: Env): seq<Out> {
    BodyOf(env).frames + [Closed] + (if env.locked then [ReleaseTried] else [])
    + [Observed(Terminal(env))] + (if Escaping(env).None? then [EndFrame] else [])
  }

  /** The nested `finally` blocks; `pending` is the exception on its way out when they start. */
  method CleanUp(env: Env, primary: Option<Exn>, pending: Option<Exn>) returns (acts: seq<Out>, raised: Option<Exn>)
    requires primary == BodyOf(env).error && pending == BodyOf(env).pending
    ensures acts == [Closed] + (if env.locked then [ReleaseTried] else []) + [Observed(Terminal(env))]
    ensures raised == Escaping(env)
  {
    var streamError := primary;
    var cleanupCancellation: Option<Exn> := None;
    raised := pending;
    acts := [Closed];
    if env.close.Some? {
      if CancelLike(env.close) {
        cleanupCancellation := env.close;
      }
      if CancelLike(env.close) && !CancelLike(primary) {
        if primary.None? {
          streamError := env.close;
        }
        raised := env.close;
      } else if primary.None? {
        streamError := env.close;
        if !env.close.value.kind.Failure? {
          raised := env.close;
        }
      }
    }
    if env.locked {
      acts := acts + [ReleaseTried];
      if env.release.Some? {
        if CancelLike(env.release) && cleanupCancellation.None? && !CancelLike(primary) {
          if streamError.None? {
            streamError := env.release;
          }
          raised := env.release;
        } else if primary.None? && streamError.None? {
          streamError := env.release;
          raised := env.release;
        }
      }
    }
    var terminalError := if primary.Some? then primary else streamError;
    acts := acts + [Observed(terminalError)];
  }

  /** `_sse_event_stream`. */
  method SseEventStream(env: Env) returns (trace: seq<Out>, raised: Option<Exn>)
    ensures trace == TraceOf(env) && raised == Escaping(env)
  {
    var body := RunBody(env);
    var acts;
    acts, raised := CleanUp(env, body.error, body.pending);
    trace := body.frames + acts;
    if raised.None? {
      trace := trace + [EndFrame];
    }
  }

  // ---------------------------------------------------------------- what every trace looks like

  function DataFrames(n: nat): (frames: seq<Out>)
    ensures |frames| == n
  {
    if n == 0 then [] else DataFrames(n - 1) + [Data(n - 1)]
  }

  lemma {:induction false} DataFramesAre(n: nat, i: nat)
    requires i < n
    ensures DataFrames(n)[i] == Data(i)
  {
    if i < n - 1 { DataFramesAre(n - 1, i); }
  }

  function Opening(env: Env): seq<Out> { if env.prime then [Prime] else [] }

  /** The first `n` events were all sent and accepted. */
  predicate Reached(env: Env, n: nat) {
    && (env.prime ==> Reply(env, 0).None?)
    && n <= |env.pulls|
    && forall i :: 0 <= i < n ==> env.pulls[i].Event? && i < env.maxEvents && Reply(env, |Opening(env)| + i).None?
  }

  function Cap(env: Env): nat { if env.maxEvents > 0 then env.maxEvents else 0 }

  /** There is one event more than the cap allows. */
  predicate CapHit(env: Env) {
    Reached(env, Cap(env)) && Cap(env) < |env.pulls| && !env.pulls[Cap(env)].Breaks?
  }

  /**
   The consumer threw an ordinary exception into the cap's error frame. That frame is sent inside the `try`, so
   the generator takes the exception for a failure of the graph.
   */
  predicate CapFrameRefused(env: Env) {
    CapHit(env) && Reply(env, |Opening(env)| + Cap(env)).Some?
    && Reply(env, |Opening(env)| + Cap(env)).value.kind.Failure?
  }

  /** A data frame for each of the first `n` events, then the error frames. */
  ghost predicate Framed(env: Env, body: Body, n: nat, errors: seq<Out>) {
    && body.frames == Opening(env) + DataFrames(n) + errors
    && n <= |env.pulls| && n <= Cap(env) && (forall i :: 0 <= i < n ==> env.pulls[i].Event?)
    && (errors in {[], [LimitError], [FailError], [LimitError, FailError]})
    && (LimitError in errors <==> CapHit(env))
    && (|errors| == 2 <==> CapFrameRefused(env))
    && (errors == [] <==> !CapHit(env) && (body.error.Some? ==> !body.error.value.kind.Failure?))
  }

  lemma HandledFrames(env: Env, n: nat, sent: seq<Out>, errors: seq<Out>, exn: Exn)
    requires sent == Opening(env) + DataFrames(n) + errors
    ensures Handled(env, sent, exn).frames ==
              Opening(env) + DataFrames(n) + (if exn.kind.Failure? then errors + [FailError] else errors)
  {
    assert sent + [FailError] == Opening(env) + DataFrames(n) + (errors + [FailError]);
  }

  lemma CapIsReachedAt(env: Env, i: nat)
    requires Reached(env, i) && (i < |env.pulls| ==> !env.pulls[i].Event? || i >= env.maxEvents)
    ensures CapHit(env) <==> i == Cap(env) && i < |env.pulls| && !env.pulls[i].Breaks?
    ensures i >= env.maxEvents ==> i == Cap(env)
  {
    if i > 0 { assert env.pulls[i - 1].Event?; }
    if CapHit(env) && i < Cap(env) { assert env.pulls[i].Event?; }
  }

  /** The stream stops at the event after the first `i`. */
  lemma StopsAt(env: Env, i: nat, frames: seq<Out>)
    requires Reached(env, i) && frames == Opening(env) + DataFrames(i)
    requires i < |env.pulls| ==> !env.pulls[i].Event? || i >= env.maxEvents
    ensures exists errors :: Framed(env, Iterated(env, i, frames), i, errors)
  {
    var body := Iterated(env, i, frames);
    var sent := frames + [LimitError];
    assert frames == Opening(env) + DataFrames(i) + [];
    assert sent == Opening(env) + DataFrames(i) + [LimitError];
    assert [LimitError] + [FailError] == [LimitError, FailError] && [] + [FailError] == [FailError];
    CapIsReachedAt(env, i);
    if i < |env.pulls| && !env.pulls[i].Breaks? && i >= env.maxEvents {
      var reply := Reply(env, |frames|);
      if reply.Some? {
        HandledFrames(env, i, sent, [LimitError], reply.value);
        assert Framed(env, body, i, if reply.value.kind.Failure? then [LimitError, FailError] else [LimitError]);
      } else {
        assert Framed(env, body, i, [LimitError]);
      }
    } else if body.error.Some? {
      HandledFrames(env, i, frames, [], body.error.value);
      assert Framed(env, body, i, if body.error.value.kind.Failure? then [FailError] else []);
    } else {
      assert Framed(env, body, i, []);
    }
  }

  lemma ReachedOneMore(env: Env, i: nat, sent: nat)
    requires Reached(env, i) && i < |env.pulls| && env.pulls[i].Event? && i < env.maxEvents
    requires sent == |Opening(env)| + i && Reply(env, sent).None?
    ensures Reached(env, i + 1)
  {
    forall j | 0 <= j < i + 1
      ensures env.pulls[j].Event? && j < env.maxEvents && Reply(env, |Opening(env)| + j).None?
    {
      if j < i { assert env.pulls[j].Event?; }
    }
  }

  lemma {:induction false} IteratedFrames(env: Env, i: nat, frames: seq<Out>)
    requires Reached(env, i) && frames == Opening(env) + DataFrames(i)
    ensures exists n, errors :: Framed(env, Iterated(env, i, frames), n, errors)
    decreases |env.pulls| - i
  {
    if i < |env.pulls| && env.pulls[i].Event? && i < env.maxEvents {
      var sent := frames + [Data(i)];
      assert sent == Opening(env) + DataFrames(i + 1);
      var reply := Reply(env, |frames|);
      if reply.None? {
        ReachedOneMore(env, i, |frames|);
        IteratedFrames(env, i + 1, sent);
        assert Iterated(env, i, frames) == Iterated(env, i + 1, sent);
      } else {
        assert sent == Opening(env) + DataFrames(i + 1) + [] && [] + [FailError] == [FailError];
        HandledFrames(env, i + 1, sent, [], reply.value);
        assert !CapHit(env);
        assert Framed(env, Iterated(env, i, frames), i + 1, if reply.value.kind.Failure? then [FailError] else []);
      }
    } else {
      StopsAt(env, i, frames);
    }
  }

  lemma BodyFrames(env: Env)
    ensures exists n, errors :: Framed(env, BodyOf(env), n, errors)
  {
    if env.prime && Reply(env, 0).Some? {
      assert [Prime] == Opening(env) + DataFrames(0) + [] && [] + [FailError] == [FailError];
      HandledFrames(env, 0, [Prime], [], Reply(env, 0).value);
      assert Framed(env, BodyOf(env), 0, if Reply(env, 0).value.kind.Failure? then [FailError] else []);
    } else {
      assert Opening(env) == Opening(env) + DataFrames(0);
      IteratedFrames(env, 0, Opening(env));
      assert BodyOf(env) == Iterated(env, 0, Opening(env));
    }
  }

  /**
   Whatever fails: at most the capped number of data frames, in event order; error frames; the iterator's close;
   one release attempt if there is a token; one observer event; and the end frame only if nothing propagates.
   There is at most one error frame except when the consumer throws an ordinary exception into the cap's own.
   */
  lemma TraceDiscipline(env: Env)
    ensures exists n, errors ::
              && Framed(env, BodyOf(env), n, errors)
              && TraceOf(env) == Opening(env) + DataFrames(n) + errors + [Closed]
                                 + (if env.locked then [ReleaseTried] else []) + [Observed(Terminal(env))]
                                 + (if Escaping(env).None? then [EndFrame] else [])
  {
    BodyFrames(env);
  }

  /** One event too many, and a consumer that throws an ordinary exception into the frame that says so. */
  const REFUSING := Env(false, 0, [Event], [Some(Exn(Failure, 1))], None, None, false, None)

  /** Two error frames do occur. */
  lemma TwoErrorFrames()
    ensures CapFrameRefused(REFUSING)
    ensures TraceOf(REFUSING) == [LimitError, FailError, Closed, Observed(Some(Exn(Failure, 1))), EndFrame]
  {
    assert Opening(REFUSING) == [] && Cap(REFUSING) == 0 && Reply(REFUSING, 0) == Some(Exn(Failure, 1));
    assert Iterated(REFUSING, 0, []) == Handled(REFUSING, [LimitError], Exn(Failure, 1));
    assert BodyOf(REFUSING).frames == [LimitError, FailError] && BodyOf(REFUSING).pending.None?;
  }

  lemma {:induction false} IteratedError(env: Env, i: nat, frames: seq<Out>)
    requires Reached(env, i) && |frames| == |Opening(env)| + i
    ensures Iterated(env, i, frames).error.None? <==> Reached(env, |env.pulls|) && env.guard.None?
    decreases |env.pulls| - i
  {
    if i < |env.pulls| && env.pulls[i].Event? && i < env.maxEvents && Reply(env, |frames|).None? {
      ReachedOneMore(env, i, |frames|);
      IteratedError(env, i + 1, frames + [Data(i)]);
    }
  }

  /** "Completed" is reported exactly when every event was sent, nothing failed, and the guard still held. */
  lemma CompletedIff(env: Env)
    ensures Observed(None) in TraceOf(env) <==>
              Reached(env, |env.pulls|) && env.guard.None? && env.close.None? && ReleaseError(env).None?
    ensures Observed(None) in TraceOf(env) ==> EndFrame in TraceOf(env)
  {
    var body := BodyOf(env);
    if env.prime && Reply(env, 0).Some? {
    } else {
      IteratedError(env, 0, Opening(env));
    }
    TerminalInTrace(env);
    if Terminal(env).None? { NothingPending(env); }
  }

  lemma {:induction false} NoOthers(n: nat)
    ensures forall f :: f in DataFrames(n) ==> f.Data?
  {
    if n > 0 { NoOthers(n - 1); }
  }

  lemma OnlyFrames(env: Env)
    ensures forall f :: f in BodyOf(env).frames ==> !f.Observed? && !f.EndFrame?
  {
    BodyFrames(env);
    var n, errors :| Framed(env, BodyOf(env), n, errors);
    NoOthers(n);
  }

  lemma TerminalInTrace(env: Env)
    ensures Observed(None) in TraceOf(env) <==> Terminal(env).None?
    ensures EndFrame in TraceOf(env) <==> Escaping(env).None?
  {
    OnlyFrames(env);
    InTail(BodyOf(env).frames, env.locked, Terminal(env), Escaping(env).None?);
  }

  lemma InTail(frames: seq<Out>, locked: bool, terminal: Option<Exn>, ended: bool)
    requires forall f :: f in frames ==> !f.Observed? && !f.EndFrame?
    ensures var trace := frames + [Closed] + (if locked then [ReleaseTried] else []) + [Observed(terminal)]
                         + (if ended then [EndFrame] else []);
            (Observed(None) in trace <==> terminal.None?) && (EndFrame in trace <==> ended)
  {
    var tail := [Closed] + (if locked then [ReleaseTried] else []) + [Observed(terminal)]
                + (if ended then [EndFrame] else []);
    var trace := frames + [Closed] + (if locked then [ReleaseTried] else []) + [Observed(terminal)]
                 + (if ended then [EndFrame] else []);
    assert trace == frames + tail;
    assert tail[if locked then 2 else 1] == Observed(terminal);
    assert ended ==> tail[|tail| - 1] == EndFrame;
  }

  lemma {:induction false} IteratedPending(env: Env, i: nat, frames: seq<Out>)
    ensures Iterated(env, i, frames).error.None? ==> Iterated(env, i, frames).pending.None?
    ensures var body := Iterated(env, i, frames);
            CancelLike(body.error) ==> body.pending == body.error
    decreases |env.pulls| - i
  {
    if i < |env.pulls| && env.pulls[i].Event? && i < env.maxEvents && Reply(env, |frames|).None? {
      IteratedPending(env, i + 1, frames + [Data(i)]);
    }
  }

  lemma NothingPending(env: Env)
    ensures BodyOf(env).error.None? ==> BodyOf(env).pending.None?
    ensures CancelLike(BodyOf(env).error) ==> BodyOf(env).pending == BodyOf(env).error
  {
    IteratedPending(env, 0, Opening(env));
  }

  /**
   A cancellation or generator exit anywhere, in the stream, in the iterator's close or in the lock release, is
   never lost, and never invented; one that ends the stream itself propagates as it is.
   */
  lemma CancellationPropagates(env: Env)
    ensures CancelLike(Escaping(env)) <==>
              CancelLike(BodyOf(env).pending) || CancelLike(env.close) || CancelLike(ReleaseError(env))
    ensures CancelLike(BodyOf(env).error) ==> Escaping(env) == BodyOf(env).error
  {
    NothingPending(env);
  }

  /** What the consumer throws in at frame `n`, if anything. */
  lemma ReplyIs(env: Env, n: nat)
    ensures Reply(env, n).Some? <==> n < |env.replies| && env.replies[n].Some?
    ensures n < |env.replies| ==> Reply(env, n) == env.replies[n]
  {}

  lemma {:induction false} IteratedStops(env: Env, i: nat, n: nat, frames: seq<Out>)
    requires i <= n && Reached(env, n) && |frames| == |Opening(env)| + i
    requires n < |env.pulls| ==> !env.pulls[n].Event? || n >= env.maxEvents || Reply(env, |Opening(env)| + n).Some?
    ensures Iterated(env, i, frames).error ==
              if n == |env.pulls| then env.guard
              else if env.pulls[n].Breaks? then Some(env.pulls[n].exn)
              else if n >= env.maxEvents then
                if Reply(env, |Opening(env)| + n).Some? then Reply(env, |Opening(env)| + n) else Some(LIMIT)
              else if env.pulls[n].Unformattable? then Some(env.pulls[n].exn)
              else Reply(env, |Opening(env)| + n)
    decreases n - i
  {
    if i < n { IteratedStops(env, i + 1, n, frames + [Data(i)]); }
  }

  /**
   The error the stream ends with, after `n` events that were sent and accepted: the guard's after the last, otherwise
   what the next event, the cap, or the consumer at that frame brings. `at` counts the frames before the first event's.
   */
  lemma StreamEndsAs(env: Env, n: nat, at: nat)
    requires n <= |env.pulls| && at == if env.prime then 1 else 0
    requires (n == 0 || n <= env.maxEvents) && forall i :: 0 <= i < n ==> env.pulls[i].Event?
    requires forall k :: 0 <= k < at + n && k < |env.replies| ==> env.replies[k].None?
    requires n < |env.pulls| ==>
               !env.pulls[n].Event? || n >= env.maxEvents || (at + n < |env.replies| && env.replies[at + n].Some?)
    ensures var reply := if at + n < |env.replies| then env.replies[at + n] else None;
            BodyOf(env).error ==
              if n == |env.pulls| then env.guard
              else if env.pulls[n].Breaks? then Some(env.pulls[n].exn)
              else if n >= env.maxEvents then if reply.Some? then reply else Some(Exn(Failure, 0))
              else if env.pulls[n].Unformattable? then Some(env.pulls[n].exn)
              else reply
  {
    NothingSaid(env, n, at);
    ReplyIs(env, at + n);
    IteratedStops(env, 0, n, Opening(env));
  }

  /** The error frame for an ordinary exception. */
  function FailFrame(e: Option<Exn>): (frames: seq<Out>)
    ensures frames == if e.Some? && e.value.kind == Failure then [FailError] else []
  {
    if e.Some? && e.value.kind.Failure? then [FailError] else []
  }

  /** The frames that end a stream after `n` events, when the consumer says `reply` to the next frame. */
  function LastFrames(env: Env, n: nat, reply: Option<Exn>): (frames: seq<Out>)
    requires n <= |env.pulls|
    ensures n == |env.pulls| ==> frames == FailFrame(env.guard)
    ensures n < |env.pulls| && env.pulls[n].Breaks? ==> frames == FailFrame(Some(env.pulls[n].exn))
    ensures n < |env.pulls| && !env.pulls[n].Breaks? && n >= env.maxEvents ==> frames == [LimitError] + FailFrame(reply)
    ensures n < |env.pulls| && n < env.maxEvents && env.pulls[n].Unformattable? ==> frames == FailFrame(Some(env.pulls[n].exn))
    ensures n < |env.pulls| && n < env.maxEvents && env.pulls[n].Event? ==> frames == [Data(n)] + FailFrame(reply)
  {
    if n == |env.pulls| then FailFrame(env.guard)
    else if env.pulls[n].Breaks? then FailFrame(Some(env.pulls[n].exn))
    else if n >= env.maxEvents then [LimitError] + FailFrame(reply)
    else if env.pulls[n].Event? then [Data(n)] + FailFrame(reply)
    else FailFrame(Some(env.pulls[n].exn))
  }

  lemma HandledSends(env: Env, frames: seq<Out>, sent: seq<Out>, exn: Exn)
    ensures Handled(env, frames + sent, exn).frames == frames + (sent + FailFrame(Some(exn)))
  {
    assert frames + sent + [FailError] == frames + (sent + [FailError]);
    assert sent + [] == sent;
  }

  lemma StopSends(env: Env, n: nat, frames: seq<Out>, reply: Option<Exn>, body: Body)
    requires n <= |env.pulls| && reply == Reply(env, |frames|) && body == Iterated(env, n, frames)
    requires n < |env.pulls| ==> !env.pulls[n].Event? || n >= env.maxEvents || reply.Some?
    ensures body.frames == frames + LastFrames(env, n, reply)
  {
    assert frames + [] == frames && [LimitError] + [] == [LimitError];
    if n == |env.pulls| {
      if env.guard.Some? { HandledSends(env, frames, [], env.guard.value); }
    } else if env.pulls[n].Breaks? || (n < env.maxEvents && env.pulls[n].Unformattable?) {
      HandledSends(env, frames, [], env.pulls[n].exn);
    } else if reply.Some? {
      HandledSends(env, frames, [if n >= env.maxEvents then LimitError else Data(n)], reply.value);
    }
  }

  lemma {:induction false} IteratedReaches(env: Env, i: nat, n: nat)
    requires i <= n && Reached(env, n)
    ensures Iterated(env, i, Opening(env) + DataFrames(i)) == Iterated(env, n, Opening(env) + DataFrames(n))
    decreases n - i
  {
    if i < n {
      var frames := Opening(env) + DataFrames(i);
      assert frames + [Data(i)] == Opening(env) + DataFrames(i + 1);
      assert env.pulls[i].Event? && |frames| == |Opening(env)| + i;
      IteratedReaches(env, i + 1, n);
    }
  }

  lemma BodyReaches(env: Env, n: nat)
    requires Reached(env, n)
    ensures BodyOf(env) == Iterated(env, n, (if env.prime then [Prime] else []) + DataFrames(n))
  {
    IteratedReaches(env, 0, n);
    assert Opening(env) + DataFrames(0) == Opening(env);
    assert BodyOf(env) == Iterated(env, 0, Opening(env));
  }

  /** The frames of such a stream: one for each of the `n` events, and those of the event, cap or consumer that ends it. */
  lemma StreamSends(env: Env, n: nat, at: nat, reply: Option<Exn>)
    requires n <= |env.pulls| && at == if env.prime then 1 else 0
    requires (n == 0 || n <= env.maxEvents) && forall i :: 0 <= i < n ==> env.pulls[i].Event?
    requires forall k :: 0 <= k < at + n && k < |env.replies| ==> env.replies[k].None?
    requires n < |env.pulls| ==>
               !env.pulls[n].Event? || n >= env.maxEvents || (at + n < |env.replies| && env.replies[at + n].Some?)
    requires reply == if at + n < |env.replies| then env.replies[at + n] else None
    ensures BodyOf(env).frames == (if env.prime then [Prime] else []) + DataFrames(n) + LastFrames(env, n, reply)
  {
    NothingSaid(env, n, at);
    ReplyIs(env, at + n);
    BodyReaches(env, n);
    StopSends(env, n, (if env.prime then [Prime] else []) + DataFrames(n), reply, BodyOf(env));
  }

  lemma {:induction false} NothingSaid(env: Env, n: nat, at: nat)
    requires n <= |env.pulls| && at == if env.prime then 1 else 0
    requires (n == 0 || n <= env.maxEvents) && forall i :: 0 <= i < n ==> env.pulls[i].Event?
    requires forall k :: 0 <= k < at + n && k < |env.replies| ==> env.replies[k].None?
    ensures Reached(env, n) && (env.prime ==> Reply(env, 0).None?)
  {
    ReplyIs(env, 0);
    if n > 0 {
      NothingSaid(env, n - 1, at);
      ReplyIs(env, at + n - 1);
      ReachedOneMore(env, n - 1, at + n - 1);
    }
  }

  lemma PrimeRefused(env: Env)
    requires env.prime && env.replies != [] && env.replies[0].Some?
    ensures BodyOf(env).error == env.replies[0]
  {}

  lemma {:induction false} IteratedRaises(env: Env, i: nat, frames: seq<Out>)
    requires frames == [] || frames[|frames| - 1] != FailError
    ensures var body := Iterated(env, i, frames);
            body.pending ==
              if body.error.Some? && body.error.value.kind != Failure then body.error
              else if body.frames != [] && body.frames[|body.frames| - 1] == FailError then Reply(env, |body.frames| - 1)
              else None
    decreases |env.pulls| - i
  {
    if i < |env.pulls| && env.pulls[i].Event? && i < env.maxEvents && Reply(env, |frames|).None? {
      IteratedRaises(env, i + 1, frames + [Data(i)]);
    }
  }

  /** An ordinary error goes into a frame, and only what the consumer throws in there is raised; any other error is. */
  lemma StreamRaisesAs(env: Env)
    ensures var body := BodyOf(env);
            body.pending ==
              if body.error.Some? && body.error.value.kind != Failure then body.error
              else if body.frames != [] && body.frames[|body.frames| - 1] == FailError && |body.frames| <= |env.replies|
              then env.replies[|body.frames| - 1]
              else None
  {
    if env.prime && Reply(env, 0).Some? {
      ReplyIs(env, 1);
    } else {
      IteratedRaises(env, 0, Opening(env));
    }
  }

  /** The observer is told the stream's error, or else the close's, or else the release's; and once. */
  lemma ObservedIsFirstError(env: Env, e: Option<Exn>)
    ensures Observed(e) in TraceOf(env) <==>
              e == if BodyOf(env).error.Some? then BodyOf(env).error
                   else if env.close.Some? then env.close
                   else if env.locked then env.release else None
  {
    OnlyFrames(env);
  }

  /**
   Which exception escapes: a cancellation or generator exit of the stream, of close, of release, in this order; then what
   the stream still raises, if it failed; then a fatal error of close; then any error of release.
   */
  lemma EscapesInOrder(env: Env)
    ensures var cancels := (e: Option<Exn>) => e.Some? && e.value.kind in {Cancelled, Exit};
            var body, release := BodyOf(env), if env.locked then env.release else None;
            Escaping(env) ==
              if cancels(body.error) then body.error
              else if cancels(env.close) then env.close
              else if cancels(release) then release
              else if body.error.Some? then body.pending
              else if env.close.Some? then if env.close.value.kind == Fatal then env.close else None
              else release
  {
    NothingPending(env);
  }

  /** Nothing propagates exactly when the stream's own failure was put in a frame and no cleanup step had to raise. */
  lemma EndFrameIff(env: Env)
    ensures Escaping(env).None? <==>
              && BodyOf(env).pending.None?
              && !CancelLike(env.close) && !CancelLike(ReleaseError(env))
              && (BodyOf(env).error.None? ==>
                    && (env.close.Some? ==> !env.close.value.kind.Fatal?)
                    && (env.close.None? ==> ReleaseError(env).None?))
  {
    NothingPending(env);
  }
}
