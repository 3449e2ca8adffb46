/**
 The namespace over time: one writer whose `put`s and `put_writes` may crash between any two of their storage
 calls, retention and thread deletion removing blobs around it, and the invariants that survive every run.
 */
module CheckpointWorld {
  import opened Common
  import opened Checkpoints
  import PendingWrites

  /** Where the writer is inside `put`; `base` is the committed checkpoint its inherited versions come from. */
  datatype Writer =
    | Idle
    | ReadingHint(p: PutArgs, base: Option<Id>)
    | CheckingHint(p: PutArgs, base: Option<Id>, hint: Id)
    | Scanning(p: PutArgs, base: Option<Id>)
    | Uploading(p: PutArgs, base: Option<Id>, latest: Option<Id>, done: nat)

  /**
   `pending` holds the pending writes that `put_writes` has decided to upload and has not uploaded yet. `archive`
   remembers every value version ever uploaded and `used` every id ever put: freshness is relative to them.
   */
  datatype World = World(
    blobs: Blobs, writer: Writer, pending: map<Path, Blob>, archive: map<(string, string), Blob>, used: set<Id>)

  const EMPTY := World(map[], Idle, map[], map[], {})

  datatype Action = Begin(p: PutArgs, base: Option<Id>) | Step | Crash

  /**
   `CheckWrite`, `StoreWrite` and `DropWrite` are one write of `put_writes`: deciding on it, uploading it, or being
   stopped before. Writes of different tasks, and puts, may overlap in any way.
   */
  datatype Op =
    | Put(action: Action)
    | CheckWrite(id: Id, item: PendingWrites.Item)
    | StoreWrite(path: Path)
    | DropWrite(path: Path)
    | Erase(path: Path)

  function WriterStep(w: World, a: Action): World {
    match a
    case Crash => w.(writer := Idle)
    case Begin(p, base) =>
      if w.writer.Idle? then w.(writer := ReadingHint(p, base), used := w.used + {p.id}) else w
    case Step =>
      match w.writer
      case Idle => w
      case ReadingHint(p, base) =>
        w.(writer := match ReadHint(w.blobs) case Some(h) => CheckingHint(p, base, h) case None => Scanning(p, base))
      case CheckingHint(p, base, h) =>
        w.(writer := if Marker(h) in w.blobs then Uploading(p, base, Some(h), 0) else Scanning(p, base))
      case Scanning(p, base) => w.(writer := Uploading(p, base, Newest(w.blobs), 0))
      case Uploading(p, base, latest, done) =>
        var u := PutUploads(p, latest);
        if done < |u| then
          var (path, blob) := u[done];
          w.(blobs := w.blobs[path := blob],
             writer := if done + 1 == |u| then Idle else Uploading(p, base, latest, done + 1),
             archive := if path.Value? then w.archive[(path.channel, path.version) := blob] else w.archive)
        else w.(writer := Idle)
  }

  /** An ordinary index whose blob exists is left alone; one call at a time works on one blob. */
  predicate Wanted(w: World, id: Id, item: PendingWrites.Item) {
    var path := PendingWrites.PathOf(id, item);
    item.content.WriteBlob? && path !in w.pending && !(item.index >= 0 && path in w.blobs)
  }

  function OpStep(w: World, op: Op): World {
    match op
    case Put(a) => WriterStep(w, a)
    case CheckWrite(id, item) =>
      if Wanted(w, id, item) then w.(pending := w.pending[PendingWrites.PathOf(id, item) := item.content]) else w
    case StoreWrite(path) =>
      if path in w.pending then w.(blobs := w.blobs[path := w.pending[path]], pending := w.pending - {path}) else w
    case DropWrite(path) => w.(pending := w.pending - {path})
    case Erase(path) => w.(blobs := w.blobs - {path})
  }

  ghost function OpRun(w: World, ops: seq<Op>): World
    decreases |ops|
  {
    if ops == [] then w else OpRun(OpStep(w, ops[0]), ops[1..])
  }

  function Steps(k: nat): seq<Op> { seq(k, _ => Put(Step)) }

  /** The writer, in the middle of its plan at `w`, has stored exactly its next `k` uploads at `after`. */
  ghost predicate Stored(w: World, after: World, k: nat)
    requires w.writer.Uploading?
  {
    var u, done := PutUploads(w.writer.p, w.writer.latest), w.writer.done;
    && done + k <= |u|
    && after.blobs == ApplyUploads(w.blobs, u[done..done + k])
    && after.writer == if k > 0 && done + k == |u| then Idle else w.writer.(done := done + k)
  }

  lemma StoredNext(w: World, mid: World, k: nat)
    requires w.writer.Uploading? && w.writer.done + k < |PutUploads(w.writer.p, w.writer.latest)| && Stored(w, mid, k)
    ensures Stored(w, OpStep(mid, Put(Step)), k + 1)
  {
    var u, done := PutUploads(w.writer.p, w.writer.latest), w.writer.done;
    StretchNext(w.blobs, u, done, k);
  }

  lemma StretchNext(blobs: Blobs, u: seq<Upload>, done: nat, k: nat)
    requires done + k < |u|
    ensures ApplyUploads(blobs, u[done..done + (k + 1)])
              == ApplyUploads(blobs, u[done..done + k])[u[done + k].0 := u[done + k].1]
  {
    var rest := u[done..];
    assert rest[..k] == u[done..done + k] && rest[..k + 1] == u[done..done + (k + 1)] && rest[k] == u[done + k];
    ApplyNext(blobs, rest, k);
  }

  lemma {:induction false} OpRunAppend(w: World, ops: seq<Op>, op: Op)
    ensures OpRun(w, ops + [op]) == OpStep(OpRun(w, ops), op)
    decreases |ops|
  {
    if ops != [] {
      assert (ops + [op])[1..] == ops[1..] + [op];
      OpRunAppend(OpStep(w, ops[0]), ops[1..], op);
    }
  }

  /** Left alone, the writer stores a prefix of the uploads: the machine and the method `Put` are one put. */
  lemma {:induction false} WriterFollowsPlan(w: World, k: nat)
    requires w.writer.Uploading? && w.writer.done + k <= |PutUploads(w.writer.p, w.writer.latest)|
    ensures Stored(w, OpRun(w, Steps(k)), k)
    decreases k
  {
    if k > 0 {
      WriterFollowsPlan(w, k - 1);
      StoredNext(w, OpRun(w, Steps(k - 1)), k - 1);
      assert Steps(k) == Steps(k - 1) + [Put(Step)];
      OpRunAppend(w, Steps(k - 1), Put(Step));
    }
  }

  /** The steps of one uninterrupted `put_writes` call. */
  function WriteOps(id: Id, items: seq<PendingWrites.Item>): seq<Op> {
    if items == [] then []
    else
      var last := items[|items| - 1];
      WriteOps(id, items[..|items| - 1]) + [CheckWrite(id, last)] + [StoreWrite(PendingWrites.PathOf(id, last))]
  }

  /** Left alone, they store what the method `PutWrites` stores. */
  lemma {:induction false} WritesFollowCall(w: World, id: Id, items: seq<PendingWrites.Item>)
    requires forall i :: 0 <= i < |items| ==> items[i].content.WriteBlob? && PendingWrites.PathOf(id, items[i]) !in w.pending
    ensures OpRun(w, WriteOps(id, items)) == w.(blobs := PendingWrites.StoreAll(w.blobs, id, items))
  {
    if items != [] {
      var front, last := items[..|items| - 1], items[|items| - 1];
      var path := PendingWrites.PathOf(id, last);
      WritesFollowCall(w, id, front);
      OpRunAppend(w, WriteOps(id, front), CheckWrite(id, last));
      OpRunAppend(w, WriteOps(id, front) + [CheckWrite(id, last)], StoreWrite(path));
      assert w.pending[path := last.content] - {path} == w.pending;
    }
  }

  /** `after` differs from `blobs` in pending writes only, so in nothing the hint, scan or values depend on. */
  ghost predicate OnlyWritesDiffer(blobs: Blobs, after: Blobs) {
    forall path: Path :: !path.Write? ==>
      (path in after <==> path in blobs) && (path in blobs ==> after[path] == blobs[path])
  }

  predicate IsWrite(op: Op) { op.CheckWrite? || op.StoreWrite? || op.DropWrite? }

  ghost predicate PendingAreWrites(w: World) {
    forall path :: path in w.pending ==> path.Write? && w.pending[path].WriteBlob?
  }

  lemma WriteStepEffect(w: World, op: Op)
    requires IsWrite(op) && PendingAreWrites(w)
    ensures var after := OpStep(w, op);
            && OnlyWritesDiffer(w.blobs, after.blobs) && PendingAreWrites(after)
            && after == w.(blobs := after.blobs, pending := after.pending)
  {}

  lemma WritesChangeNothingElse(blobs: Blobs, after: Blobs)
    requires OnlyWritesDiffer(blobs, after)
    ensures Committed(after) == Committed(blobs) && ReadHint(after) == ReadHint(blobs)
    ensures forall c, ch, v :: Refers(after, c, ch, v) <==> Refers(blobs, c, ch, v)
    ensures forall c :: ReadMetadata(after, c) == ReadMetadata(blobs, c)
  {
    forall c ensures c in Committed(after) <==> c in Committed(blobs) {
      assert c in Committed(after) <==> Marker(c) in after;
      assert c in Committed(blobs) <==> Marker(c) in blobs;
    }
  }

  // ---------------------------------------------------------------- hint and scan agree

  ghost predicate AllUpTo(blobs: Blobs, bound: Id) {
    forall c :: c in Committed(blobs) ==> Leq(c, bound)
  }

  ghost predicate HintInv(w: World) {
    && HintSound(w.blobs) && PendingAreWrites(w)
    && (w.writer.CheckingHint? ==> AllUpTo(w.blobs, w.writer.hint))
    && (w.writer.Uploading? ==>
          && w.writer.done < |PutUploads(w.writer.p, w.writer.latest)|
          && AllUpTo(w.blobs, Max(w.writer.latest.GetOr(""), w.writer.p.id))
          && (w.writer.done > 0 ==> ReadHint(w.blobs).None?))
  }

  lemma ErasingKeepsBounds(blobs: Blobs, path: Path)
    ensures Committed(blobs - {path}) <= Committed(blobs)
    ensures ReadHint(blobs - {path}) in {None, ReadHint(blobs)}
  {
    forall c | c in Committed(blobs - {path}) ensures c in Committed(blobs) {
      assert Marker(c) in blobs - {path};
    }
  }

  lemma UploadEffect(blobs: Blobs, p: PutArgs, latest: Option<Id>, i: nat)
    requires i < |PutUploads(p, latest)|
    ensures var u := PutUploads(p, latest)[i]; var after := blobs[u.0 := u.1];
            && (i == MarkerAt(p) ==> Committed(after) == Committed(blobs) + {p.id})
            && (i != MarkerAt(p) ==> Committed(after) == Committed(blobs))
            && (i == 0 ==> ReadHint(after) == None)
            && (0 < i < MarkerAt(p) + 1 ==> ReadHint(after) == ReadHint(blobs))
            && (i == MarkerAt(p) + 1 ==>
                  var m := Max(latest.GetOr(""), p.id); ReadHint(after) == if m == "" then None else Some(m))
  {
    UploadLayout(p, latest);
    var u := PutUploads(p, latest)[i];
    var after := blobs[u.0 := u.1];
    forall c ensures c in Committed(after) <==> c in Committed(blobs) || u.0 == Marker(c) {
      assert c in Committed(after) <==> Marker(c) in after;
      assert c in Committed(blobs) <==> Marker(c) in blobs;
    }
    assert i != MarkerAt(p) ==> !u.0.Marker?;
  }

  /** What the first `k` uploads of a put have done to the committed set and to the hint. */
  lemma {:induction false} AlongPut(blobs: Blobs, p: PutArgs, latest: Option<Id>, k: nat)
    requires k <= |PutUploads(p, latest)|
    ensures var after := ApplyUploads(blobs, PutUploads(p, latest)[..k]); var m := Max(latest.GetOr(""), p.id);
            && Committed(after) == Committed(blobs) + (if k > MarkerAt(p) then {p.id} else {})
            && ReadHint(after) == (if k == 0 then ReadHint(blobs) else if k < |PutUploads(p, latest)| || m == "" then None else Some(m))
  {
    var u := PutUploads(p, latest);
    if k == 0 {
      assert u[..0] == [];
    } else {
      AlongPut(blobs, p, latest, k - 1);
      ApplyNext(blobs, u, k - 1);
      UploadEffect(ApplyUploads(blobs, u[..k - 1]), p, latest, k - 1);
    }
  }

  /** With a sound hint, the current latest id that `put` looks up is the newest committed one. */
  lemma CurrentLatestIsNewest(blobs: Blobs)
    requires HintSound(blobs)
    ensures CurrentLatest(blobs) == Newest(blobs)
  {
    LeqIsTotalOrder();
    if ReadHint(blobs).Some? && Marker(ReadHint(blobs).value) in blobs {
      assert ReadHint(blobs).value in Committed(blobs);
    }
  }

  /**
   A put of any id, an older one included, stopped after any number of its uploads, keeps a sound hint sound; a
   complete one leaves it naming the newest committed checkpoint.
   */
  lemma PutKeepsHint(blobs: Blobs, p: PutArgs, k: nat)
    requires HintSound(blobs) && k <= |PutUploads(p, CurrentLatest(blobs))|
    ensures var plan := PutUploads(p, CurrentLatest(blobs)); var after := ApplyUploads(blobs, plan[..k]);
            && HintSound(after) && GetLatest(after) == BuildNewest(after)
            && (k == |plan| ==> ReadHint(after) == if Newest(after) == Some("") then None else Newest(after))
  {
    var latest := CurrentLatest(blobs);
    var after := ApplyUploads(blobs, PutUploads(p, latest)[..k]);
    LeqIsTotalOrder();
    CurrentLatestIsNewest(blobs);
    AlongPut(blobs, p, latest, k);
    HintAgreesWithScan(after);
    if k == |PutUploads(p, latest)| {
      var m := Max(latest.GetOr(""), p.id);
      assert m in Committed(after) && forall c :: c in Committed(after) ==> Leq(c, m);
      assert Newest(after) == Some(m);
    }
  }

  /** Left alone, the writer finds out the current latest id that the method `Put` uses. */
  lemma ReadsTheLatest(w: World) returns (k: nat)
    requires w.writer.ReadingHint?
    ensures OpRun(w, Steps(k)) == w.(writer := Uploading(w.writer.p, w.writer.base, CurrentLatest(w.blobs), 0))
  {
    var one := OpStep(w, Put(Step));
    var two := OpStep(one, Put(Step));
    RunSteps(w, 0);
    RunSteps(w, 1);
    RunSteps(w, 2);
    k := if one.writer.CheckingHint? && !two.writer.Uploading? then 3 else 2;
  }

  lemma RunSteps(w: World, k: nat)
    ensures OpRun(w, Steps(0)) == w
    ensures OpRun(w, Steps(k + 1)) == OpStep(OpRun(w, Steps(k)), Put(Step))
  {
    assert Steps(k + 1) == Steps(k) + [Put(Step)];
    OpRunAppend(w, Steps(k), Put(Step));
  }

  lemma {:induction false} StepsOn(w: World, j: nat, k: nat)
    ensures OpRun(w, Steps(j + k)) == OpRun(OpRun(w, Steps(j)), Steps(k))
    decreases k
  {
    var mid := OpRun(w, Steps(j));
    if k == 0 {
      assert OpRun(mid, Steps(0)) == mid;
    } else {
      StepsOn(w, j, k - 1);
      RunSteps(w, j + k - 1);
      RunSteps(mid, k - 1);
    }
  }

  lemma {:induction false} StepsAreAllowed(w: World, k: nat)
    ensures OrderlyRun(w, Steps(k)) == OpRun(w, Steps(k)) == SteadyRun(w, Steps(k))
    decreases k
  {
    if k > 0 {
      assert Steps(k)[1..] == Steps(k - 1);
      StepsAreAllowed(OpStep(w, Put(Step)), k - 1);
    }
  }

  /** From the first reading step to any upload, the machine left alone is the method `Put`. */
  lemma MachineIsPut(w: World, p: PutArgs, base: Option<Id>, done: nat) returns (k: nat)
    requires w.writer.Idle? && done <= |PutUploads(p, CurrentLatest(w.blobs))|
    ensures OpRun(w, [Put(Begin(p, base))] + Steps(k)).blobs
              == ApplyUploads(w.blobs, PutUploads(p, CurrentLatest(w.blobs))[..done])
  {
    var begun := OpStep(w, Put(Begin(p, base)));
    var reading := ReadsTheLatest(begun);
    WriterFollowsPlan(OpRun(begun, Steps(reading)), done);
    k := reading + done;
    StepsOn(begun, reading, done);
    var ops := [Put(Begin(p, base))] + Steps(k);
    assert ops[0] == Put(Begin(p, base)) && ops[1..] == Steps(k);
  }

  /** Every put of a fresh id with fresh versions, the others inherited from `base`, is one the orderly and steady runs allow. */
  lemma FreshPutIsAllowed(w: World, p: PutArgs, base: Option<Id>, k: nat)
    requires forall i, j :: 0 <= i < j < |p.newVersions| ==> p.newVersions[i].0 != p.newVersions[j].0
    requires Marker(p.id) !in w.blobs && p.id !in w.used && forall nv :: nv in p.newVersions ==> nv !in w.archive
    requires forall ch :: ch in p.versions ==>
               (ch, p.versions[ch]) in p.newVersions || (base.Some? && Refers(w.blobs, base.value, ch, p.versions[ch]))
    ensures var ops := [Put(Begin(p, base))] + Steps(k); OrderlyRun(w, ops) == OpRun(w, ops) == SteadyRun(w, ops)
  {
    var ops := [Put(Begin(p, base))] + Steps(k);
    assert ops[0] == Put(Begin(p, base)) && ops[1..] == Steps(k);
    assert Allowed(w, ops[0]) && Steady(w, ops[0]);
    StepsAreAllowed(OpStep(w, ops[0]), k);
  }

  lemma HintInvWrite(w: World, op: Op)
    requires HintInv(w) && IsWrite(op)
    ensures HintInv(OpStep(w, op))
  {
    WriteStepEffect(w, op);
    WritesChangeNothingElse(w.blobs, OpStep(w, op).blobs);
  }

  lemma HintInvErase(w: World, path: Path)
    requires HintInv(w)
    ensures HintInv(OpStep(w, Erase(path)))
  {
    ErasingKeepsBounds(w.blobs, path);
  }

  lemma HintInvPut(w: World, a: Action)
    requires HintInv(w)
    ensures HintInv(WriterStep(w, a))
  {
    LeqIsTotalOrder();
    if a.Step? && w.writer.Uploading? {
      UploadEffect(w.blobs, w.writer.p, w.writer.latest, w.writer.done);
    }
  }

  lemma HintInvStep(w: World, op: Op)
    requires HintInv(w)
    ensures HintInv(OpStep(w, op))
  {
    match op
    case Erase(path) => HintInvErase(w, path);
    case Put(a) => HintInvPut(w, a);
    case _ => HintInvWrite(w, op);
  }

  /**
   Over every run of put and put_writes steps, crashes and deletions of any blob at any moment, a clean hint stays
   sound.
   */
  lemma {:induction false} HintSoundAlways(w: World, ops: seq<Op>)
    requires HintInv(w)
    ensures HintInv(OpRun(w, ops)) && HintSound(OpRun(w, ops).blobs)
    decreases |ops|
  {
    if ops != [] {
      HintInvStep(w, ops[0]);
      HintSoundAlways(OpStep(w, ops[0]), ops[1..]);
    }
  }

  // ---------------------------------------------------------------- orderly runs: fresh versions, retention

  predicate InFlight(w: World) { !w.writer.Idle? }

  function Uploaded(w: World): nat {
    if w.writer.Uploading? then w.writer.done else 0
  }

  /**
   The environment's promises. A put begins with a fresh id and fresh versions, and inherits every other
   version from a committed base. Retention deletes markers (never the base of the put in flight) and,
   because listings are in path order and `checkpoint.bin` precedes `metadata.bin`, metadata and pending
   writes only of a checkpoint whose marker is gone.
   */
  predicate Allowed(w: World, op: Op) {
    match op
    case Put(Begin(p, base)) =>
      && DistinctChannels(p)
      && Marker(p.id) !in w.blobs
      && (forall nv :: nv in p.newVersions ==> nv !in w.archive)
      && (forall ch :: ch in p.versions ==> InheritedOrNew(w.blobs, p, base, ch))
    case Put(_) => true
    case Erase(Marker(id)) => InFlight(w) ==> w.writer.base != Some(id)
    case Erase(Metadata(id)) => Marker(id) !in w.blobs && (InFlight(w) ==> w.writer.p.id != id)
    case Erase(Write(_, _, _)) => true
    case Erase(_) => false
    case _ => true
  }

  predicate InheritedOrNew(blobs: Blobs, p: PutArgs, base: Option<Id>, ch: string)
    requires ch in p.versions
  {
    (ch, p.versions[ch]) in p.newVersions || (base.Some? && Refers(blobs, base.value, ch, p.versions[ch]))
  }

  function OrderlyStep(w: World, op: Op): World {
    if Allowed(w, op) then OpStep(w, op) else w
  }

  ghost function OrderlyRun(w: World, ops: seq<Op>): World
    decreases |ops|
  {
    if ops == [] then w else OrderlyRun(OrderlyStep(w, ops[0]), ops[1..])
  }

  /** What the put in flight has done so far is what the container shows. */
  ghost predicate PutConsistent(w: World)
    requires InFlight(w)
  {
    var p, done := w.writer.p, Uploaded(w);
    && DistinctChannels(p)
    && (w.writer.Uploading? ==> done < |PutUploads(p, w.writer.latest)|)
    && (done <= MarkerAt(p) ==> Marker(p.id) !in w.blobs)
    && (forall ch :: ch in p.versions ==> InheritedOrNew(w.blobs, p, w.writer.base, ch))
    && (forall i :: 0 <= i < |p.newVersions| ==>
          if i + 1 < done then Value(p.newVersions[i].0, p.newVersions[i].1) in w.blobs
          else p.newVersions[i] !in w.archive)
    && (done >= MarkerAt(p) ==> Metadata(p.id) in w.blobs && w.blobs[Metadata(p.id)].MetadataBlob?)
    && (done > 0 ==> ReadHint(w.blobs).None?)
  }

  /** Every committed checkpoint is complete, and every value blob is as uploaded. */
  ghost predicate GoodBlobs(w: World) {
    && (forall ch, v :: Value(ch, v) in w.blobs ==> (ch, v) in w.archive && w.archive[(ch, v)] == w.blobs[Value(ch, v)])
    && (forall c, ch, v :: Refers(w.blobs, c, ch, v) ==> Value(ch, v) in w.blobs)
    && (forall c :: Marker(c) in w.blobs && w.blobs[Marker(c)].MarkerBlob?
          ==> Metadata(c) in w.blobs && w.blobs[Metadata(c)].MetadataBlob?)
    && (forall c :: Marker(c) in w.blobs ==> c in w.used)
  }

  /** An ordinary write about to be uploaded is not there yet: the first one stays. */
  ghost predicate GoodPending(w: World) {
    PendingAreWrites(w) && forall path :: path in w.pending && path.index >= 0 ==> path !in w.blobs
  }

  /** What the container has of the put in flight is consistent with it, too. */
  ghost predicate Good(w: World) {
    GoodBlobs(w) && GoodPending(w) && (InFlight(w) ==> PutConsistent(w) && w.writer.p.id in w.used)
  }

  lemma EmptyIsGood()
    ensures Good(EMPTY) && HintInv(EMPTY) && Decodable(EMPTY) && NamesFinished(EMPTY)
  {}

  lemma GoodBegin(w: World, p: PutArgs, base: Option<Id>)
    requires Good(w) && Allowed(w, Put(Begin(p, base)))
    ensures Good(WriterStep(w, Begin(p, base)))
  {
    if w.writer.Idle? {
      var after := WriterStep(w, Begin(p, base));
      forall i | 0 <= i < |p.newVersions| ensures p.newVersions[i] !in after.archive {
        assert p.newVersions[i] in p.newVersions;
      }
    }
  }

  /** One upload seen from the other paths: who refers to what changes only with the marker. */
  lemma RefersAfterUpload(blobs: Blobs, p: PutArgs, latest: Option<Id>, i: nat, c: Id, ch: string, v: string)
    requires i < |PutUploads(p, latest)|
    ensures var u := PutUploads(p, latest)[i]; var after := blobs[u.0 := u.1];
            Refers(after, c, ch, v) <==>
              if i == MarkerAt(p) && c == p.id then ch in p.versions && p.versions[ch] == v else Refers(blobs, c, ch, v)
  {
    UploadLayout(p, latest);
  }

  lemma GoodBlobsUpload(w: World)
    requires Good(w) && w.writer.Uploading?
    ensures GoodBlobs(WriterStep(w, Step))
  {
    var p, latest, done, base := w.writer.p, w.writer.latest, w.writer.done, w.writer.base;
    var after := WriterStep(w, Step);
    UploadLayout(p, latest);
    forall c, ch, v ensures Refers(after.blobs, c, ch, v) <==>
        if done == MarkerAt(p) && c == p.id then ch in p.versions && p.versions[ch] == v else Refers(w.blobs, c, ch, v)
    {
      RefersAfterUpload(w.blobs, p, latest, done, c, ch, v);
    }
    if done == MarkerAt(p) {
      forall ch | ch in p.versions ensures Value(ch, p.versions[ch]) in w.blobs {
        assert InheritedOrNew(w.blobs, p, base, ch);
      }
    }
  }

  lemma StillInherits(w: World)
    requires Good(w) && w.writer.Uploading?
    ensures var p := w.writer.p;
            forall ch :: ch in p.versions ==> InheritedOrNew(WriterStep(w, Step).blobs, p, w.writer.base, ch)
  {
    var p, latest, done, base := w.writer.p, w.writer.latest, w.writer.done, w.writer.base;
    forall ch | ch in p.versions ensures InheritedOrNew(WriterStep(w, Step).blobs, p, base, ch) {
      assert InheritedOrNew(w.blobs, p, base, ch);
      if base.Some? { RefersAfterUpload(w.blobs, p, latest, done, base.value, ch, p.versions[ch]); }
    }
  }

  lemma PutGoesOn(w: World)
    requires Good(w) && w.writer.Uploading? && WriterStep(w, Step).writer.Uploading?
    ensures PutConsistent(WriterStep(w, Step))
  {
    UploadLayout(w.writer.p, w.writer.latest);
    UploadEffect(w.blobs, w.writer.p, w.writer.latest, w.writer.done);
    StillInherits(w);
  }

  lemma GoodUpload(w: World)
    requires Good(w) && w.writer.Uploading?
    ensures Good(WriterStep(w, Step))
  {
    GoodBlobsUpload(w);
    if WriterStep(w, Step).writer.Uploading? { PutGoesOn(w); }
  }

  lemma GoodErase(w: World, path: Path)
    requires Good(w) && Allowed(w, Erase(path))
    ensures Good(OpStep(w, Erase(path)))
  {
    var after := OpStep(w, Erase(path));
    assert forall c, ch, v :: Refers(after.blobs, c, ch, v) ==> Refers(w.blobs, c, ch, v);
    if InFlight(w) {
      forall ch | ch in w.writer.p.versions
        ensures InheritedOrNew(after.blobs, w.writer.p, w.writer.base, ch)
      {
        assert InheritedOrNew(w.blobs, w.writer.p, w.writer.base, ch);
      }
    }
  }

  lemma WriteKeepsPut(w: World, op: Op)
    requires Good(w) && IsWrite(op) && InFlight(w)
    ensures InFlight(OpStep(w, op)) && PutConsistent(OpStep(w, op))
  {
    var after := OpStep(w, op);
    WriteStepEffect(w, op);
    WritesChangeNothingElse(w.blobs, after.blobs);
    forall ch | ch in w.writer.p.versions ensures InheritedOrNew(after.blobs, w.writer.p, w.writer.base, ch) {
      assert InheritedOrNew(w.blobs, w.writer.p, w.writer.base, ch);
    }
  }

  lemma GoodWrite(w: World, op: Op)
    requires Good(w) && IsWrite(op)
    ensures Good(OpStep(w, op))
  {
    WriteStepEffect(w, op);
    WritesChangeNothingElse(w.blobs, OpStep(w, op).blobs);
    if InFlight(w) { WriteKeepsPut(w, op); }
  }

  lemma PutReads(w: World)
    requires InFlight(w) && !w.writer.Uploading? && PutConsistent(w)
    ensures InFlight(WriterStep(w, Step)) && PutConsistent(WriterStep(w, Step))
  {}

  lemma GoodBesides(w: World, writer: Writer)
    requires Good(w)
    ensures GoodBlobs(w.(writer := writer)) && GoodPending(w.(writer := writer))
  {}

  /** A crash, or a step of the writer that only reads. */
  lemma GoodRead(w: World, a: Action)
    requires Good(w) && (a.Crash? || (a.Step? && !w.writer.Uploading?))
    ensures Good(WriterStep(w, a))
  {
    GoodBesides(w, WriterStep(w, a).writer);
    if InFlight(w) && a.Step? { PutReads(w); }
  }

  lemma GoodStep(w: World, op: Op)
    requires Good(w)
    ensures Good(OrderlyStep(w, op))
  {
    if Allowed(w, op) {
      match op
      case Erase(path) => GoodErase(w, path);
      case Put(Begin(p, base)) => GoodBegin(w, p, base);
      case Put(a) => if a.Step? && w.writer.Uploading? { GoodUpload(w); } else { GoodRead(w, a); }
      case _ => GoodWrite(w, op);
    }
  }

  /** Over every orderly run, committed checkpoints stay complete. */
  lemma {:induction false} GoodAlways(w: World, ops: seq<Op>)
    requires Good(w)
    ensures Good(OrderlyRun(w, ops))
    decreases |ops|
  {
    if ops != [] {
      GoodStep(w, ops[0]);
      GoodAlways(OrderlyStep(w, ops[0]), ops[1..]);
    }
  }

  /** Only checkpoints, values and pending writes that the saver wrote are there. */
  ghost predicate Decodable(w: World) {
    && PendingAreWrites(w) && (forall path :: path in w.blobs && path.Write? ==> w.blobs[path].WriteBlob?)
    && (forall c :: Marker(c) in w.blobs ==> w.blobs[Marker(c)].MarkerBlob?)
    && (forall cv :: cv in w.archive ==> w.archive[cv].ValueBlob? || w.archive[cv].EmptyValue?)
  }

  lemma DecodablePut(w: World, a: Action)
    requires Decodable(w)
    ensures Decodable(WriterStep(w, a))
  {
    if a.Step? && w.writer.Uploading? { UploadLayout(w.writer.p, w.writer.latest); }
  }

  lemma DecodableOther(w: World, op: Op)
    requires Decodable(w) && !op.Put?
    ensures Decodable(OpStep(w, op))
  {}

  lemma DecodableStep(w: World, op: Op)
    requires Decodable(w)
    ensures Decodable(OpStep(w, op))
  {
    match op
    case Put(a) => DecodablePut(w, a);
    case _ => DecodableOther(w, op);
  }

  lemma {:induction false} OrderlyKeeps(w: World, ops: seq<Op>)
    requires HintInv(w) && Decodable(w)
    ensures HintInv(OrderlyRun(w, ops)) && Decodable(OrderlyRun(w, ops))
    decreases |ops|
  {
    if ops != [] {
      HintInvStep(w, ops[0]);
      DecodableStep(w, ops[0]);
      OrderlyKeeps(OrderlyStep(w, ops[0]), ops[1..]);
    }
  }

  lemma CommittedLoads(w: World, c: Id)
    requires Good(w) && Decodable(w) && c in Committed(w.blobs)
    ensures BuildTuple(w.blobs, c).Loaded?
  {
    assert Marker(c) in w.blobs;
    var versions := w.blobs[Marker(c)].versions;
    forall ch | ch in versions ensures !ReadValues(w.blobs, versions)[ch].Bad? {
      assert Refers(w.blobs, c, ch, versions[ch]);
      assert Value(ch, versions[ch]) in w.blobs;
    }
  }

  /** From the empty namespace, whatever is deleted and wherever puts crash, the hint and the scan read the same. */
  lemma HintAgreesInEveryRun(ops: seq<Op>)
    ensures var blobs := OpRun(EMPTY, ops).blobs; HintSound(blobs) && GetLatest(blobs) == BuildNewest(blobs)
  {
    EmptyIsGood();
    HintSoundAlways(EMPTY, ops);
    HintAgreesWithScan(OpRun(EMPTY, ops).blobs);
  }

  /**
   From the empty namespace, over every orderly run: each committed checkpoint loads, its pending writes included, and
   asking for the latest loads the newest of them, or nothing exactly when nothing is committed.
   */
  lemma CommittedLoadsInEveryRun(ops: seq<Op>)
    ensures var blobs := OrderlyRun(EMPTY, ops).blobs;
            && (forall c :: c in Committed(blobs) ==> BuildTuple(blobs, c).Loaded? && !PendingWrites.Unloadable(blobs, c))
            && GetLatest(blobs) == BuildNewest(blobs)
            && (if Committed(blobs) == {} then GetLatest(blobs) == Absent
                else GetLatest(blobs).Loaded? && Newest(blobs) == Some(GetLatest(blobs).value.id))
  {
    var w := OrderlyRun(EMPTY, ops);
    EmptyIsGood();
    GoodAlways(EMPTY, ops);
    OrderlyKeeps(EMPTY, ops);
    forall c | c in Committed(w.blobs) ensures BuildTuple(w.blobs, c).Loaded? { CommittedLoads(w, c); }
    HintAgreesWithScan(w.blobs);
  }

  // ---------------------------------------------------------------- value versions nobody will ever need again

  /** Version `v` of `ch` was used once, and neither a committed checkpoint nor the put in flight names it. */
  ghost predicate Dead(w: World, ch: string, v: string) {
    && (ch, v) in w.archive
    && (forall c :: !Refers(w.blobs, c, ch, v))
    && (InFlight(w) ==> (ch, v) !in w.writer.p.newVersions
                        && (ch in w.writer.p.versions ==> w.writer.p.versions[ch] != v))
  }

  lemma DeadStep(w: World, op: Op, ch: string, v: string)
    requires Good(w) && Dead(w, ch, v)
    ensures Dead(OrderlyStep(w, op), ch, v)
  {
    if Allowed(w, op) {
      match op
      case Erase(path) =>
        assert forall c :: Refers(w.blobs - {path}, c, ch, v) ==> Refers(w.blobs, c, ch, v);
      case Put(Begin(p, base)) =>
        if ch in p.versions { assert InheritedOrNew(w.blobs, p, base, ch); }
      case Put(Crash) =>
      case Put(Step) =>
        if w.writer.Uploading? {
          forall c ensures !Refers(WriterStep(w, Step).blobs, c, ch, v) {
            RefersAfterUpload(w.blobs, w.writer.p, w.writer.latest, w.writer.done, c, ch, v);
          }
        }
      case _ =>
        WriteStepEffect(w, op);
        WritesChangeNothingElse(w.blobs, OpStep(w, op).blobs);
    }
  }

  /** Once dead, a version is referred to by no checkpoint committed now or later. */
  lemma {:induction false} DeadForever(w: World, ops: seq<Op>, ch: string, v: string)
    requires Good(w) && Dead(w, ch, v)
    ensures Dead(OrderlyRun(w, ops), ch, v)
    ensures forall c :: !Refers(OrderlyRun(w, ops).blobs, c, ch, v)
    decreases |ops|
  {
    if ops != [] {
      GoodStep(w, ops[0]);
      DeadStep(w, ops[0], ch, v);
      DeadForever(OrderlyStep(w, ops[0]), ops[1..], ch, v);
    }
  }

  /** Deleting a dead value blob loses nothing: completeness and the hint both survive. */
  lemma DeletingDeadIsSafe(w: World, ch: string, v: string)
    requires Good(w) && Dead(w, ch, v)
    ensures Good(w.(blobs := w.blobs - {Value(ch, v)}))
    ensures forall ch', v' :: Dead(w, ch', v') ==> Dead(w.(blobs := w.blobs - {Value(ch, v)}), ch', v')
    ensures forall c :: BuildTuple(w.blobs - {Value(ch, v)}, c) == BuildTuple(w.blobs, c)
  {
    var after := w.(blobs := w.blobs - {Value(ch, v)});
    assert forall c, x, y :: Refers(after.blobs, c, x, y) <==> Refers(w.blobs, c, x, y);
    if InFlight(w) {
      forall x | x in w.writer.p.versions ensures InheritedOrNew(after.blobs, w.writer.p, w.writer.base, x) {
        assert InheritedOrNew(w.blobs, w.writer.p, w.writer.base, x);
      }
      forall i | 0 <= i < |w.writer.p.newVersions| ensures w.writer.p.newVersions[i] != (ch, v) {}
      assert PutConsistent(after);
    }
    forall c ensures BuildTuple(after.blobs, c) == BuildTuple(w.blobs, c) {
      if Marker(c) in w.blobs && w.blobs[Marker(c)].MarkerBlob? {
        var versions := w.blobs[Marker(c)].versions;
        forall x | x in versions ensures ReadValue(after.blobs, x, versions[x]) == ReadValue(w.blobs, x, versions[x]) {
          assert Refers(w.blobs, c, x, versions[x]);
        }
        assert ReadValues(after.blobs, versions) == ReadValues(w.blobs, versions);
        assert WritesOf(after.blobs, c) == WritesOf(w.blobs, c);
      }
    }
  }

  // ---------------------------------------------------------------- what a clean hint promises a collector

  /** Version `v` of `ch` was used, and the put in flight is not the one that brings it. */
  ghost predicate Unproduced(w: World, ch: string, v: string) {
    (ch, v) in w.archive && (InFlight(w) ==> (ch, v) !in w.writer.p.newVersions)
  }

  /** A clean hint means no put is between its dirty and its clean upload, so none is bringing a version in use. */
  lemma CleanHintMeansUnproduced(w: World, ch: string, v: string)
    requires Good(w) && ReadHint(w.blobs).Some? && (ch, v) in w.archive
    ensures Unproduced(w, ch, v)
  {
    if InFlight(w) {
      var brought := w.writer.p.newVersions;
      assert forall i :: 0 <= i < |brought| ==> brought[i] !in w.archive;
    }
  }

  /**
   From then on, once no committed checkpoint refers to the version none ever will: the put in flight, if any,
   inherits from a committed base.
   */
  lemma UnreferencedIsDead(w: World, ch: string, v: string)
    requires Good(w) && Unproduced(w, ch, v)
    ensures Dead(w, ch, v) <==> forall c :: !Refers(w.blobs, c, ch, v)
  {
    if (forall c :: !Refers(w.blobs, c, ch, v)) && InFlight(w) && ch in w.writer.p.versions {
      assert InheritedOrNew(w.blobs, w.writer.p, w.writer.base, ch);
    }
  }

  // ---------------------------------------------------------------- other participants between two storage calls

  /**
   What a caller may meet between two of its own storage calls: the writer, whose ids are never used twice, and
   retention, which touches pending writes only of a checkpoint whose marker is gone.
   */
  predicate Steady(w: World, op: Op) {
    Allowed(w, op)
    && match op
       case Put(Begin(p, _)) => p.id !in w.used
       case Erase(Write(id, _, _)) => Marker(id) !in w.blobs
       case _ => true
  }

  function SteadyStep(w: World, op: Op): World { if Steady(w, op) then OpStep(w, op) else w }

  ghost function SteadyRun(w: World, ops: seq<Op>): World
    decreases |ops|
  {
    if ops == [] then w else SteadyRun(SteadyStep(w, ops[0]), ops[1..])
  }

  /** No retention among the steps. */
  predicate WriterOnly(ops: seq<Op>) { forall i :: 0 <= i < |ops| ==> !ops[i].Erase? }

  /** The id was used, and no put will upload its marker any more. */
  predicate Finished(w: World, c: Id) {
    c in w.used && (InFlight(w) && w.writer.p.id == c ==> Uploaded(w) > MarkerAt(w.writer.p))
  }

  /** Pending writes stay: an ordinary one unchanged, a special one perhaps with a later value. */
  ghost predicate WritesGrow(writes: map<Path, Blob>, after: map<Path, Blob>) {
    forall path :: path in writes && path.Write? ==> path in after && (path.index >= 0 ==> after[path] == writes[path])
  }

  ghost predicate SameCheckpoint(blobs: Blobs, after: Blobs, c: Id)
    requires Marker(c) in blobs && Marker(c) in after
  {
    && after[Marker(c)] == blobs[Marker(c)]
    && ReadMetadata(after, c) == ReadMetadata(blobs, c)
    && WritesGrow(WritesOf(blobs, c), WritesOf(after, c))
  }

  /** A checkpoint once finished stays gone if it is gone, and is the same as long as it is there; so is its metadata. */
  ghost predicate NothingReturns(w: World, after: World) {
    forall c :: Finished(w, c) ==>
      && Finished(after, c)
      && (Marker(c) in after.blobs ==> Marker(c) in w.blobs && SameCheckpoint(w.blobs, after.blobs, c))
      && (Metadata(c) in after.blobs ==> Metadata(c) in w.blobs && after.blobs[Metadata(c)] == w.blobs[Metadata(c)])
  }

  /** What was known of value versions still is. */
  ghost predicate VersionsKept(w: World, after: World) {
    && (forall cv :: cv in w.archive ==> cv in after.archive && after.archive[cv] == w.archive[cv])
    && (forall ch, v :: Dead(w, ch, v) ==> Dead(after, ch, v))
    && (forall ch, v :: Unproduced(w, ch, v) ==> Unproduced(after, ch, v))
  }

  /**
   What the rest of the world, or the collector itself, may have done to `w`. Transitive, and kept by every steady
   step and by deleting dead values.
   */
  ghost predicate Kept(w: World, after: World) {
    Good(after) && NothingReturns(w, after) && VersionsKept(w, after) && (HintInv(w) ==> HintInv(after))
  }

  /** No value goes away but by the collector. */
  ghost predicate ValuesStay(blobs: Blobs, after: Blobs) {
    forall path: Path :: path.Value? && path in blobs ==> path in after
  }

  /** What NothingReturns says of one checkpoint. */
  ghost predicate StaysSame(w: World, after: World, c: Id) {
    && Finished(after, c)
    && (Marker(c) in after.blobs ==> Marker(c) in w.blobs && SameCheckpoint(w.blobs, after.blobs, c))
    && (Metadata(c) in after.blobs ==> Metadata(c) in w.blobs && after.blobs[Metadata(c)] == w.blobs[Metadata(c)])
  }

  lemma SameAfterUpload(w: World, c: Id)
    requires Good(w) && Finished(w, c) && w.writer.Uploading?
    ensures StaysSame(w, WriterStep(w, Step), c)
  {
    var after := WriterStep(w, Step);
    UploadLayout(w.writer.p, w.writer.latest);
    assert WritesOf(after.blobs, c) == WritesOf(w.blobs, c);
  }

  lemma SameAfterWrite(w: World, op: Op, c: Id)
    requires Good(w) && Finished(w, c) && IsWrite(op)
    ensures StaysSame(w, OpStep(w, op), c)
  {
    WriteStepEffect(w, op);
    WritesChangeNothingElse(w.blobs, OpStep(w, op).blobs);
  }

  lemma SameAfterErasing(w: World, path: Path, c: Id)
    requires Steady(w, Erase(path)) && Finished(w, c)
    ensures StaysSame(w, OpStep(w, Erase(path)), c)
  {
    var after := OpStep(w, Erase(path));
    if Marker(c) in after.blobs { assert WritesOf(after.blobs, c) == WritesOf(w.blobs, c); }
  }

  lemma NothingReturnsStep(w: World, op: Op)
    requires Good(w)
    ensures NothingReturns(w, SteadyStep(w, op))
  {
    forall c | Finished(w, c) ensures StaysSame(w, SteadyStep(w, op), c) {
      if Steady(w, op) {
        match op
        case Erase(path) => SameAfterErasing(w, path, c);
        case Put(Step) => if w.writer.Uploading? { SameAfterUpload(w, c); }
        case Put(_) =>
        case _ => SameAfterWrite(w, op, c);
      }
    }
  }

  /** Nobody but the collector touches a value version once uploaded: versions are fresh. */
  lemma ArchiveStep(w: World, op: Op, cv: (string, string))
    requires Good(w) && cv in w.archive
    ensures var after := SteadyStep(w, op);
            && cv in after.archive && after.archive[cv] == w.archive[cv]
            && (Unproduced(w, cv.0, cv.1) ==> Unproduced(after, cv.0, cv.1))
  {
    if Steady(w, op) && op == Put(Step) && w.writer.Uploading? {
      UploadLayout(w.writer.p, w.writer.latest);
      var i := w.writer.done;
      if 0 < i <= |w.writer.p.newVersions| {
        assert PutUploads(w.writer.p, w.writer.latest)[i] == ValueUpload(w.writer.p, i - 1);
        var nv := w.writer.p.newVersions[i - 1];
        assert nv !in w.archive && nv == (nv.0, nv.1);
      }
    }
  }

  lemma VersionsStep(w: World, op: Op)
    requires Good(w)
    ensures VersionsKept(w, SteadyStep(w, op))
  {
    var next := SteadyStep(w, op);
    forall cv | cv in w.archive ensures cv in next.archive && next.archive[cv] == w.archive[cv] { ArchiveStep(w, op, cv); }
    forall ch, v | Dead(w, ch, v) ensures Dead(next, ch, v) { DeadStep(w, op, ch, v); }
    forall ch, v | Unproduced(w, ch, v) ensures Unproduced(next, ch, v) { ArchiveStep(w, op, (ch, v)); }
  }

  lemma KeptByStep(w: World, op: Op)
    requires Good(w)
    ensures Kept(w, SteadyStep(w, op))
  {
    GoodStep(w, op);
    NothingReturnsStep(w, op);
    VersionsStep(w, op);
    if HintInv(w) { HintInvStep(w, op); }
  }

  ghost predicate NoneGone(blobs: Blobs, after: Blobs) {
    forall c :: Marker(c) in blobs ==> Marker(c) in after
  }

  lemma NoneGoneCommits(blobs: Blobs, after: Blobs)
    requires NoneGone(blobs, after)
    ensures Committed(blobs) <= Committed(after)
  {
    forall c | c in Committed(blobs) ensures c in Committed(after) { assert Marker(c) in after; }
  }

  lemma {:induction false} KeptAlong(w: World, ops: seq<Op>)
    requires Good(w)
    ensures Kept(w, SteadyRun(w, ops))
    decreases |ops|
  {
    if ops != [] {
      var next := SteadyStep(w, ops[0]);
      KeptByStep(w, ops[0]);
      KeptAlong(next, ops[1..]);
      KeptTransitive(w, next, SteadyRun(w, ops));
    }
  }

  lemma {:induction false} NoneGoneAlong(w: World, ops: seq<Op>)
    requires WriterOnly(ops)
    ensures NoneGone(w.blobs, SteadyRun(w, ops).blobs)
    decreases |ops|
  {
    if ops != [] {
      assert forall i :: 0 <= i < |ops[1..]| ==> ops[1..][i] == ops[i + 1];
      assert !ops[0].Erase?;
      WriterCommits(w, ops[0]);
      NoneGoneAlong(SteadyStep(w, ops[0]), ops[1..]);
    }
  }

  lemma ValuesStayStep(w: World, op: Op)
    ensures ValuesStay(w.blobs, SteadyStep(w, op).blobs)
  {}

  lemma {:induction false} ValuesStayAlong(w: World, ops: seq<Op>)
    ensures ValuesStay(w.blobs, SteadyRun(w, ops).blobs)
    decreases |ops|
  {
    if ops != [] {
      ValuesStayStep(w, ops[0]);
      ValuesStayAlong(SteadyStep(w, ops[0]), ops[1..]);
    }
  }

  /** Any amount of writing and retention. */
  lemma SteadyRunKeeps(w: World, ops: seq<Op>)
    requires Good(w)
    ensures Kept(w, SteadyRun(w, ops))
    ensures WriterOnly(ops) ==> NoneGone(w.blobs, SteadyRun(w, ops).blobs)
    ensures ValuesStay(w.blobs, SteadyRun(w, ops).blobs)
  {
    KeptAlong(w, ops);
    ValuesStayAlong(w, ops);
    if WriterOnly(ops) { NoneGoneAlong(w, ops); }
  }

  /** The writer never removes a commit marker. */
  lemma WriterCommits(w: World, op: Op)
    requires !op.Erase?
    ensures NoneGone(w.blobs, SteadyStep(w, op).blobs)
  {}

  /** The collector's own deletions of dead values are of the same kind. */
  lemma KeptByCollector(w: World, ch: string, v: string)
    requires Good(w) && Dead(w, ch, v)
    ensures Kept(w, w.(blobs := w.blobs - {Value(ch, v)}))
  {
    var after := w.(blobs := w.blobs - {Value(ch, v)});
    DeletingDeadIsSafe(w, ch, v);
    forall c ensures WritesOf(after.blobs, c) == WritesOf(w.blobs, c) {}
    if HintInv(w) { HintInvStep(w, Erase(Value(ch, v))); }
  }

  lemma KeptTransitive(a: World, b: World, c: World)
    requires Kept(a, b) && Kept(b, c)
    ensures Kept(a, c)
  {}

  /** A reload with other pending writes, everything else as it is. */
  function WithWrites(load: Load<CheckpointTuple>, writes: map<Path, Blob>): Load<CheckpointTuple> {
    if load.Loaded? then Loaded(load.value.(writes := writes)) else load
  }

  /** The same id, versions, parent, values and metadata, or the same failure, with the pending writes grown. */
  ghost predicate ReloadsAs(load: Load<CheckpointTuple>, after: Load<CheckpointTuple>) {
    && (load.Loaded? <==> after.Loaded?)
    && (load.Loaded? ==> after == WithWrites(load, after.value.writes) && WritesGrow(load.value.writes, after.value.writes))
    && (!load.Loaded? ==> after == load)
  }

  /** A build's writes come last and bear on nothing else. */
  lemma BuiltWith(blobs: Blobs, c: Id, writes: map<Path, Blob>)
    requires Marker(c) in blobs && blobs[Marker(c)].MarkerBlob?
    ensures var m := blobs[Marker(c)];
            WithWrites(BuildTuple(blobs, c), writes)
              == Assemble(c, m.versions, m.parent, ReadValues(blobs, m.versions), ReadMetadata(blobs, c), writes)
    ensures BuildTuple(blobs, c).Loaded? ==> BuildTuple(blobs, c).value.writes == WritesOf(blobs, c)
  {}

  /** A checkpoint committed at two moments reloads the same, but for pending writes stored in between. */
  lemma KeptReloads(w: World, after: World, c: Id)
    requires Good(w) && Kept(w, after) && c in Committed(w.blobs) && c in Committed(after.blobs)
    ensures ReloadsAs(BuildTuple(w.blobs, c), BuildTuple(after.blobs, c))
  {
    assert Marker(c) in w.blobs && Marker(c) in after.blobs;
    assert Finished(w, c) && SameCheckpoint(w.blobs, after.blobs, c);
    if w.blobs[Marker(c)].MarkerBlob? {
      var versions := w.blobs[Marker(c)].versions;
      forall ch | ch in versions ensures ReadValue(after.blobs, ch, versions[ch]) == ReadValue(w.blobs, ch, versions[ch]) {
        KeptValue(w, after, c, ch);
      }
      assert ReadValues(after.blobs, versions) == ReadValues(w.blobs, versions);
      BuiltWith(w.blobs, c, WritesOf(after.blobs, c));
      BuiltWith(after.blobs, c, WritesOf(after.blobs, c));
    }
  }

  lemma KeptValue(w: World, after: World, c: Id, ch: string)
    requires Good(w) && Kept(w, after) && Marker(c) in w.blobs && Marker(c) in after.blobs
    requires w.blobs[Marker(c)].MarkerBlob? && ch in w.blobs[Marker(c)].versions
    ensures var v := w.blobs[Marker(c)].versions[ch]; ReadValue(after.blobs, ch, v) == ReadValue(w.blobs, ch, v)
  {
    var v := w.blobs[Marker(c)].versions[ch];
    assert Finished(w, c) && SameCheckpoint(w.blobs, after.blobs, c);
    assert Refers(w.blobs, c, ch, v) && Refers(after.blobs, c, ch, v);
  }

  // ---------------------------------------------------------------- what a hint names

  /** Every id the hint, or the writer on its way to a new hint, may name is of a finished put. */
  ghost predicate NamesFinished(w: World) {
    && (ReadHint(w.blobs).Some? ==> Finished(w, ReadHint(w.blobs).value))
    && (w.writer.CheckingHint? ==> Finished(w, w.writer.hint))
    && (w.writer.Uploading? && w.writer.latest.Some? ==> Finished(w, w.writer.latest.value))
  }

  lemma NamesFinishedStep(w: World, op: Op)
    requires Good(w) && NamesFinished(w)
    ensures NamesFinished(SteadyStep(w, op))
  {
    if Steady(w, op) {
      match op
      case Erase(path) => ErasingKeepsBounds(w.blobs, path);
      case Put(Begin(_, _)) =>
      case Put(Crash) =>
      case Put(Step) =>
        if w.writer.Uploading? { UploadEffect(w.blobs, w.writer.p, w.writer.latest, w.writer.done); }
      case _ =>
        WriteStepEffect(w, op);
        WritesChangeNothingElse(w.blobs, OpStep(w, op).blobs);
    }
  }

  lemma {:induction false} NamesFinishedRun(w: World, ops: seq<Op>)
    requires Good(w) && NamesFinished(w)
    ensures NamesFinished(SteadyRun(w, ops))
    decreases |ops|
  {
    if ops != [] {
      NamesFinishedStep(w, ops[0]);
      GoodStep(w, ops[0]);
      NamesFinishedRun(SteadyStep(w, ops[0]), ops[1..]);
    }
  }

  /** If the checkpoint a clean hint names is there at some later moment, it was the newest when the hint was read. */
  lemma HintedWasNewest(w: World, after: World, h: Id)
    requires Good(w) && HintInv(w) && NamesFinished(w) && Kept(w, after)
    requires ReadHint(w.blobs) == Some(h) && Marker(h) in after.blobs
    ensures Marker(h) in w.blobs && Newest(w.blobs) == Some(h)
  {
    LeqIsTotalOrder();
    assert Finished(w, h);
    assert h in Committed(w.blobs);
  }
}
