/** `AzureBlobCheckpointSaver` on one namespace, method by method, each free to be cut short by a crash. */
module CheckpointSaver {
  import opened Common
  import opened Checkpoints
  import opened CheckpointWorld
  import opened PendingWrites

  /** How a guarded write ended: complete, refused by the ownership guard, or cut short by a crash. */
  datatype Outcome = Complete | Rejected | Crashed | MissingCheckpointId

  /** An ownership guard as the saver sees it: the verdict of its n-th check during one call. */
  type Guard = Option<nat -> bool>

  /** The guard passed its first `n` checks. */
  ghost predicate Passed(guard: Guard, n: nat) {
    guard.Some? ==> forall i :: 0 <= i < n ==> guard.value(i)
  }

  function Descending(a: Id, b: Id): bool { Less(b, a) }

  function InsertDescending(ids: seq<Id>, c: Id): seq<Id> {
    if ids == [] || Leq(ids[0], c) then [c] + ids else [ids[0]] + InsertDescending(ids[1..], c)
  }

  lemma {:induction false} InsertKeepsOrder(ids: seq<Id>, c: Id)
    requires StrictlySorted(Descending, ids) && c !in ids
    ensures StrictlySorted(Descending, InsertDescending(ids, c))
    ensures |InsertDescending(ids, c)| == |ids| + 1
    ensures forall x :: x in InsertDescending(ids, c) <==> x in ids || x == c
  {
    LeqIsTotalOrder();
    if ids == [] {
    } else if Leq(ids[0], c) {
      forall j | 0 <= j < |ids| ensures Descending(c, ids[j]) {
        assert j > 0 ==> Descending(ids[0], ids[j]);
      }
    } else {
      assert ids == [ids[0]] + ids[1..];
      InsertKeepsOrder(ids[1..], c);
      var tail := InsertDescending(ids[1..], c);
      forall j | 0 <= j < |tail| ensures Descending(ids[0], tail[j]) {
        assert tail[j] in tail;
      }
    }
  }

  /** The ids of a set, newest first, without repetition. */
  ghost predicate ListsNewestFirst(ids: seq<Id>, s: set<Id>) {
    StrictlySorted(Descending, ids) && forall c :: c in ids <==> c in s
  }

  function Ids(ids: seq<Id>): set<Id> { set c | c in ids }

  lemma {:induction false} DistinctCount(ids: seq<Id>)
    requires StrictlySorted(Descending, ids)
    ensures |Ids(ids)| == |ids|
  {
    if ids != [] {
      var n := |ids| - 1;
      DistinctCount(ids[..n]);
      assert Ids(ids) == Ids(ids[..n]) + {ids[n]};
      assert forall j :: 0 <= j < n ==> Descending(ids[j], ids[n]);
    }
  }

  /** What retention by count must leave: as many as asked for, each newer than everything removed. */
  ghost predicate NewestKept(committed: set<Id>, gone: set<Id>, keepLast: int) {
    var kept := committed - gone;
    && gone <= committed
    && |kept| == (if |committed| < keepLast then |committed| else keepLast)
    && forall k, g :: k in kept && g in gone ==> Less(g, k)
  }

  /** A newest-first list cut in two: every id of the front is newer than every id of the tail. */
  lemma FrontIsNewer(ids: seq<Id>, keep: nat)
    requires StrictlySorted(Descending, ids) && keep <= |ids|
    ensures forall k, g :: k in ids[..keep] && g in ids[keep..] ==> Less(g, k)
    ensures StrictlySorted(Descending, ids[..keep]) && StrictlySorted(Descending, ids[keep..])
  {
    forall k, g | k in ids[..keep] && g in ids[keep..] ensures Less(g, k) {
      var i :| 0 <= i < keep && ids[i] == k;
      var j :| keep <= j < |ids| && ids[j] == g;
      assert Descending(ids[i], ids[j]);
    }
  }

  /** Dropping the tail of a newest-first list keeps the newest. */
  lemma TailIsOldest(ids: seq<Id>, s: set<Id>, keepLast: nat)
    requires ListsNewestFirst(ids, s) && |ids| == |s|
    ensures var keep := if |ids| < keepLast then |ids| else keepLast;
            NewestKept(s, Ids(ids[keep..]), keepLast) && |Ids(ids[keep..])| == |ids| - keep
  {
    var keep := if |ids| < keepLast then |ids| else keepLast;
    var front, tail := ids[..keep], ids[keep..];
    FrontIsNewer(ids, keep);
    DistinctCount(front);
    DistinctCount(tail);
    forall c ensures c in s - Ids(tail) <==> c in Ids(front) {
      assert c in ids <==> c in front || c in tail by { assert ids == front + tail; }
      assert !(c in front && c in tail);
    }
    assert s - Ids(tail) == Ids(front);
  }

  /** What deleting one checkpoint removes: everything under its base prefix. */
  predicate Under(path: Path, id: Id) {
    (path.Marker? || path.Metadata? || path.Write?) && path.id == id
  }

  ghost function WithoutCheckpoints(blobs: Blobs, gone: set<Id>): Blobs {
    map p | p in blobs && !((p.Marker? || p.Metadata? || p.Write?) && p.id in gone) :: blobs[p]
  }

  lemma WithoutOneMore(blobs: Blobs, gone: set<Id>, id: Id)
    ensures WithoutCheckpoints(WithoutCheckpoints(blobs, gone), {id}) == WithoutCheckpoints(blobs, gone + {id})
    ensures WithoutCheckpoints(blobs, {}) == blobs
  {}

  /** Deleting some checkpoints leaves nothing of them, and every other one, all values and the hint as they were. */
  lemma RetentionKeepsTheRest(blobs: Blobs, gone: set<Id>)
    ensures var after := WithoutCheckpoints(blobs, gone);
            && (forall c :: c in gone ==> Marker(c) !in after && Metadata(c) !in after)
            && (forall c, task, index :: c in gone ==> Write(c, task, index) !in after)
            && (forall path :: path in after ==> path in blobs && after[path] == blobs[path])
            && (forall path: Path :: path in blobs && (path.Value? || path.Latest?) ==> path in after)
    ensures Committed(WithoutCheckpoints(blobs, gone)) == Committed(blobs) - gone
    ensures forall c :: c !in gone ==> BuildTuple(WithoutCheckpoints(blobs, gone), c) == BuildTuple(blobs, c)
    ensures ReadHint(WithoutCheckpoints(blobs, gone)) == ReadHint(blobs)
    ensures HintSound(blobs) ==> HintSound(WithoutCheckpoints(blobs, gone))
  {
    var after := WithoutCheckpoints(blobs, gone);
    forall c ensures c in Committed(after) <==> c in Committed(blobs) - gone {
      assert c in Committed(after) <==> Marker(c) in after;
      assert c in Committed(blobs) <==> Marker(c) in blobs;
    }
    forall c | c !in gone ensures BuildTuple(after, c) == BuildTuple(blobs, c) {
      assert WritesOf(after, c) == WritesOf(blobs, c);
      if Marker(c) in blobs && blobs[Marker(c)].MarkerBlob? {
        var versions := blobs[Marker(c)].versions;
        assert ReadValues(after, versions) == ReadValues(blobs, versions);
      }
    }
  }

  class AzureBlobCheckpointSaver {
    var blobs: Blobs
    const requireGuard: bool
    const indexMap: map<string, int>

    constructor (blobs: Blobs, requireGuard: bool, indexMap: map<string, int>)
      ensures this.blobs == blobs && this.requireGuard == requireGuard && this.indexMap == indexMap
    {
      this.blobs, this.requireGuard, this.indexMap := blobs, requireGuard, indexMap;
    }

    /** `_list_checkpoint_ids`. */
    method ListCheckpointIds() returns (ids: seq<Id>)
      ensures ListsNewestFirst(ids, Committed(blobs))
      ensures |ids| == |Committed(blobs)|
      ensures (forall c :: c in ids <==> c in Committed(blobs)) && forall i, j :: 0 <= i < j < |ids| ==> Less(ids[j], ids[i])
    {
      var todo := Committed(blobs);
      ids := [];
      while todo != {}
        invariant todo <= Committed(blobs)
        invariant ListsNewestFirst(ids, Committed(blobs) - todo)
        invariant |ids| + |todo| == |Committed(blobs)|
        decreases |todo|
      {
        var c :| c in todo;
        InsertKeepsOrder(ids, c);
        ids, todo := InsertDescending(ids, c), todo - {c};
      }
    }

    /** `_find_latest_checkpoint_id`. */
    method FindLatest() returns (latest: Option<Id>)
      ensures latest == Newest(blobs)
    {
      var ids := ListCheckpointIds();
      LeqIsTotalOrder();
      if ids == [] {
        assert forall c :: c in Committed(blobs) ==> c in ids;
        return None;
      }
      forall c | c in Committed(blobs) ensures Leq(c, ids[0]) {
        var i :| 0 <= i < |ids| && ids[i] == c;
        assert i > 0 ==> Descending(ids[0], ids[i]);
      }
      assert ids[0] in Committed(blobs);
      latest := Some(ids[0]);
    }

    /** `get_tuple`. With a sound hint, asking for the latest is asking for the newest committed checkpoint. */
    method GetTuple(requested: Option<Id>) returns (r: Load<CheckpointTuple>)
      ensures requested.GetOr("") != "" ==> r == BuildTuple(blobs, requested.value)
      ensures requested.GetOr("") == "" ==> r == GetLatest(blobs)
      ensures requested.GetOr("") == "" && HintSound(blobs) ==> r == BuildNewest(blobs)
    {
      if requested.Some? && requested.value != "" {
        return BuildTuple(blobs, requested.value);
      }
      var hint := ReadHint(blobs);
      if HintSound(blobs) { HintAgreesWithScan(blobs); }
      if hint.Some? {
        r := BuildTuple(blobs, hint.value);
        if !r.Absent? {
          return;
        }
      }
      var latest := FindLatest();
      if latest.None? {
        return Absent;
      }
      r := BuildTuple(blobs, latest.value);
    }

    /** One guarded upload: the check comes immediately before it, and a crash may come instead. */
    method Upload(path: Path, blob: Blob, guard: Guard, crashAt: nat, done: nat) returns (stop: Option<Outcome>)
      modifies this
      ensures stop.None? ==> blobs == old(blobs)[path := blob] && (guard.Some? ==> guard.value(done)) && done != crashAt
      ensures stop.Some? ==> blobs == old(blobs) && stop.value in {Rejected, Crashed}
      ensures stop == Some(Rejected) ==> guard.Some? && !guard.value(done)
      ensures stop == Some(Crashed) ==> done == crashAt && (guard.Some? ==> guard.value(done))
    {
      if guard.Some? && !guard.value(done) {
        return Some(Rejected);
      }
      if done == crashAt {
        return Some(Crashed);
      }
      blobs := blobs[path := blob];
      stop := None;
    }

    /** The guard passed every check so far, and the container holds that many uploads. */
    ghost predicate Progress(start: Blobs, uploads: seq<Upload>, guard: Guard, done: nat)
      reads this
    {
      && done <= |uploads| && blobs == ApplyUploads(start, uploads[..done])
      && Passed(guard, done)
    }

    /** How a put may have stopped after `done` uploads. */
    ghost predicate StoppedAt(outcome: Outcome, guard: Guard, crashAt: nat, done: nat) {
      match outcome
      case Rejected => if guard.None? then requireGuard && done == 0 else !guard.value(done)
      case Crashed => done == crashAt
      case _ => false
    }

    /** The next upload of the plan. */
    method UploadNext(path: Path, blob: Blob, guard: Guard, crashAt: nat, done: nat, ghost start: Blobs, ghost plan: seq<Upload>)
      returns (stop: Option<Outcome>, done': nat)
      requires Progress(start, plan, guard, done) && done < |plan| && plan[done] == (path, blob)
      modifies this
      ensures Progress(start, plan, guard, done')
      ensures stop.None? ==> done' == done + 1
      ensures stop.Some? ==> done' == done && StoppedAt(stop.value, guard, crashAt, done)
    {
      ApplyNext(start, plan, done);
      stop := Upload(path, blob, guard, crashAt, done);
      done' := if stop.None? then done + 1 else done;
    }

    /** The channel values of `put`, after the dirty hint. */
    method PutValues(p: PutArgs, guard: Guard, crashAt: nat, ghost start: Blobs, ghost plan: seq<Upload>)
      returns (stop: Option<Outcome>, done: nat)
      requires |plan| > |p.newVersions| && Progress(start, plan, guard, 1)
      requires forall i :: 0 <= i < |p.newVersions| ==> plan[i + 1] == ValueUpload(p, i)
      modifies this
      ensures Progress(start, plan, guard, done)
      ensures stop.None? ==> done == |p.newVersions| + 1
      ensures stop.Some? ==> done <= |p.newVersions| && StoppedAt(stop.value, guard, crashAt, done)
    {
      stop, done := None, 1;
      var i := 0;
      while i < |p.newVersions|
        invariant 0 <= i <= |p.newVersions| && done == i + 1
        invariant Progress(start, plan, guard, done) && stop.None?
      {
        var (channel, version) := p.newVersions[i];
        var blob := if channel in p.values then ValueBlob(p.values[channel]) else EmptyValue;
        assert plan[i + 1] == ValueUpload(p, i);
        stop, done := UploadNext(Value(channel, version), blob, guard, crashAt, done, start, plan);
        if stop.Some? { return; }
        i := i + 1;
      }
    }

    /**
     `put`. However it ends, the container holds exactly the first `done` uploads; `done` counts the guard
     checks that passed, and the first failed check ends the call.
     */
    method Put(p: PutArgs, guard: Guard, crashAt: nat) returns (outcome: Outcome, done: nat)
      modifies this
      ensures Progress(old(blobs), PutUploads(p, CurrentLatest(old(blobs))), guard, done)
      ensures outcome == Complete <==> done == |PutUploads(p, CurrentLatest(old(blobs)))|
      ensures outcome == Complete || StoppedAt(outcome, guard, crashAt, done)
      ensures guard.None? && requireGuard ==> outcome == Rejected && done == 0
      ensures guard.Some? && !guard.value(0) ==> blobs == old(blobs)
      ensures HintSound(old(blobs)) ==> HintSound(blobs) && GetLatest(blobs) == BuildNewest(blobs)
      ensures HintSound(old(blobs)) && outcome == Complete ==>
                ReadHint(blobs) == if Newest(blobs) == Some("") then None else Newest(blobs)
    {
      if HintSound(blobs) { HintAgreesWithScan(blobs); }
      if guard.None? && requireGuard {
        return Rejected, 0;
      }
      var latest := ReadHint(blobs);
      if latest.None? || Marker(latest.value) !in blobs {
        latest := FindLatest();
      }
      ghost var start := blobs;
      outcome, done := UploadAll(p, latest, guard, crashAt);
      if HintSound(start) { PutKeepsHint(start, p, done); }
      if done == |PutUploads(p, latest)| { assert PutUploads(p, latest)[..done] == PutUploads(p, latest); }
    }

    /** The uploads of `put`, once the current latest id is known. */
    method UploadAll(p: PutArgs, latest: Option<Id>, guard: Guard, crashAt: nat) returns (outcome: Outcome, done: nat)
      modifies this
      ensures Progress(old(blobs), PutUploads(p, latest), guard, done)
      ensures outcome == Complete <==> done == |PutUploads(p, latest)|
      ensures outcome == Complete || StoppedAt(outcome, guard, crashAt, done)
      ensures guard.Some? && !guard.value(0) ==> blobs == old(blobs)
    {
      ghost var start, plan := blobs, PutUploads(p, latest);
      UploadLayout(p, latest);
      var stop;
      stop, done := UploadNext(Latest, DIRTY, guard, crashAt, 0, start, plan);
      if stop.Some? { return stop.value, done; }
      stop, done := PutValues(p, guard, crashAt, start, plan);
      if stop.Some? { return stop.value, done; }
      stop, done := UploadNext(Metadata(p.id), MetadataBlob(p.metadata), guard, crashAt, done, start, plan);
      if stop.Some? { return stop.value, done; }
      stop, done := UploadNext(Marker(p.id), MarkerBlob(p.versions, p.parent), guard, crashAt, done, start, plan);
      if stop.Some? { return stop.value, done; }
      stop, done := UploadNext(Latest, Clean(Max(latest.GetOr(""), p.id)), guard, crashAt, done, start, plan);
      if stop.Some? { return stop.value, done; }
      outcome := Complete;
    }

    /** `put_writes`. `seen` of the call's writes were handled; `checks` of them asked the guard and passed. */
    method PutWrites(id: Option<Id>, call: Call, guard: Guard, crashAt: nat)
      returns (outcome: Outcome, seen: nat, checks: nat)
      requires Special(indexMap)
      modifies this
      ensures seen <= |call.writes| && checks <= seen
      ensures blobs == StoreAll(old(blobs), id.GetOr(""), Items(indexMap, call)[..seen])
      ensures outcome == Complete ==> id.Some? && seen == |call.writes|
      ensures outcome == MissingCheckpointId ==> id.None? && seen == 0
      ensures id.None? ==> outcome in {MissingCheckpointId, Rejected} && blobs == old(blobs)
      ensures outcome == Rejected ==> if guard.None? then requireGuard && seen == 0 else !guard.value(checks)
      ensures outcome == Crashed ==> checks == crashAt
      ensures Passed(guard, checks)
      ensures guard.Some? && !guard.value(0) ==> blobs == old(blobs)
    {
      seen, checks := 0, 0;
      var items := Items(indexMap, call);
      ghost var start := blobs;
      if guard.None? && requireGuard {
        return Rejected, 0, 0;
      }
      if id.None? {
        return MissingCheckpointId, 0, 0;
      }
      while seen < |call.writes|
        invariant 0 <= seen <= |call.writes| && checks <= seen
        invariant Written(start, id.value, items, guard, seen, checks)
      {
        var stop;
        stop, checks := WriteNext(id.value, items, guard, crashAt, seen, checks, start);
        if stop.Some? { return stop.value, seen, checks; }
        seen := seen + 1;
      }
      assert items[..seen] == items;
      outcome := Complete;
    }

    /** The container holds the first `seen` items, `checks` of which asked the guard and passed. */
    ghost predicate Written(start: Blobs, id: Id, items: seq<Item>, guard: Guard, seen: nat, checks: nat)
      reads this
    {
      && seen <= |items| && blobs == StoreAll(start, id, items[..seen]) && Passed(guard, checks)
      && (checks == 0 ==> blobs == start)
    }

    /** The next item of a call. */
    method WriteNext(id: Id, items: seq<Item>, guard: Guard, crashAt: nat, seen: nat, checks: nat, ghost start: Blobs)
      returns (stop: Option<Outcome>, checks': nat)
      requires Written(start, id, items, guard, seen, checks) && seen < |items| && items[seen].content.WriteBlob?
      modifies this
      ensures stop.None? ==> Written(start, id, items, guard, seen + 1, checks') && checks' in {checks, checks + 1}
      ensures stop.Some? ==> Written(start, id, items, guard, seen, checks') && checks' == checks
      ensures stop.Some? ==> stop.value in {Rejected, Crashed}
      ensures stop == Some(Rejected) ==> guard.Some? && !guard.value(checks)
      ensures stop == Some(Crashed) ==> checks == crashAt
    {
      StoreNext(start, id, items, seen);
      var asked;
      stop, asked := PutWrite(id, items[seen], guard, crashAt, checks);
      checks' := if stop.None? && asked then checks + 1 else checks;
    }

    /** One write of a call: an ordinary index already stored is skipped without asking the guard. */
    method PutWrite(id: Id, item: Item, guard: Guard, crashAt: nat, check: nat) returns (stop: Option<Outcome>, asked: bool)
      requires item.content.WriteBlob?
      modifies this
      ensures stop.None? ==> blobs == Store(old(blobs), id, item)
      ensures stop.None? && asked && guard.Some? ==> guard.value(check)
      ensures !asked ==> stop.None? && blobs == old(blobs)
      ensures stop.Some? ==> blobs == old(blobs) && stop.value in {Rejected, Crashed}
      ensures stop == Some(Rejected) ==> guard.Some? && !guard.value(check)
      ensures stop == Some(Crashed) ==> check == crashAt
    {
      if item.index >= 0 && PathOf(id, item) in blobs {
        return None, false;
      }
      stop := Upload(PathOf(id, item), item.content, guard, crashAt, check);
      asked := true;
    }

    /** `delete_thread`, cut short after `stop` deletions. What is left was there before; nothing is left if not cut. */
    method DeleteThread(stop: nat) returns (deleted: nat)
      modifies this
      ensures blobs.Keys <= old(blobs).Keys && forall p :: p in blobs ==> blobs[p] == old(blobs)[p]
      ensures deleted <= stop && |old(blobs)| == |blobs| + deleted
      ensures deleted < stop ==> blobs == map[]
      ensures HintSound(old(blobs)) ==> HintSound(blobs)
    {
      deleted := 0;
      while blobs != map[] && deleted < stop
        invariant blobs.Keys <= old(blobs).Keys && forall p :: p in blobs ==> blobs[p] == old(blobs)[p]
        invariant deleted <= stop && |old(blobs)| == |blobs| + deleted
        invariant HintSound(old(blobs)) ==> HintSound(blobs)
        decreases stop - deleted
      {
        var path :| path in blobs;
        ErasingKeepsBounds(blobs, path);
        assert (blobs - {path}).Keys == blobs.Keys - {path};
        blobs, deleted := blobs - {path}, deleted + 1;
      }
    }

    /** `_delete_checkpoint_blobs`: the listing under one id starts with its marker, so readers lose it first. */
    method DeleteCheckpointBlobs(id: Id) returns (order: seq<Path>)
      modifies this
      ensures blobs == WithoutCheckpoints(old(blobs), {id})
      ensures forall i :: 0 <= i < |order| ==> Under(order[i], id) && (order[i] == Marker(id) ==> i == 0)
      ensures Marker(id) in old(blobs) ==> order != [] && order[0] == Marker(id)
    {
      order := [];
      if Marker(id) in blobs { blobs, order := blobs - {Marker(id)}, order + [Marker(id)]; }
      if Metadata(id) in blobs { blobs, order := blobs - {Metadata(id)}, order + [Metadata(id)]; }
      var writes := DeleteWrites(id);
      order := order + writes;
      assert blobs == WithoutCheckpoints(old(blobs), {id});
    }

    /** Its last part, the pending writes. */
    method DeleteWrites(id: Id) returns (order: seq<Path>)
      modifies this
      ensures blobs == map p | p in old(blobs) && !(p.Write? && p.id == id) :: old(blobs)[p]
      ensures forall path :: path in order ==> path.Write? && path.id == id
    {
      order := [];
      var todo := set p | p in blobs && p.Write? && p.id == id :: p;
      while todo != {}
        invariant forall p :: p in blobs <==> p in old(blobs) && (!(p.Write? && p.id == id) || p in todo)
        invariant forall p :: p in blobs ==> blobs[p] == old(blobs)[p]
        invariant forall p :: p in todo ==> p.Write? && p.id == id
        invariant forall path :: path in order ==> path.Write? && path.id == id
        decreases |todo|
      {
        var path :| path in todo;
        blobs, order, todo := blobs - {path}, order + [path], todo - {path};
      }
    }

    /** `delete_checkpoints_before`: exactly the older checkpoints go; RetentionKeepsTheRest says what stays. */
    method DeleteCheckpointsBefore(before: Id) returns (deleted: nat)
      modifies this
      ensures blobs == WithoutCheckpoints(old(blobs), OlderThan(Committed(old(blobs)), before))
      ensures deleted == |OlderThan(Committed(old(blobs)), before)|
      ensures forall c :: c in Committed(blobs) <==> c in Committed(old(blobs)) && Leq(before, c)
      ensures deleted == |Committed(old(blobs)) - Committed(blobs)|
    {
      var ids := ListCheckpointIds();
      deleted := 0;
      ghost var start, gone := blobs, {};
      WithoutOneMore(start, {}, "");
      var i := 0;
      while i < |ids|
        invariant 0 <= i <= |ids|
        invariant gone == OlderThan(Ids(ids[..i]), before)
        invariant blobs == WithoutCheckpoints(start, gone) && deleted == |gone|
      {
        NextOlder(ids, i, before);
        if !Leq(before, ids[i]) {
          var _ := DeleteCheckpointBlobs(ids[i]);
          WithoutOneMore(start, gone, ids[i]);
          gone, deleted := gone + {ids[i]}, deleted + 1;
        }
        i := i + 1;
      }
      assert ids[..i] == ids && Ids(ids) == Committed(start);
      OlderAreGone(start, before);
    }

    /** `delete_old_checkpoints`: the `keepLast` newest survive. `None` is the `ValueError`. */
    method DeleteOldCheckpoints(keepLast: int) returns (deleted: Option<nat>, ghost gone: set<Id>)
      modifies this
      ensures keepLast < 0 ==> deleted.None? && gone == {}
      ensures keepLast >= 0 ==> NewestKept(Committed(old(blobs)), gone, keepLast) && deleted == Some(|gone|)
      ensures blobs == WithoutCheckpoints(old(blobs), gone) && Committed(blobs) == Committed(old(blobs)) - gone
      ensures keepLast >= 0 ==>
                && |Committed(blobs)| == (if |Committed(old(blobs))| < keepLast then |Committed(old(blobs))| else keepLast)
                && forall k, g :: k in Committed(blobs) && g in Committed(old(blobs)) - Committed(blobs) ==> Less(g, k)
    {
      RetentionKeepsTheRest(blobs, {});
      gone := {};
      WithoutOneMore(blobs, {}, "");
      if keepLast < 0 {
        return None, gone;
      }
      var ids := ListCheckpointIds();
      var keep := if |ids| < keepLast then |ids| else keepLast;
      TailIsOldest(ids, Committed(blobs), keepLast);
      RetentionKeepsTheRest(blobs, Ids(ids[keep..]));
      DeleteIds(ids[keep..]);
      gone := Ids(ids[keep..]);
      deleted := Some(|ids| - keep);
    }

    /** The loop of `delete_old_checkpoints`. */
    method DeleteIds(ids: seq<Id>)
      modifies this
      ensures blobs == WithoutCheckpoints(old(blobs), Ids(ids))
    {
      ghost var start := blobs;
      WithoutOneMore(start, {}, "");
      var i := 0;
      while i < |ids|
        invariant 0 <= i <= |ids|
        invariant blobs == WithoutCheckpoints(start, Ids(ids[..i]))
      {
        var _ := DeleteCheckpointBlobs(ids[i]);
        assert Ids(ids[..i + 1]) == Ids(ids[..i]) + {ids[i]};
        WithoutOneMore(start, Ids(ids[..i]), ids[i]);
        i := i + 1;
      }
      assert ids[..i] == ids;
    }
  }

  function OlderThan(s: set<Id>, before: Id): set<Id> { set c | c in s && !Leq(before, c) }

  lemma OlderAreGone(blobs: Blobs, before: Id)
    ensures var older := OlderThan(Committed(blobs), before); var after := WithoutCheckpoints(blobs, older);
            && (forall c :: c in Committed(after) <==> c in Committed(blobs) && Leq(before, c))
            && Committed(blobs) - Committed(after) == older
  {
    RetentionKeepsTheRest(blobs, OlderThan(Committed(blobs), before));
  }

  lemma NextOlder(ids: seq<Id>, i: nat, before: Id)
    requires StrictlySorted(Descending, ids) && i < |ids|
    ensures OlderThan(Ids(ids[..i + 1]), before)
              == OlderThan(Ids(ids[..i]), before) + (if Leq(before, ids[i]) then {} else {ids[i]})
    ensures ids[i] !in Ids(ids[..i])
  {
    assert forall j :: 0 <= j < i ==> Descending(ids[j], ids[i]);
    assert Ids(ids[..i + 1]) == Ids(ids[..i]) + {ids[i]};
  }

  function Erases(order: seq<Path>): seq<Op> { seq(|order|, i requires 0 <= i < |order| => Erase(order[i])) }

  function PathSet(order: seq<Path>): set<Path> { set p | p in order }

  /**
   The order in which DeleteCheckpointBlobs works is one that orderly and steady runs allow, for any checkpoint that
   is neither being written nor the base of the put in flight.
   */
  lemma {:induction false} RetentionIsOrderly(w: World, id: Id, order: seq<Path>)
    requires forall i :: 0 <= i < |order| ==> Under(order[i], id) && (order[i] == Marker(id) ==> i == 0)
    requires Marker(id) in w.blobs ==> order != [] && order[0] == Marker(id)
    requires InFlight(w) ==> w.writer.base != Some(id) && w.writer.p.id != id
    ensures OrderlyRun(w, Erases(order)) == w.(blobs := w.blobs - PathSet(order)) == SteadyRun(w, Erases(order))
    decreases |order|
  {
    if order == [] {
      assert w.blobs - PathSet(order) == w.blobs;
    } else {
      assert Steady(w, Erase(order[0]));
      var next := SteadyStep(w, Erase(order[0]));
      assert Erases(order)[1..] == Erases(order[1..]);
      RetentionIsOrderly(next, id, order[1..]);
      assert PathSet(order) == {order[0]} + PathSet(order[1..]);
      assert w.blobs - PathSet(order) == next.blobs - PathSet(order[1..]);
    }
  }
}
