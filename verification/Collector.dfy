/**
 `collect_orphaned_values`, run against a container that others keep changing: before every storage call of the
 pass the writer and retention take any number of steps, chosen by `env`.
 */
module Collector {
  import opened Common
  import opened Checkpoints
  import opened CheckpointWorld

  /** `OrphanedValueCollectionResult` for one namespace. */
  datatype Collection = Collection(
    wouldDelete: seq<Path>, deleted: seq<Path>, skippedRecent: seq<Path>, skipped: bool)

  ghost predicate Quiet(env: nat -> seq<Op>) {
    forall k :: env(k) == []
  }

  /** No retention runs meanwhile. */
  ghost predicate NoRetention(env: nat -> seq<Op>) {
    forall k :: WriterOnly(env(k))
  }

  /** Every commit marker decodes: the survivor set can be trusted. */
  ghost predicate MarkersReadable(blobs: Blobs) {
    forall c :: Marker(c) in blobs ==> blobs[Marker(c)].MarkerBlob?
  }

  ghost predicate Referenced(blobs: Blobs, ch: string, v: string) {
    exists c :: Refers(blobs, c, ch, v)
  }

  predicate Stale(stamps: map<Path, int>, cutoff: int, path: Path) {
    path in stamps && stamps[path] <= cutoff
  }

  /** A value blob that a pass over an undisturbed container must remove. */
  ghost predicate Orphan(blobs: Blobs, stamps: map<Path, int>, cutoff: int, path: Path) {
    path.Value? && path in blobs && !Referenced(blobs, path.channel, path.version) && Stale(stamps, cutoff, path)
  }

  /** One that it must leave for a later pass. */
  ghost predicate Young(blobs: Blobs, stamps: map<Path, int>, cutoff: int, path: Path) {
    path.Value? && path in blobs && !Referenced(blobs, path.channel, path.version) && !Stale(stamps, cutoff, path)
  }

  lemma ByAge(blobs: Blobs, stamps: map<Path, int>, now: int, grace: int)
    ensures MarkersReadable(blobs) <==> !exists c :: Marker(c) in blobs && !blobs[Marker(c)].MarkerBlob?
    ensures forall path: Path :: path.Value? && path in blobs && !Referenced(blobs, path.channel, path.version) ==>
              (forall c :: !Refers(blobs, c, path.channel, path.version))
              && (Orphan(blobs, stamps, now - grace, path) <==> path in stamps && now - stamps[path] >= grace)
              && (Young(blobs, stamps, now - grace, path) <==> (path in stamps ==> now - stamps[path] < grace))
  {}

  /** Every id has a marker that decodes. */
  ghost predicate Readable(blobs: Blobs, ids: seq<Id>) {
    forall j :: 0 <= j < |ids| ==> Marker(ids[j]) in blobs && blobs[Marker(ids[j])].MarkerBlob?
  }

  /** `read` is what the markers of the first ids hold. */
  ghost predicate Holds(blobs: Blobs, ids: seq<Id>, read: seq<map<string, string>>) {
    |read| <= |ids|
    && forall j :: 0 <= j < |read| ==>
         Marker(ids[j]) in blobs && blobs[Marker(ids[j])].MarkerBlob? && blobs[Marker(ids[j])].versions == read[j]
  }

  lemma HoldsNext(blobs: Blobs, ids: seq<Id>, read: seq<map<string, string>>, versions: map<string, string>)
    requires Holds(blobs, ids, read) && |read| < |ids| && Marker(ids[|read|]) in blobs
    requires blobs[Marker(ids[|read|])].MarkerBlob? && blobs[Marker(ids[|read|])].versions == versions
    ensures Holds(blobs, ids, read + [versions])
  {}

  /** The survivor set. */
  function AllPairs(read: seq<map<string, string>>): (pairs: set<(string, string)>)
    ensures forall ch, v :: (ch, v) in pairs <==> exists j :: 0 <= j < |read| && ch in read[j] && read[j][ch] == v
  {
    set j, ch | 0 <= j < |read| && ch in read[j] :: (ch, read[j][ch])
  }

  /** What a scan that has listed the ids at `listed` knows at `now`; `start` is where its reading began. */
  ghost predicate Surveyed(listed: World, start: World, now: World, quiet: bool, kept: bool) {
    Kept(listed, now) && (quiet ==> now == start) && (kept ==> NoneGone(start.blobs, now.blobs))
  }

  class SharedNamespace {
    var world: World

    constructor (world: World)
      ensures this.world == world
    {
      this.world := world;
    }

    /** What the others do between two storage calls. */
    method Interfere(ops: seq<Op>)
      requires Good(world)
      modifies this
      ensures world == SteadyRun(old(world), ops) && Kept(old(world), world) && ValuesStay(old(world).blobs, world.blobs)
      ensures WriterOnly(ops) ==> NoneGone(old(world).blobs, world.blobs)
    {
      ghost var start := world;
      SteadyRunKeeps(start, ops);
      var i := 0;
      while i < |ops|
        invariant 0 <= i <= |ops|
        invariant SteadyRun(world, ops[i..]) == SteadyRun(start, ops)
      {
        assert ops[i..][1..] == ops[i + 1..];
        world := SteadyStep(world, ops[i]);
        i := i + 1;
      }
    }

    /** `_list_checkpoint_ids`; the order is irrelevant to the survivor set. */
    method ListIds() returns (ids: seq<Id>)
      ensures forall c :: c in ids <==> c in Committed(world.blobs)
    {
      var todo := Committed(world.blobs);
      ids := [];
      while todo != {}
        invariant todo <= Committed(world.blobs)
        invariant forall c :: c in ids <==> c in Committed(world.blobs) && c !in todo
        decreases |todo|
      {
        var c :| c in todo;
        ids, todo := ids + [c], todo - {c};
      }
    }

    /** `_list_value_blobs`. */
    method ListValues() returns (paths: seq<Path>)
      ensures forall p :: p in paths <==> p in world.blobs && p.Value?
      ensures forall i, j :: 0 <= i < j < |paths| ==> paths[i] != paths[j]
    {
      var all := set p | p in world.blobs && p.Value? :: p;
      var todo := all;
      paths := [];
      while todo != {}
        invariant todo <= all
        invariant forall p :: p in paths <==> p in all && p !in todo
        invariant forall i, j :: 0 <= i < j < |paths| ==> paths[i] != paths[j]
        decreases |todo|
      {
        var p :| p in todo;
        paths, todo := paths + [p], todo - {p};
      }
    }

    /**
     `_collect_retained_versions`: every version a marker refers to at the instant of the listing, or `None`. A
     marker that is gone when its turn comes gives `None`; one that is still there is the one that was listed.
     */
    method CollectRetainedVersions(env: nat -> seq<Op>, clock: nat)
      returns (retained: Option<set<(string, string)>>, clock': nat, ghost listed: World)
      requires Good(world)
      modifies this
      ensures Kept(old(world), listed) && Kept(listed, world)
      ensures retained.Some? ==> forall c, ch, v :: Refers(listed.blobs, c, ch, v) ==> (ch, v) in retained.value
      ensures retained.Some? && NoRetention(env) ==>
                forall c, ch, v :: Refers(old(world).blobs, c, ch, v) ==> (ch, v) in retained.value
      ensures NoRetention(env) ==> NoneGone(old(world).blobs, world.blobs)
      ensures Quiet(env) ==>
                && world == old(world)
                && (retained.Some? <==> MarkersReadable(world.blobs))
                && (retained.Some? ==> forall ch, v :: (ch, v) in retained.value ==> Referenced(world.blobs, ch, v))
    {
      Interfere(env(clock));
      clock' := clock + 1;
      listed := world;
      SteadyRunKeeps(world, []);
      var ids := ListIds();
      ListedMarkers(listed.blobs, ids);
      var read;
      read, clock' := ReadMarkers(ids, env, clock', listed);
      if read.None? {
        return None, clock', listed;
      }
      retained := Some(AllPairs(read.value));
      ListedCovers(listed, ids, read.value);
      if NoRetention(env) { EarlierCovers(old(world), listed, retained.value); }
    }

    /** One marker of the listing, read later. */
    method ReadMarker(id: Id, ops: seq<Op>, ghost listed: World, ghost start: World, ghost quiet: bool, ghost kept: bool)
      returns (versions: Option<map<string, string>>)
      requires Good(listed) && Surveyed(listed, start, world, quiet, kept) && Marker(id) in listed.blobs
      requires (quiet ==> ops == []) && (kept ==> WriterOnly(ops))
      modifies this
      ensures Surveyed(listed, start, world, quiet, kept)
      ensures versions.Some? ==> listed.blobs[Marker(id)].MarkerBlob? && versions.value == listed.blobs[Marker(id)].versions
      ensures quiet && start == listed && listed.blobs[Marker(id)].MarkerBlob? ==> versions.Some?
    {
      ghost var before := world;
      Interfere(ops);
      KeptTransitive(listed, before, world);
      if Marker(id) !in world.blobs || !world.blobs[Marker(id)].MarkerBlob? {
        return None;
      }
      SameMarker(listed, world, id);
      versions := Some(world.blobs[Marker(id)].versions);
    }

    /** The loop over the listed ids. */
    method ReadMarkers(ids: seq<Id>, env: nat -> seq<Op>, clock: nat, ghost listed: World)
      returns (read: Option<seq<map<string, string>>>, clock': nat)
      requires Good(listed) && Kept(listed, world)
      requires forall j :: 0 <= j < |ids| ==> Marker(ids[j]) in listed.blobs
      modifies this
      ensures Surveyed(listed, old(world), world, Quiet(env), NoRetention(env))
      ensures read.Some? ==> |read.value| == |ids| && Holds(listed.blobs, ids, read.value)
      ensures Quiet(env) && old(world) == listed && Readable(listed.blobs, ids) ==> read.Some?
    {
      ghost var start, quiet, kept := world, Quiet(env), NoRetention(env);
      var found := [];
      clock' := clock;
      while |found| < |ids|
        invariant Surveyed(listed, start, world, quiet, kept) && Holds(listed.blobs, ids, found)
      {
        var versions := ReadMarker(ids[|found|], env(clock'), listed, start, quiet, kept);
        clock' := clock' + 1;
        if versions.None? {
          return None, clock';
        }
        HoldsNext(listed.blobs, ids, found, versions.value);
        found := found + [versions.value];
      }
      read := Some(found);
    }

    /** One turn of the deletion loop: hint, re-scan, delete. */
    method RecheckAndDelete(path: Path, env: nat -> seq<Op>, clock: nat) returns (turn: Turn, clock': nat)
      requires Good(world) && path.Value? && (path.channel, path.version) in world.archive
      modifies this
      ensures Kept(old(world), world)
      ensures turn == Deleted ==> Dead(world, path.channel, path.version) && path !in world.blobs
      ensures NoRetention(env) ==> NoneGone(old(world).blobs, world.blobs)
      ensures Quiet(env) ==>
                && (turn == Abort <==> ReadHint(old(world).blobs).None? || !MarkersReadable(old(world).blobs))
                && (turn == Spared ==> Referenced(old(world).blobs, path.channel, path.version))
                && (turn == Deleted ==> !Referenced(old(world).blobs, path.channel, path.version))
                && world == old(world).(blobs := if turn == Deleted then old(world).blobs - {path} else old(world).blobs)
    {
      ghost var start := world;
      Interfere(env(clock));
      clock' := clock + 1;
      if ReadHint(world.blobs).None? {
        return Abort, clock';
      }
      CleanHintMeansUnproduced(world, path.channel, path.version);
      ghost var clean := world;
      var retained;
      ghost var listed;
      retained, clock', listed := CollectRetainedVersions(env, clock');
      KeptThrough(start, clean, listed, world);
      if retained.None? {
        return Abort, clock';
      }
      if (path.channel, path.version) in retained.value {
        return Spared, clock';
      }
      UnreferencedIsDead(listed, path.channel, path.version);
      DeleteDead(path, env(clock'), start);
      return Deleted, clock' + 1;
    }

    /** The delete itself: a value that is dead when it is sent is dead when it arrives. */
    method DeleteDead(path: Path, ops: seq<Op>, ghost start: World)
      requires Kept(start, world) && path.Value? && Dead(world, path.channel, path.version)
      modifies this
      ensures Kept(start, world) && Dead(world, path.channel, path.version) && path !in world.blobs
      ensures WriterOnly(ops) ==> NoneGone(old(world).blobs, world.blobs)
      ensures ops == [] ==> world == old(world).(blobs := old(world).blobs - {path})
    {
      ghost var before := world;
      Interfere(ops);
      KeptTransitive(start, before, world);
      KeptByCollector(world, path.channel, path.version);
      KeptTransitive(start, world, world.(blobs := world.blobs - {path}));
      world := world.(blobs := world.blobs - {path});
    }

    /** The first part of the pass: hint, survivor scan and listing; unless it can be trusted, nothing is found. */
    method FindOrphans(cutoff: int, stamps: map<Path, int>, env: nat -> seq<Op>)
      returns (trusted: bool, orphans: seq<Path>, recent: seq<Path>, clock: nat)
      requires Good(world)
      modifies this
      ensures Kept(old(world), world) && (NoRetention(env) ==> NoneGone(old(world).blobs, world.blobs))
      ensures Archived(world, orphans) && forall i, j :: 0 <= i < j < |orphans| ==> orphans[i] != orphans[j]
      ensures forall path :: path in orphans ==> path.Value? && Stale(stamps, cutoff, path)
      ensures forall path :: path in recent ==> path.Value? && !Stale(stamps, cutoff, path)
      ensures !trusted ==> orphans == [] && recent == []
      ensures Quiet(env) ==>
                && world == old(world)
                && (trusted <==> ReadHint(old(world.blobs)).Some? && MarkersReadable(old(world.blobs)))
                && (trusted ==> forall path :: path in orphans <==> Orphan(old(world.blobs), stamps, cutoff, path))
                && (trusted ==> forall path :: path in recent <==> Young(old(world.blobs), stamps, cutoff, path))
    {
      ghost var start := world;
      Interfere(env(0));
      clock := 1;
      if ReadHint(world.blobs).None? {
        return false, [], [], clock;
      }
      var retained;
      ghost var clean, listed := world, world;
      retained, clock, listed := CollectRetainedVersions(env, 1);
      KeptThrough(start, clean, listed, world);
      if retained.None? {
        return false, [], [], clock;
      }
      ghost var scanned := world;
      Interfere(env(clock));
      clock := clock + 1;
      KeptTransitive(start, scanned, world);
      var listing := ListValues();
      trusted := true;
      orphans, recent := Partition(listing, retained.value, stamps, cutoff);
    }

    /** The pass, with the instant up to which blobs are old enough. */
    method CollectUpTo(dryRun: bool, cutoff: int, stamps: map<Path, int>, env: nat -> seq<Op>) returns (result: Collection)
      requires Good(world)
      modifies this
      ensures Kept(old(world), world)
      ensures forall c :: c in Committed(old(world.blobs)) && c in Committed(world.blobs) ==>
                ReloadsAs(BuildTuple(old(world.blobs), c), BuildTuple(world.blobs, c))
      ensures NoRetention(env) ==> Committed(old(world.blobs)) <= Committed(world.blobs)
      ensures forall path, ops, c :: path in result.deleted ==>
                path.Value? && !Refers(OrderlyRun(world, ops).blobs, c, path.channel, path.version)
      ensures forall path :: path in result.deleted ==> path in result.wouldDelete
      ensures forall path :: path in result.wouldDelete ==> path.Value? && Stale(stamps, cutoff, path)
      ensures forall path :: path in result.skippedRecent ==> path.Value? && !Stale(stamps, cutoff, path)
      ensures dryRun ==> result.deleted == []
      ensures Quiet(env) && (ReadHint(old(world.blobs)).None? || !MarkersReadable(old(world.blobs))) ==>
                result == Collection([], [], [], true) && world == old(world)
      ensures Quiet(env) && ReadHint(old(world.blobs)).Some? && MarkersReadable(old(world.blobs)) ==>
                && !result.skipped
                && (forall path :: path in result.wouldDelete <==> Orphan(old(world.blobs), stamps, cutoff, path))
                && (forall path :: path in result.skippedRecent <==> Young(old(world.blobs), stamps, cutoff, path))
                && (dryRun ==> world == old(world))
                && (!dryRun ==> result.deleted == result.wouldDelete
                                && world == old(world).(blobs := old(world.blobs) - Elements(result.wouldDelete)))
    {
      ghost var start := world;
      var trusted, orphans, recent, clock := FindOrphans(cutoff, stamps, env);
      if !trusted || dryRun {
        SafeForever(start, world, []);
        return Collection(orphans, [], recent, !trusted);
      }
      var deleted, aborted := DeleteOrphans(orphans, env, clock, start);
      SafeForever(start, world, deleted);
      result := Collection(orphans, deleted, recent, aborted);
    }

    /** `collect_orphaned_values` for this namespace. `stamps` are the listing's `last_modified` values, in seconds like `now`. */
    method CollectOrphanedValues(dryRun: bool, now: int, grace: int, stamps: map<Path, int>, env: nat -> seq<Op>)
      returns (result: Collection)
      requires Good(world)
      modifies this
      // Whatever the writer and retention did meanwhile: every checkpoint is complete, and one that is still
      // committed reloads as it did, but for pending writes stored since. Without retention that is every checkpoint.
      ensures Kept(old(world), world)
      ensures forall c :: c in Committed(old(world.blobs)) && c in Committed(world.blobs) ==>
                ReloadsAs(BuildTuple(old(world.blobs), c), BuildTuple(world.blobs, c))
      ensures NoRetention(env) ==> Committed(old(world.blobs)) <= Committed(world.blobs)
      // No deleted blob is referred to by a checkpoint committed then, or after any further orderly run.
      ensures forall path, ops, c :: path in result.deleted ==>
                path.Value? && !Refers(OrderlyRun(world, ops).blobs, c, path.channel, path.version)
      ensures forall path :: path in result.deleted ==> path in result.wouldDelete
      // The grace period: candidates are at least that old, and what is younger or undated waits for a later pass.
      ensures forall path :: path in result.wouldDelete ==> path.Value? && path in stamps && now - stamps[path] >= grace
      ensures forall path :: path in result.skippedRecent ==> path.Value? && (path in stamps ==> now - stamps[path] < grace)
      ensures dryRun ==> result.deleted == []
      // Undisturbed, the pass fails closed on an untrusted namespace and otherwise removes exactly the orphans.
      ensures (forall k :: env(k) == [])
              && (ReadHint(old(world.blobs)).None?
                  || exists c :: Marker(c) in old(world.blobs) && !old(world.blobs)[Marker(c)].MarkerBlob?) ==>
                result == Collection([], [], [], true) && world == old(world)
      ensures (forall k :: env(k) == []) && ReadHint(old(world.blobs)).Some?
              && (forall c :: Marker(c) in old(world.blobs) ==> old(world.blobs)[Marker(c)].MarkerBlob?) ==>
                && !result.skipped
                && (forall path: Path :: path in result.wouldDelete <==>
                      path.Value? && path in old(world.blobs)
                      && (forall c :: !Refers(old(world.blobs), c, path.channel, path.version))
                      && path in stamps && now - stamps[path] >= grace)
                && (forall path: Path :: path in result.skippedRecent <==>
                      path.Value? && path in old(world.blobs)
                      && (forall c :: !Refers(old(world.blobs), c, path.channel, path.version))
                      && (path in stamps ==> now - stamps[path] < grace))
                && (dryRun ==> world == old(world))
                && (!dryRun ==> result.deleted == result.wouldDelete
                                && world == old(world).(blobs := old(world.blobs) - Elements(result.wouldDelete)))
    {
      ghost var start := world;
      result := CollectUpTo(dryRun, now - grace, stamps, env);
      assert (forall k :: env(k) == []) ==> Quiet(env);
      if Quiet(env) { ByAge(start.blobs, stamps, now, grace); }
    }

    /** The loop over the orphans. */
    method DeleteOrphans(orphans: seq<Path>, env: nat -> seq<Op>, clock: nat, ghost start: World)
      returns (deleted: seq<Path>, aborted: bool)
      requires Good(start) && Kept(start, world)
      requires Archived(world, orphans)
      requires forall i, j :: 0 <= i < j < |orphans| ==> orphans[i] != orphans[j]
      modifies this
      ensures Kept(start, world) && AllDead(world, orphans, deleted)
      ensures NoRetention(env) ==> NoneGone(old(world).blobs, world.blobs)
      ensures Quiet(env) && Calm(old(world.blobs), orphans) ==>
                !aborted && deleted == orphans && world == old(world).(blobs := old(world).blobs - Elements(orphans))
    {
      deleted, aborted := [], false;
      var clock := clock;
      var i := 0;
      ghost var before := world;
      ghost var calm := Quiet(env) && Calm(before.blobs, orphans);
      while i < |orphans|
        invariant 0 <= i <= |orphans| && Kept(start, world)
        invariant Archived(world, orphans) && AllDead(world, orphans, deleted)
        invariant NoRetention(env) ==> NoneGone(before.blobs, world.blobs)
        invariant calm ==> !aborted && Swept(before, world, orphans, i, deleted)
      {
        ghost var previous := world;
        assert orphans[i] in orphans;
        if calm { SweptNext(before, world, orphans, i, deleted); }
        var turn;
        turn, clock := RecheckAndDelete(orphans[i], env, clock);
        KeptTransitive(start, previous, world);
        StillArchivedAndDead(previous, world, orphans, deleted);
        if turn == Abort {
          aborted := true;
          break;
        }
        if turn == Deleted {
          deleted := deleted + [orphans[i]];
        }
        i := i + 1;
      }
      assert calm ==> orphans[..i] == orphans;
    }
  }

  ghost predicate Archived(w: World, orphans: seq<Path>) {
    forall path :: path in orphans ==> path.Value? && (path.channel, path.version) in w.archive
  }

  ghost predicate AllDead(w: World, orphans: seq<Path>, deleted: seq<Path>) {
    forall path :: path in deleted ==> path in orphans && path.Value? && Dead(w, path.channel, path.version)
  }

  lemma StillArchivedAndDead(w: World, after: World, orphans: seq<Path>, deleted: seq<Path>)
    requires Kept(w, after) && Archived(w, orphans) && AllDead(w, orphans, deleted)
    ensures Archived(after, orphans) && AllDead(after, orphans, deleted)
  {}

  /** Nothing a collection pass could stumble over. */
  ghost predicate Calm(blobs: Blobs, orphans: seq<Path>) {
    && ReadHint(blobs).Some? && MarkersReadable(blobs)
    && forall path :: path in orphans ==> path.Value? && !Referenced(blobs, path.channel, path.version)
  }

  /** The first `i` orphans are gone and nothing else happened. */
  ghost predicate Swept(before: World, world: World, orphans: seq<Path>, i: nat, deleted: seq<Path>) {
    i <= |orphans| && deleted == orphans[..i] && world == before.(blobs := before.blobs - Elements(orphans[..i]))
  }

  lemma SweptNext(before: World, world: World, orphans: seq<Path>, i: nat, deleted: seq<Path>)
    requires i < |orphans| && Calm(before.blobs, orphans) && Swept(before, world, orphans, i, deleted)
    ensures ReadHint(world.blobs).Some? && MarkersReadable(world.blobs)
    ensures !Referenced(world.blobs, orphans[i].channel, orphans[i].version)
    ensures Swept(before, world.(blobs := world.blobs - {orphans[i]}), orphans, i + 1, deleted + [orphans[i]])
  {
    assert orphans[i] in orphans;
    RemovingValues(before.blobs, orphans[..i]);
    assert Elements(orphans[..i + 1]) == Elements(orphans[..i]) + {orphans[i]};
    assert before.blobs - Elements(orphans[..i + 1]) == before.blobs - Elements(orphans[..i]) - {orphans[i]};
  }

  function Elements(paths: seq<Path>): set<Path> { set path | path in paths }

  datatype Turn = Deleted | Spared | Abort

  /** Removing value blobs changes neither the hint nor any marker. */
  lemma RemovingValues(blobs: Blobs, paths: seq<Path>)
    requires forall path :: path in paths ==> path.Value?
    ensures var after := blobs - Elements(paths);
            && ReadHint(after) == ReadHint(blobs) && (MarkersReadable(after) <==> MarkersReadable(blobs))
            && forall ch, v :: Referenced(after, ch, v) <==> Referenced(blobs, ch, v)
  {
    var after := blobs - Elements(paths);
    assert forall c :: (Marker(c) in after <==> Marker(c) in blobs) && (Marker(c) in blobs ==> after[Marker(c)] == blobs[Marker(c)]);
    assert forall c, ch, v :: Refers(after, c, ch, v) <==> Refers(blobs, c, ch, v);
    forall ch, v ensures Referenced(after, ch, v) <==> Referenced(blobs, ch, v) {
      if Referenced(blobs, ch, v) {
        var c :| Refers(blobs, c, ch, v);
        assert Refers(after, c, ch, v);
      }
    }
  }

  lemma ListedMarkers(blobs: Blobs, ids: seq<Id>)
    requires forall c :: c in ids <==> c in Committed(blobs)
    ensures forall j :: 0 <= j < |ids| ==> Marker(ids[j]) in blobs
    ensures Readable(blobs, ids) <==> MarkersReadable(blobs)
  {
    forall j | 0 <= j < |ids| ensures Marker(ids[j]) in blobs { assert ids[j] in ids; }
    if Readable(blobs, ids) {
      forall c | Marker(c) in blobs ensures blobs[Marker(c)].MarkerBlob? { assert c in Committed(blobs) && c in ids; }
    }
  }

  lemma ListedCovers(listed: World, ids: seq<Id>, read: seq<map<string, string>>)
    requires forall c :: c in ids <==> c in Committed(listed.blobs)
    requires |read| == |ids| && Holds(listed.blobs, ids, read)
    ensures forall c, ch, v :: Refers(listed.blobs, c, ch, v) ==> (ch, v) in AllPairs(read)
    ensures forall ch, v :: (ch, v) in AllPairs(read) ==> Referenced(listed.blobs, ch, v)
    ensures Readable(listed.blobs, ids)
  {
    forall c, ch, v | Refers(listed.blobs, c, ch, v) ensures (ch, v) in AllPairs(read) {
      assert c in Committed(listed.blobs) && c in ids;
    }
    forall ch, v | (ch, v) in AllPairs(read) ensures Referenced(listed.blobs, ch, v) {
      var j :| 0 <= j < |read| && ch in read[j] && read[j][ch] == v;
      assert Refers(listed.blobs, ids[j], ch, v);
    }
  }

  /** Without retention the listing still shows every marker there was before it. */
  lemma EarlierCovers(start: World, listed: World, retained: set<(string, string)>)
    requires Good(start) && Kept(start, listed) && NoneGone(start.blobs, listed.blobs)
    requires forall c, ch, v :: Refers(listed.blobs, c, ch, v) ==> (ch, v) in retained
    ensures forall c, ch, v :: Refers(start.blobs, c, ch, v) ==> (ch, v) in retained
  {
    forall c, ch, v | Refers(start.blobs, c, ch, v) ensures (ch, v) in retained {
      assert c in Committed(start.blobs) && Marker(c) in listed.blobs;
      SameMarker(start, listed, c);
      assert Refers(listed.blobs, c, ch, v);
    }
  }

  lemma SameMarker(w: World, after: World, c: Id)
    requires Good(w) && Kept(w, after) && Marker(c) in w.blobs && Marker(c) in after.blobs
    ensures after.blobs[Marker(c)] == w.blobs[Marker(c)]
  {
    assert Finished(w, c);
  }

  lemma KeptThrough(start: World, clean: World, listed: World, end: World)
    requires Kept(start, clean) && Kept(clean, listed) && Kept(listed, end)
    ensures Kept(start, end) && Kept(clean, end)
  {
    KeptTransitive(clean, listed, end);
    KeptTransitive(start, clean, end);
  }

  /** The pass's promises to the caller, from what its loop kept. */
  lemma SafeForever(start: World, end: World, deleted: seq<Path>)
    requires Good(start) && Kept(start, end)
    requires forall path :: path in deleted ==> path.Value? && Dead(end, path.channel, path.version)
    ensures forall c :: c in Committed(start.blobs) && c in Committed(end.blobs) ==>
              ReloadsAs(BuildTuple(start.blobs, c), BuildTuple(end.blobs, c))
    ensures NoneGone(start.blobs, end.blobs) ==> Committed(start.blobs) <= Committed(end.blobs)
    ensures forall path, ops, c :: path in deleted ==>
              path.Value? && !Refers(OrderlyRun(end, ops).blobs, c, path.channel, path.version)
  {
    if NoneGone(start.blobs, end.blobs) { NoneGoneCommits(start.blobs, end.blobs); }
    forall c | c in Committed(start.blobs) && c in Committed(end.blobs)
      ensures ReloadsAs(BuildTuple(start.blobs, c), BuildTuple(end.blobs, c))
    {
      KeptReloads(start, end, c);
    }
    forall path, ops, c | path in deleted ensures !Refers(OrderlyRun(end, ops).blobs, c, path.channel, path.version) {
      DeadForever(end, ops, path.channel, path.version);
    }
  }

  /** The candidates and the deferred blobs among the listed values. */
  method Partition(listing: seq<Path>, retained: set<(string, string)>, stamps: map<Path, int>, cutoff: int)
    returns (orphans: seq<Path>, recent: seq<Path>)
    requires forall p :: p in listing ==> p.Value?
    requires forall i, j :: 0 <= i < j < |listing| ==> listing[i] != listing[j]
    ensures forall p :: p in orphans <==>
              p in listing && (p.channel, p.version) !in retained && p in stamps && stamps[p] <= cutoff
    ensures forall p :: p in recent <==>
              p in listing && (p.channel, p.version) !in retained && (p in stamps ==> stamps[p] > cutoff)
    ensures forall i, j :: 0 <= i < j < |orphans| ==> orphans[i] != orphans[j]
  {
    orphans, recent := [], [];
    var i := 0;
    while i < |listing|
      invariant 0 <= i <= |listing|
      invariant forall p :: p in orphans <==> p in listing[..i] && (p.channel, p.version) !in retained && Stale(stamps, cutoff, p)
      invariant forall p :: p in recent <==> p in listing[..i] && (p.channel, p.version) !in retained && !Stale(stamps, cutoff, p)
      invariant forall j, k :: 0 <= j < k < |orphans| ==> orphans[j] != orphans[k]
    {
      var p := listing[i];
      assert listing[..i + 1] == listing[..i] + [p] && p !in listing[..i];
      if (p.channel, p.version) in retained {
      } else if !Stale(stamps, cutoff, p) {
        recent := recent + [p];
      } else {
        orphans := orphans + [p];
      }
      i := i + 1;
    }
    assert listing[..i] == listing;
  }
}
