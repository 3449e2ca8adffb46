/**
 `get_tuple` beside a running writer and retention: before each of its storage calls they take any number of steps,
 chosen by `env`. A blob is read by two requests, for its payload and then for its properties. Only a pending write
 of a special index can be replaced between them; of any other blob the pair gives what the second alone would.
 */
module CheckpointReader {
  import opened Common
  import opened Checkpoints
  import opened CheckpointWorld
  import opened Collector

  ghost function Turns(start: World, env: nat -> seq<Op>, k: nat): World {
    if k == 0 then start else SteadyRun(Turns(start, env, k - 1), env(k - 1))
  }

  /** The namespace after `k` turns of the others; reading changes nothing. */
  ghost function At(start: World, env: nat -> seq<Op>, k: nat): World { Turns(start, env, k) }

  ghost function BlobsAt(start: World, env: nat -> seq<Op>, k: nat): Blobs { At(start, env, k).blobs }

  ghost predicate Grown(w: World, after: World) { Kept(w, after) && ValuesStay(w.blobs, after.blobs) }

  lemma GrownReflexive(w: World)
    requires Good(w)
    ensures Grown(w, w)
  {
    SteadyRunKeeps(w, []);
  }

  lemma GrownTransitive(a: World, b: World, c: World)
    requires Grown(a, b) && Grown(b, c)
    ensures Grown(a, c)
  {
    KeptTransitive(a, b, c);
  }

  lemma {:induction false} GoodAt(start: World, env: nat -> seq<Op>, k: nat)
    requires Good(start)
    ensures Good(At(start, env, k))
  {
    if k > 0 {
      GoodAt(start, env, k - 1);
      SteadyRunKeeps(At(start, env, k - 1), env(k - 1));
    }
  }

  lemma {:induction false} NamesFinishedAt(start: World, env: nat -> seq<Op>, k: nat)
    requires Good(start) && HintInv(start) && NamesFinished(start)
    ensures Good(At(start, env, k)) && HintInv(At(start, env, k)) && NamesFinished(At(start, env, k))
  {
    if k > 0 {
      NamesFinishedAt(start, env, k - 1);
      SteadyRunKeeps(At(start, env, k - 1), env(k - 1));
      NamesFinishedRun(At(start, env, k - 1), env(k - 1));
    }
  }

  lemma {:induction false} Between(start: World, env: nat -> seq<Op>, i: nat, j: nat)
    requires Good(start) && i <= j
    ensures Good(At(start, env, i)) && Grown(At(start, env, i), At(start, env, j))
    decreases j
  {
    GoodAt(start, env, i);
    if i == j {
      GrownReflexive(At(start, env, i));
    } else {
      Between(start, env, i, j - 1);
      GoodAt(start, env, j - 1);
      SteadyRunKeeps(At(start, env, j - 1), env(j - 1));
      GrownTransitive(At(start, env, i), At(start, env, j - 1), At(start, env, j));
    }
  }

  lemma {:induction false} NoneGoneBetween(start: World, env: nat -> seq<Op>, i: nat, j: nat)
    requires Good(start) && i <= j && NoRetention(env)
    ensures NoneGone(BlobsAt(start, env, i), BlobsAt(start, env, j))
    decreases j
  {
    if i < j {
      NoneGoneBetween(start, env, i, j - 1);
      GoodAt(start, env, j - 1);
      SteadyRunKeeps(At(start, env, j - 1), env(j - 1));
    }
  }

  method Wait(ns: SharedNamespace, env: nat -> seq<Op>, clock: nat, ghost start: World)
    requires Good(start) && ns.world == At(start, env, clock)
    modifies ns
    ensures ns.world == At(start, env, clock + 1)
  {
    GoodAt(start, env, clock);
    ns.Interfere(env(clock));
  }

  /** A value that a marker refers to reads the same ever after, even if the marker goes. */
  lemma ValueReadsTheSame(at: World, now: World, id: Id, ch: string)
    requires Good(at) && Grown(at, now) && Marker(id) in at.blobs && at.blobs[Marker(id)].MarkerBlob?
    requires ch in at.blobs[Marker(id)].versions
    ensures var v := at.blobs[Marker(id)].versions[ch]; ReadValue(now.blobs, ch, v) == ReadValue(at.blobs, ch, v)
  {
    var v := at.blobs[Marker(id)].versions[ch];
    assert Refers(at.blobs, id, ch, v);
    assert Value(ch, v) in at.blobs && Value(ch, v) in now.blobs;
    assert (ch, v) in at.archive && now.archive[(ch, v)] == at.archive[(ch, v)];
  }

  /** Metadata reads the same, unless its checkpoint has been deleted. */
  lemma MetadataReadsTheSame(at: World, now: World, id: Id)
    requires Good(at) && Kept(at, now) && Marker(id) in at.blobs
    ensures ReadMetadata(now.blobs, id) == ReadMetadata(at.blobs, id)
            || (ReadMetadata(now.blobs, id).Absent? && Marker(id) !in now.blobs)
  {
    assert Finished(at, id);
  }

  lemma GoneStaysGone(at: World, now: World, later: World, id: Id)
    requires Good(at) && Marker(id) in at.blobs && Kept(at, now) && Kept(now, later) && Marker(id) !in now.blobs
    ensures Marker(id) !in later.blobs
  {
    assert Finished(at, id) && Finished(now, id);
  }

  /** One channel of `_load_channel_values`. */
  method LoadValue(ns: SharedNamespace, id: Id, ch: string, version: string, env: nat -> seq<Op>, clock: nat,
                   ghost start: World, ghost at: nat)
    returns (read: ValueRead)
    requires Good(start) && at <= clock && ns.world == At(start, env, clock)
    requires var b := BlobsAt(start, env, at);
             Marker(id) in b && b[Marker(id)].MarkerBlob? && ch in b[Marker(id)].versions
             && b[Marker(id)].versions[ch] == version
    modifies ns
    ensures ns.world == At(start, env, clock + 1)
    ensures read == ReadValue(BlobsAt(start, env, at), ch, version)
  {
    Wait(ns, env, clock, start);
    Between(start, env, at, clock + 1);
    ValueReadsTheSame(At(start, env, at), ns.world, id, ch);
    read := ReadValue(ns.world.blobs, ch, version);
  }

  /** `_load_channel_values`, channel by channel; `None` once a value cannot be decoded. */
  method LoadValues(ns: SharedNamespace, id: Id, versions: map<string, string>, env: nat -> seq<Op>, clock: nat,
                    ghost start: World, ghost at: nat)
    returns (found: Option<map<string, ValueRead>>, clock': nat)
    requires Good(start) && at <= clock && ns.world == At(start, env, clock)
    requires var b := BlobsAt(start, env, at);
             Marker(id) in b && b[Marker(id)].MarkerBlob? && b[Marker(id)].versions == versions
    modifies ns
    ensures clock <= clock' && ns.world == At(start, env, clock')
    ensures var given := ReadValues(BlobsAt(start, env, at), versions);
            if found.Some? then found.value == given && forall ch :: ch in given ==> !given[ch].Bad?
            else exists ch :: ch in given && given[ch].Bad?
  {
    ghost var given := ReadValues(BlobsAt(start, env, at), versions);
    var done: map<string, ValueRead> := map[];
    var todo := versions.Keys;
    clock' := clock;
    while todo != {}
      invariant todo <= versions.Keys && done.Keys == versions.Keys - todo
      invariant clock <= clock' && ns.world == At(start, env, clock')
      invariant forall ch :: ch in done ==> done[ch] == given[ch] && !done[ch].Bad?
      decreases |todo|
    {
      var ch :| ch in todo;
      var read := LoadValue(ns, id, ch, versions[ch], env, clock', start, at);
      clock' := clock' + 1;
      if read.Bad? {
        assert given[ch].Bad?;
        return None, clock';
      }
      done, todo := done[ch := read], todo - {ch};
    }
    assert done == given;
    found := Some(done);
  }

  function Find(blobs: map<Path, Blob>, path: Path): Option<Blob> {
    if path in blobs then Some(blobs[path]) else None
  }

  /** `_download_typed_blob` for a pending write: channel and task path are among the properties. */
  function ReadWrite(payload: Option<Blob>, properties: Option<Blob>): Option<Blob> {
    if payload.None? || properties.None? then None
    else if properties.value.WriteBlob? && payload.value.WriteBlob? then Some(properties.value.(written := payload.value.written))
    else if properties.value.WriteBlob? then payload
    else properties
  }

  /** What two successive requests, the first of them at `k`, read of a pending write. */
  ghost predicate ReadAt(got: Option<Blob>, path: Path, start: World, env: nat -> seq<Op>, k: nat) {
    got == ReadWrite(Find(BlobsAt(start, env, k), path), Find(BlobsAt(start, env, k + 1), path))
  }

  ghost predicate ReadBetween(got: Option<Blob>, path: Path, start: World, env: nat -> seq<Op>, listed: nat, end: nat) {
    exists k :: listed < k < end && ReadAt(got, path, start, env, k)
  }

  /** The pending writes `done` have been read, each at its own instant, and those then missing left out. */
  ghost predicate ReadSoFar(writes: map<Path, Blob>, done: set<Path>, start: World, env: nat -> seq<Op>, listed: nat, end: nat) {
    writes.Keys <= done && forall p :: p in done ==> ReadBetween(Find(writes, p), p, start, env, listed, end)
  }

  ghost predicate ReadSince(writes: map<Path, Blob>, start: World, env: nat -> seq<Op>, listed: nat, end: nat, id: Id) {
    ReadSoFar(writes, WritesOf(BlobsAt(start, env, listed), id).Keys, start, env, listed, end)
  }

  function WithRead(writes: map<Path, Blob>, path: Path, got: Option<Blob>): map<Path, Blob> {
    if got.Some? then writes[path := got.value] else writes
  }

  lemma ReadNext(writes: map<Path, Blob>, done: set<Path>, path: Path, got: Option<Blob>,
                 start: World, env: nat -> seq<Op>, listed: nat, clock: nat)
    requires ReadSoFar(writes, done, start, env, listed, clock) && path !in done
    requires listed <= clock && ReadAt(got, path, start, env, clock + 1)
    ensures ReadSoFar(WithRead(writes, path, got), done + {path}, start, env, listed, clock + 2)
  {
    var after := WithRead(writes, path, got);
    assert Find(after, path) == got;
    forall p | p in done ensures ReadBetween(Find(after, p), p, start, env, listed, clock + 2) {
      assert Find(after, p) == Find(writes, p);
      var k :| listed < k < clock && ReadAt(Find(writes, p), p, start, env, k);
    }
  }

  /** One pending write: two requests. */
  method DownloadWrite(ns: SharedNamespace, writes: map<Path, Blob>, path: Path, env: nat -> seq<Op>, clock: nat,
                       ghost start: World, ghost listed: nat, ghost done: set<Path>)
    returns (after: map<Path, Blob>, clock': nat)
    requires Good(start) && ns.world == At(start, env, clock)
    requires listed <= clock && path !in done && ReadSoFar(writes, done, start, env, listed, clock)
    modifies ns
    ensures clock < clock' && ns.world == At(start, env, clock')
    ensures ReadSoFar(after, done + {path}, start, env, listed, clock')
  {
    Wait(ns, env, clock, start);
    var payload := Find(ns.world.blobs, path);
    Wait(ns, env, clock + 1, start);
    var got := ReadWrite(payload, Find(ns.world.blobs, path));
    ReadNext(writes, done, path, got, start, env, listed, clock);
    after, clock' := WithRead(writes, path, got), clock + 2;
  }

  method DownloadWrites(ns: SharedNamespace, listing: set<Path>, env: nat -> seq<Op>, clock: nat,
                        ghost start: World, ghost listed: nat)
    returns (writes: map<Path, Blob>, clock': nat)
    requires Good(start) && listed <= clock && ns.world == At(start, env, clock)
    modifies ns
    ensures clock <= clock' && ns.world == At(start, env, clock')
    ensures ReadSoFar(writes, listing, start, env, listed, clock')
  {
    ghost var done: set<Path> := {};
    var todo := listing;
    writes, clock' := map[], clock;
    while todo != {}
      invariant done <= listing && todo == listing - done && clock <= clock'
      invariant ns.world == At(start, env, clock') && ReadSoFar(writes, done, start, env, listed, clock')
      decreases |todo|
    {
      var path :| path in todo;
      writes, clock' := DownloadWrite(ns, writes, path, env, clock', start, listed, done);
      todo, done := todo - {path}, done + {path};
    }
  }

  /** The reads of `_load_pending_writes`; module PendingWrites orders and decodes what they give. */
  method ReadWrites(ns: SharedNamespace, id: Id, env: nat -> seq<Op>, clock: nat, ghost start: World)
    returns (writes: map<Path, Blob>, clock': nat)
    requires Good(start) && ns.world == At(start, env, clock)
    modifies ns
    ensures clock < clock' && ns.world == At(start, env, clock')
    ensures ReadSince(writes, start, env, clock + 1, clock', id)
  {
    Wait(ns, env, clock, start);
    writes, clock' := DownloadWrites(ns, WritesOf(ns.world.blobs, id).Keys, env, clock + 1, start, clock + 1);
  }

  /** A pending write of an ordinary index, of a checkpoint not deleted meanwhile, reads as it was listed. */
  lemma WriteReadsTheSame(start: World, env: nat -> seq<Op>, listed: nat, k: nat, end: nat, id: Id, path: Path)
    requires Good(start) && listed <= k <= end && path in WritesOf(BlobsAt(start, env, listed), id)
    requires Marker(id) in BlobsAt(start, env, listed) && Marker(id) in BlobsAt(start, env, end)
    ensures path in BlobsAt(start, env, k)
    ensures path.index >= 0 ==> BlobsAt(start, env, k)[path] == BlobsAt(start, env, listed)[path]
  {
    Between(start, env, listed, k);
    Between(start, env, k, end);
    var first, now := At(start, env, listed), At(start, env, k);
    assert Finished(first, id) && Finished(now, id);
    assert SameCheckpoint(first.blobs, now.blobs, id);
    assert path in WritesOf(now.blobs, id);
  }

  lemma ListedIsRead(got: Option<Blob>, start: World, env: nat -> seq<Op>, listed: nat, end: nat, id: Id, path: Path)
    requires Good(start) && ReadBetween(got, path, start, env, listed, end)
    requires path in WritesOf(BlobsAt(start, env, listed), id)
    requires Marker(id) in BlobsAt(start, env, listed) && Marker(id) in BlobsAt(start, env, end)
    ensures got.Some? && (path.index >= 0 ==> got.value == BlobsAt(start, env, listed)[path])
  {
    var k :| listed < k < end && ReadAt(got, path, start, env, k);
    WriteReadsTheSame(start, env, listed, k, end, id, path);
    WriteReadsTheSame(start, env, listed, k + 1, end, id, path);
  }

  /**
   Of a checkpoint that is not deleted by the end, every pending write listed is read, and those of ordinary indexes
   as they were listed.
   */
  lemma ListedAreRead(writes: map<Path, Blob>, start: World, env: nat -> seq<Op>, listed: nat, end: nat, id: Id)
    requires Good(start) && listed <= end && ReadSince(writes, start, env, listed, end, id)
    requires Marker(id) in BlobsAt(start, env, listed) && Marker(id) in BlobsAt(start, env, end)
    ensures var all := WritesOf(BlobsAt(start, env, listed), id); writes.Keys == all.Keys && WritesGrow(all, writes)
  {
    var all := WritesOf(BlobsAt(start, env, listed), id);
    forall path | path in all ensures path in writes && (path.index >= 0 ==> writes[path] == all[path]) {
      ListedIsRead(Find(writes, path), start, env, listed, end, id, path);
    }
  }

  /**
   Built as at `at`, with the pending writes listed at `listed` and read by `end`; or deleted by `end`, and answered
   as absent.
   */
  ghost predicate BuiltOrGone(r: Load<CheckpointTuple>, start: World, env: nat -> seq<Op>,
                              at: nat, listed: nat, end: nat, id: Id) {
    var seen := BlobsAt(start, env, at);
    if r.Loaded? then
      r == WithWrites(BuildTuple(seen, id), r.value.writes) && ReadSince(r.value.writes, start, env, listed, end, id)
    else r == BuildTuple(seen, id) || (r.Absent? && Marker(id) in seen && Marker(id) !in BlobsAt(start, env, end))
  }

  method DownloadMetadata(ns: SharedNamespace, id: Id, env: nat -> seq<Op>, clock: nat, ghost start: World, ghost at: nat)
    returns (metadata: Load<string>)
    requires Good(start) && at <= clock && ns.world == At(start, env, clock) && Marker(id) in BlobsAt(start, env, at)
    modifies ns
    ensures ns.world == At(start, env, clock + 1)
    ensures metadata == ReadMetadata(BlobsAt(start, env, at), id)
            || (metadata.Absent? && Marker(id) !in BlobsAt(start, env, clock + 1))
  {
    Wait(ns, env, clock, start);
    Between(start, env, at, clock + 1);
    MetadataReadsTheSame(At(start, env, at), ns.world, id);
    metadata := ReadMetadata(ns.world.blobs, id);
  }

  /** How a build ends without a result. */
  lemma NotBuilt(blobs: Blobs, id: Id)
    requires Marker(id) in blobs && blobs[Marker(id)].MarkerBlob?
    ensures var given := ReadValues(blobs, blobs[Marker(id)].versions);
            if exists ch :: ch in given && given[ch].Bad? then BuildTuple(blobs, id) == Raised
            else (ReadMetadata(blobs, id).Absent? ==> BuildTuple(blobs, id) == Absent)
                 && (ReadMetadata(blobs, id).Raised? ==> BuildTuple(blobs, id) == Raised)
  {}

  /** The tail of `_build_tuple`, once the marker has been read at `at`. */
  method BuildRest(ns: SharedNamespace, id: Id, env: nat -> seq<Op>, at: nat,
                   versions: map<string, string>, parent: Option<Id>, ghost start: World)
    returns (r: Load<CheckpointTuple>, clock': nat, ghost listed: nat)
    requires Good(start) && ns.world == At(start, env, at)
    requires Marker(id) in ns.world.blobs && ns.world.blobs[Marker(id)] == MarkerBlob(versions, parent)
    modifies ns
    ensures at <= listed <= clock' && ns.world == At(start, env, clock')
    ensures BuiltOrGone(r, start, env, at, listed, clock', id)
  {
    NotBuilt(ns.world.blobs, id);
    var found;
    found, clock' := LoadValues(ns, id, versions, env, at, start, at);
    listed := clock' + 2;
    if found.None? {
      return Raised, clock', clock';
    }
    var metadata := DownloadMetadata(ns, id, env, clock', start, at);
    if !metadata.Loaded? {
      return if metadata.Absent? then Absent else Raised, clock' + 1, clock' + 1;
    }
    var writes;
    writes, clock' := ReadWrites(ns, id, env, clock' + 1, start);
    BuiltWith(BlobsAt(start, env, at), id, writes);
    r := Assemble(id, versions, parent, found.value, metadata, writes);
  }

  /**
   `_build_tuple`: the result is the one an uninterrupted build would have had at the instant the marker was read, with
   the pending writes found later; or the checkpoint was deleted meanwhile.
   */
  method BuildShared(ns: SharedNamespace, id: Id, env: nat -> seq<Op>, clock: nat, ghost start: World)
    returns (r: Load<CheckpointTuple>, clock': nat, ghost listed: nat)
    requires Good(start) && ns.world == At(start, env, clock)
    modifies ns
    ensures clock + 1 <= listed <= clock' && ns.world == At(start, env, clock')
    ensures BuiltOrGone(r, start, env, clock + 1, listed, clock', id)
    ensures !r.Absent? ==> Marker(id) in BlobsAt(start, env, clock + 1)
  {
    Wait(ns, env, clock, start);
    clock' := clock + 1;
    listed := clock';
    if Marker(id) !in ns.world.blobs || ns.world.blobs[Marker(id)].Untyped? {
      return Absent, clock', listed;
    }
    if !ns.world.blobs[Marker(id)].MarkerBlob? {
      return Raised, clock', listed;
    }
    var versions, parent := ns.world.blobs[Marker(id)].versions, ns.world.blobs[Marker(id)].parent;
    r, clock', listed := BuildRest(ns, id, env, clock', versions, parent, start);
  }

  /** The checkpoint an uninterrupted `get_tuple` chooses at one instant, by the authoritative scan. */
  ghost function ChosenIn(blobs: Blobs, requested: Option<Id>): Option<Id> {
    if requested.GetOr("") != "" then requested else Newest(blobs)
  }

  /**
   What it gives: the checkpoint chosen at `at`, as it was then but with the pending writes found later. It can be answered
   as absent although it was there only if it was deleted by the end of the call.
   */
  ghost predicate GivenAt(r: Load<CheckpointTuple>, start: World, env: nat -> seq<Op>,
                          at: nat, listed: nat, end: nat, requested: Option<Id>) {
    var chosen := ChosenIn(BlobsAt(start, env, at), requested);
    if chosen.None? then r.Absent? else BuiltOrGone(r, start, env, at, listed, end, chosen.value)
  }

  /** What was built after the checkpoint was chosen is what would have been built then. */
  lemma ChosenEarlier(r: Load<CheckpointTuple>, start: World, env: nat -> seq<Op>,
                      at: nat, built: nat, listed: nat, end: nat, c: Id)
    requires Good(start) && at <= built <= listed <= end && Marker(c) in BlobsAt(start, env, at)
    requires BuiltOrGone(r, start, env, built, listed, end, c)
    ensures BuiltOrGone(r, start, env, at, listed, end, c)
  {
    Between(start, env, at, built);
    Between(start, env, built, end);
    var first, now := At(start, env, at), At(start, env, built);
    if Marker(c) in now.blobs {
      assert c in Committed(first.blobs) && c in Committed(now.blobs);
      KeptReloads(first, now, c);
    } else {
      GoneStaysGone(first, now, At(start, env, end), c);
    }
  }

  /** The scan and the build it leads to. */
  method ScanAndBuild(ns: SharedNamespace, env: nat -> seq<Op>, clock: nat, ghost start: World)
    returns (r: Load<CheckpointTuple>, ghost at: nat, ghost listed: nat, ghost end: nat)
    requires Good(start) && ns.world == At(start, env, clock)
    modifies ns
    ensures at <= listed <= end && ns.world == At(start, env, end) && GivenAt(r, start, env, at, listed, end, None)
  {
    Wait(ns, env, clock, start);
    var latest := Newest(ns.world.blobs);
    at, listed, end := clock + 1, clock + 1, clock + 1;
    if latest.None? {
      return Absent, at, listed, end;
    }
    assert Marker(latest.value) in ns.world.blobs;
    r, end, listed := BuildShared(ns, latest.value, env, clock + 1, start);
    ChosenEarlier(r, start, env, at, at + 1, listed, end, latest.value);
  }

  /**
   `get_tuple`. At some instant of the call the chosen checkpoint was what the authoritative read of the whole namespace
   chooses: without a requested id, the newest committed one. Everything but its pending writes is returned as it was then;
   they are those of a later instant of the call. Only retention during the call can make it absent instead.
   */
  method GetTuple(ns: SharedNamespace, requested: Option<Id>, env: nat -> seq<Op>)
    returns (r: Load<CheckpointTuple>, ghost at: nat, ghost listed: nat, ghost end: nat)
    requires Good(ns.world) && HintInv(ns.world) && NamesFinished(ns.world)
    modifies ns
    ensures at <= listed <= end && ns.world == At(old(ns.world), env, end)
    ensures GivenAt(r, old(ns.world), env, at, listed, end, requested)
    ensures requested.Some? && requested.value != "" ==> BuiltOrGone(r, old(ns.world), env, at, listed, end, requested.value)
    ensures requested == None || requested == Some("") ==>
              var newest := Newest(BlobsAt(old(ns.world), env, at));
              if newest.None? then r.Absent? else BuiltOrGone(r, old(ns.world), env, at, listed, end, newest.value)
  {
    ghost var start := ns.world;
    if requested.Some? && requested.value != "" {
      r, end, listed := BuildShared(ns, requested.value, env, 0, start);
      at := 1;
      return;
    }
    Wait(ns, env, 0, start);
    var clock := 1;
    var hint := ReadHint(ns.world.blobs);
    if hint.Some? {
      r, clock, listed := BuildShared(ns, hint.value, env, 1, start);
      if !r.Absent? {
        NamesFinishedAt(start, env, 1);
        Between(start, env, 1, 2);
        HintedWasNewest(At(start, env, 1), At(start, env, 2), hint.value);
        ChosenEarlier(r, start, env, 1, 2, listed, clock, hint.value);
        at, end := 1, clock;
        return;
      }
    }
    r, at, listed, end := ScanAndBuild(ns, env, clock, start);
  }

  /** Beside the writer alone: the chosen checkpoint, with every pending write it had when it was chosen and any stored since. */
  lemma CompleteWithoutRetention(r: Load<CheckpointTuple>, start: World, env: nat -> seq<Op>,
                                 at: nat, listed: nat, end: nat, requested: Option<Id>)
    requires Good(start) && NoRetention(env) && at <= listed <= end && GivenAt(r, start, env, at, listed, end, requested)
    ensures var seen := BlobsAt(start, env, at); var chosen := ChosenIn(seen, requested);
            if chosen.None? then r.Absent? else ReloadsAs(BuildTuple(seen, chosen.value), r)
  {
    var seen := BlobsAt(start, env, at);
    var chosen := ChosenIn(seen, requested);
    NoneGoneBetween(start, env, at, listed);
    NoneGoneBetween(start, env, listed, end);
    if chosen.Some? && r.Loaded? {
      var c := chosen.value;
      Between(start, env, at, listed);
      assert Finished(At(start, env, at), c) && SameCheckpoint(seen, BlobsAt(start, env, listed), c);
      ListedAreRead(r.value.writes, start, env, listed, end, c);
    }
  }

  /** Every namespace grown from the empty one by writing and retention can be read so. */
  lemma EveryNamespaceIsReadable(ops: seq<Op>)
    ensures var w := SteadyRun(EMPTY, ops); Good(w) && HintInv(w) && NamesFinished(w)
  {
    EmptyIsGood();
    SteadyRunKeeps(EMPTY, ops);
    NamesFinishedRun(EMPTY, ops);
  }
}
