/**
 One checkpoint namespace of the blob container, the uploads one `put` performs in order, and what a
 reader rebuilds from the container. Paths are structured here; module BlobPaths shows that the strings
 the saver uses stand for them one to one.
 */
module Checkpoints {
  import opened Common

  type Id = string

  datatype Path =
    | Latest
    | Value(channel: string, version: string)
    | Metadata(id: Id)
    | Marker(id: Id)
    | Write(id: Id, task: string, index: int)

  /**
   `latest.json` as its parser sees it: bytes that are no JSON object, or the three fields it reads, each only if
   it is a number, a truth value or a text. Python's `true` and `1.0` are the number 1.
   */
  datatype LatestJson = Malformed | Json(version: Option<int>, dirty: Option<bool>, checkpointId: Option<string>)

  /** Blob contents after the abstract encode/decode pair. `Untyped` has no `serde_type` metadata. */
  datatype Blob =
    | LatestBlob(json: LatestJson)
    | EmptyValue
    | ValueBlob(value: string)
    | MetadataBlob(metadata: string)
    | MarkerBlob(versions: map<string, string>, parent: Option<Id>)
    | WriteBlob(channel: string, taskPath: string, written: string)
    | Untyped
    | Undecodable

  type Blobs = map<Path, Blob>

  const DIRTY := LatestBlob(Json(Some(1), Some(true), None))

  function Clean(id: Id): Blob {
    LatestBlob(Json(Some(1), Some(false), Some(id)))
  }

  // ---------------------------------------------------------------- reading

  /** `_parse_latest_checkpoint_id`: exactly a version-1 clean document with a non-empty id is trusted. */
  function ParseLatest(json: LatestJson): (hint: Option<Id>)
    ensures hint.Some? ==> json == Json(Some(1), Some(false), hint) && hint.value != ""
    ensures hint.None? ==> forall id :: json == Json(Some(1), Some(false), Some(id)) ==> id == ""
  {
    match json
    case Malformed => None
    case Json(version, dirty, id) =>
      if version != Some(1) || dirty != Some(false) then None
      else if id.Some? && id.value != "" then id else None
  }

  /** `_read_latest_checkpoint_id`. */
  function ReadHint(blobs: Blobs): Option<Id> {
    if Latest in blobs && blobs[Latest].LatestBlob? then ParseLatest(blobs[Latest].json) else None
  }

  /** The ids `_list_checkpoint_ids` finds: the commit marker's existence is what commits. */
  function Committed(blobs: Blobs): set<Id> {
    set p | p in blobs && p.Marker? :: p.id
  }

  /** `_find_latest_checkpoint_id`: the first id of the listing sorted newest first. */
  function Newest(blobs: Blobs): (r: Option<Id>)
    ensures r.None? <==> Committed(blobs) == {}
    ensures r.Some? ==> r.value in Committed(blobs) && forall c :: c in Committed(blobs) ==> Leq(c, r.value)
  {
    if Committed(blobs) == {} then None
    else
      GreatestExists(Committed(blobs));
      LeqIsTotalOrder();
      var newest :| newest in Committed(blobs) && forall c :: c in Committed(blobs) ==> Leq(c, newest);
      Some(newest)
  }

  /** `None` in Python, an exception raised while decoding, or a value. */
  datatype Load<+T> = Absent | Raised | Loaded(value: T)

  datatype ValueRead = Skipped | Bad | Got(value: string)

  /** One channel of `_load_channel_values`: a missing, untyped or "empty" blob leaves the channel out. */
  function ReadValue(blobs: Blobs, channel: string, version: string): ValueRead {
    var path := Value(channel, version);
    if path !in blobs then Skipped
    else match blobs[path]
      case Untyped | EmptyValue => Skipped
      case ValueBlob(v) => Got(v)
      case _ => Bad
  }

  function ReadValues(blobs: Blobs, versions: map<string, string>): map<string, ValueRead> {
    map ch | ch in versions :: ReadValue(blobs, ch, versions[ch])
  }

  /** The pending-write blobs under one checkpoint; module PendingWrites orders and decodes them. */
  function WritesOf(blobs: Blobs, id: Id): map<Path, Blob> {
    map p | p in blobs && p.Write? && p.id == id :: blobs[p]
  }

  datatype CheckpointTuple = CheckpointTuple(
    id: Id,
    versions: map<string, string>,
    values: map<string, string>,
    metadata: string,
    parent: Option<Id>,
    writes: map<Path, Blob>)

  function ReadMetadata(blobs: Blobs, id: Id): Load<string> {
    if Metadata(id) !in blobs then Absent
    else match blobs[Metadata(id)]
      case MetadataBlob(m) => Loaded(m)
      case Untyped => Absent
      case _ => Raised
  }

  /** The tail of `_build_tuple`, once the marker has been decoded. */
  function Assemble(id: Id, versions: map<string, string>, parent: Option<Id>, found: map<string, ValueRead>,
                    metadata: Load<string>, writes: map<Path, Blob>): Load<CheckpointTuple>
  {
    if exists ch :: ch in found && found[ch].Bad? then Raised
    else match metadata
      case Absent => Absent
      case Raised => Raised
      case Loaded(m) =>
        Loaded(CheckpointTuple(id, versions, map ch | ch in found && found[ch].Got? :: found[ch].value, m,
                               if parent == Some("") then None else parent, writes))
  }

  /** `_build_tuple`. */
  function BuildTuple(blobs: Blobs, id: Id): Load<CheckpointTuple> {
    if Marker(id) !in blobs then Absent
    else match blobs[Marker(id)]
      case Untyped => Absent
      case MarkerBlob(versions, parent) =>
        Assemble(id, versions, parent, ReadValues(blobs, versions), ReadMetadata(blobs, id), WritesOf(blobs, id))
      case _ => Raised
  }

  /**
   Reloading from the blobs themselves: when it finds nothing, when it raises, and every field of what it gives. Every
   pending-write blob of the checkpoint is among the writes, whatever its index.
   */
  lemma ReloadExactly(blobs: Blobs, id: Id)
    ensures var r := BuildTuple(blobs, id); var at, meta := Marker(id), Metadata(id);
            if at !in blobs || blobs[at] == Untyped then r == Absent
            else if !blobs[at].MarkerBlob? then r == Raised
            else
              var versions := blobs[at].versions;
              if exists ch :: ch in versions && Value(ch, versions[ch]) in blobs
                              && !(var b := blobs[Value(ch, versions[ch])]; b.ValueBlob? || b.EmptyValue? || b.Untyped?)
              then r == Raised
              else if meta !in blobs || blobs[meta] == Untyped then r == Absent
              else if !blobs[meta].MetadataBlob? then r == Raised
              else
                && r.Loaded? && r.value.id == id && r.value.versions == versions && r.value.metadata == blobs[meta].metadata
                && r.value.parent == (if blobs[at].parent == Some("") then None else blobs[at].parent)
                && (forall ch, v :: ch in r.value.values && r.value.values[ch] == v <==>
                      ch in versions && Value(ch, versions[ch]) in blobs && blobs[Value(ch, versions[ch])] == ValueBlob(v))
                && (forall path: Path :: path in r.value.writes <==> path in blobs && path.Write? && path.id == id)
                && (forall path :: path in r.value.writes ==> r.value.writes[path] == blobs[path])
  {
    if Marker(id) in blobs && blobs[Marker(id)].MarkerBlob? {
      var versions := blobs[Marker(id)].versions;
      var found := ReadValues(blobs, versions);
      assert forall ch :: ch in versions ==> found[ch] == ReadValue(blobs, ch, versions[ch]);
    }
  }

  /** What the authoritative scan returns: the checkpoint with the greatest committed id. */
  function BuildNewest(blobs: Blobs): Load<CheckpointTuple> {
    match Newest(blobs)
    case None => Absent
    case Some(c) => BuildTuple(blobs, c)
  }

  /** A clean hint names an id at least as large as every committed one. */
  ghost predicate HintSound(blobs: Blobs) {
    ReadHint(blobs).Some? ==> forall c :: c in Committed(blobs) ==> Leq(c, ReadHint(blobs).value)
  }

  /** `get_tuple` without an id: trust the hint if its checkpoint loads, otherwise scan. */
  function GetLatest(blobs: Blobs): Load<CheckpointTuple> {
    var hint := ReadHint(blobs);
    if hint.Some? && !BuildTuple(blobs, hint.value).Absent? then BuildTuple(blobs, hint.value) else BuildNewest(blobs)
  }

  /** With a sound hint the shortcut and the authoritative scan are the same read. */
  lemma HintAgreesWithScan(blobs: Blobs)
    requires HintSound(blobs)
    ensures GetLatest(blobs) == BuildNewest(blobs)
  {
    LeqIsTotalOrder();
    var hint := ReadHint(blobs);
    if hint.Some? && Marker(hint.value) in blobs {
      assert hint.value in Committed(blobs);
      assert Newest(blobs) == hint;
    }
  }

  /** `current_latest` as `put` computes it when nothing else touches the container meanwhile. */
  function CurrentLatest(blobs: Blobs): Option<Id> {
    var hint := ReadHint(blobs);
    if hint.Some? && Marker(hint.value) in blobs then hint else Newest(blobs)
  }

  // ---------------------------------------------------------------- writing

  type Upload = (Path, Blob)

  /** Arguments of one `put`; `newVersions` keeps the dictionary's order, `parent` is the config's id. */
  datatype PutArgs = PutArgs(
    id: Id,
    parent: Option<Id>,
    versions: map<string, string>,
    newVersions: seq<(string, string)>,
    values: map<string, string>,
    metadata: string)

  function ValueUpload(p: PutArgs, i: nat): Upload
    requires i < |p.newVersions|
  {
    var (channel, version) := p.newVersions[i];
    (Value(channel, version), if channel in p.values then ValueBlob(p.values[channel]) else EmptyValue)
  }

  /** The uploads of `put`, in order, once the current latest id is known. */
  function PutUploads(p: PutArgs, latest: Option<Id>): (u: seq<Upload>)
    ensures |u| == |p.newVersions| + 4
  {
    [(Latest, DIRTY)]
    + seq(|p.newVersions|, i requires 0 <= i < |p.newVersions| => ValueUpload(p, i))
    + [(Metadata(p.id), MetadataBlob(p.metadata)),
       (Marker(p.id), MarkerBlob(p.versions, p.parent)),
       (Latest, Clean(Max(latest.GetOr(""), p.id)))]
  }

  /** Position of the commit marker among the uploads. */
  function MarkerAt(p: PutArgs): nat { |p.newVersions| + 2 }

  function ApplyUploads(blobs: Blobs, uploads: seq<Upload>): Blobs {
    if uploads == [] then blobs
    else
      var last := uploads[|uploads| - 1];
      ApplyUploads(blobs, uploads[..|uploads| - 1])[last.0 := last.1]
  }

  lemma ApplyNext(blobs: Blobs, uploads: seq<Upload>, k: nat)
    requires k < |uploads|
    ensures ApplyUploads(blobs, uploads[..k + 1]) == ApplyUploads(blobs, uploads[..k])[uploads[k].0 := uploads[k].1]
  {
    assert uploads[..k + 1][..k] == uploads[..k];
  }

  lemma {:induction false} ApplyElsewhere(blobs: Blobs, uploads: seq<Upload>, path: Path)
    requires forall i :: 0 <= i < |uploads| ==> uploads[i].0 != path
    ensures path in ApplyUploads(blobs, uploads) <==> path in blobs
    ensures path in blobs ==> ApplyUploads(blobs, uploads)[path] == blobs[path]
  {
    if uploads != [] { ApplyElsewhere(blobs, uploads[..|uploads| - 1], path); }
  }

  lemma {:induction false} ApplyAt(blobs: Blobs, uploads: seq<Upload>, at: nat)
    requires at < |uploads|
    requires forall i :: at < i < |uploads| ==> uploads[i].0 != uploads[at].0
    ensures uploads[at].0 in ApplyUploads(blobs, uploads)
    ensures ApplyUploads(blobs, uploads)[uploads[at].0] == uploads[at].1
  {
    if at < |uploads| - 1 { ApplyAt(blobs, uploads[..|uploads| - 1], at); }
  }

  // ---------------------------------------------------------------- atomicity of put

  /** No two new versions name one blob: `new_versions` is a dictionary keyed by channel. */
  predicate DistinctChannels(p: PutArgs) {
    forall i, j :: 0 <= i < j < |p.newVersions| ==> p.newVersions[i].0 != p.newVersions[j].0
  }

  /** Checkpoint `id` of `blobs` refers to the value blob (channel, version). */
  predicate Refers(blobs: Blobs, id: Id, channel: string, version: string) {
    Marker(id) in blobs && blobs[Marker(id)].MarkerBlob?
    && channel in blobs[Marker(id)].versions && blobs[Marker(id)].versions[channel] == version
  }

  /** Fresh id and fresh versions, as `get_next_version` and LangGraph's id generator provide them. */
  ghost predicate Fresh(blobs: Blobs, p: PutArgs) {
    && DistinctChannels(p)
    && Marker(p.id) !in blobs
    && (forall c, ch, v :: Refers(blobs, c, ch, v) ==> (ch, v) !in p.newVersions)
  }

  /** What the new checkpoint must read for each channel: its new value, or what the version already held. */
  ghost function ExpectedReads(blobs: Blobs, p: PutArgs): map<string, ValueRead> {
    map ch | ch in p.versions ::
      if (ch, p.versions[ch]) !in p.newVersions then ReadValue(blobs, ch, p.versions[ch])
      else if ch in p.values then Got(p.values[ch]) else Skipped
  }

  /** The checkpoint a complete `put` publishes. */
  ghost function Published(blobs: Blobs, p: PutArgs): Load<CheckpointTuple> {
    Assemble(p.id, p.versions, p.parent, ExpectedReads(blobs, p), Loaded(p.metadata), WritesOf(blobs, p.id))
  }

  /** Where the uploads of a put lie: only Latest repeats, and only at the two ends. */
  lemma UploadLayout(p: PutArgs, latest: Option<Id>)
    ensures var u := PutUploads(p, latest); var n := |p.newVersions|;
            && u[0] == (Latest, DIRTY) && u[n + 3] == (Latest, Clean(Max(latest.GetOr(""), p.id)))
            && (forall i :: 0 <= i < n ==> u[i + 1] == ValueUpload(p, i))
            && u[n + 1] == (Metadata(p.id), MetadataBlob(p.metadata))
            && u[n + 2] == (Marker(p.id), MarkerBlob(p.versions, p.parent))
            && (forall i :: 0 < i <= n ==> u[i].0.Value?)
  {
    var u, n := PutUploads(p, latest), |p.newVersions|;
    forall i | 0 <= i < n ensures u[i + 1] == ValueUpload(p, i) {}
    forall i | 0 < i <= n ensures u[i].0.Value? { assert u[i] == ValueUpload(p, i - 1); }
  }

  /** A prefix of the uploads touches nothing but Latest, the put's own two blobs and its new values. */
  lemma UntouchedByPut(blobs: Blobs, p: PutArgs, latest: Option<Id>, k: nat, path: Path)
    requires k <= |PutUploads(p, latest)|
    requires path != Latest && path != Metadata(p.id) && (path == Marker(p.id) ==> k <= MarkerAt(p))
    requires path.Value? ==> (path.channel, path.version) !in p.newVersions
    ensures var after := ApplyUploads(blobs, PutUploads(p, latest)[..k]);
            (path in after <==> path in blobs) && (path in blobs ==> after[path] == blobs[path])
  {
    UploadLayout(p, latest);
    var u, n := PutUploads(p, latest), |p.newVersions|;
    forall i | 0 <= i < k ensures u[i].0 != path {
      if 0 < i <= n {
        var nv := p.newVersions[i - 1];
        assert u[i] == ValueUpload(p, i - 1) && nv in p.newVersions && nv == (nv.0, nv.1);
      } else {
        assert i in {0, n + 1, n + 2, n + 3};
      }
    }
    ApplyElsewhere(blobs, u[..k], path);
  }

  /** Every value blob already uploaded holds the put's own content. */
  lemma NewValuePresent(blobs: Blobs, p: PutArgs, latest: Option<Id>, k: nat, i: nat)
    requires DistinctChannels(p) && i < |p.newVersions|
    requires i + 1 < k <= |PutUploads(p, latest)|
    ensures var after := ApplyUploads(blobs, PutUploads(p, latest)[..k]);
            ValueUpload(p, i).0 in after && after[ValueUpload(p, i).0] == ValueUpload(p, i).1
  {
    UploadLayout(p, latest);
    var u, n := PutUploads(p, latest), |p.newVersions|;
    assert u[i + 1] == ValueUpload(p, i);
    forall j | i + 1 < j < k ensures u[j].0 != u[i + 1].0 {
      if j <= n { assert u[j] == ValueUpload(p, j - 1); }
    }
    ApplyAt(blobs, u[..k], i + 1);
  }

  /** Until the marker is uploaded, the container commits exactly what it committed before. */
  lemma InvisibleBeforeMarker(blobs: Blobs, p: PutArgs, latest: Option<Id>, k: nat)
    requires Fresh(blobs, p) && k <= MarkerAt(p)
    ensures var after := ApplyUploads(blobs, PutUploads(p, latest)[..k]);
            Committed(after) == Committed(blobs) && BuildTuple(after, p.id) == Absent
  {
    var after := ApplyUploads(blobs, PutUploads(p, latest)[..k]);
    forall c ensures c in Committed(after) <==> c in Committed(blobs) {
      UntouchedByPut(blobs, p, latest, k, Marker(c));
    }
    UntouchedByPut(blobs, p, latest, k, Marker(p.id));
  }

  lemma ExpectedRead(blobs: Blobs, p: PutArgs, latest: Option<Id>, k: nat, ch: string)
    requires DistinctChannels(p) && MarkerAt(p) < k <= |PutUploads(p, latest)| && ch in p.versions
    ensures ReadValue(ApplyUploads(blobs, PutUploads(p, latest)[..k]), ch, p.versions[ch]) == ExpectedReads(blobs, p)[ch]
  {
    var pair := (ch, p.versions[ch]);
    if pair in p.newVersions {
      var i :| 0 <= i < |p.newVersions| && p.newVersions[i] == pair;
      NewValuePresent(blobs, p, latest, k, i);
    } else {
      UntouchedByPut(blobs, p, latest, k, Value(ch, p.versions[ch]));
    }
  }

  lemma MarkerAndMetadata(blobs: Blobs, p: PutArgs, latest: Option<Id>, k: nat)
    requires MarkerAt(p) < k <= |PutUploads(p, latest)|
    ensures var after := ApplyUploads(blobs, PutUploads(p, latest)[..k]);
            && Marker(p.id) in after && after[Marker(p.id)] == MarkerBlob(p.versions, p.parent)
            && Metadata(p.id) in after && after[Metadata(p.id)] == MetadataBlob(p.metadata)
            && Committed(after) == Committed(blobs) + {p.id}
  {
    var u, n := PutUploads(p, latest), |p.newVersions|;
    var after := ApplyUploads(blobs, u[..k]);
    UploadLayout(p, latest);
    ApplyAt(blobs, u[..k], n + 1);
    ApplyAt(blobs, u[..k], n + 2);
    forall c ensures c in Committed(after) <==> c in Committed(blobs) || c == p.id {
      if c != p.id { UntouchedByPut(blobs, p, latest, k, Marker(c)); }
    }
  }

  /** From the marker on, the new checkpoint is complete and reads back what was put. */
  lemma CompleteAfterMarker(blobs: Blobs, p: PutArgs, latest: Option<Id>, k: nat)
    requires Fresh(blobs, p) && MarkerAt(p) < k <= |PutUploads(p, latest)|
    ensures var after := ApplyUploads(blobs, PutUploads(p, latest)[..k]);
            Committed(after) == Committed(blobs) + {p.id} && BuildTuple(after, p.id) == Published(blobs, p)
  {
    var after := ApplyUploads(blobs, PutUploads(p, latest)[..k]);
    MarkerAndMetadata(blobs, p, latest, k);
    forall ch | ch in p.versions ensures ReadValue(after, ch, p.versions[ch]) == ExpectedReads(blobs, p)[ch] {
      ExpectedRead(blobs, p, latest, k, ch);
    }
    assert ReadValues(after, p.versions) == ExpectedReads(blobs, p);
    SameWrites(blobs, p, latest, k, p.id);
  }

  lemma SameWrites(blobs: Blobs, p: PutArgs, latest: Option<Id>, k: nat, id: Id)
    requires k <= |PutUploads(p, latest)|
    ensures WritesOf(ApplyUploads(blobs, PutUploads(p, latest)[..k]), id) == WritesOf(blobs, id)
  {
    var after := ApplyUploads(blobs, PutUploads(p, latest)[..k]);
    forall path: Path | path.Write? ensures (path in after <==> path in blobs) && (path in blobs ==> after[path] == blobs[path]) {
      UntouchedByPut(blobs, p, latest, k, path);
    }
    assert WritesOf(after, id).Keys == WritesOf(blobs, id).Keys;
  }

  /** Nothing a put uploads changes how any other checkpoint reloads. */
  lemma OthersUnchanged(blobs: Blobs, p: PutArgs, latest: Option<Id>, k: nat, c: Id)
    requires Fresh(blobs, p) && k <= |PutUploads(p, latest)| && c != p.id
    ensures BuildTuple(ApplyUploads(blobs, PutUploads(p, latest)[..k]), c) == BuildTuple(blobs, c)
  {
    var after := ApplyUploads(blobs, PutUploads(p, latest)[..k]);
    UntouchedByPut(blobs, p, latest, k, Marker(c));
    UntouchedByPut(blobs, p, latest, k, Metadata(c));
    SameWrites(blobs, p, latest, k, c);
    if Marker(c) in blobs && blobs[Marker(c)].MarkerBlob? {
      var versions := blobs[Marker(c)].versions;
      forall ch | ch in versions ensures ReadValue(after, ch, versions[ch]) == ReadValue(blobs, ch, versions[ch]) {
        assert Refers(blobs, c, ch, versions[ch]);
        UntouchedByPut(blobs, p, latest, k, Value(ch, versions[ch]));
      }
      assert ReadValues(after, versions) == ReadValues(blobs, versions);
    }
  }

  /**
   A put stopped after any number of its uploads: the new checkpoint is either invisible or complete, the
   marker upload decides which, and every other checkpoint reloads exactly as before.
   */
  lemma PutIsAtomic(blobs: Blobs, p: PutArgs, latest: Option<Id>, k: nat)
    requires Fresh(blobs, p) && k <= |PutUploads(p, latest)|
    ensures var after := ApplyUploads(blobs, PutUploads(p, latest)[..k]);
            && (k <= MarkerAt(p) ==> Committed(after) == Committed(blobs) && BuildTuple(after, p.id) == Absent)
            && (k > MarkerAt(p) ==> Committed(after) == Committed(blobs) + {p.id}
                                    && BuildTuple(after, p.id) == Published(blobs, p))
            && (forall c :: c != p.id ==> BuildTuple(after, c) == BuildTuple(blobs, c))
  {
    if k <= MarkerAt(p) {
      InvisibleBeforeMarker(blobs, p, latest, k);
    } else {
      CompleteAfterMarker(blobs, p, latest, k);
    }
    forall c | c != p.id
      ensures BuildTuple(ApplyUploads(blobs, PutUploads(p, latest)[..k]), c) == BuildTuple(blobs, c)
    {
      OthersUnchanged(blobs, p, latest, k, c);
    }
  }

  /** What "complete" means for the caller: every field of the published tuple, from the put's arguments. */
  lemma PublishedContents(blobs: Blobs, p: PutArgs)
    requires forall ch :: ch in p.versions && (ch, p.versions[ch]) !in p.newVersions
                          ==> !ReadValue(blobs, ch, p.versions[ch]).Bad?
    ensures Published(blobs, p).Loaded?
    ensures var t := Published(blobs, p).value;
            && t.id == p.id && t.versions == p.versions && t.metadata == p.metadata
            && t.parent == (if p.parent == Some("") then None else p.parent)
            && (forall ch :: ch in t.values ==> ch in p.versions)
            && (forall ch :: ch in p.versions && (ch, p.versions[ch]) in p.newVersions ==>
                  (ch in t.values <==> ch in p.values) && (ch in p.values ==> t.values[ch] == p.values[ch]))
            && (forall ch :: ch in p.versions && (ch, p.versions[ch]) !in p.newVersions ==>
                  (ch in t.values <==> ReadValue(blobs, ch, p.versions[ch]).Got?)
                  && (ch in t.values ==> Got(t.values[ch]) == ReadValue(blobs, ch, p.versions[ch])))
  {
    var found := ExpectedReads(blobs, p);
    assert forall ch :: ch in found ==> !found[ch].Bad?;
  }
}
