/**
 Pending writes of one checkpoint: `put_writes` keeps the first value of an ordinary (task, index) and the
 last value of a special channel's negative index; loading sorts what is there.
 */
module PendingWrites {
  import opened Common
  import opened Checkpoints

  /** One `put_writes` call: `(channel, value)` pairs of one task. */
  datatype Call = Call(task: string, taskPath: string, writes: seq<(string, string)>)

  /** One blob a call wants to store. */
  datatype Item = Item(task: string, index: int, content: Blob)

  /** `WRITES_IDX_MAP`: the special channels, each with its own negative index. */
  ghost predicate Special(indexMap: map<string, int>) {
    forall ch :: ch in indexMap ==> indexMap[ch] < 0
  }

  function ItemAt(indexMap: map<string, int>, call: Call, i: nat): Item
    requires i < |call.writes|
  {
    var (channel, value) := call.writes[i];
    Item(call.task, if channel in indexMap then indexMap[channel] else i, WriteBlob(channel, call.taskPath, value))
  }

  function Items(indexMap: map<string, int>, call: Call): (items: seq<Item>)
    ensures |items| == |call.writes| && forall i :: 0 <= i < |items| ==> items[i] == ItemAt(indexMap, call, i)
  {
    seq(|call.writes|, i requires 0 <= i < |call.writes| => ItemAt(indexMap, call, i))
  }

  function PathOf(id: Id, item: Item): Path { Write(id, item.task, item.index) }

  /** Storing one item: an ordinary index already present is left alone. */
  function Store(blobs: Blobs, id: Id, item: Item): Blobs {
    if item.index >= 0 && PathOf(id, item) in blobs then blobs else blobs[PathOf(id, item) := item.content]
  }

  function StoreAll(blobs: Blobs, id: Id, items: seq<Item>): Blobs {
    if items == [] then blobs
    else Store(StoreAll(blobs, id, items[..|items| - 1]), id, items[|items| - 1])
  }

  lemma StoreNext(blobs: Blobs, id: Id, items: seq<Item>, k: nat)
    requires k < |items|
    ensures StoreAll(blobs, id, items[..k + 1]) == Store(StoreAll(blobs, id, items[..k]), id, items[k])
  {
    assert items[..k + 1][..k] == items[..k];
  }

  lemma {:induction false} StoreConcat(blobs: Blobs, id: Id, a: seq<Item>, b: seq<Item>)
    ensures StoreAll(blobs, id, a + b) == StoreAll(StoreAll(blobs, id, a), id, b)
  {
    if b == [] {
      assert a + b == a;
    } else {
      assert (a + b)[..|a + b| - 1] == a + b[..|b| - 1];
      StoreConcat(blobs, id, a, b[..|b| - 1]);
    }
  }

  /** Any number of calls, one after the other, is one long list of items. */
  function AllItems(indexMap: map<string, int>, calls: seq<Call>): seq<Item> {
    if calls == [] then [] else AllItems(indexMap, calls[..|calls| - 1]) + Items(indexMap, calls[|calls| - 1])
  }

  function RunCalls(blobs: Blobs, id: Id, indexMap: map<string, int>, calls: seq<Call>): Blobs {
    if calls == [] then blobs
    else StoreAll(RunCalls(blobs, id, indexMap, calls[..|calls| - 1]), id, Items(indexMap, calls[|calls| - 1]))
  }

  lemma {:induction false} RunCallsFlat(blobs: Blobs, id: Id, indexMap: map<string, int>, calls: seq<Call>)
    ensures RunCalls(blobs, id, indexMap, calls) == StoreAll(blobs, id, AllItems(indexMap, calls))
  {
    if calls != [] {
      RunCallsFlat(blobs, id, indexMap, calls[..|calls| - 1]);
      StoreConcat(blobs, id, AllItems(indexMap, calls[..|calls| - 1]), Items(indexMap, calls[|calls| - 1]));
    }
  }

  ghost predicate SameKey(a: Item, b: Item) { a.task == b.task && a.index == b.index }

  /** Which stored item survives: the first of an ordinary key, the last of a special one. */
  ghost predicate Survives(items: seq<Item>, j: nat)
    requires j < |items|
  {
    if items[j].index >= 0 then forall i :: 0 <= i < j ==> !SameKey(items[i], items[j])
    else forall i :: j < i < |items| ==> !SameKey(items[i], items[j])
  }

  lemma {:induction false} Untouched(blobs: Blobs, id: Id, items: seq<Item>, path: Path)
    requires forall i :: 0 <= i < |items| ==> PathOf(id, items[i]) != path
    ensures path in StoreAll(blobs, id, items) <==> path in blobs
    ensures path in blobs ==> StoreAll(blobs, id, items)[path] == blobs[path]
  {
    if items != [] { Untouched(blobs, id, items[..|items| - 1], path); }
  }

  lemma {:induction false} OrdinaryKept(blobs: Blobs, id: Id, items: seq<Item>, path: Path)
    requires path.Write? && path.index >= 0 && path in blobs
    ensures path in StoreAll(blobs, id, items) && StoreAll(blobs, id, items)[path] == blobs[path]
  {
    if items != [] { OrdinaryKept(blobs, id, items[..|items| - 1], path); }
  }

  /** The value found under a key after any list of items is the surviving item's. */
  lemma SurvivorIsStored(blobs: Blobs, id: Id, items: seq<Item>, j: nat)
    requires j < |items| && Survives(items, j)
    requires items[j].index >= 0 ==> PathOf(id, items[j]) !in blobs
    ensures var path := PathOf(id, items[j]);
            path in StoreAll(blobs, id, items) && StoreAll(blobs, id, items)[path] == items[j].content
  {
    var path := PathOf(id, items[j]);
    var before, rest := StoreAll(blobs, id, items[..j]), items[j + 1..];
    assert items == items[..j + 1] + rest && items[..j + 1][..j] == items[..j];
    StoreConcat(blobs, id, items[..j + 1], rest);
    StoreNext(blobs, id, items, j);
    if items[j].index >= 0 {
      Untouched(blobs, id, items[..j], path);
      OrdinaryKept(Store(before, id, items[j]), id, rest, path);
    } else {
      Untouched(Store(before, id, items[j]), id, rest, path);
    }
  }

  lemma SurvivorOf(items: seq<Item>, i: nat) returns (j: nat)
    requires i < |items|
    ensures j < |items| && SameKey(items[j], items[i]) && Survives(items, j)
  {
    j := i;
    if items[i].index >= 0 {
      while exists h :: 0 <= h < j && SameKey(items[h], items[j])
        invariant j < |items| && SameKey(items[j], items[i])
        decreases j
      {
        var h :| 0 <= h < j && SameKey(items[h], items[j]);
        j := h;
      }
    } else {
      while exists h :: j < h < |items| && SameKey(items[h], items[j])
        invariant j < |items| && SameKey(items[j], items[i])
        decreases |items| - j
      {
        var h :| j < h < |items| && SameKey(items[h], items[j]);
        j := h;
      }
    }
  }

  lemma NoneBefore(blobs: Blobs, id: Id, path: Path)
    requires WritesOf(blobs, id) == map[] && path.Write? && path.id == id
    ensures path !in blobs
  {
    assert path in blobs ==> path in WritesOf(blobs, id);
  }

  /** What is stored under a key came from the item of that key which survives. */
  lemma SurvivorFor(blobs: Blobs, id: Id, items: seq<Item>, path: Path) returns (j: nat)
    requires WritesOf(blobs, id) == map[] && path.Write? && path.id == id && path in StoreAll(blobs, id, items)
    ensures j < |items| && Survives(items, j) && PathOf(id, items[j]) == path
    ensures StoreAll(blobs, id, items)[path] == items[j].content
  {
    NoneBefore(blobs, id, path);
    if forall i :: 0 <= i < |items| ==> PathOf(id, items[i]) != path {
      Untouched(blobs, id, items, path);
      assert false;
    }
    var i :| 0 <= i < |items| && PathOf(id, items[i]) == path;
    j := SurvivorOf(items, i);
    SurvivorIsStored(blobs, id, items, j);
  }

  // ---------------------------------------------------------------- calls rather than items

  /** Where the `i`-th write of call `k` is among all items. */
  function Position(indexMap: map<string, int>, calls: seq<Call>, k: nat, i: nat): nat
    requires k <= |calls|
  {
    |AllItems(indexMap, calls[..k])| + i
  }

  lemma PositionNext(indexMap: map<string, int>, calls: seq<Call>, k: nat)
    requires k < |calls|
    ensures Position(indexMap, calls, k + 1, 0) == Position(indexMap, calls, k, |calls[k].writes|)
  {
    assert calls[..k + 1][..k] == calls[..k];
  }

  lemma {:induction false} PositionsOrdered(indexMap: map<string, int>, calls: seq<Call>, k: nat, k': nat)
    requires k < k' <= |calls|
    ensures Position(indexMap, calls, k, |calls[k].writes|) <= Position(indexMap, calls, k', 0)
    decreases k'
  {
    if k + 1 < k' { PositionsOrdered(indexMap, calls, k, k' - 1); }
    PositionNext(indexMap, calls, k' - 1);
  }

  /** Earlier writes, by call and then within the call, come first. */
  lemma PositionOrder(indexMap: map<string, int>, calls: seq<Call>, k: nat, i: nat, k': nat, i': nat)
    requires k < |calls| && i < |calls[k].writes| && k' < |calls| && i' < |calls[k'].writes|
    ensures Position(indexMap, calls, k, i) <= Position(indexMap, calls, k', i') <==> k < k' || (k == k' && i <= i')
  {
    if k < k' { PositionsOrdered(indexMap, calls, k, k'); }
    if k' < k { PositionsOrdered(indexMap, calls, k', k); }
  }

  lemma {:induction false} ItemIsAt(indexMap: map<string, int>, calls: seq<Call>, k: nat, i: nat)
    requires k < |calls| && i < |calls[k].writes|
    ensures var items := AllItems(indexMap, calls);
            Position(indexMap, calls, k, i) < |items| && items[Position(indexMap, calls, k, i)] == ItemAt(indexMap, calls[k], i)
    decreases |calls|
  {
    var front := calls[..|calls| - 1];
    if k < |front| {
      ItemIsAt(indexMap, front, k, i);
      assert front[..k] == calls[..k];
    }
  }

  lemma {:induction false} PlaceOf(indexMap: map<string, int>, calls: seq<Call>, j: nat) returns (k: nat, i: nat)
    requires j < |AllItems(indexMap, calls)|
    ensures k < |calls| && i < |calls[k].writes| && Position(indexMap, calls, k, i) == j
    decreases |calls|
  {
    var front := calls[..|calls| - 1];
    if j < |AllItems(indexMap, front)| {
      k, i := PlaceOf(indexMap, front, j);
      assert front[..k] == calls[..k];
    } else {
      k, i := |front|, j - |AllItems(indexMap, front)|;
    }
  }

  /** Of the writes under (task, index), this is the first if the index is ordinary, and the last if it is special. */
  ghost predicate Wins(indexMap: map<string, int>, calls: seq<Call>, k: int, i: int, task: string, index: int) {
    && 0 <= k < |calls| && 0 <= i < |calls[k].writes| && calls[k].task == task
    && index == (if calls[k].writes[i].0 in indexMap then indexMap[calls[k].writes[i].0] else i)
    && forall k', i' :: 0 <= k' < |calls| && 0 <= i' < |calls[k'].writes| && calls[k'].task == task
                        && index == (if calls[k'].writes[i'].0 in indexMap then indexMap[calls[k'].writes[i'].0] else i')
         ==> if index >= 0 then k < k' || (k == k' && i <= i') else k' < k || (k' == k && i' <= i)
  }

  lemma WinnerSurvives(indexMap: map<string, int>, calls: seq<Call>, k: nat, i: nat, task: string, index: int)
    requires Wins(indexMap, calls, k, i, task, index)
    ensures var items := AllItems(indexMap, calls); var j := Position(indexMap, calls, k, i);
            j < |items| && items[j] == ItemAt(indexMap, calls[k], i) && Survives(items, j)
  {
    var items, j := AllItems(indexMap, calls), Position(indexMap, calls, k, i);
    ItemIsAt(indexMap, calls, k, i);
    forall j' | 0 <= j' < |items| && SameKey(items[j'], items[j]) ensures if index >= 0 then j <= j' else j' <= j {
      var k', i' := PlaceOf(indexMap, calls, j');
      ItemIsAt(indexMap, calls, k', i');
      PositionOrder(indexMap, calls, k, i, k', i');
      PositionOrder(indexMap, calls, k', i', k, i);
    }
  }

  lemma SurvivorWins(indexMap: map<string, int>, calls: seq<Call>, j: nat) returns (k: nat, i: nat)
    requires j < |AllItems(indexMap, calls)| && Survives(AllItems(indexMap, calls), j)
    ensures var item := AllItems(indexMap, calls)[j];
            Wins(indexMap, calls, k, i, item.task, item.index) && item == ItemAt(indexMap, calls[k], i)
  {
    var items := AllItems(indexMap, calls);
    k, i := PlaceOf(indexMap, calls, j);
    ItemIsAt(indexMap, calls, k, i);
    var task, index := items[j].task, items[j].index;
    forall k', i' | 0 <= k' < |calls| && 0 <= i' < |calls[k'].writes| && calls[k'].task == task
                    && index == (if calls[k'].writes[i'].0 in indexMap then indexMap[calls[k'].writes[i'].0] else i')
      ensures if index >= 0 then k < k' || (k == k' && i <= i') else k' < k || (k' == k && i' <= i)
    {
      ItemIsAt(indexMap, calls, k', i');
      assert SameKey(items[Position(indexMap, calls, k', i')], items[j]);
      PositionOrder(indexMap, calls, k, i, k', i');
      PositionOrder(indexMap, calls, k', i', k, i);
    }
  }

  lemma WinnerIsStored(blobs: Blobs, id: Id, indexMap: map<string, int>, calls: seq<Call>, k: nat, i: nat, task: string, index: int)
    requires WritesOf(blobs, id) == map[] && Wins(indexMap, calls, k, i, task, index)
    ensures var after := RunCalls(blobs, id, indexMap, calls); var path := Write(id, task, index);
            path in after && after[path] == WriteBlob(calls[k].writes[i].0, calls[k].taskPath, calls[k].writes[i].1)
  {
    WinnerSurvives(indexMap, calls, k, i, task, index);
    RunCallsFlat(blobs, id, indexMap, calls);
    NoneBefore(blobs, id, Write(id, task, index));
    SurvivorIsStored(blobs, id, AllItems(indexMap, calls), Position(indexMap, calls, k, i));
  }

  lemma StoredIsWinner(blobs: Blobs, id: Id, indexMap: map<string, int>, calls: seq<Call>, task: string, index: int)
    returns (k: nat, i: nat)
    requires WritesOf(blobs, id) == map[] && Write(id, task, index) in RunCalls(blobs, id, indexMap, calls)
    ensures Wins(indexMap, calls, k, i, task, index)
  {
    RunCallsFlat(blobs, id, indexMap, calls);
    var j := SurvivorFor(blobs, id, AllItems(indexMap, calls), Write(id, task, index));
    k, i := SurvivorWins(indexMap, calls, j);
  }

  /**
   After any sequence of calls on a checkpoint without earlier writes, each key (task, index) holds the channel, path and
   value of one write of one call of that task: the first that has this index if it is ordinary, the last if it is
   special. Nothing else is stored for the checkpoint.
   */
  lemma PendingAfterCalls(blobs: Blobs, id: Id, indexMap: map<string, int>, calls: seq<Call>, task: string, index: int, content: Blob)
    requires forall t, n :: Write(id, t, n) !in blobs
    ensures var after := RunCalls(blobs, id, indexMap, calls);
            Write(id, task, index) in after && after[Write(id, task, index)] == content <==>
              exists k, i :: 0 <= k < |calls| && 0 <= i < |calls[k].writes| && calls[k].task == task
                && content == WriteBlob(calls[k].writes[i].0, calls[k].taskPath, calls[k].writes[i].1)
                && index == (if calls[k].writes[i].0 in indexMap then indexMap[calls[k].writes[i].0] else i)
                && forall k', i' :: 0 <= k' < |calls| && 0 <= i' < |calls[k'].writes| && calls[k'].task == task
                     && index == (if calls[k'].writes[i'].0 in indexMap then indexMap[calls[k'].writes[i'].0] else i')
                     ==> if index >= 0 then k < k' || (k == k' && i <= i') else k' < k || (k' == k && i' <= i)
  {
    assert WritesOf(blobs, id) == map[];
    var after := RunCalls(blobs, id, indexMap, calls);
    if Write(id, task, index) in after && after[Write(id, task, index)] == content {
      var k, i := StoredIsWinner(blobs, id, indexMap, calls, task, index);
      WinnerIsStored(blobs, id, indexMap, calls, k, i, task, index);
    }
    if k, i :| 0 <= k < |calls| && 0 <= i < |calls[k].writes| && Wins(indexMap, calls, k, i, task, index)
               && content == WriteBlob(calls[k].writes[i].0, calls[k].taskPath, calls[k].writes[i].1)
    {
      WinnerIsStored(blobs, id, indexMap, calls, k, i, task, index);
    }
  }

  /** A call repeated in full after stopping anywhere leaves what one uninterrupted call would have left. */
  lemma RetryCompletes(blobs: Blobs, id: Id, items: seq<Item>, k: nat)
    requires k <= |items|
    ensures StoreAll(StoreAll(blobs, id, items[..k]), id, items) == StoreAll(blobs, id, items)
  {
    var partial := StoreAll(blobs, id, items[..k]);
    var once, twice := StoreAll(blobs, id, items), StoreAll(partial, id, items);
    forall path ensures (path in once <==> path in twice) && (path in once ==> once[path] == twice[path]) {
      if i :| 0 <= i < |items| && PathOf(id, items[i]) == path {
        var j := SurvivorOf(items, i);
        if items[j].index < 0 {
          SurvivorIsStored(blobs, id, items, j);
          SurvivorIsStored(partial, id, items, j);
        } else if path in blobs {
          OrdinaryKept(blobs, id, items, path);
          OrdinaryKept(blobs, id, items[..k], path);
          OrdinaryKept(partial, id, items, path);
        } else {
          SurvivorIsStored(blobs, id, items, j);
          if j < k {
            SurvivorIsStored(blobs, id, items[..k], j);
            OrdinaryKept(partial, id, items, path);
          } else {
            Untouched(blobs, id, items[..k], path);
            SurvivorIsStored(partial, id, items, j);
          }
        }
      } else {
        Untouched(blobs, id, items, path);
        Untouched(blobs, id, items[..k], path);
        Untouched(partial, id, items, path);
      }
    }
    assert once.Keys == twice.Keys;
  }

  /**
   A repeated call (its ordinary indices already stored, values possibly different) changes nothing exactly
   when, for every special index, the last value it carries is the one already stored.
   */
  lemma RepeatChangesNothingIff(blobs: Blobs, id: Id, items: seq<Item>)
    requires forall i :: 0 <= i < |items| && items[i].index >= 0 ==> PathOf(id, items[i]) in blobs
    ensures StoreAll(blobs, id, items) == blobs <==>
              forall j :: 0 <= j < |items| && items[j].index < 0 && Survives(items, j) ==>
                PathOf(id, items[j]) in blobs && blobs[PathOf(id, items[j])] == items[j].content
  {
    var after := StoreAll(blobs, id, items);
    forall j | 0 <= j < |items| && items[j].index < 0 && Survives(items, j)
      ensures PathOf(id, items[j]) in after && after[PathOf(id, items[j])] == items[j].content
    {
      SurvivorIsStored(blobs, id, items, j);
    }
    if forall j :: 0 <= j < |items| && items[j].index < 0 && Survives(items, j) ==>
        PathOf(id, items[j]) in blobs && blobs[PathOf(id, items[j])] == items[j].content {
      forall path ensures (path in after <==> path in blobs) && (path in blobs ==> after[path] == blobs[path]) {
        if i :| 0 <= i < |items| && PathOf(id, items[i]) == path {
          var j := SurvivorOf(items, i);
          if items[j].index >= 0 { OrdinaryKept(blobs, id, items, path); }
        } else {
          Untouched(blobs, id, items, path);
        }
      }
      assert after.Keys == blobs.Keys;
    }
  }

  // ---------------------------------------------------------------- loading

  /** One loaded pending write, with the sort key `_load_pending_writes` uses: path, task, index. */
  datatype Entry = Entry(taskPath: string, task: string, index: int, channel: string, value: string)

  predicate Before(a: Entry, b: Entry) {
    if a.taskPath != b.taskPath then Leq(a.taskPath, b.taskPath)
    else if a.task != b.task then Leq(a.task, b.task)
    else a.index < b.index
  }

  /** The blob behind an entry. */
  ghost predicate Stored(blobs: Blobs, id: Id, e: Entry) {
    var path := Write(id, e.task, e.index);
    path in blobs && blobs[path] == WriteBlob(e.channel, e.taskPath, e.value)
  }

  /** `out` lists exactly the stored pending writes, in order. */
  ghost predicate LoadsAs(blobs: Blobs, id: Id, out: seq<Entry>) {
    StrictlySorted(Before, out) && forall e :: e in out <==> Stored(blobs, id, e)
  }

  function Insert(out: seq<Entry>, e: Entry): seq<Entry> {
    if out == [] || Before(e, out[0]) then [e] + out else [out[0]] + Insert(out[1..], e)
  }

  lemma {:induction false} InsertSorts(out: seq<Entry>, e: Entry)
    requires StrictlySorted(Before, out)
    requires forall x :: x in out ==> x.task != e.task || x.index != e.index
    ensures StrictlySorted(Before, Insert(out, e))
    ensures forall x :: x in Insert(out, e) <==> x in out || x == e
  {
    LeqIsTotalOrder();
    if out == [] {
    } else if Before(e, out[0]) {
      forall j | 0 <= j < |out| ensures Before(e, out[j]) {
        assert j > 0 ==> Before(out[0], out[j]);
      }
    } else {
      assert out == [out[0]] + out[1..];
      InsertSorts(out[1..], e);
      var tail := Insert(out[1..], e);
      forall j | 0 <= j < |tail| ensures Before(out[0], tail[j]) {
        assert tail[j] in tail;
      }
    }
  }

  ghost predicate OnePerKey(entries: set<Entry>) {
    forall a, b :: a in entries && b in entries && a.task == b.task && a.index == b.index ==> a == b
  }

  lemma {:induction false} Sorted(entries: set<Entry>) returns (out: seq<Entry>)
    requires OnePerKey(entries)
    ensures StrictlySorted(Before, out) && forall e :: e in out <==> e in entries
    decreases |entries|
  {
    out := [];
    if e :| e in entries {
      var rest := Sorted(entries - {e});
      InsertSorts(rest, e);
      out := Insert(rest, e);
    }
  }

  ghost function EntryOf(path: Path, blob: Blob): Entry
    requires path.Write? && blob.WriteBlob?
  {
    Entry(blob.taskPath, path.task, path.index, blob.channel, blob.written)
  }

  /** There is exactly one such list, so loading is a function of the stored blobs. */
  lemma LoadIsDetermined(blobs: Blobs, id: Id)
    ensures exists out :: LoadsAs(blobs, id, out)
    ensures forall a, b :: LoadsAs(blobs, id, a) && LoadsAs(blobs, id, b) ==> a == b
  {
    var entries := set p | p in blobs && p.Write? && p.id == id && blobs[p].WriteBlob? :: EntryOf(p, blobs[p]);
    forall e ensures e in entries <==> Stored(blobs, id, e) {
      if Stored(blobs, id, e) { assert EntryOf(Write(id, e.task, e.index), blobs[Write(id, e.task, e.index)]) == e; }
    }
    var out := Sorted(entries);
    assert LoadsAs(blobs, id, out);
    LeqIsTotalOrder();
    forall a, b | LoadsAs(blobs, id, a) && LoadsAs(blobs, id, b) ensures a == b { SortedUnique(Before, a, b); }
  }

  lemma EntriesAfterCalls(blobs: Blobs, id: Id, indexMap: map<string, int>, calls: seq<Call>, e: Entry)
    requires forall t, n :: Write(id, t, n) !in blobs
    ensures Stored(RunCalls(blobs, id, indexMap, calls), id, e) <==>
              exists k, i :: Wins(indexMap, calls, k, i, e.task, e.index)
                             && calls[k].writes[i] == (e.channel, e.value) && calls[k].taskPath == e.taskPath
  {
    assert WritesOf(blobs, id) == map[];
    var after := RunCalls(blobs, id, indexMap, calls);
    if Stored(after, id, e) {
      var k, i := StoredIsWinner(blobs, id, indexMap, calls, e.task, e.index);
      WinnerIsStored(blobs, id, indexMap, calls, k, i, e.task, e.index);
    }
    if k, i :| Wins(indexMap, calls, k, i, e.task, e.index)
               && calls[k].writes[i] == (e.channel, e.value) && calls[k].taskPath == e.taskPath
    {
      WinnerIsStored(blobs, id, indexMap, calls, k, i, e.task, e.index);
    }
  }

  lemma LoadableAfterCalls(blobs: Blobs, id: Id, indexMap: map<string, int>, calls: seq<Call>)
    requires forall t, n :: Write(id, t, n) !in blobs
    ensures !Unloadable(RunCalls(blobs, id, indexMap, calls), id)
  {
    assert WritesOf(blobs, id) == map[];
    var after := RunCalls(blobs, id, indexMap, calls);
    forall task, index | Write(id, task, index) in after ensures after[Write(id, task, index)].WriteBlob? {
      var k, i := StoredIsWinner(blobs, id, indexMap, calls, task, index);
      WinnerIsStored(blobs, id, indexMap, calls, k, i, task, index);
    }
  }

  /**
   What loading gives after any sequence of calls: no blob fails to decode, and the entries, sorted by path, task and
   index, are exactly those writes of the calls that are the first of their task to have an ordinary index or the last to
   have a special one.
   */
  lemma LoadedAfterCalls(blobs: Blobs, id: Id, indexMap: map<string, int>, calls: seq<Call>, out: seq<Entry>)
    requires forall t, n :: Write(id, t, n) !in blobs
    ensures !Unloadable(RunCalls(blobs, id, indexMap, calls), id)
    ensures LoadsAs(RunCalls(blobs, id, indexMap, calls), id, out) <==>
              && (forall a, b :: 0 <= a < b < |out| ==>
                    if out[a].taskPath != out[b].taskPath then Leq(out[a].taskPath, out[b].taskPath)
                    else if out[a].task != out[b].task then Leq(out[a].task, out[b].task)
                    else out[a].index < out[b].index)
              && (forall e :: e in out <==>
                    exists k, i :: 0 <= k < |calls| && 0 <= i < |calls[k].writes| && calls[k].writes[i] == (e.channel, e.value)
                      && calls[k].task == e.task && calls[k].taskPath == e.taskPath
                      && e.index == (if calls[k].writes[i].0 in indexMap then indexMap[calls[k].writes[i].0] else i)
                      && forall k', i' :: 0 <= k' < |calls| && 0 <= i' < |calls[k'].writes| && calls[k'].task == e.task
                           && e.index == (if calls[k'].writes[i'].0 in indexMap then indexMap[calls[k'].writes[i'].0] else i')
                           ==> if e.index >= 0 then k < k' || (k == k' && i <= i') else k' < k || (k' == k && i' <= i))
  {
    LoadableAfterCalls(blobs, id, indexMap, calls);
    forall e ensures Stored(RunCalls(blobs, id, indexMap, calls), id, e) <==>
              exists k, i :: Wins(indexMap, calls, k, i, e.task, e.index)
                             && calls[k].writes[i] == (e.channel, e.value) && calls[k].taskPath == e.taskPath
    {
      EntriesAfterCalls(blobs, id, indexMap, calls, e);
    }
  }

  /** The writes that come with a reloaded checkpoint are loaded as those in the container are. */
  lemma ReloadedWritesLoad(blobs: Blobs, id: Id, out: seq<Entry>)
    requires BuildTuple(blobs, id).Loaded?
    ensures LoadsAs(BuildTuple(blobs, id).value.writes, id, out) <==> LoadsAs(blobs, id, out)
    ensures Unloadable(BuildTuple(blobs, id).value.writes, id) <==> Unloadable(blobs, id)
  {
    ReloadExactly(blobs, id);
    var writes := BuildTuple(blobs, id).value.writes;
    forall e ensures Stored(writes, id, e) <==> Stored(blobs, id, e) {}
  }

  /** Some write blob of the checkpoint makes loading raise. */
  ghost predicate Unloadable(blobs: Blobs, id: Id) {
    exists task, index :: Write(id, task, index) in blobs
                          && !blobs[Write(id, task, index)].WriteBlob? && !blobs[Write(id, task, index)].Untyped?
  }

  /** `_load_pending_writes`: `None` when some write blob cannot be decoded (the exception propagates). */
  method LoadPendingWrites(blobs: Blobs, id: Id) returns (out: Option<seq<Entry>>)
    ensures out.None? <==> Unloadable(blobs, id)
    ensures out.Some? ==> LoadsAs(blobs, id, out.value)
    ensures out.None? <==>
              exists task, index :: Write(id, task, index) in blobs
                && blobs[Write(id, task, index)] != Untyped && !blobs[Write(id, task, index)].WriteBlob?
    ensures out.Some? ==>
              forall e :: e in out.value <==>
                Write(id, e.task, e.index) in blobs
                && blobs[Write(id, e.task, e.index)] == WriteBlob(e.channel, e.taskPath, e.value)
  {
    var listing := set p | p in blobs && p.Write? && p.id == id :: p;
    var todo, loaded := listing, [];
    while todo != {}
      invariant todo <= listing
      decreases |todo|
      invariant StrictlySorted(Before, loaded)
      invariant forall e :: e in loaded <==> Stored(blobs, id, e) && Write(id, e.task, e.index) !in todo
      invariant forall p :: p in listing - todo ==> blobs[p].WriteBlob? || blobs[p].Untyped?
    {
      var p :| p in todo;
      match blobs[p] {
      case WriteBlob(channel, taskPath, value) =>
        var e := Entry(taskPath, p.task, p.index, channel, value);
        assert forall x :: x in loaded ==> Write(id, x.task, x.index) != p;
        InsertSorts(loaded, e);
        loaded := Insert(loaded, e);
      case Untyped =>
      case _ =>
        assert Write(id, p.task, p.index) == p;
        return None;
      }
      todo := todo - {p};
    }
    forall task, index | Write(id, task, index) in blobs
      ensures blobs[Write(id, task, index)].WriteBlob? || blobs[Write(id, task, index)].Untyped?
    {
      assert Write(id, task, index) in listing;
    }
    return Some(loaded);
  }
}
