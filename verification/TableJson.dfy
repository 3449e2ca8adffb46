/** JSON columns of a table row: one property when the text is short, numbered chunks when it is not. */
module TableJson {
  import opened Common

  const PROPERTY_BYTES: nat := 65536
  const ENTITY_BYTES: nat := 1048576
  const CHUNK_CHARACTERS: nat := 32768
  const FORMAT := "utf16-v1"

  /** A property value by the types `validate_entity` distinguishes. `Scalar`: a float or a datetime. */
  datatype Property = Null | Text(text: string) | Bytes(length: nat) | Int(n: int) | Bool(b: bool) | Scalar | Unsupported

  type Entity = map<string, Property>

  /** `len(s.encode("utf-16-le"))`. */
  function Utf16Bytes(s: string): nat {
    if s == "" then 0 else (if s[0] as int < 0x1_0000 then 2 else 4) + Utf16Bytes(s[1..])
  }

  /** The encoder escapes everything else: JSON text is ASCII. */
  predicate Ascii(s: string) { forall i :: 0 <= i < |s| ==> s[i] as int < 128 }

  lemma {:induction false} AsciiBytes(s: string)
    requires Ascii(s)
    ensures Utf16Bytes(s) == 2 * |s|
  {
    if s != "" { AsciiBytes(s[1..]); }
  }

  lemma {:induction false} Utf16Adds(a: string, b: string)
    ensures Utf16Bytes(a + b) == Utf16Bytes(a) + Utf16Bytes(b)
    ensures |a| == 1 ==> Utf16Bytes(a) == if a[0] as int <= 0xFFFF then 2 else 4
  {
    if a == "" {
      assert a + b == b;
    } else {
      Utf16Adds(a[1..], b);
      assert (a + b)[1..] == a[1..] + b;
    }
  }

  // ---------------------------------------------------------------- property names

  function FormatKey(field: string): string { field + "_" + "format" }
  function CountKey(field: string): string { field + "_" + "count" }
  function ChunkKey(field: string, i: nat): string { field + "_" + Decimal(i) }

  /** The keys `write_json` clears before writing. */
  predicate Belongs(key: string, field: string) { key == field || field + "_" <= key }

  lemma KeysBelong(field: string, i: nat)
    ensures Belongs(FormatKey(field), field) && Belongs(CountKey(field), field) && Belongs(ChunkKey(field, i), field)
  {}

  lemma TailsDiffer(field: string, a: string, b: string)
    requires field + "_" + a == field + "_" + b
    ensures a == b
  {
    assert (field + "_" + a)[|field| + 1..] == a && (field + "_" + b)[|field| + 1..] == b;
  }

  lemma KeysDistinct(field: string, i: nat, j: nat)
    ensures FormatKey(field) != CountKey(field)
    ensures ChunkKey(field, i) != FormatKey(field) && ChunkKey(field, i) != CountKey(field)
    ensures FormatKey(field) != field && CountKey(field) != field && ChunkKey(field, i) != field
    ensures ChunkKey(field, i) == ChunkKey(field, j) ==> i == j
  {
    assert "format"[0] == 'f' && "count"[0] == 'c' && '0' <= Decimal(i)[0] <= '9';
    if FormatKey(field) == CountKey(field) { TailsDiffer(field, "format", "count"); }
    if ChunkKey(field, i) == FormatKey(field) { TailsDiffer(field, Decimal(i), "format"); }
    if ChunkKey(field, i) == CountKey(field) { TailsDiffer(field, Decimal(i), "count"); }
    if ChunkKey(field, i) == ChunkKey(field, j) {
      TailsDiffer(field, Decimal(i), Decimal(j));
      DecimalRoundTrip(i);
      DecimalRoundTrip(j);
    }
    assert |FormatKey(field)| > |field| && |CountKey(field)| > |field| && |ChunkKey(field, i)| > |field|;
  }

  /** Neither field's keys can be taken for the other's. */
  predicate Apart(f: string, g: string) {
    f != g && !(g + "_" <= f) && !(f + "_" <= g)
  }

  lemma ApartKeys(f: string, g: string, key: string)
    requires Apart(f, g) && Belongs(key, f)
    ensures !Belongs(key, g)
  {
    if f + "_" <= key {
      assert key[..|f| + 1] == f + "_" && key[..|f|] == f;
      if |g| < |key| && |g| <= |f| { assert key[..|g| + 1] == f[..|g|] + [key[|g|]]; }
      if |f| < |g| <= |key| { assert key[..|g|][..|f| + 1] == f + "_"; }
    }
  }

  const STORE_FIELDS := ["metadata_json", "values_json", "interrupts_json"]

  lemma StoreFieldsApart(i: nat, j: nat)
    requires i < |STORE_FIELDS| && j < |STORE_FIELDS| && i != j
    ensures Apart(STORE_FIELDS[i], STORE_FIELDS[j])
  {
    assert "metadata_json"[0] == 'm' && "values_json"[0] == 'v' && "interrupts_json"[0] == 'i';
    var f, g := STORE_FIELDS[i], STORE_FIELDS[j];
    assert f[0] != g[0] && (g + "_")[0] == g[0] && (f + "_")[0] == f[0];
  }

  // ---------------------------------------------------------------- chunks

  function ChunkCount(length: nat): nat { (length + CHUNK_CHARACTERS - 1) / CHUNK_CHARACTERS }

  /** Where the first `n` chunks end. */
  function Cut(length: nat, n: nat): (at: nat)
    ensures at <= length
  {
    if n * CHUNK_CHARACTERS < length then n * CHUNK_CHARACTERS else length
  }

  function Chunk(encoded: string, i: nat): string {
    encoded[Cut(|encoded|, i)..Cut(|encoded|, i + 1)]
  }

  /** `"".join(...)` over the first `n` chunk properties; `None` if one is missing or no text. */
  function JoinChunks(entity: Entity, field: string, n: nat): Option<string> {
    if n == 0 then Some("")
    else
      var front := JoinChunks(entity, field, n - 1);
      var key := ChunkKey(field, n - 1);
      if front.None? || key !in entity || !entity[key].Text? then None else Some(front.value + entity[key].text)
  }

  /** The value as a Python `int`, of which `bool` is a kind. */
  function AsInt(value: Property): Option<int> {
    match value
    case Int(n) => Some(n)
    case Bool(b) => Some(if b then 1 else 0)
    case _ => None
  }

  /** What `read_json` finds: the text to decode, no value, or an exception. */
  datatype Found = Encoded(text: string) | Default | BadFormat | BadCount | Broken

  /** `read_json`, before decoding the text. */
  function ReadJson(entity: Entity, field: string): Found {
    if FormatKey(field) in entity then
      if entity[FormatKey(field)] != Text(FORMAT) then BadFormat
      else if CountKey(field) !in entity then Broken
      else
        var count := AsInt(entity[CountKey(field)]);
        if count.None? || !(1 <= count.value <= 252) then BadCount
        else
          var text := JoinChunks(entity, field, count.value);
          if text.Some? then Encoded(text.value) else Broken
    else if field !in entity || entity[field].Null? then Default
    else if entity[field].Text? then Encoded(entity[field].text)
    else Broken
  }

  predicate Short(encoded: string) { Utf16Bytes(encoded) <= PROPERTY_BYTES }

  ghost predicate HoldsChunks(entity: Entity, field: string, encoded: string) {
    forall i :: 0 <= i < ChunkCount(|encoded|) ==>
      ChunkKey(field, i) in entity && entity[ChunkKey(field, i)] == Text(Chunk(encoded, i))
  }

  predicate IsChunkKey(key: string, field: string, n: nat) {
    exists i :: 0 <= i < n && key == ChunkKey(field, i)
  }

  /** The field's properties are those of `encoded`, and it has no others: no chunk of an older text is left. */
  ghost predicate Holds(entity: Entity, field: string, encoded: string) {
    if Short(encoded) then
      && (forall key :: Belongs(key, field) ==> (key in entity <==> key == field))
      && field in entity && entity[field] == Text(encoded)
    else
      && (forall key :: Belongs(key, field) ==>
            (key in entity <==> key == FormatKey(field) || key == CountKey(field)
                                || IsChunkKey(key, field, ChunkCount(|encoded|))))
      && FormatKey(field) in entity && entity[FormatKey(field)] == Text(FORMAT)
      && CountKey(field) in entity && entity[CountKey(field)] == Int(ChunkCount(|encoded|))
      && HoldsChunks(entity, field, encoded)
  }

  ghost predicate Agree(before: Entity, after: Entity, key: string) {
    (key in after <==> key in before) && (key in before ==> after[key] == before[key])
  }

  /** Nothing changed but the properties of one field. */
  ghost predicate OnlyTouches(before: Entity, after: Entity, field: string) {
    forall key :: !Belongs(key, field) ==> Agree(before, after, key)
  }

  /** The entity with the field's properties deleted. */
  ghost predicate Cleared(entity: Entity, cleared: Entity, field: string) {
    && (forall key :: key in cleared <==> key in entity && !Belongs(key, field))
    && (forall key :: key in cleared ==> cleared[key] == entity[key])
  }

  /** `cleared` with the chunked header and the first `n` chunks of `encoded`, and nothing more. */
  ghost predicate Chunked(cleared: Entity, after: Entity, field: string, encoded: string, n: nat) {
    && (forall key :: key != FormatKey(field) && key != CountKey(field) && !IsChunkKey(key, field, n) ==> Agree(cleared, after, key))
    && FormatKey(field) in after && after[FormatKey(field)] == Text(FORMAT)
    && CountKey(field) in after && after[CountKey(field)] == Int(ChunkCount(|encoded|))
    && forall i :: 0 <= i < n ==> ChunkKey(field, i) in after && after[ChunkKey(field, i)] == Text(Chunk(encoded, i))
  }

  lemma ChunkAdded(cleared: Entity, after: Entity, field: string, encoded: string, n: nat)
    requires Chunked(cleared, after, field, encoded, n)
    ensures Chunked(cleared, after[ChunkKey(field, n) := Text(Chunk(encoded, n))], field, encoded, n + 1)
  {
    KeysDistinct(field, n, n);
    forall i | 0 <= i < n ensures ChunkKey(field, i) != ChunkKey(field, n) { KeysDistinct(field, i, n); }
    var next := after[ChunkKey(field, n) := Text(Chunk(encoded, n))];
    forall key | key != FormatKey(field) && key != CountKey(field) && !IsChunkKey(key, field, n + 1)
      ensures Agree(cleared, next, key)
    {
      assert !IsChunkKey(key, field, n) && Agree(cleared, after, key);
      assert key != ChunkKey(field, n);
    }
  }

  lemma ChunkedHolds(entity: Entity, cleared: Entity, after: Entity, field: string, encoded: string)
    requires !Short(encoded) && Cleared(entity, cleared, field)
    requires Chunked(cleared, after, field, encoded, ChunkCount(|encoded|))
    ensures Holds(after, field, encoded) && OnlyTouches(entity, after, field)
  {
    KeysBelong(field, 0);
    forall i: nat ensures Belongs(ChunkKey(field, i), field) { KeysBelong(field, i); }
    forall key | !Belongs(key, field) ensures Agree(entity, after, key) {
      assert Agree(cleared, after, key);
    }
  }

  /** `write_json`. */
  method WriteJson(entity: Entity, field: string, encoded: string) returns (after: Entity)
    ensures Holds(after, field, encoded) && OnlyTouches(entity, after, field)
  {
    after := Clear(entity, field);
    if Short(encoded) {
      after := after[field := Text(encoded)];
      return;
    }
    ghost var cleared := after;
    KeysDistinct(field, 0, 0);
    after := after[FormatKey(field) := Text(FORMAT)];
    var n := ChunkCount(|encoded|);
    after := after[CountKey(field) := Int(n)];
    var i := 0;
    while i < n
      invariant 0 <= i <= n
      invariant Chunked(cleared, after, field, encoded, i)
    {
      ChunkAdded(cleared, after, field, encoded, i);
      after := after[ChunkKey(field, i) := Text(Chunk(encoded, i))];
      i := i + 1;
    }
    ChunkedHolds(entity, cleared, after, field, encoded);
  }

  /** The deletion loop of `write_json`. */
  method Clear(entity: Entity, field: string) returns (after: Entity)
    ensures Cleared(entity, after, field)
  {
    after := entity;
    var todo := entity.Keys;
    while todo != {}
      invariant todo <= entity.Keys
      invariant forall key :: key in after <==> key in entity && (key in todo || !Belongs(key, field))
      invariant forall key :: key in after ==> after[key] == entity[key]
      decreases |todo|
    {
      var key :| key in todo;
      todo := todo - {key};
      if Belongs(key, field) {
        after := after - {key};
      }
    }
  }

  lemma {:induction false} JoinIsPrefix(after: Entity, field: string, encoded: string, n: nat)
    requires forall i :: 0 <= i < n ==> ChunkKey(field, i) in after && after[ChunkKey(field, i)] == Text(Chunk(encoded, i))
    ensures JoinChunks(after, field, n) == Some(encoded[..Cut(|encoded|, n)])
  {
    if n == 0 {
      assert encoded[..0] == "";
    } else {
      JoinIsPrefix(after, field, encoded, n - 1);
      var start, end := Cut(|encoded|, n - 1), Cut(|encoded|, n);
      assert encoded[..start] + encoded[start..end] == encoded[..end];
    }
  }

  lemma AllChunks(length: nat)
    ensures Cut(length, ChunkCount(length)) == length
    ensures length > 0 ==> ChunkCount(length) >= 1
    ensures forall i :: 0 <= i && i + 1 < ChunkCount(length) ==> Cut(length, i + 1) == Cut(length, i) + CHUNK_CHARACTERS
  {}

  /** What a reader finds where `encoded` is held: the text exactly when it needs at most 252 chunks. */
  function AsRead(encoded: string): Found {
    if Short(encoded) || ChunkCount(|encoded|) <= 252 then Encoded(encoded) else BadCount
  }

  lemma JoinAllChunks(entity: Entity, field: string, encoded: string)
    requires HoldsChunks(entity, field, encoded)
    ensures JoinChunks(entity, field, ChunkCount(|encoded|)) == Some(encoded)
  {
    JoinIsPrefix(entity, field, encoded, ChunkCount(|encoded|));
    AllChunks(|encoded|);
    assert encoded[..|encoded|] == encoded;
  }

  lemma LongIsNotEmpty(encoded: string)
    requires !Short(encoded)
    ensures ChunkCount(|encoded|) >= 1
  {
    AllChunks(|encoded|);
  }

  /** What `write_json` leaves of a short text: one property. */
  lemma HeldShort(entity: Entity, field: string, encoded: string)
    requires Holds(entity, field, encoded) && Utf16Bytes(encoded) <= 65536
    ensures field in entity && entity[field] == Text(encoded)
    ensures forall key :: field + "_" <= key ==> key !in entity
  {
    assert Belongs(field, field);
  }

  lemma FieldIsNoChunk(field: string, n: nat)
    ensures !IsChunkKey(field, field, n) && field != FormatKey(field) && field != CountKey(field)
  {
    KeysDistinct(field, 0, 0);
    forall i | 0 <= i < n ensures field != ChunkKey(field, i) { KeysDistinct(field, i, i); }
  }

  /** Of a longer one: the format and the number of chunks. */
  lemma HeldHeader(entity: Entity, field: string, encoded: string)
    requires Holds(entity, field, encoded) && Utf16Bytes(encoded) > 65536
    ensures field !in entity
    ensures field + "_" + "format" in entity && entity[field + "_" + "format"] == Text("utf16-v1")
    ensures field + "_" + "count" in entity && entity[field + "_" + "count"] == Int((|encoded| + 32767) / 32768)
  {
    assert Belongs(field, field);
    FieldIsNoChunk(field, ChunkCount(|encoded|));
  }

  /** And besides its chunks nothing: no chunk of an older text is left. */
  lemma NothingElseHeld(entity: Entity, field: string, encoded: string, key: string)
    requires Holds(entity, field, encoded) && Utf16Bytes(encoded) > 65536 && field + "_" <= key && key in entity
    ensures key == field + "_" + "format" || key == field + "_" + "count"
            || exists i :: 0 <= i < (|encoded| + 32767) / 32768 && key == field + "_" + Decimal(i)
  {
    assert Belongs(key, field);
    if key != FormatKey(field) && key != CountKey(field) {
      var i :| 0 <= i < ChunkCount(|encoded|) && key == ChunkKey(field, i);
      assert key == field + "_" + Decimal(i);
    }
  }

  lemma CutsAre(length: nat, i: nat)
    requires i < (length + 32767) / 32768
    ensures 32768 * i < length && Cut(length, i) == 32768 * i
    ensures Cut(length, i + 1) == if 32768 * (i + 1) < length then 32768 * (i + 1) else length
  {}

  /** A chunk is 32768 characters of the text, the last one the rest. */
  lemma HeldChunk(entity: Entity, field: string, encoded: string, i: nat)
    requires Holds(entity, field, encoded) && Utf16Bytes(encoded) > 65536 && i < (|encoded| + 32767) / 32768
    ensures 32768 * i < |encoded| && field + "_" + Decimal(i) in entity
    ensures entity[field + "_" + Decimal(i)]
              == Text(encoded[32768 * i..if 32768 * (i + 1) < |encoded| then 32768 * (i + 1) else |encoded|])
  {
    CutsAre(|encoded|, i);
    ChunkHeld(entity, field, encoded, i);
  }

  lemma ChunkHeld(entity: Entity, field: string, encoded: string, i: nat)
    requires Holds(entity, field, encoded) && !Short(encoded) && i < ChunkCount(|encoded|)
    ensures ChunkKey(field, i) in entity && entity[ChunkKey(field, i)] == Text(Chunk(encoded, i))
  {
    assert HoldsChunks(entity, field, encoded);
  }

  lemma AsReadMeans(encoded: string)
    ensures AsRead(encoded) == if Utf16Bytes(encoded) <= 65536 || |encoded| <= 252 * 32768 then Encoded(encoded) else BadCount
  {}

  lemma ReadsAs(entity: Entity, field: string, encoded: string)
    requires Holds(entity, field, encoded)
    ensures ReadJson(entity, field) == AsRead(encoded)
  {
    KeysBelong(field, 0);
    KeysDistinct(field, 0, 0);
    if Short(encoded) {
      assert Belongs(field, field);
    } else {
      JoinAllChunks(entity, field, encoded);
      LongIsNotEmpty(encoded);
    }
  }

  /** It reads back as itself exactly when it is short or has at most 252 chunks; otherwise its count is refused. */
  lemma ReadsBack(entity: Entity, field: string, encoded: string)
    requires Holds(entity, field, encoded)
    ensures ReadJson(entity, field) ==
              if Utf16Bytes(encoded) <= 65536 || |encoded| <= 252 * 32768 then Encoded(encoded) else BadCount
  {
    ReadsAs(entity, field, encoded);
    AsReadMeans(encoded);
  }

  lemma {:induction false} JoinFails(entity: Entity, field: string, n: nat, i: nat)
    requires i < n && !(ChunkKey(field, i) in entity && entity[ChunkKey(field, i)].Text?)
    ensures JoinChunks(entity, field, n).None?
  {
    if i < n - 1 { JoinFails(entity, field, n - 1, i); }
  }

  /** What reading finds in any entity at all: legacy text, nothing, or why the chunked form is refused. */
  lemma ReadExactly(entity: Entity, field: string)
    ensures var formatKey, countKey := field + "_" + "format", field + "_" + "count";
            && (formatKey !in entity ==>
                  if field !in entity || entity[field] == Null then ReadJson(entity, field) == Default
                  else if entity[field].Text? then ReadJson(entity, field) == Encoded(entity[field].text)
                  else ReadJson(entity, field) == Broken)
            && (formatKey in entity && entity[formatKey] != Text("utf16-v1") ==> ReadJson(entity, field) == BadFormat)
            && (formatKey in entity && entity[formatKey] == Text("utf16-v1") && countKey in entity ==>
                  (ReadJson(entity, field) == BadCount <==>
                     !(entity[countKey] == Bool(true) || (entity[countKey].Int? && 1 <= entity[countKey].n <= 252))))
  {}

  /** A chunked text with a chunk missing, or one that is no text, is not read. */
  lemma MissingChunkIsNotRead(entity: Entity, field: string, n: nat, i: nat)
    requires FormatKey(field) in entity && entity[FormatKey(field)] == Text("utf16-v1")
    requires CountKey(field) in entity && entity[CountKey(field)] == Int(n) && n <= 252
    requires i < n && !(field + "_" + Decimal(i) in entity && entity[field + "_" + Decimal(i)].Text?)
    ensures ReadJson(entity, field) == Broken
  {
    JoinFails(entity, field, n, i);
  }

  lemma {:induction false} JoinUnchanged(before: Entity, after: Entity, field: string, n: nat)
    requires forall key :: Belongs(key, field) ==> Agree(before, after, key)
    ensures JoinChunks(after, field, n) == JoinChunks(before, field, n)
  {
    if n > 0 {
      KeysBelong(field, n - 1);
      assert Agree(before, after, ChunkKey(field, n - 1));
      JoinUnchanged(before, after, field, n - 1);
    }
  }

  /** Writing one field leaves every property of another alone. */
  lemma OtherFieldUntouched(before: Entity, after: Entity, field: string, other: string)
    requires OnlyTouches(before, after, field) && Apart(field, other)
    ensures forall key :: Belongs(key, other) ==> Agree(before, after, key)
  {
    forall key | Belongs(key, other) ensures Agree(before, after, key) { ApartKeys(other, field, key); }
  }

  lemma OtherFieldReadsTheSame(before: Entity, after: Entity, field: string, other: string)
    requires OnlyTouches(before, after, field) && Apart(field, other)
    ensures ReadJson(after, other) == ReadJson(before, other)
  {
    OtherFieldUntouched(before, after, field, other);
    KeysBelong(other, 0);
    assert Agree(before, after, FormatKey(other)) && Agree(before, after, CountKey(other));
    assert Belongs(other, other) && Agree(before, after, other);
    if CountKey(other) in before {
      var count := AsInt(before[CountKey(other)]);
      if count.Some? && count.value >= 0 { JoinUnchanged(before, after, other, count.value); }
    }
  }

  lemma OtherFieldStillHolds(before: Entity, after: Entity, field: string, other: string, text: string)
    requires OnlyTouches(before, after, field) && Apart(field, other) && Holds(before, other, text)
    ensures Holds(after, other, text)
  {
    OtherFieldUntouched(before, after, field, other);
    KeysBelong(other, 0);
    assert Agree(before, after, FormatKey(other)) && Agree(before, after, CountKey(other));
    assert Belongs(other, other) && Agree(before, after, other);
    if !Short(text) {
      forall i | 0 <= i < ChunkCount(|text|)
        ensures ChunkKey(other, i) in after && after[ChunkKey(other, i)] == Text(Chunk(text, i))
      {
        KeysBelong(other, i);
        assert Agree(before, after, ChunkKey(other, i));
      }
    }
  }

  // ---------------------------------------------------------------- any sequence of writes

  ghost predicate StoreWrite(before: Entity, after: Entity, write: (nat, string)) {
    && write.0 < |STORE_FIELDS|
    && Holds(after, STORE_FIELDS[write.0], write.1)
    && OnlyTouches(before, after, STORE_FIELDS[write.0])
  }

  /** Row states along a sequence of writes of store fields. */
  ghost predicate WriteRun(states: seq<Entity>, writes: seq<(nat, string)>) {
    |states| == |writes| + 1 && forall k :: 0 <= k < |writes| ==> StoreWrite(states[k], states[k + 1], writes[k])
  }

  /** The text last written to a field, if any. */
  function LastWritten(writes: seq<(nat, string)>, field: nat): Option<string> {
    if writes == [] then None
    else
      var last := writes[|writes| - 1];
      if last.0 == field then Some(last.1) else LastWritten(writes[..|writes| - 1], field)
  }

  /** What a run leaves of one field: the last text written to it and nothing else, or what it was. */
  ghost predicate Kept(first: Entity, final: Entity, field: string, last: Option<string>) {
    match last
    case Some(text) => Holds(final, field, text) && ReadJson(final, field) == AsRead(text)
    case None => ReadJson(final, field) == ReadJson(first, field)
  }

  lemma KeptAcross(first: Entity, before: Entity, after: Entity, write: (nat, string), field: nat, last: Option<string>)
    requires StoreWrite(before, after, write) && field < |STORE_FIELDS|
    requires Kept(first, before, STORE_FIELDS[field], last)
    ensures Kept(first, after, STORE_FIELDS[field], if write.0 == field then Some(write.1) else last)
  {
    var name := STORE_FIELDS[field];
    if write.0 == field {
      ReadsAs(after, name, write.1);
    } else {
      StoreFieldsApart(write.0, field);
      OtherFieldReadsTheSame(before, after, STORE_FIELDS[write.0], name);
      if last.Some? { OtherFieldStillHolds(before, after, STORE_FIELDS[write.0], name, last.value); }
    }
  }

  /**
   After any sequence of writes of the store's fields, each field holds and reads back the text last written to
   it, with no chunk left of an older text; a field not written reads what it read before.
   */
  lemma {:induction false} LastWriteWins(states: seq<Entity>, writes: seq<(nat, string)>, field: nat)
    requires WriteRun(states, writes) && field < |STORE_FIELDS|
    ensures Kept(states[0], states[|writes|], STORE_FIELDS[field], LastWritten(writes, field))
    decreases |writes|
  {
    if writes != [] {
      var n := |writes| - 1;
      assert WriteRun(states[..n + 1], writes[..n]) by {
        assert forall k :: 0 <= k < n ==> StoreWrite(states[k], states[k + 1], writes[k]);
      }
      LastWriteWins(states[..n + 1], writes[..n], field);
      KeptAcross(states[0], states[n], states[n + 1], writes[n], field, LastWritten(writes[..n], field));
    }
  }

  // ---------------------------------------------------------------- capacity

  predicate Counted(name: string, value: Property) {
    name != "etag" && name != "Timestamp" && !value.Null?
  }

  function Cost(name: string, value: Property): nat {
    if !Counted(name, value) then 0
    else Utf16Bytes(name) + 32 + ValueBytes(value)
  }

  function ValueBytes(value: Property): nat {
    match value
    case Text(text) => Utf16Bytes(text)
    case Bytes(length) => length
    case _ => 16
  }

  predicate Fits(name: string, value: Property) {
    Counted(name, value) ==>
      match value
      case Text(text) => Utf16Bytes(text) <= PROPERTY_BYTES
      case Bytes(length) => length <= PROPERTY_BYTES
      case Unsupported => false
      case _ => true
  }

  ghost function Pick(entity: Entity): string
    requires entity != map[]
    ensures Pick(entity) in entity
  {
    var name :| name in entity;
    name
  }

  /** Total cost of the properties, in whatever order they are visited. */
  ghost function TotalCost(entity: Entity): nat
    decreases |entity|
  {
    if entity == map[] then 0
    else TotalCost(entity - {Pick(entity)}) + Cost(Pick(entity), entity[Pick(entity)])
  }

  ghost function CountOf(entity: Entity): set<string> {
    set name | name in entity && Counted(name, entity[name])
  }

  lemma {:induction false} TotalAny(entity: Entity, name: string)
    requires name in entity
    ensures TotalCost(entity) == TotalCost(entity - {name}) + Cost(name, entity[name])
    decreases |entity|
  {
    var first := Pick(entity);
    if first != name {
      var a, b := entity - {first}, entity - {name};
      TotalAny(a, name);
      TotalAny(b, first);
      assert a - {name} == b - {first};
    }
  }

  /** What each property adds to the total, in any order. */
  lemma TotalAdds(entity: Entity, name: string)
    requires name in entity
    ensures TotalCost(map[]) == 0
    ensures TotalCost(entity) == TotalCost(entity - {name}) +
              if name in {"etag", "Timestamp"} || entity[name].Null? then 0
              else Utf16Bytes(name) + 32 + (match entity[name]
                                            case Text(text) => Utf16Bytes(text)
                                            case Bytes(length) => length
                                            case _ => 16)
  {
    TotalAny(entity, name);
  }

  ghost predicate Acceptable(entity: Entity) {
    && (forall name :: name in entity ==> Fits(name, entity[name]))
    && 1 + |CountOf(entity)| <= 255
    && 4096 + TotalCost(entity) <= ENTITY_BYTES
  }

  lemma AcceptableMeans(entity: Entity)
    ensures Acceptable(entity) <==>
              && (forall name :: name in entity && name != "etag" && name != "Timestamp" ==>
                    match entity[name]
                    case Text(text) => Utf16Bytes(text) <= 65536
                    case Bytes(length) => length <= 65536
                    case Unsupported => false
                    case _ => true)
              && |set name | name in entity && name != "etag" && name != "Timestamp" && !entity[name].Null?| <= 254
              && TotalCost(entity) <= 1048576 - 4096
  {
    assert CountOf(entity) == set name | name in entity && name != "etag" && name != "Timestamp" && !entity[name].Null?;
  }

  /** The totals of the properties already visited, when `todo` is what is left. */
  ghost predicate Tallied(entity: Entity, todo: Entity, size: nat, properties: nat) {
    && size + TotalCost(todo) == 4096 + TotalCost(entity)
    && properties + |CountOf(todo)| == 1 + |CountOf(entity)|
  }

  lemma TallyOne(entity: Entity, todo: Entity, name: string, size: nat, properties: nat)
    requires name in todo && Tallied(entity, todo, size, properties)
    ensures Tallied(entity, todo - {name}, size + Cost(name, todo[name]),
                    properties + if Counted(name, todo[name]) then 1 else 0)
  {
    TotalAny(todo, name);
    assert CountOf(todo - {name}) == CountOf(todo) - {name};
    assert name in CountOf(todo) <==> Counted(name, todo[name]);
  }

  /** `validate_entity`. */
  method ValidateEntity(entity: Entity) returns (accepted: bool)
    ensures accepted <==> Acceptable(entity)
    ensures accepted <==>
              && (forall name :: name in entity && name != "etag" && name != "Timestamp" ==>
                    match entity[name]
                    case Text(text) => Utf16Bytes(text) <= 65536
                    case Bytes(length) => length <= 65536
                    case Unsupported => false
                    case _ => true)
              && |set name | name in entity && name != "etag" && name != "Timestamp" && !entity[name].Null?| <= 254
              && TotalCost(entity) <= 1048576 - 4096
  {
    AcceptableMeans(entity);
    var size: nat, properties: nat := 4096, 1;
    var todo := entity;
    while todo != map[]
      invariant todo.Keys <= entity.Keys && forall name :: name in todo ==> todo[name] == entity[name]
      invariant forall name :: name in entity && name !in todo ==> Fits(name, entity[name])
      invariant Tallied(entity, todo, size, properties)
      decreases |todo|
    {
      var name :| name in todo;
      var value := todo[name];
      TallyOne(entity, todo, name, size, properties);
      todo := todo - {name};
      if Counted(name, value) {
        if !Fits(name, value) {
          return false;
        }
        properties := properties + 1;
        size := size + Cost(name, value);
      }
    }
    accepted := properties <= 255 && size <= ENTITY_BYTES;
  }

  lemma {:induction false} ChunksAddUp(entity: Entity, field: string, n: nat)
    requires forall i :: 0 <= i < n ==>
               ChunkKey(field, i) in entity && Cost(ChunkKey(field, i), entity[ChunkKey(field, i)]) >= PROPERTY_BYTES
    ensures TotalCost(entity) >= n * PROPERTY_BYTES
  {
    if n > 0 {
      var key := ChunkKey(field, n - 1);
      TotalAny(entity, key);
      forall i | 0 <= i < n - 1 ensures ChunkKey(field, i) != key { KeysDistinct(field, i, n - 1); }
      ChunksAddUp(entity - {key}, field, n - 1);
    }
  }

  lemma FullChunkCost(field: string, encoded: string, i: nat)
    requires Ascii(encoded) && i + 1 < ChunkCount(|encoded|) && |field| >= 10
    ensures Cost(ChunkKey(field, i), Text(Chunk(encoded, i))) >= PROPERTY_BYTES
  {
    AllChunks(|encoded|);
    var chunk := Chunk(encoded, i);
    assert |chunk| == CHUNK_CHARACTERS && Ascii(chunk);
    AsciiBytes(chunk);
    assert |ChunkKey(field, i)| > 10 && |"etag"| == 4 && |"Timestamp"| == 9;
  }

  /**
   A field of an entity the validator accepts has at most 16 chunks, so the reader never rejects its count and
   finds the text. Every store field's name is too long for a chunk to be called "etag" or "Timestamp".
   */
  lemma AcceptedMeansReadable(entity: Entity, field: string, encoded: string)
    requires Holds(entity, field, encoded) && Ascii(encoded) && Acceptable(entity) && |field| >= 10
    ensures !Short(encoded) ==> ChunkCount(|encoded|) <= 16
    ensures ReadJson(entity, field) == Encoded(encoded)
  {
    if !Short(encoded) && ChunkCount(|encoded|) > 16 {
      SixteenFullChunks(entity, field, encoded);
    }
    ReadsAs(entity, field, encoded);
  }

  lemma SixteenFullChunks(entity: Entity, field: string, encoded: string)
    requires HoldsChunks(entity, field, encoded) && Ascii(encoded) && ChunkCount(|encoded|) > 16 && |field| >= 10
    ensures TotalCost(entity) >= 16 * PROPERTY_BYTES
  {
    forall i | 0 <= i < 16
      ensures ChunkKey(field, i) in entity && Cost(ChunkKey(field, i), entity[ChunkKey(field, i)]) >= PROPERTY_BYTES
    {
      FullChunkCost(field, encoded, i);
    }
    ChunksAddUp(entity, field, 16);
  }
}
