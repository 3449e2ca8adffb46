/**
 Blob names. Segments are the UTF-8 bytes of ids, channels and versions; they are percent-encoded as in
 sections 2.1 and 2.3 of RFC 3986 with nothing but the unreserved characters left alone, and joined by "/".
 */
module BlobPaths {
  import opened Common

  type Byte = b: int | 0 <= b < 256

  /** Unreserved characters: letters, digits and "-._~". */
  predicate Unreserved(b: int) {
    'A' as int <= b <= 'Z' as int || 'a' as int <= b <= 'z' as int || '0' as int <= b <= '9' as int
    || b in {'-' as int, '.' as int, '_' as int, '~' as int}
  }

  function HexChar(d: nat): (c: char)
    requires d < 16
    ensures Unreserved(c as int)
  {
    if d < 10 then ('0' as int + d) as char else ('A' as int + d - 10) as char
  }

  function HexValue(c: char): int {
    if '0' <= c <= '9' then c as int - '0' as int
    else if 'A' <= c <= 'F' then c as int - 'A' as int + 10
    else if 'a' <= c <= 'f' then c as int - 'a' as int + 10
    else -1
  }

  function QuoteByte(b: Byte): (s: string)
    ensures s != "" && (Unreserved(b) ==> s == [b as char]) && (!Unreserved(b) ==> |s| == 3 && s[0] == '%')
  {
    if Unreserved(b) then [b as char] else ['%', HexChar(b / 16), HexChar(b % 16)]
  }

  /** `quote(segment, safe="")`. */
  function Quote(segment: seq<Byte>): string {
    if segment == [] then "" else QuoteByte(segment[0]) + Quote(segment[1..])
  }

  /** `unquote(text)`, as character codes. */
  function Unquote(text: string): seq<int> {
    if text == "" then []
    else if text[0] == '%' && |text| >= 3 && HexValue(text[1]) >= 0 && HexValue(text[2]) >= 0 then
      [16 * HexValue(text[1]) + HexValue(text[2])] + Unquote(text[3..])
    else [text[0] as int] + Unquote(text[1..])
  }

  lemma HexDigit(d: nat)
    requires d < 16
    ensures HexChar(d) == "0123456789ABCDEF"[d]
  {}

  /** Letters, digits and "-._~" stay, any other byte is "%" and two upper-case hexadecimal digits. */
  lemma QuoteOfByte(b: Byte)
    ensures Quote([b]) ==
              if 'A' as int <= b <= 'Z' as int || 'a' as int <= b <= 'z' as int || '0' as int <= b <= '9' as int
                 || b == '-' as int || b == '.' as int || b == '_' as int || b == '~' as int
              then [b as char]
              else ['%', "0123456789ABCDEF"[b / 16], "0123456789ABCDEF"[b % 16]]
  {
    HexDigit(b / 16);
    HexDigit(b % 16);
    assert Quote([b]) == QuoteByte(b) + Quote([]);
  }

  lemma Regroup(a: string, b: string, c: string)
    ensures a + (b + c) == (a + b) + c
  {}

  /** Segments are encoded byte by byte. */
  lemma {:induction false} QuoteAdds(a: seq<Byte>, b: seq<Byte>)
    ensures Quote(a + b) == Quote(a) + Quote(b)
  {
    if a == [] {
      assert a + b == b;
    } else {
      QuoteAdds(a[1..], b);
      assert (a + b)[1..] == a[1..] + b && (a + b)[0] == a[0];
      Regroup(QuoteByte(a[0]), Quote(a[1..]), Quote(b));
    }
  }

  lemma HexByte(b: Byte)
    ensures HexValue(HexChar(b / 16)) == b / 16 && HexValue(HexChar(b % 16)) == b % 16
  {}

  lemma UnquoteByte(b: Byte, rest: string)
    ensures Unquote(QuoteByte(b) + rest) == [b as int] + Unquote(rest)
  {
    var text := QuoteByte(b) + rest;
    if Unreserved(b) {
      assert text[0] as int == b && text[1..] == rest;
    } else {
      HexByte(b);
      assert text[1] == HexChar(b / 16) && text[2] == HexChar(b % 16) && text[3..] == rest;
    }
  }

  lemma {:induction false} UnquoteQuote(segment: seq<Byte>)
    ensures Unquote(Quote(segment)) == segment
  {
    if segment != [] {
      UnquoteByte(segment[0], Quote(segment[1..]));
      UnquoteQuote(segment[1..]);
      assert segment == [segment[0]] + segment[1..];
    }
  }

  lemma QuoteInjective(a: seq<Byte>, b: seq<Byte>)
    requires Quote(a) == Quote(b)
    ensures a == b
  {
    UnquoteQuote(a);
    UnquoteQuote(b);
  }

  /** No "/" anywhere: the segment cannot escape its place in the path. */
  predicate SlashFree(s: string) { '/' !in s }

  lemma {:induction false} QuoteIsSlashFree(segment: seq<Byte>)
    ensures SlashFree(Quote(segment))
  {
    if segment != [] {
      QuoteIsSlashFree(segment[1..]);
      assert SlashFree(QuoteByte(segment[0]));
    }
  }

  // ---------------------------------------------------------------- joining and splitting

  function Join(segments: seq<string>): string {
    if segments == [] then "" else if |segments| == 1 then segments[0] else segments[0] + "/" + Join(segments[1..])
  }

  function IndexOfSlash(s: string): (i: nat)
    ensures i <= |s| && SlashFree(s[..i]) && (i < |s| ==> s[i] == '/')
  {
    if s == "" || s[0] == '/' then 0 else
      var i := 1 + IndexOfSlash(s[1..]);
      assert s[..i] == [s[0]] + s[1..][..i - 1];
      i
  }

  /** `path.split("/")`. */
  function Split(path: string): seq<string>
    decreases |path|
  {
    var i := IndexOfSlash(path);
    if i == |path| then [path] else [path[..i]] + Split(path[i + 1..])
  }

  ghost predicate AllSlashFree(segments: seq<string>) {
    forall i :: 0 <= i < |segments| ==> SlashFree(segments[i])
  }

  lemma SlashIsUnique(s: string, i: nat)
    requires i <= |s| && SlashFree(s[..i]) && (i < |s| ==> s[i] == '/')
    ensures IndexOfSlash(s) == i
  {
    var j := IndexOfSlash(s);
    forall k | 0 <= k < i ensures s[k] != '/' { assert s[..i][k] in s[..i]; }
    forall k | 0 <= k < j ensures s[k] != '/' { assert s[..j][k] in s[..j]; }
  }

  lemma SplitFirst(segment: string, rest: string)
    requires SlashFree(segment)
    ensures Split(segment + "/" + rest) == [segment] + Split(rest)
  {
    var path := segment + "/" + rest;
    assert path[..|segment|] == segment && path[|segment| + 1..] == rest;
    SlashIsUnique(path, |segment|);
  }

  lemma {:induction false} SplitJoin(segments: seq<string>)
    requires segments != [] && AllSlashFree(segments)
    ensures Split(Join(segments)) == segments
  {
    if |segments| == 1 {
      assert Join(segments)[..|segments[0]|] == segments[0];
      SlashIsUnique(Join(segments), |segments[0]|);
    } else {
      SplitFirst(segments[0], Join(segments[1..]));
      SplitJoin(segments[1..]);
    }
  }

  /** A whole-segment prefix of the text is a prefix of the segments, and conversely. */
  lemma {:induction false} PrefixMeansSegments(a: seq<string>, b: seq<string>)
    requires a != [] && b != [] && AllSlashFree(a) && AllSlashFree(b)
    ensures Join(a) + "/" <= Join(b) <==> a < b
  {
    var x, y := Join(a) + "/", Join(b);
    assert x[..|a[0]|] == a[0] && x[|a[0]|] == '/';
    if x <= y {
      assert y[..|a[0]|] == a[0] && y[|a[0]|] == '/';
      SlashIsUnique(y, |a[0]|);
      SlashIsUnique(y, |b[0]|);
      assert y[..|b[0]|] == b[0];
    }
    if a[0] == b[0] {
      if |b| == 1 {
        assert |x| > |y|;
      } else if |a| == 1 {
        assert x <= y;
      } else {
        var x', y' := Join(a[1..]) + "/", Join(b[1..]);
        assert x == a[0] + "/" + x' && y == a[0] + "/" + y';
        assert x <= y <==> x' <= y' by {
          assert x[|a[0]| + 1..] == x' && y[|a[0]| + 1..] == y';
        }
        PrefixMeansSegments(a[1..], b[1..]);
        assert a < b <==> a[1..] < b[1..];
      }
    } else {
      assert !(a < b);
    }
  }

  // ---------------------------------------------------------------- the saver's blobs

  type Segment = seq<Byte>

  datatype BlobName =
    | Latest(thread: Segment, ns: Segment)
    | Value(thread: Segment, ns: Segment, channel: Segment, version: Segment)
    | Metadata(thread: Segment, ns: Segment, id: Segment)
    | Marker(thread: Segment, ns: Segment, id: Segment)
    | Write(thread: Segment, ns: Segment, id: Segment, task: Segment, index: int)

  function NamespaceSegments(thread: Segment, ns: Segment): seq<string> {
    ["threads", Quote(thread), "ns", Quote(ns)]
  }

  function CheckpointSegments(thread: Segment, ns: Segment, id: Segment): seq<string> {
    NamespaceSegments(thread, ns) + ["checkpoints", Quote(id)]
  }

  function Ascii(text: string): (bytes: Segment)
    requires forall i :: 0 <= i < |text| ==> text[i] as int < 128
    ensures |bytes| == |text| && forall k :: 0 <= k < |text| ==> bytes[k] == text[k] as int
  {
    if text == "" then [] else [text[0] as int] + Ascii(text[1..])
  }

  function IndexBytes(index: int): Segment { Ascii(IntText(index)) }

  function IndexSegment(index: int): string { Quote(IndexBytes(index)) }

  function Segments(name: BlobName): seq<string> {
    match name
    case Latest(t, n) => NamespaceSegments(t, n) + ["latest.json"]
    case Value(t, n, ch, v) => NamespaceSegments(t, n) + ["values", Quote(ch), Quote(v) + ".bin"]
    case Metadata(t, n, c) => CheckpointSegments(t, n, c) + ["metadata.bin"]
    case Marker(t, n, c) => CheckpointSegments(t, n, c) + ["checkpoint.bin"]
    case Write(t, n, c, task, i) => CheckpointSegments(t, n, c) + ["writes", Quote(task), IndexSegment(i) + ".bin"]
  }

  /** The blob path builders. */
  function Render(name: BlobName): string { Join(Segments(name)) }

  function ThreadPrefix(t: Segment): string { Join(["threads", Quote(t)]) + "/" }

  function NamespacePrefix(t: Segment, n: Segment): string { Join(NamespaceSegments(t, n)) + "/" }

  function CheckpointsPrefix(t: Segment, n: Segment): string { Join(NamespaceSegments(t, n) + ["checkpoints"]) + "/" }

  function CheckpointBasePrefix(t: Segment, n: Segment, c: Segment): string { Join(CheckpointSegments(t, n, c)) + "/" }

  function WritesPrefix(t: Segment, n: Segment, c: Segment): string { Join(CheckpointSegments(t, n, c) + ["writes"]) + "/" }

  function ValuesPrefix(t: Segment, n: Segment): string { Join(NamespaceSegments(t, n) + ["values"]) + "/" }

  lemma {:induction false} QuoteOfPlain(text: string)
    requires forall i :: 0 <= i < |text| ==> text[i] as int < 128 && Unreserved(text[i] as int)
    ensures Quote(Ascii(text)) == text
  {
    if text != "" {
      QuoteOfPlain(text[1..]);
      assert Ascii(text)[1..] == Ascii(text[1..]) && text == [text[0]] + text[1..];
    }
  }

  lemma JoinAdds(segment: string, rest: seq<string>)
    ensures Join([segment] + rest) == if rest == [] then segment else segment + "/" + Join(rest)
  {
    assert ([segment] + rest)[1..] == rest;
  }

  /** The path of every kind of blob, segment by segment; the index of a pending write is in plain decimal. */
  lemma PathsExactly(name: BlobName)
    ensures Render(name) == Join(Segments(name))
    ensures var folder := ["threads", Quote(name.thread), "ns", Quote(name.ns)];
            match name
            case Latest(_, _) => Segments(name) == folder + ["latest.json"]
            case Value(_, _, ch, v) => Segments(name) == folder + ["values", Quote(ch), Quote(v) + ".bin"]
            case Metadata(_, _, c) => Segments(name) == folder + ["checkpoints", Quote(c), "metadata.bin"]
            case Marker(_, _, c) => Segments(name) == folder + ["checkpoints", Quote(c), "checkpoint.bin"]
            case Write(_, _, c, task, index) =>
              Segments(name) == folder + ["checkpoints", Quote(c), "writes", Quote(task), IntText(index) + ".bin"]
  {
    if name.Write? { QuoteOfPlain(IntText(name.index)); }
  }

  lemma NamespaceSlashFree(t: Segment, n: Segment)
    ensures AllSlashFree(NamespaceSegments(t, n))
  {
    QuoteIsSlashFree(t);
    QuoteIsSlashFree(n);
  }

  lemma CheckpointSlashFree(t: Segment, n: Segment, c: Segment)
    ensures AllSlashFree(CheckpointSegments(t, n, c))
  {
    NamespaceSlashFree(t, n);
    QuoteIsSlashFree(c);
    AllSlashFreeAppend(NamespaceSegments(t, n), ["checkpoints", Quote(c)]);
  }

  lemma AllSlashFreeAppend(a: seq<string>, b: seq<string>)
    requires AllSlashFree(a) && AllSlashFree(b)
    ensures AllSlashFree(a + b)
  {}

  lemma BinIsSlashFree(s: Segment)
    ensures SlashFree(Quote(s)) && SlashFree(Quote(s) + ".bin")
  {
    QuoteIsSlashFree(s);
  }

  lemma ValueSlashFree(t: Segment, n: Segment, ch: Segment, v: Segment)
    ensures AllSlashFree(NamespaceSegments(t, n) + ["values", Quote(ch), Quote(v) + ".bin"])
  {
    NamespaceSlashFree(t, n);
    BinIsSlashFree(ch);
    BinIsSlashFree(v);
    AllSlashFreeAppend(NamespaceSegments(t, n), ["values", Quote(ch), Quote(v) + ".bin"]);
  }

  lemma WriteSlashFree(t: Segment, n: Segment, c: Segment, task: Segment, index: int)
    ensures AllSlashFree(CheckpointSegments(t, n, c) + ["writes", Quote(task), IndexSegment(index) + ".bin"])
  {
    CheckpointSlashFree(t, n, c);
    BinIsSlashFree(task);
    BinIsSlashFree(IndexBytes(index));
    AllSlashFreeAppend(CheckpointSegments(t, n, c), ["writes", Quote(task), IndexSegment(index) + ".bin"]);
  }

  lemma SegmentsSlashFree(name: BlobName)
    ensures AllSlashFree(Segments(name))
  {
    match name
    case Latest(t, n) =>
      NamespaceSlashFree(t, n);
      AllSlashFreeAppend(NamespaceSegments(t, n), ["latest.json"]);
    case Value(t, n, ch, v) => ValueSlashFree(t, n, ch, v);
    case Metadata(t, n, c) =>
      CheckpointSlashFree(t, n, c);
      AllSlashFreeAppend(CheckpointSegments(t, n, c), ["metadata.bin"]);
    case Marker(t, n, c) =>
      CheckpointSlashFree(t, n, c);
      AllSlashFreeAppend(CheckpointSegments(t, n, c), ["checkpoint.bin"]);
    case Write(t, n, c, task, i) => WriteSlashFree(t, n, c, task, i);
  }

  lemma IndexSegmentInjective(i: int, j: int)
    requires IndexSegment(i) == IndexSegment(j)
    ensures i == j
  {
    QuoteInjective(IndexBytes(i), IndexBytes(j));
    assert |IntText(i)| == |IntText(j)|;
    forall k | 0 <= k < |IntText(i)| ensures IntText(i)[k] == IntText(j)[k] {
      assert IndexBytes(i)[k] == IndexBytes(j)[k];
    }
    assert IntText(i) == IntText(j);
    IntTextInjective(i, j);
  }

  lemma SuffixInjective(a: string, b: string, suffix: string)
    requires a + suffix == b + suffix
    ensures a == b
  {
    assert |a| == |b|;
    assert (a + suffix)[..|a|] == a && (b + suffix)[..|b|] == b;
  }

  lemma SameThreadAndNs(a: BlobName, b: BlobName)
    requires Segments(a) == Segments(b)
    ensures a.thread == b.thread && a.ns == b.ns
  {
    var s := Segments(a);
    assert s[1] == Quote(a.thread) == Quote(b.thread) && s[3] == Quote(a.ns) == Quote(b.ns);
    QuoteInjective(a.thread, b.thread);
    QuoteInjective(a.ns, b.ns);
  }

  /** The number of segments, the fifth and the last tell the kind. */
  lemma KindShows(name: BlobName)
    ensures var s := Segments(name);
            && |s| == (if name.Latest? then 5 else if name.Write? then 9 else 7)
            && (name.Value? <==> s[4] == "values")
            && (name.Metadata? ==> s[6] == "metadata.bin") && (name.Marker? ==> s[6] == "checkpoint.bin")
  {
    assert |"latest.json"| == 11 && |"values"| == 6 && |"checkpoints"| == 11;
    assert name.Latest? ==> Segments(name)[4] == "latest.json";
    assert name.Metadata? || name.Marker? || name.Write? ==> Segments(name)[4] == "checkpoints";
  }

  lemma SameKind(a: BlobName, b: BlobName)
    requires Segments(a) == Segments(b)
    ensures (a.Latest? <==> b.Latest?) && (a.Value? <==> b.Value?) && (a.Metadata? <==> b.Metadata?)
            && (a.Marker? <==> b.Marker?) && (a.Write? <==> b.Write?)
  {
    KindShows(a);
    KindShows(b);
    assert |"metadata.bin"| == 12 && |"checkpoint.bin"| == 14;
  }

  lemma SameValue(a: BlobName, b: BlobName)
    requires Segments(a) == Segments(b) && a.Value? && b.Value?
    ensures a.channel == b.channel && a.version == b.version
  {
    var s := Segments(a);
    assert s[5] == Quote(a.channel) == Quote(b.channel);
    assert s[6] == Quote(a.version) + ".bin" == Quote(b.version) + ".bin";
    QuoteInjective(a.channel, b.channel);
    SuffixInjective(Quote(a.version), Quote(b.version), ".bin");
    QuoteInjective(a.version, b.version);
  }

  lemma SameId(a: BlobName, b: BlobName)
    requires Segments(a) == Segments(b) && !a.Latest? && !a.Value? && !b.Latest? && !b.Value?
    ensures a.id == b.id
  {
    var s := Segments(a);
    assert s[5] == Quote(a.id) == Quote(b.id);
    QuoteInjective(a.id, b.id);
  }

  lemma SameWrite(a: BlobName, b: BlobName)
    requires Segments(a) == Segments(b) && a.Write? && b.Write?
    ensures a.task == b.task && a.index == b.index
  {
    var s := Segments(a);
    assert s[7] == Quote(a.task) == Quote(b.task);
    assert s[8] == IndexSegment(a.index) + ".bin" == IndexSegment(b.index) + ".bin";
    QuoteInjective(a.task, b.task);
    SuffixInjective(IndexSegment(a.index), IndexSegment(b.index), ".bin");
    IndexSegmentInjective(a.index, b.index);
  }

  lemma SegmentsInjective(a: BlobName, b: BlobName)
    requires Segments(a) == Segments(b)
    ensures a == b
  {
    SameThreadAndNs(a, b);
    SameKind(a, b);
    if a.Value? { SameValue(a, b); }
    if !a.Latest? && !a.Value? { SameId(a, b); }
    if a.Write? { SameWrite(a, b); }
  }

  /** Different blobs never share a path. */
  lemma RenderInjective(a: BlobName, b: BlobName)
    requires Render(a) == Render(b)
    ensures a == b
  {
    SegmentsSlashFree(a);
    SegmentsSlashFree(b);
    SplitJoin(Segments(a));
    SplitJoin(Segments(b));
    SegmentsInjective(a, b);
  }

  // ---------------------------------------------------------------- listings by prefix

  predicate InNamespace(name: BlobName, t: Segment, n: Segment) { name.thread == t && name.ns == n }

  predicate InCheckpoint(name: BlobName, t: Segment, n: Segment, c: Segment) {
    InNamespace(name, t, n) && !name.Latest? && !name.Value? && name.id == c
  }

  /** A prefix of whole segments selects the names whose segments it starts. */
  lemma PrefixSelects(prefix: seq<string>, name: BlobName)
    requires prefix != [] && AllSlashFree(prefix)
    ensures Join(prefix) + "/" <= Render(name) <==> prefix < Segments(name)
  {
    SegmentsSlashFree(name);
    PrefixMeansSegments(prefix, Segments(name));
  }

  /** The listing of a thread's prefix is exactly that thread's blobs. */
  lemma ThreadPrefixExact(t: Segment, name: BlobName)
    ensures ThreadPrefix(t) <= Render(name) <==> name.thread == t
  {
    var prefix := ["threads", Quote(t)];
    QuoteIsSlashFree(t);
    PrefixSelects(prefix, name);
    if name.thread == t { assert Segments(name)[..2] == prefix; }
    if prefix < Segments(name) {
      assert Segments(name)[1] == prefix[1];
      QuoteInjective(t, name.thread);
    }
  }

  lemma SameNamespace(t: Segment, n: Segment, name: BlobName)
    ensures NamespaceSegments(t, n) < Segments(name) <==> InNamespace(name, t, n)
  {
    var prefix := NamespaceSegments(t, n);
    if prefix < Segments(name) {
      assert Segments(name)[1] == prefix[1] && Segments(name)[3] == prefix[3];
      QuoteInjective(t, name.thread);
      QuoteInjective(n, name.ns);
    }
  }

  lemma SameFolder(t: Segment, n: Segment, folder: string, name: BlobName)
    requires folder in {"values", "checkpoints"}
    ensures NamespaceSegments(t, n) + [folder] < Segments(name) <==>
              InNamespace(name, t, n) && if folder == "values" then name.Value? else !name.Value? && !name.Latest?
  {
    SameNamespace(t, n, name);
    var prefix := NamespaceSegments(t, n);
    assert prefix + [folder] < Segments(name) ==> prefix < Segments(name) && Segments(name)[4] == folder;
    assert |"values"| == 6 && |"checkpoints"| == 11;
    if InNamespace(name, t, n) && !name.Latest? {
      assert Segments(name)[..5] == prefix + [if name.Value? then "values" else "checkpoints"];
    }
  }

  /** A namespace's prefix is exactly its blobs, and its `values/` and `checkpoints/` prefixes split them. */
  lemma NamespacePrefixExact(t: Segment, n: Segment, name: BlobName)
    ensures NamespacePrefix(t, n) <= Render(name) <==> InNamespace(name, t, n)
    ensures ValuesPrefix(t, n) <= Render(name) <==> InNamespace(name, t, n) && name.Value?
    ensures CheckpointsPrefix(t, n) <= Render(name) <==> InNamespace(name, t, n) && !name.Value? && !name.Latest?
  {
    var prefix := NamespaceSegments(t, n);
    NamespaceSlashFree(t, n);
    SameNamespace(t, n, name);
    SameFolder(t, n, "values", name);
    SameFolder(t, n, "checkpoints", name);
    AllSlashFreeAppend(prefix, ["values"]);
    AllSlashFreeAppend(prefix, ["checkpoints"]);
    PrefixSelects(prefix, name);
    PrefixSelects(prefix + ["values"], name);
    PrefixSelects(prefix + ["checkpoints"], name);
  }

  lemma SameCheckpoint(t: Segment, n: Segment, c: Segment, name: BlobName)
    ensures CheckpointSegments(t, n, c) < Segments(name) <==> InCheckpoint(name, t, n, c)
  {
    var prefix := CheckpointSegments(t, n, c);
    SameNamespace(t, n, name);
    assert |"values"| == 6 && |"checkpoints"| == 11;
    if prefix < Segments(name) {
      assert NamespaceSegments(t, n) < Segments(name);
      assert Segments(name)[4] == "checkpoints" && Segments(name)[5] == Quote(c);
      QuoteInjective(c, name.id);
    }
    if InCheckpoint(name, t, n, c) { assert Segments(name)[..6] == prefix; }
  }

  lemma SameWrites(t: Segment, n: Segment, c: Segment, name: BlobName)
    ensures CheckpointSegments(t, n, c) + ["writes"] < Segments(name) <==> InCheckpoint(name, t, n, c) && name.Write?
  {
    var prefix := CheckpointSegments(t, n, c);
    SameCheckpoint(t, n, c, name);
    assert prefix + ["writes"] < Segments(name) ==> prefix < Segments(name) && |Segments(name)| > 7;
    if InCheckpoint(name, t, n, c) && name.Write? { assert Segments(name)[..7] == prefix + ["writes"]; }
  }

  /** A checkpoint's prefix is exactly its marker, metadata and pending writes; `writes/` exactly the last. */
  lemma CheckpointPrefixExact(t: Segment, n: Segment, c: Segment, name: BlobName)
    ensures CheckpointBasePrefix(t, n, c) <= Render(name) <==> InCheckpoint(name, t, n, c)
    ensures WritesPrefix(t, n, c) <= Render(name) <==> InCheckpoint(name, t, n, c) && name.Write?
  {
    CheckpointSlashFree(t, n, c);
    AllSlashFreeAppend(CheckpointSegments(t, n, c), ["writes"]);
    SameCheckpoint(t, n, c, name);
    SameWrites(t, n, c, name);
    PrefixSelects(CheckpointSegments(t, n, c), name);
    PrefixSelects(CheckpointSegments(t, n, c) + ["writes"], name);
  }

  // ---------------------------------------------------------------- parsers

  predicate EndsWith(s: string, suffix: string) {
    |suffix| <= |s| && s[|s| - |suffix|..] == suffix
  }

  function RemoveSuffix(s: string, suffix: string): string {
    if EndsWith(s, suffix) then s[..|s| - |suffix|] else s
  }

  /** The id `_list_checkpoint_ids` takes from one listed path. */
  function ListedId(t: Segment, n: Segment, path: string): Option<seq<int>> {
    var parts := Split(path);
    if CheckpointsPrefix(t, n) <= path && EndsWith(path, "/checkpoint.bin") && |parts| == 7 then Some(Unquote(parts[5]))
    else None
  }

  /** `_parse_value_blob_path`. */
  function ParseValuePath(t: Segment, n: Segment, path: string): Option<(seq<int>, seq<int>)> {
    var prefix := ValuesPrefix(t, n);
    if !(prefix <= path) then None
    else
      var parts := Split(path[|prefix|..]);
      if |parts| != 2 || !EndsWith(parts[1], ".bin") then None
      else Some((Unquote(parts[0]), Unquote(RemoveSuffix(parts[1], ".bin"))))
  }

  predicate AllDigits(text: string) {
    text != "" && forall i :: 0 <= i < |text| ==> '0' <= text[i] <= '9'
  }

  /** `int(text)` on the texts `str(int)` gives; `None` is the `ValueError`. */
  function ParseInt(text: string): Option<int> {
    if AllDigits(text) then Some(DigitsValue(text))
    else if text != "" && text[0] == '-' && AllDigits(text[1..]) then Some(0 - DigitsValue(text[1..]))
    else None
  }

  lemma ParseIntRoundTrip(i: int)
    ensures ParseInt(IntText(i)) == Some(i)
  {
    DecimalRoundTrip(if i < 0 then -i else i);
    if i < 0 { assert IntText(i)[1..] == Decimal(-i) && IntText(i)[0] == '-'; }
  }

  /** Bytes as text, of which only the ASCII part matters to `int`. */
  function TextOf(bytes: seq<int>): (text: string)
    ensures |text| == |bytes| && forall i :: 0 <= i < |bytes| && 0 <= bytes[i] < 128 ==> text[i] as int == bytes[i]
  {
    if bytes == [] then "" else [if 0 <= bytes[0] < 128 then bytes[0] as char else '?'] + TextOf(bytes[1..])
  }

  lemma TextOfAscii(text: string)
    requires forall i :: 0 <= i < |text| ==> text[i] as int < 128
    ensures TextOf(Ascii(text)) == text
  {
    var again := TextOf(Ascii(text));
    forall i | 0 <= i < |text| ensures again[i] == text[i] {
      assert Ascii(text)[i] == text[i] as int;
    }
  }

  /** `(task_id, index)` as `_load_pending_writes` reads them off a path; `None` skips the blob. */
  function ParseWritePath(t: Segment, n: Segment, c: Segment, path: string): Option<(seq<int>, int)> {
    var prefix := WritesPrefix(t, n, c);
    if !(prefix <= path) then None
    else
      var parts := Split(path[|prefix|..]);
      if |parts| != 2 || !EndsWith(parts[1], ".bin") then None
      else
        var index := ParseInt(TextOf(Unquote(RemoveSuffix(parts[1], ".bin"))));
        if index.None? then None else Some((Unquote(parts[0]), index.value))
  }

  lemma {:induction false} JoinAppend(a: seq<string>, b: seq<string>)
    requires a != [] && b != []
    ensures Join(a + b) == Join(a) + "/" + Join(b)
  {
    if |a| == 1 {
      assert (a + b)[1..] == b;
    } else {
      assert (a + b)[1..] == a[1..] + b;
      JoinAppend(a[1..], b);
    }
  }

  /** What follows the last "/" is the last segment. */
  lemma LastSegment(front: string, last: string, segment: string)
    requires SlashFree(last) && SlashFree(segment)
    ensures EndsWith(front + "/" + last, "/" + segment) <==> last == segment
  {
    var path, suffix := front + "/" + last, "/" + segment;
    assert path[|front|] == '/' && path[|front| + 1..] == last;
    if EndsWith(path, suffix) {
      var at := |path| - |suffix|;
      assert path[at..][0] == '/' && path[at + 1..] == path[at..][1..] == segment;
      forall k | |front| < k < |path| ensures path[k] != '/' { assert path[k] == last[k - |front| - 1]; }
      forall k | at < k < |path| ensures path[k] != '/' { assert path[k] == segment[k - at - 1]; }
      assert at == |front|;
    }
  }

  lemma EndsInMarker(front: seq<string>, last: string)
    requires front != [] && SlashFree(last)
    ensures EndsWith(Join(front + [last]), "/checkpoint.bin") <==> last == "checkpoint.bin"
  {
    JoinAppend(front, [last]);
    assert "/" + "checkpoint.bin" == "/checkpoint.bin";
    LastSegment(Join(front), last, "checkpoint.bin");
  }

  /** Of the names under `checkpoints/` with seven segments, the markers' are those that end so. */
  lemma MarkersEndInCheckpoint(name: BlobName)
    requires !name.Latest? && !name.Value?
    ensures |Segments(name)| == 7 ==> (EndsWith(Render(name), "/checkpoint.bin") <==> name.Marker?)
  {
    var front := CheckpointSegments(name.thread, name.ns, name.id);
    assert |"checkpoint.bin"| == 14 && |"metadata.bin"| == 12;
    match name
    case Marker(_, _, _) => EndsInMarker(front, "checkpoint.bin");
    case Metadata(_, _, _) => EndsInMarker(front, "metadata.bin");
    case Write(_, _, _, _, _) =>
  }

  /** The path splits into the name's segments. */
  lemma SplitRender(name: BlobName)
    ensures Split(Render(name)) == Segments(name)
  {
    SegmentsSlashFree(name);
    SplitJoin(Segments(name));
  }

  /** The id listing finds exactly the markers of its own namespace, and recovers their ids. */
  lemma ListingRecoversIds(t: Segment, n: Segment, name: BlobName)
    ensures ListedId(t, n, Render(name)) == if InNamespace(name, t, n) && name.Marker? then Some(name.id) else None
  {
    NamespacePrefixExact(t, n, name);
    if InNamespace(name, t, n) && !name.Value? && !name.Latest? {
      MarkersEndInCheckpoint(name);
      SplitRender(name);
      if name.Marker? {
        assert |Segments(name)| == 7 && Segments(name)[5] == Quote(name.id);
        UnquoteQuote(name.id);
      }
    }
  }

  lemma ValueSegments(name: BlobName)
    requires name.Value?
    ensures Segments(name) == NamespaceSegments(name.thread, name.ns) + ["values"]
                              + [Quote(name.channel), Quote(name.version) + ".bin"]
  {}

  /** The value-path parser inverts the builder, and rejects every other blob of the saver. */
  lemma ValuePathRoundTrip(t: Segment, n: Segment, name: BlobName)
    ensures ParseValuePath(t, n, Render(name))
              == if InNamespace(name, t, n) && name.Value? then Some((name.channel, name.version)) else None
  {
    NamespacePrefixExact(t, n, name);
    if InNamespace(name, t, n) && name.Value? {
      BinSegmentRoundTrip(name.channel, name.version);
      ValueSegments(name);
      RestAfterPrefix(NamespaceSegments(t, n) + ["values"], name, [Quote(name.channel), Quote(name.version) + ".bin"]);
    }
  }

  lemma WriteSegments(name: BlobName)
    requires name.Write?
    ensures Segments(name) == CheckpointSegments(name.thread, name.ns, name.id) + ["writes"]
                              + [Quote(name.task), IndexSegment(name.index) + ".bin"]
  {}

  /** Likewise for pending writes: task id and index come back, and no other blob is taken for one. */
  lemma WritePathRoundTrip(t: Segment, n: Segment, c: Segment, name: BlobName)
    ensures ParseWritePath(t, n, c, Render(name))
              == if InCheckpoint(name, t, n, c) && name.Write? then Some((name.task, name.index)) else None
  {
    CheckpointPrefixExact(t, n, c, name);
    if InCheckpoint(name, t, n, c) && name.Write? {
      BinSegmentRoundTrip(name.task, IndexBytes(name.index));
      TextOfAscii(IntText(name.index));
      ParseIntRoundTrip(name.index);
      WriteSegments(name);
      RestAfterPrefix(CheckpointSegments(t, n, c) + ["writes"], name, [Quote(name.task), IndexSegment(name.index) + ".bin"]);
    }
  }

  /** `{a}/{b}.bin` splits back into `a` and `b`. */
  lemma BinSegmentRoundTrip(a: Segment, b: Segment)
    ensures var parts := Split(Join([Quote(a), Quote(b) + ".bin"]));
            && |parts| == 2 && EndsWith(parts[1], ".bin")
            && Unquote(parts[0]) == a && Unquote(RemoveSuffix(parts[1], ".bin")) == b
  {
    var tail := [Quote(a), Quote(b) + ".bin"];
    QuoteIsSlashFree(a);
    QuoteIsSlashFree(b);
    SplitJoin(tail);
    UnquoteQuote(a);
    UnquoteQuote(b);
    assert RemoveSuffix(tail[1], ".bin") == Quote(b);
  }

  lemma RestAfterPrefix(prefix: seq<string>, name: BlobName, tail: seq<string>)
    requires prefix != [] && tail != [] && Segments(name) == prefix + tail
    ensures var p := Join(prefix) + "/"; p <= Render(name) && Render(name)[|p|..] == Join(tail)
  {
    JoinAppend(prefix, tail);
  }

  // ---------------------------------------------------------------- listing order

  lemma {:induction false} CommonPrefixOrder(p: string, a: string, b: string)
    requires Less(a, b)
    ensures Less(p + a, p + b)
  {
    if p == "" {
      assert p + a == a && p + b == b;
    } else {
      CommonPrefixOrder(p[1..], a, b);
      assert (p + a)[1..] == p[1..] + a && (p + b)[1..] == p[1..] + b;
    }
  }

  /** Two blobs of one checkpoint compare as what follows its prefix. */
  lemma SiblingOrder(t: Segment, n: Segment, c: Segment, a: BlobName, b: BlobName, x: seq<string>, y: seq<string>)
    requires x != [] && y != []
    requires Segments(a) == CheckpointSegments(t, n, c) + x && Segments(b) == CheckpointSegments(t, n, c) + y
    requires Join(x) != "" && Join(y) != "" && Join(x)[0] < Join(y)[0]
    ensures Less(Render(a), Render(b))
  {
    RestAfterPrefix(CheckpointSegments(t, n, c), a, x);
    RestAfterPrefix(CheckpointSegments(t, n, c), b, y);
    var p := Join(CheckpointSegments(t, n, c)) + "/";
    CommonPrefixOrder(p, Join(x), Join(y));
    assert Render(a) == p + Join(x) && Render(b) == p + Join(y);
  }

  /** In path order a checkpoint's marker comes first, its metadata next, its pending writes last. */
  lemma MarkerListedFirst(t: Segment, n: Segment, c: Segment, task: Segment, index: int)
    ensures Less(Render(Marker(t, n, c)), Render(Metadata(t, n, c)))
    ensures Less(Render(Metadata(t, n, c)), Render(Write(t, n, c, task, index)))
  {
    var tail := ["writes", Quote(task), IndexSegment(index) + ".bin"];
    assert Join(["checkpoint.bin"])[0] == 'c' && Join(["metadata.bin"])[0] == 'm' && Join(tail)[0] == 'w';
    SiblingOrder(t, n, c, Marker(t, n, c), Metadata(t, n, c), ["checkpoint.bin"], ["metadata.bin"]);
    SiblingOrder(t, n, c, Metadata(t, n, c), Write(t, n, c, task, index), ["metadata.bin"], tail);
  }
}
