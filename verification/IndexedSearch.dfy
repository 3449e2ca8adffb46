/** The time-ordered index of thread rows, and when walking it finds what scanning and sorting the rows finds. */
module IndexedSearch {
  import opened Common

  /** A thread row: its key in the table, its status, its creation time in whole microseconds, and its metadata. */
  datatype Row = Row(id: string, status: string, micros: int, metadata: Option<map<string, string>>)

  /** The optional filters of `search`. */
  datatype Query = Query(status: Option<string>, metadata: Option<map<string, string>>)

  /** `_metadata_matches`, and the status filter of the query. */
  predicate Matches(row: Row, q: Query) {
    && (q.status.Some? ==> row.status == q.status.value)
    && (q.metadata.Some? ==>
          row.metadata.Some?
          && forall key :: key in q.metadata.value ==>
               key in row.metadata.value && row.metadata.value[key] == q.metadata.value[key])
  }

  function ByStatus(status: string): Query { Query(Some(status), None) }

  const STATUSES := ["idle", "busy", "interrupted", "error"]

  function Pow10(n: nat): (r: nat)
    ensures r > 0
  {
    if n == 0 then 1 else 10 * Pow10(n - 1)
  }

  /** Times from here on give a negative inverted time. */
  const HORIZON: int := 10_000_000_000_000_000

  function Zeros(n: nat): (z: string)
    ensures |z| == n && forall i :: 0 <= i < n ==> z[i] == '0'
  {
    if n == 0 then "" else ['0'] + Zeros(n - 1)
  }

  function ZeroFilled(n: nat, width: nat): string {
    if |Decimal(n)| >= width then Decimal(n) else Zeros(width - |Decimal(n)|) + Decimal(n)
  }

  /** Room for digits in a text of 20 characters. */
  function Width(i: int): (w: nat)
    ensures w > 0
  {
    if i < 0 then 19 else 20
  }

  /** Python's format `020d`. */
  function Format20(i: int): string {
    if i < 0 then "-" + ZeroFilled(-i, Width(i)) else ZeroFilled(i, Width(i))
  }

  /** `index_row_key`. */
  function IndexRowKey(row: Row): string { Format20(HORIZON - row.micros) + "_" + row.id }

  // ---------------------------------------------------------------- text order of padded numbers

  /** The last `width` digits of `n`. */
  function Digits(n: nat, width: nat): (s: string)
    ensures |s| == width && forall i :: 0 <= i < width ==> '0' <= s[i] <= '9'
  {
    if width == 0 then "" else Digits(n / 10, width - 1) + [DigitChar(n % 10)]
  }

  lemma {:induction false} ZeroDigits(width: nat)
    ensures Digits(0, width) == Zeros(width)
    ensures width > 0 ==> Zeros(width) == Zeros(width - 1) + ['0']
  {
    if width > 0 {
      ZeroDigits(width - 1);
      if width > 1 { assert Zeros(width) == ['0'] + (Zeros(width - 2) + ['0']); }
    }
  }

  lemma {:induction false} FilledIsDigits(n: nat, width: nat)
    requires n < Pow10(width) && width > 0
    ensures ZeroFilled(n, width) == Digits(n, width)
    ensures |Decimal(n)| <= width
  {
    if n < 10 {
      assert n / 10 == 0 && Digits(n, width) == Digits(0, width - 1) + [DigitChar(n)];
      ZeroDigits(width - 1);
    } else {
      assert Pow10(width) == 10 * Pow10(width - 1) && Pow10(0) == 1;
      assert width > 1;
      FilledIsDigits(n / 10, width - 1);
      assert Decimal(n) == Decimal(n / 10) + [DigitChar(n % 10)];
      if |Decimal(n)| < width {
        assert Zeros(width - |Decimal(n)|) + (Decimal(n / 10) + [DigitChar(n % 10)])
            == (Zeros(width - |Decimal(n)|) + Decimal(n / 10)) + [DigitChar(n % 10)];
      }
    }
  }

  /** `x` comes before `y` whatever follows them. */
  ghost predicate SplitLess(x: string, y: string) {
    exists k :: 0 <= k < |x| && k < |y| && x[..k] == y[..k] && x[k] < y[k]
  }

  lemma {:induction false} SplitLessAt(x: string, y: string, k: nat)
    requires k < |x| && k < |y| && x[..k] == y[..k] && x[k] < y[k]
    ensures Less(x, y)
    decreases k
  {
    if k > 0 {
      assert x[0] == x[..k][0] == y[..k][0] == y[0];
      assert x[1..][..k - 1] == x[..k][1..] && y[1..][..k - 1] == y[..k][1..];
      SplitLessAt(x[1..], y[1..], k - 1);
    }
  }

  lemma SplitLessExtends(x: string, y: string, s: string, t: string)
    requires SplitLess(x, y)
    ensures SplitLess(x + s, y + t) && Less(x + s, y + t)
  {
    var k :| 0 <= k < |x| && k < |y| && x[..k] == y[..k] && x[k] < y[k];
    assert (x + s)[..k] == x[..k] && (y + t)[..k] == y[..k];
    SplitLessAt(x + s, y + t, k);
  }

  lemma {:induction false} DigitsOrder(a: nat, b: nat, width: nat)
    requires a < b < Pow10(width)
    ensures SplitLess(Digits(a, width), Digits(b, width))
  {
    if width > 0 {
      var x, y := Digits(a, width), Digits(b, width);
      var u, v := Digits(a / 10, width - 1), Digits(b / 10, width - 1);
      if a / 10 < b / 10 {
        DigitsOrder(a / 10, b / 10, width - 1);
        SplitLessExtends(u, v, [DigitChar(a % 10)], [DigitChar(b % 10)]);
      } else {
        assert a / 10 == b / 10 && a % 10 < b % 10;
        assert x[..width - 1] == u == v == y[..width - 1] && x[width - 1] < y[width - 1];
      }
    }
  }

  lemma {:induction false} SamePrefix(p: string, a: string, b: string)
    ensures Leq(p + a, p + b) == Leq(a, b)
  {
    if p == "" {
      assert p + a == a && p + b == b;
    } else {
      assert (p + a)[1..] == p[1..] + a && (p + b)[1..] == p[1..] + b;
      SamePrefix(p[1..], a, b);
    }
  }

  lemma {:induction false} DigitsDenote(n: nat, width: nat)
    requires n < Pow10(width)
    ensures DigitsValue(Digits(n, width)) == n
  {
    if width > 0 {
      DigitsDenote(n / 10, width - 1);
      assert Digits(n, width)[..width - 1] == Digits(n / 10, width - 1);
    }
  }

  lemma Pow10Values()
    ensures Pow10(19) == 10_000_000_000_000_000_000 && Pow10(20) == 100_000_000_000_000_000_000
  {
    assert Pow10(4) == 10_000;
    assert Pow10(8) == 100_000_000;
    assert Pow10(12) == 1_000_000_000_000;
    assert Pow10(16) == 10_000_000_000_000_000;
  }

  /** A padded number is 20 characters that denote it. */
  lemma FormatDenotes(i: int)
    requires -10_000_000_000_000_000_000 < i < 100_000_000_000_000_000_000
    ensures var s := Format20(i);
            && |s| == 20 && (forall k :: 1 <= k < 20 ==> '0' <= s[k] <= '9')
            && (i >= 0 ==> '0' <= s[0] <= '9' && DigitsValue(s) == i)
            && (i < 0 ==> s[0] == '-' && DigitsValue(s[1..]) == -i)
  {
    Pow10Values();
    if i < 0 {
      FilledIsDigits(-i, 19);
      DigitsDenote(-i, 19);
      assert Format20(i)[1..] == Digits(-i, 19);
    } else {
      FilledIsDigits(i, 20);
      DigitsDenote(i, 20);
    }
  }

  /** The key of a row: the time left to the year 2286 in 20 characters, an underscore, the id. */
  lemma KeyExactly(row: Row)
    requires -10_000_000_000_000_000_000 < 10_000_000_000_000_000 - row.micros < 100_000_000_000_000_000_000
    ensures var key := IndexRowKey(row);
            && |key| > 20 && key[20] == '_' && key[21..] == row.id && (forall k :: 1 <= k < 20 ==> '0' <= key[k] <= '9')
            && (row.micros <= 10_000_000_000_000_000 ==>
                  '0' <= key[0] <= '9' && DigitsValue(key[..20]) == 10_000_000_000_000_000 - row.micros)
            && (row.micros > 10_000_000_000_000_000 ==>
                  key[0] == '-' && DigitsValue(key[1..20]) == row.micros - 10_000_000_000_000_000)
  {
    var left := 10_000_000_000_000_000 - row.micros;
    FormatDenotes(left);
    KeyParts(Format20(left), row.id);
  }

  lemma KeyParts(s: string, id: string)
    requires |s| == 20
    ensures var key := s + "_" + id;
            |key| > 20 && key[20] == '_' && key[21..] == id && key[..20] == s && key[0] == s[0] && key[1..20] == s[1..]
            && forall k :: 0 <= k < 20 ==> key[k] == s[k]
  {}

  // ---------------------------------------------------------------- order of keys

  predicate Narrow(i: int) { (if i < 0 then -i else i) < Pow10(Width(i)) }

  /** The inverted time has no more digits than the key has room for. */
  predicate Fits(row: Row) { Narrow(HORIZON - row.micros) }

  lemma FitsMeans(row: Row)
    ensures Fits(row) <==> -10_000_000_000_000_000_000 < 10_000_000_000_000_000 - row.micros < 100_000_000_000_000_000_000
  {
    Pow10Values();
  }

  predicate NewestFirst(a: Row, b: Row) { a.micros > b.micros || (a.micros == b.micros && Less(a.id, b.id)) }

  predicate KeyBefore(a: Row, b: Row) { Less(IndexRowKey(a), IndexRowKey(b)) }

  /** Two different times past the horizon: their keys are in the wrong order. */
  predicate Misordered(a: Row, b: Row) { a.micros > HORIZON && b.micros > HORIZON && a.micros != b.micros }

  lemma NegativeOrder(x: string, y: string, u: string, v: string)
    requires SplitLess(x, y) && u == "-" + x && v == "-" + y
    ensures SplitLess(u, v)
  {
    var k :| 0 <= k < |x| && k < |y| && x[..k] == y[..k] && x[k] < y[k];
    assert u[..k + 1] == "-" + x[..k] && v[..k + 1] == "-" + y[..k];
    assert u[k + 1] < v[k + 1];
  }

  lemma FormatNegative(i: int, w: nat)
    requires Narrow(i) && i < 0 && w == Width(i)
    ensures -i < Pow10(w) && Format20(i) == "-" + Digits(-i, w)
  {
    FilledIsDigits(-i, w);
  }

  lemma FormatNatural(i: int, w: nat)
    requires Narrow(i) && i >= 0 && w == Width(i)
    ensures i < Pow10(w) && Format20(i) == Digits(i, w)
  {
    FilledIsDigits(i, w);
  }

  lemma BothNegative(i: int, j: int, w: nat, x: string, y: string)
    requires i < j < 0 && -i < Pow10(w) && x == "-" + Digits(-i, w) && y == "-" + Digits(-j, w)
    ensures SplitLess(y, x)
  {
    DigitsOrder(-j, -i, w);
    NegativeOrder(Digits(-j, w), Digits(-i, w), y, x);
  }

  lemma FormatOrder(i: int, j: int)
    requires Narrow(i) && Narrow(j) && i < j
    ensures if j < 0 then SplitLess(Format20(j), Format20(i)) else SplitLess(Format20(i), Format20(j))
  {
    var w := Width(j);
    if j < 0 {
      FormatNegative(i, w);
      FormatNegative(j, w);
      BothNegative(i, j, w, Format20(i), Format20(j));
    } else if i >= 0 {
      FormatNatural(i, w);
      FormatNatural(j, w);
      DigitsOrder(i, j, w);
    } else {
      FormatNegative(i, Width(i));
      FormatNatural(j, w);
      assert Format20(i)[0] == '-' < Format20(j)[0] && Format20(i)[..0] == Format20(j)[..0];
    }
  }

  lemma OnlyOneWay(a: Row, b: Row)
    requires KeyBefore(a, b)
    ensures !KeyBefore(b, a)
  {
    LeqIsTotalOrder();
  }

  lemma TimesOrder(a: Row, b: Row)
    requires Fits(a) && Fits(b) && a.micros > b.micros
    ensures if Misordered(a, b) then KeyBefore(b, a) else KeyBefore(a, b)
  {
    var i, j := HORIZON - a.micros, HORIZON - b.micros;
    var s, t := "_" + a.id, "_" + b.id;
    assert IndexRowKey(a) == Format20(i) + s && IndexRowKey(b) == Format20(j) + t;
    FormatOrder(i, j);
    if j < 0 {
      SplitLessExtends(Format20(j), Format20(i), t, s);
    } else {
      SplitLessExtends(Format20(i), Format20(j), s, t);
    }
  }

  lemma IdsOrder(a: Row, b: Row)
    requires a.micros == b.micros && Less(a.id, b.id)
    ensures KeyBefore(a, b)
  {
    SamePrefix(Format20(HORIZON - a.micros) + "_", a.id, b.id);
    var p := Format20(HORIZON - a.micros) + "_";
    assert IndexRowKey(a)[|p|..] == a.id && IndexRowKey(b)[|p|..] == b.id;
  }

  /** Of two rows the newer, or at equal times the one with the smaller id, has the smaller key, unless both are past the horizon. */
  lemma KeyOrder(a: Row, b: Row)
    requires Fits(a) && Fits(b) && (a.micros > b.micros || (a.micros == b.micros && Less(a.id, b.id)))
    ensures Less(IndexRowKey(b), IndexRowKey(a)) <==> b.micros > 10_000_000_000_000_000 && a.micros != b.micros
    ensures Less(IndexRowKey(a), IndexRowKey(b)) <==> !(b.micros > 10_000_000_000_000_000 && a.micros != b.micros)
  {
    if a.micros == b.micros { IdsOrder(a, b); } else { TimesOrder(a, b); }
    if KeyBefore(a, b) { OnlyOneWay(a, b); } else { OnlyOneWay(b, a); }
  }

  // ---------------------------------------------------------------- building and searching

  /** `rows` holds each id at most once, as a table partition does. */
  ghost predicate UniqueIds(rows: seq<Row>) {
    forall i, j :: 0 <= i < j < |rows| ==> rows[i].id != rows[j].id
  }

  ghost predicate Orders(before: (Row, Row) -> bool, rows: seq<Row>, q: Query, ordered: seq<Row>) {
    StrictlySorted(before, ordered) && forall row :: row in ordered <==> row in rows && Matches(row, q)
  }

  function Insert(before: (Row, Row) -> bool, sorted: seq<Row>, row: Row): seq<Row> {
    if sorted == [] || before(row, sorted[0]) then [row] + sorted else [sorted[0]] + Insert(before, sorted[1..], row)
  }

  /** `before` is a strict total order on rows with different ids. */
  ghost predicate OrdersRows(before: (Row, Row) -> bool) {
    && (forall a, b :: before(a, b) ==> !before(b, a))
    && (forall a, b, c {:trigger before(a, b), before(b, c)} :: before(a, b) && before(b, c) ==> before(a, c))
    && (forall a: Row, b: Row {:trigger before(a, b)} :: a.id != b.id ==> before(a, b) || before(b, a))
  }

  lemma {:induction false} InsertSorts(before: (Row, Row) -> bool, sorted: seq<Row>, row: Row)
    requires OrdersRows(before) && StrictlySorted(before, sorted) && forall r :: r in sorted ==> r.id != row.id
    ensures StrictlySorted(before, Insert(before, sorted, row))
    ensures forall r :: r in Insert(before, sorted, row) <==> r in sorted || r == row
  {
    if sorted == [] {
    } else if before(row, sorted[0]) {
      forall j | 0 <= j < |sorted| ensures before(row, sorted[j]) {
        assert j > 0 ==> before(sorted[0], sorted[j]);
      }
    } else {
      assert sorted == [sorted[0]] + sorted[1..];
      InsertSorts(before, sorted[1..], row);
      var tail := Insert(before, sorted[1..], row);
      forall j | 0 <= j < |tail| ensures before(sorted[0], tail[j]) { assert tail[j] in tail; }
    }
  }

  lemma FormatPlain(i: int)
    ensures forall k :: 0 <= k < |Format20(i)| ==> Format20(i)[k] != '_'
  {}

  lemma KeyNamesRow(a: Row, b: Row)
    requires IndexRowKey(a) == IndexRowKey(b)
    ensures a.id == b.id
  {
    var x, y := Format20(HORIZON - a.micros), Format20(HORIZON - b.micros);
    FormatPlain(HORIZON - a.micros);
    FormatPlain(HORIZON - b.micros);
    var p, q := IndexRowKey(a), IndexRowKey(b);
    assert p[|x|] == '_' && p[|x| + 1..] == a.id && (forall k :: 0 <= k < |x| ==> p[k] == x[k]);
    assert q[|y|] == '_' && q[|y| + 1..] == b.id && (forall k :: 0 <= k < |y| ==> q[k] == y[k]);
  }

  lemma KeysOrderRows()
    ensures OrdersRows(KeyBefore)
  {
    LeqIsTotalOrder();
    forall a: Row, b: Row | a.id != b.id ensures KeyBefore(a, b) || KeyBefore(b, a) {
      if IndexRowKey(a) == IndexRowKey(b) { KeyNamesRow(a, b); }
    }
  }

  /** The rows of one status, sorted by key. */
  method SortedByKey(rows: seq<Row>, status: string) returns (ordered: seq<Row>)
    requires UniqueIds(rows)
    ensures Orders(KeyBefore, rows, ByStatus(status), ordered)
  {
    KeysOrderRows();
    ordered := [];
    var i := 0;
    while i < |rows|
      invariant i <= |rows| && Orders(KeyBefore, rows[..i], ByStatus(status), ordered)
    {
      assert rows[..i + 1] == rows[..i] + [rows[i]];
      if rows[i].status == status {
        forall r | r in ordered ensures r.id != rows[i].id { assert r in rows[..i]; }
        InsertSorts(KeyBefore, ordered, rows[i]);
        ordered := Insert(KeyBefore, ordered, rows[i]);
      }
      i := i + 1;
    }
    assert rows[..i] == rows;
  }

  type Index = map<string, seq<Row>>

  ghost predicate Indexes(rows: seq<Row>, index: Index) {
    forall status :: status in STATUSES ==> status in index && Orders(KeyBefore, rows, ByStatus(status), index[status])
  }

  /** `build_index`; `None` is the `KeyError` for an unknown status. */
  method BuildIndex(rows: seq<Row>) returns (index: Option<Index>)
    requires UniqueIds(rows)
    ensures index.None? <==> exists row :: row in rows && row.status !in ["idle", "busy", "interrupted", "error"]
    ensures index.Some? ==> Indexes(rows, index.value)
    ensures index.Some? ==> forall status :: status in ["idle", "busy", "interrupted", "error"] ==>
              && status in index.value
              && (forall row :: row in index.value[status] <==> row in rows && row.status == status)
              && (forall i, j :: 0 <= i < j < |index.value[status]| ==>
                    Less(IndexRowKey(index.value[status][i]), IndexRowKey(index.value[status][j])))
  {
    var i := 0;
    while i < |rows|
      invariant i <= |rows| && forall row :: row in rows[..i] ==> row.status in STATUSES
    {
      if rows[i].status !in STATUSES {
        return None;
      }
      i := i + 1;
    }
    var built: Index := map[];
    i := 0;
    while i < |STATUSES|
      invariant i <= |STATUSES|
      invariant forall k :: 0 <= k < i ==> STATUSES[k] in built && Orders(KeyBefore, rows, ByStatus(STATUSES[k]), built[STATUSES[k]])
    {
      var ordered := SortedByKey(rows, STATUSES[i]);
      built := built[STATUSES[i] := ordered];
      i := i + 1;
    }
    return Some(built);
  }

  function Clamp(n: int, most: nat): nat { if n <= 0 then 0 else if n < most then n else most }

  function IdsOf(rows: seq<Row>): (ids: seq<string>)
    ensures |ids| == |rows| && forall i :: 0 <= i < |rows| ==> ids[i] == rows[i].id
  {
    if rows == [] then [] else [rows[0].id] + IdsOf(rows[1..])
  }

  lemma IdsAre(rows: seq<Row>, out: seq<string>)
    requires |out| == |rows| && forall k :: 0 <= k < |out| ==> out[k] == rows[k].id
    ensures out == IdsOf(rows)
  {}

  /** `limit` ids from `offset` on, as far as there are any. */
  function Page(rows: seq<Row>, limit: int, offset: int): seq<string> {
    var first := Clamp(offset, |rows|);
    IdsOf(rows[first..Clamp(first + Clamp(limit, |rows|), |rows|)])
  }

  lemma PageIs(rows: seq<Row>, limit: int, offset: int, out: seq<string>)
    requires limit > 0
    requires var first := if offset > 0 then offset else 0;
             |out| == (if |rows| <= first then 0 else if |rows| - first < limit then |rows| - first else limit)
             && forall k :: 0 <= k < |out| ==> out[k] == rows[first + k].id
    ensures out == Page(rows, limit, offset)
  {
    var first := Clamp(offset, |rows|);
    var slice := rows[first..Clamp(first + Clamp(limit, |rows|), |rows|)];
    assert |out| == |slice|;
    forall k | 0 <= k < |out| ensures out[k] == slice[k].id { assert slice[k] == rows[first + k]; }
    IdsAre(slice, out);
  }

  /** `indexed_search` on an index with the status. */
  method IndexedSearch(index: Index, status: string, limit: int, offset: int) returns (out: seq<string>, read: nat)
    requires status in index
    ensures out == Page(index[status], limit, offset)
    ensures var from := if offset > 0 then offset else 0; var left := |index[status]| - from;
            && |out| == (if left <= 0 || limit <= 0 then 0 else if left < limit then left else limit)
            && forall k :: 0 <= k < |out| ==> out[k] == index[status][from + k].id
    ensures limit > 0 ==>
              var most := (if offset > 0 then offset else 0) + limit;
              read == if most < |index[status]| then most else |index[status]|
    ensures limit <= 0 ==> read == 0
  {
    if limit <= 0 {
      return [], 0;
    }
    var rows := index[status];
    out, read := [], 0;
    var from := if offset > 0 then offset else 0;
    while read < |rows| && |out| < limit
      invariant read <= |rows| && |out| <= limit
      invariant |out| == if read > from then read - from else 0
      invariant forall k :: 0 <= k < |out| ==> out[k] == rows[from + k].id
    {
      read := read + 1;
      if read > offset {
        out := out + [rows[read - 1].id];
      }
    }
    PageIs(rows, limit, offset, out);
  }

  predicate IdBefore(a: Row, b: Row) { Less(a.id, b.id) }

  /** The sort key of `search`: creation time alone, descending. */
  predicate Newer(a: Row, b: Row) { a.micros > b.micros }

  /** Inserting behind rows of the same time keeps their order: a stable sort of rows that come in id order. */
  lemma {:induction false} InsertStable(sorted: seq<Row>, row: Row)
    requires StrictlySorted(NewestFirst, sorted) && forall r :: r in sorted ==> IdBefore(r, row)
    ensures StrictlySorted(NewestFirst, Insert(Newer, sorted, row))
    ensures forall r :: r in Insert(Newer, sorted, row) <==> r in sorted || r == row
  {
    if sorted == [] {
    } else if Newer(row, sorted[0]) {
      forall j | 0 <= j < |sorted| ensures NewestFirst(row, sorted[j]) {
        assert j > 0 ==> NewestFirst(sorted[0], sorted[j]);
      }
    } else {
      assert sorted == [sorted[0]] + sorted[1..];
      InsertStable(sorted[1..], row);
      var tail := Insert(Newer, sorted[1..], row);
      assert sorted[0] in sorted;
      forall j | 0 <= j < |tail| ensures NewestFirst(sorted[0], tail[j]) { assert tail[j] in tail; }
    }
  }

  /** The scan of `search`; the service lists a partition in id order. */
  method ScanNewestFirst(rows: seq<Row>, q: Query) returns (filtered: seq<Row>)
    requires StrictlySorted(IdBefore, rows)
    ensures Orders(NewestFirst, rows, q, filtered)
  {
    filtered := [];
    var i := 0;
    while i < |rows|
      invariant i <= |rows| && Orders(NewestFirst, rows[..i], q, filtered)
    {
      assert rows[..i + 1] == rows[..i] + [rows[i]];
      if Matches(rows[i], q) {
        forall r | r in filtered ensures IdBefore(r, rows[i]) { assert r in rows[..i]; }
        InsertStable(filtered, rows[i]);
        filtered := Insert(Newer, filtered, rows[i]);
      }
      i := i + 1;
    }
    assert rows[..i] == rows;
  }

  /** There is only one such order, so the page is determined. */
  lemma OrderIsUnique(rows: seq<Row>, q: Query, a: seq<Row>, b: seq<Row>)
    requires Orders(NewestFirst, rows, q, a) && Orders(NewestFirst, rows, q, b)
    ensures a == b
  {
    LeqIsTotalOrder();
    SortedUnique(NewestFirst, a, b);
  }

  lemma PageIsDetermined(rows: seq<Row>, q: Query, found: seq<Row>, limit: int, offset: int)
    requires Orders(NewestFirst, rows, q, found)
    ensures forall ordered :: Orders(NewestFirst, rows, q, ordered) ==> Page(ordered, limit, offset) == Page(found, limit, offset)
  {
    forall ordered | Orders(NewestFirst, rows, q, ordered) ensures ordered == found {
      OrderIsUnique(rows, q, ordered, found);
    }
  }

  lemma OrderMeans(rows: seq<Row>, q: Query, ordered: seq<Row>)
    requires Orders(NewestFirst, rows, q, ordered)
    ensures forall row :: row in ordered <==>
              && row in rows && (q.status.Some? ==> row.status == q.status.value)
              && (q.metadata.Some? ==>
                    row.metadata.Some?
                    && forall key :: key in q.metadata.value ==>
                         key in row.metadata.value && row.metadata.value[key] == q.metadata.value[key])
    ensures forall i, j :: 0 <= i < j < |ordered| ==>
              ordered[i].micros > ordered[j].micros
              || (ordered[i].micros == ordered[j].micros && Less(ordered[i].id, ordered[j].id))
  {
    forall i, j | 0 <= i < j < |ordered| ensures NewestFirst(ordered[i], ordered[j]) {}
  }

  lemma PageMeans(rows: seq<Row>, limit: nat, offset: nat)
    ensures var left := |rows| - offset; var page := Page(rows, limit, offset);
            && |page| == (if left <= 0 then 0 else if left < limit then left else limit)
            && forall k :: 0 <= k < |page| ==> page[k] == rows[offset + k].id
  {
    var first := Clamp(offset, |rows|);
    var slice := rows[first..Clamp(first + Clamp(limit, |rows|), |rows|)];
    assert forall k :: 0 <= k < |slice| ==> slice[k] == rows[first + k];
  }

  /** `search`; `None` is the `ValueError` for a negative argument. */
  method Search(rows: seq<Row>, q: Query, limit: int, offset: int) returns (out: Option<seq<string>>, ghost sorted: seq<Row>)
    requires StrictlySorted(IdBefore, rows)
    ensures out.None? <==> limit < 0 || offset < 0
    ensures out.Some? ==>
              && (forall row :: row in sorted <==>
                    && row in rows && (q.status.Some? ==> row.status == q.status.value)
                    && (q.metadata.Some? ==>
                          row.metadata.Some?
                          && forall key :: key in q.metadata.value ==>
                               key in row.metadata.value && row.metadata.value[key] == q.metadata.value[key]))
              && (forall i, j :: 0 <= i < j < |sorted| ==>
                    sorted[i].micros > sorted[j].micros
                    || (sorted[i].micros == sorted[j].micros && Less(sorted[i].id, sorted[j].id)))
    ensures out.Some? ==>
              var left := |sorted| - offset;
              && |out.value| == (if left <= 0 then 0 else if left < limit then left else limit)
              && forall k :: 0 <= k < |out.value| ==> out.value[k] == sorted[offset + k].id
    ensures out.Some? ==> forall ordered :: Orders(NewestFirst, rows, q, ordered) ==> out.value == Page(ordered, limit, offset)
  {
    if limit < 0 || offset < 0 {
      return None, [];
    }
    var found := ScanNewestFirst(rows, q);
    sorted := found;
    var first := Clamp(offset, |found|);
    var last := Clamp(first + Clamp(limit, |found|), |found|);
    out := Some(IdsOf(found[first..last]));
    assert out.value == Page(found, limit, offset);
    OrderMeans(rows, q, found);
    PageMeans(found, limit, offset);
    PageIsDetermined(rows, q, found, limit, offset);
  }

  /** No two rows of the status have different times past the horizon. */
  ghost predicate Ordered(rows: seq<Row>, status: string) {
    forall a, b :: a in rows && b in rows && a.status == b.status == status ==> !Misordered(a, b)
  }

  lemma KeyIsStrict()
    ensures forall a, b :: KeyBefore(a, b) ==> !KeyBefore(b, a)
  {
    forall a, b | KeyBefore(a, b) ensures !KeyBefore(b, a) { OnlyOneWay(a, b); }
  }

  lemma KeyFollows(rows: seq<Row>, status: string, a: Row, b: Row)
    requires Ordered(rows, status) && a in rows && b in rows && a.status == b.status == status
    requires Fits(a) && Fits(b) && NewestFirst(a, b)
    ensures KeyBefore(a, b)
  {
    assert !Misordered(a, b);
    KeyOrder(a, b);
  }

  lemma KeysFollow(rows: seq<Row>, status: string, scanned: seq<Row>)
    requires Ordered(rows, status) && forall row :: row in rows ==> Fits(row)
    requires Orders(NewestFirst, rows, ByStatus(status), scanned)
    ensures StrictlySorted(KeyBefore, scanned)
  {
    forall i, j | 0 <= i < j < |scanned| ensures KeyBefore(scanned[i], scanned[j]) {
      KeyFollows(rows, status, scanned[i], scanned[j]);
    }
  }

  lemma OrderedAgree(rows: seq<Row>, status: string, indexed: seq<Row>, scanned: seq<Row>)
    requires Ordered(rows, status) && forall row :: row in rows ==> Fits(row)
    requires Orders(KeyBefore, rows, ByStatus(status), indexed) && Orders(NewestFirst, rows, ByStatus(status), scanned)
    ensures indexed == scanned
  {
    KeysFollow(rows, status, scanned);
    KeyIsStrict();
    SortedUnique(KeyBefore, indexed, scanned);
  }

  /** A list sorted one way is not sorted another way that puts two of its elements the other way round. */
  lemma NotSortedBoth(one: (Row, Row) -> bool, other: (Row, Row) -> bool, rows: seq<Row>, a: Row, b: Row)
    requires StrictlySorted(one, rows) && a in rows && b in rows && a != b
    requires !one(b, a) && !other(a, b)
    ensures !StrictlySorted(other, rows)
  {
    var i :| 0 <= i < |rows| && rows[i] == a;
    var j :| 0 <= j < |rows| && rows[j] == b;
    assert !(j < i);
    assert i < j && !other(rows[i], rows[j]);
  }

  lemma MisorderedDisagree(rows: seq<Row>, status: string, indexed: seq<Row>, scanned: seq<Row>, newer: Row, older: Row)
    requires Fits(newer) && Fits(older) && newer in rows && older in rows && newer.status == older.status == status
    requires newer.micros > older.micros && Misordered(newer, older)
    requires Orders(KeyBefore, rows, ByStatus(status), indexed) && Orders(NewestFirst, rows, ByStatus(status), scanned)
    ensures indexed != scanned
  {
    KeyOrder(newer, older);
    assert newer in scanned && older in scanned;
    NotSortedBoth(NewestFirst, KeyBefore, scanned, newer, older);
  }

  /** The index holds the rows in the order of the scan exactly when no two times past the horizon differ. */
  lemma OrdersAgreeIff(rows: seq<Row>, status: string, indexed: seq<Row>, scanned: seq<Row>)
    requires forall row :: row in rows ==> Fits(row)
    requires Orders(KeyBefore, rows, ByStatus(status), indexed) && Orders(NewestFirst, rows, ByStatus(status), scanned)
    ensures indexed == scanned <==> Ordered(rows, status)
  {
    if Ordered(rows, status) {
      OrderedAgree(rows, status, indexed, scanned);
    } else {
      var a, b :| a in rows && b in rows && a.status == b.status == status && Misordered(a, b);
      if a.micros > b.micros {
        MisorderedDisagree(rows, status, indexed, scanned, a, b);
      } else {
        MisorderedDisagree(rows, status, indexed, scanned, b, a);
      }
    }
  }

  /** Rows with unique ids are known from the list of their ids. */
  lemma IdsTellRows(rows: seq<Row>, a: seq<Row>, b: seq<Row>)
    requires UniqueIds(rows) && IdsOf(a) == IdsOf(b)
    requires (forall row :: row in a ==> row in rows) && forall row :: row in b ==> row in rows
    ensures a == b
  {
    forall i | 0 <= i < |a| ensures a[i] == b[i] {
      assert IdsOf(a)[i] == a[i].id && IdsOf(b)[i] == b[i].id;
      assert a[i] in rows && b[i] in rows;
    }
  }

  lemma WholePage(rows: seq<Row>, limit: nat)
    requires limit >= |rows|
    ensures Page(rows, limit, 0) == IdsOf(rows)
  {
    assert rows[0..|rows|] == rows;
  }

  ghost predicate SamePages(a: seq<Row>, b: seq<Row>) {
    forall limit: nat, offset: nat :: Page(a, limit, offset) == Page(b, limit, offset)
  }

  lemma PagesTellOrder(rows: seq<Row>, a: seq<Row>, b: seq<Row>)
    requires UniqueIds(rows) && SamePages(a, b)
    requires (forall row :: row in a ==> row in rows) && forall row :: row in b ==> row in rows
    ensures a == b
  {
    var all := |a| + |b|;
    WholePage(a, all);
    WholePage(b, all);
    assert Page(a, all, 0) == Page(b, all, 0);
    IdsTellRows(rows, a, b);
  }

  /**
   Every page of the indexed search equals the scanning search's exactly when no two of the status's times past
   the horizon differ. Both searches return `Page` of their order.
   */
  lemma SearchesAgreeIff(rows: seq<Row>, status: string, indexed: seq<Row>, scanned: seq<Row>)
    requires UniqueIds(rows) && forall row :: row in rows ==> Fits(row)
    requires Orders(KeyBefore, rows, ByStatus(status), indexed) && Orders(NewestFirst, rows, ByStatus(status), scanned)
    ensures SamePages(indexed, scanned) <==> Ordered(rows, status)
  {
    OrdersAgreeIff(rows, status, indexed, scanned);
    if SamePages(indexed, scanned) { PagesTellOrder(rows, indexed, scanned); }
  }
}
