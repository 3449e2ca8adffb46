/** Vocabulary shared by every module: optional values and Python's order on strings. */
module Common {

  datatype Option<+T> = None | Some(value: T) {
    function GetOr(default: T): T {
      match this
      case Some(v) => v
      case None => default
    }
  }

  /** Python's `a <= b` on `str`: lexicographic by code point, a prefix coming first. */
  predicate Leq(a: string, b: string) {
    a == "" || (b != "" && (a[0] < b[0] || (a[0] == b[0] && Leq(a[1..], b[1..]))))
  }

  predicate Less(a: string, b: string) {
    Leq(a, b) && a != b
  }

  /** A prefix comes first; otherwise the first difference decides. */
  lemma {:induction false} LeqExactly(a: string, b: string)
    ensures Leq(a, b) <==> a <= b || exists k :: 0 <= k < |a| && k < |b| && a[..k] == b[..k] && a[k] < b[k]
  {
    if a != "" && b != "" && a[0] == b[0] {
      var x, y := a[1..], b[1..];
      LeqExactly(x, y);
      if k :| 0 <= k < |x| && k < |y| && x[..k] == y[..k] && x[k] < y[k] {
        assert a[..k + 1] == [a[0]] + x[..k] == b[..k + 1] && a[k + 1] < b[k + 1];
      }
      if k :| 0 <= k < |a| && k < |b| && a[..k] == b[..k] && a[k] < b[k] {
        assert a[..k][1..] == x[..k - 1] && b[..k][1..] == y[..k - 1] && x[k - 1] < y[k - 1];
      }
      assert a <= b <==> x <= y;
    } else if a != "" && b != "" {
      assert a[0] < b[0] ==> a[..0] == b[..0];
      forall k | 0 < k < |a| && k < |b| ensures a[..k] != b[..k] { assert a[..k][0] == a[0] && b[..k][0] == b[0]; }
    }
  }

  lemma LeqTotal(a: string, b: string)
    ensures Leq(a, b) || Leq(b, a)
  {}

  lemma {:induction false} LeqAntisymmetric(a: string, b: string)
    requires Leq(a, b) && Leq(b, a)
    ensures a == b
  {
    if a == "" || b == "" {
    } else {
      LeqAntisymmetric(a[1..], b[1..]);
      assert a == [a[0]] + a[1..] && b == [b[0]] + b[1..];
    }
  }

  lemma {:induction false} LeqTransitive(a: string, b: string, c: string)
    requires Leq(a, b) && Leq(b, c)
    ensures Leq(a, c)
  {
    if a != "" && a[0] == b[0] == c[0] {
      LeqTransitive(a[1..], b[1..], c[1..]);
    }
  }

  lemma {:induction false} LeqReflexive(a: string)
    ensures Leq(a, a)
  {
    if a != "" { LeqReflexive(a[1..]); }
  }

  /** Python's `max(a, b)` on strings. */
  function Max(a: string, b: string): (r: string)
    ensures r in {a, b} && Leq(a, r) && Leq(b, r)
  {
    LeqTotal(a, b);
    LeqReflexive(a);
    LeqReflexive(b);
    if Leq(a, b) then b else a
  }

  /** Everything the order of ids is used for, as one fact. */
  lemma LeqIsTotalOrder()
    ensures forall a, b, c {:trigger Leq(a, b), Leq(b, c)} :: Leq(a, b) && Leq(b, c) ==> Leq(a, c)
    ensures forall a, b {:trigger Leq(a, b), Leq(b, a)} :: Leq(a, b) && Leq(b, a) ==> a == b
    ensures forall a, b {:trigger Leq(a, b)} :: Leq(a, b) || Leq(b, a)
    ensures forall a {:trigger Leq(a, a)} :: Leq(a, a)
  {
    forall a, b, c | Leq(a, b) && Leq(b, c) ensures Leq(a, c) { LeqTransitive(a, b, c); }
    forall a, b | Leq(a, b) && Leq(b, a) ensures a == b { LeqAntisymmetric(a, b); }
    forall a, b ensures Leq(a, b) || Leq(b, a) { LeqTotal(a, b); }
    forall a ensures Leq(a, a) { LeqReflexive(a); }
  }

  lemma {:induction false} GreatestExists(s: set<string>)
    requires s != {}
    ensures exists m :: m in s && forall x :: x in s ==> Leq(x, m)
  {
    LeqIsTotalOrder();
    var x :| x in s;
    if s != {x} {
      GreatestExists(s - {x});
      var m :| m in s - {x} && forall y :: y in s - {x} ==> Leq(y, m);
      assert forall y :: y in s ==> y == x || y in s - {x};
      var g := Max(x, m);
      assert g in s && forall y :: y in s ==> Leq(y, g);
    }
  }

  ghost predicate StrictlySorted<T(!new)>(less: (T, T) -> bool, s: seq<T>) {
    forall i, j :: 0 <= i < j < |s| ==> less(s[i], s[j])
  }

  /** A strictly sorted list is determined by its elements. */
  lemma {:induction false} SortedUnique<T(!new)>(less: (T, T) -> bool, a: seq<T>, b: seq<T>)
    requires forall x, y :: less(x, y) ==> !less(y, x)
    requires StrictlySorted(less, a) && StrictlySorted(less, b)
    requires forall x :: x in a <==> x in b
    ensures a == b
  {
    if a == [] {
      assert forall i :: 0 <= i < |b| ==> b[i] in a;
    } else {
      assert a[0] in b && b != [] && b[0] in a;
      assert a[0] == b[0];
      assert forall i :: 0 < i < |a| ==> a[i] != a[0] by {
        forall i | 0 < i < |a| ensures a[i] != a[0] { assert less(a[0], a[i]); }
      }
      assert forall i :: 0 < i < |b| ==> b[i] != b[0] by {
        forall i | 0 < i < |b| ensures b[i] != b[0] { assert less(b[0], b[i]); }
      }
      assert a == [a[0]] + a[1..] && b == [b[0]] + b[1..];
      forall x ensures x in a[1..] <==> x in b[1..] {
        assert x in a[1..] <==> x in a && x != a[0];
        assert x in b[1..] <==> x in b && x != b[0];
      }
      SortedUnique(less, a[1..], b[1..]);
    }
  }

  // ---------------------------------------------------------------- decimal text of integers

  function DigitChar(d: nat): (c: char)
    requires d < 10
    ensures '0' <= c <= '9' && c as int == '0' as int + d
  {
    (('0' as int) + d) as char
  }

  /** `str(n)` for a natural number. */
  function Decimal(n: nat): (s: string)
    ensures s != "" && forall i :: 0 <= i < |s| ==> '0' <= s[i] <= '9'
  {
    if n < 10 then [DigitChar(n)] else Decimal(n / 10) + [DigitChar(n % 10)]
  }

  /** The number a string of digits denotes. */
  function DigitsValue(s: string): nat
    requires forall i :: 0 <= i < |s| ==> '0' <= s[i] <= '9'
  {
    if s == "" then 0 else 10 * DigitsValue(s[..|s| - 1]) + (s[|s| - 1] as int - '0' as int)
  }

  lemma {:induction false} DecimalRoundTrip(n: nat)
    ensures DigitsValue(Decimal(n)) == n
  {
    if n >= 10 {
      DecimalRoundTrip(n / 10);
      assert Decimal(n)[..|Decimal(n)| - 1] == Decimal(n / 10);
    } else {
      assert Decimal(n)[..0] == "";
    }
  }

  /** `str(i)`. */
  function IntText(i: int): string {
    if i < 0 then "-" + Decimal(-i) else Decimal(i)
  }

  lemma IntTextInjective(i: int, j: int)
    requires IntText(i) == IntText(j)
    ensures i == j
  {
    DecimalRoundTrip(if i < 0 then -i else i);
    DecimalRoundTrip(if j < 0 then -j else j);
    assert IntText(i)[0] == '-' <==> i < 0;
    assert IntText(j)[0] == '-' <==> j < 0;
    if i < 0 {
      assert IntText(i)[1..] == Decimal(-i) && IntText(j)[1..] == Decimal(-j);
    }
  }
}
