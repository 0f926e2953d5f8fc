// Grouping by a list of keys (internal/SQL/EX/aggregate.go) and by a hash of the key
// (internal/SQL/EX/hashagg.go, distinct.go), and when the two give the same rows.
//
// Evaluation of the group columns and of the aggregates is a parameter, and so is the
// stable sort, as a function of the comparisons it makes.
module Grouping {
  import opened Bytes
  import opened Codec

  datatype Value = Null | Int(i: int64) | Float(r: real) | Str(s: Key) | Bool(b: bool)

  // ---------------------------------------------------------------- comparing values

  // The conversion of an int64 to a float64.
  type ToFloat = int64 -> real

  // equalValue
  function EqualValue(a: Value, b: Value, toFloat: ToFloat): bool {
    match (a, b)
    case (Int(x), Float(y)) => toFloat(x) == y
    case (Float(x), Int(y)) => x == toFloat(y)
    case _ => a == b
  }

  function KeysEqual(a: seq<Value>, b: seq<Value>, toFloat: ToFloat): bool {
    |a| == |b| && forall i :: 0 <= i < |a| ==> EqualValue(a[i], b[i], toFloat)
  }

  function Sign(less: bool, greater: bool): int {
    if less then -1 else if greater then 1 else 0
  }

  // compare
  function CompareValue(a: Value, b: Value, toFloat: ToFloat): int {
    if a.Null? && b.Null? then 0
    else if a.Null? then -1
    else if b.Null? then 1
    else if (a.Int? || a.Float?) && (b.Int? || b.Float?) then
      var x := if a.Int? then toFloat(a.i) else a.r;
      var y := if b.Int? then toFloat(b.i) else b.r;
      Sign(x < y, x > y)
    else if a.Str? && b.Str? then Sign(Compare(a.s, b.s) < 0, Compare(a.s, b.s) > 0)
    else if a.Bool? && b.Bool? then (if a.b == b.b then 0 else if a.b then 1 else -1)
    else 0
  }

  function KeysLess(a: seq<Value>, b: seq<Value>, toFloat: ToFloat): bool {
    if a == [] || b == [] then a == [] && b != []
    else
      var c := CompareValue(a[0], b[0], toFloat);
      if c < 0 then true else if c > 0 then false else KeysLess(a[1..], b[1..], toFloat)
  }

  // keysLessByDistinct compares as many columns as there are.
  function RowsLess(a: seq<Value>, b: seq<Value>, toFloat: ToFloat): bool {
    if a == [] || b == [] then false
    else
      var c := CompareValue(a[0], b[0], toFloat);
      if c < 0 then true else if c > 0 then false else RowsLess(a[1..], b[1..], toFloat)
  }

  // ---------------------------------------------------------------- the order of values

  predicate IsNumber(v: Value) {
    v.Int? || v.Float?
  }

  // The float that a number is compared as.
  function Number(v: Value, toFloat: ToFloat): real
    requires IsNumber(v)
  {
    match v
    case Int(i) => toFloat(i)
    case Float(r) => r
  }

  // NULL is below everything else, numbers go by size, strings by their bytes, false is
  // below true; values of different types are not ordered.
  ghost predicate Below(a: Value, b: Value, toFloat: ToFloat) {
    || (a.Null? && !b.Null?)
    || (IsNumber(a) && IsNumber(b) && Number(a, toFloat) < Number(b, toFloat))
    || (a.Str? && b.Str? && Rank(a.s) < Rank(b.s))
    || (a.Bool? && b.Bool? && !a.b && b.b)
  }

  ghost predicate Even(a: Value, b: Value, toFloat: ToFloat) {
    !Below(a, b, toFloat) && !Below(b, a, toFloat)
  }

  lemma CompareMeans(a: Value, b: Value, toFloat: ToFloat)
    ensures CompareValue(a, b, toFloat) < 0 <==> Below(a, b, toFloat)
    ensures CompareValue(a, b, toFloat) > 0 <==> Below(b, a, toFloat)
    ensures CompareValue(a, b, toFloat) == 0 <==> Even(a, b, toFloat)
  {
    if a.Str? && b.Str? { CompareIsRankOrder(a.s, b.s); }
  }

  // Column c is the first that is not even: there a is below b, or has ended.
  ghost predicate BeforeAt(a: seq<Value>, b: seq<Value>, c: int, toFloat: ToFloat) {
    && 0 <= c <= |a| && c < |b| && (forall d :: 0 <= d < c ==> Even(a[d], b[d], toFloat))
    && (c == |a| || Below(a[c], b[c], toFloat))
  }

  ghost predicate Before(a: seq<Value>, b: seq<Value>, toFloat: ToFloat) {
    exists c :: BeforeAt(a, b, c, toFloat)
  }

  lemma {:induction false} KeysLessMeans(a: seq<Value>, b: seq<Value>, toFloat: ToFloat)
    ensures KeysLess(a, b, toFloat) <==> Before(a, b, toFloat)
  {
    hide Even, Below, CompareValue;
    if a != [] && b != [] {
      CompareMeans(a[0], b[0], toFloat);
      KeysLessMeans(a[1..], b[1..], toFloat);
      BeforeTail(a, b, toFloat);
    } else if b != [] {
      assert BeforeAt(a, b, 0, toFloat);
    }
  }

  lemma BeforeTail(a: seq<Value>, b: seq<Value>, toFloat: ToFloat)
    requires a != [] && b != []
    ensures Before(a, b, toFloat) <==>
              Below(a[0], b[0], toFloat) || (Even(a[0], b[0], toFloat) && Before(a[1..], b[1..], toFloat))
  {
    hide Below;
    if Before(a, b, toFloat) {
      var c :| BeforeAt(a, b, c, toFloat);
      if c > 0 {
        assert forall d :: 0 <= d < c - 1 ==> a[1..][d] == a[d + 1] && b[1..][d] == b[d + 1];
        assert BeforeAt(a[1..], b[1..], c - 1, toFloat);
      }
    }
    if Below(a[0], b[0], toFloat) { assert BeforeAt(a, b, 0, toFloat); }
    if Even(a[0], b[0], toFloat) && Before(a[1..], b[1..], toFloat) {
      var c :| BeforeAt(a[1..], b[1..], c, toFloat);
      assert forall d :: 0 < d < c + 1 ==> a[d] == a[1..][d - 1] && b[d] == b[1..][d - 1];
      assert BeforeAt(a, b, c + 1, toFloat);
    }
  }

  // In every column the two keys hold values of one type, numbers being one, or NULL.
  ghost predicate Comparable(a: seq<Value>, b: seq<Value>) {
    && |a| == |b|
    && forall i :: 0 <= i < |a| ==>
         || a[i].Null? || b[i].Null? || (IsNumber(a[i]) && IsNumber(b[i]))
         || (a[i].Str? && b[i].Str?) || (a[i].Bool? && b[i].Bool?)
  }

  // On such keys keysLess is a strict weak order.
  lemma {:induction false} KeysLessWeak(a: seq<Value>, b: seq<Value>, c: seq<Value>, toFloat: ToFloat)
    requires Comparable(a, b) && Comparable(b, c) && Comparable(a, c)
    ensures !KeysLess(a, a, toFloat)
    ensures !KeysLess(b, a, toFloat) && !KeysLess(c, b, toFloat) ==> !KeysLess(c, a, toFloat)
  {
    hide CompareValue;
    if a != [] {
      CompareMeans(a[0], a[0], toFloat);
      CompareMeans(b[0], a[0], toFloat);
      CompareMeans(c[0], b[0], toFloat);
      CompareMeans(c[0], a[0], toFloat);
      KeysLessWeak(a[1..], b[1..], c[1..], toFloat);
    }
  }

  // ---------------------------------------------------------------- the hash key

  function Digits(n: nat): (d: Key)
    ensures forall i :: 0 <= i < |d| ==> 48 <= d[i] < 58
    ensures n > 0 ==> d != []
  {
    if n == 0 then [] else Digits(n / 10) + [48 + n % 10]
  }

  // itoa: the negation of the least int64 is itself, so no digit is written for it.
  function Itoa(i: int64): (d: Key)
    ensures d != [] && 0 !in d
  {
    if i == 0 then [48]
    else if i == -0x8000_0000_0000_0000 then [45]
    else if i < 0 then [45] + Digits(-i)
    else Digits(i)
  }

  // int64(x) of a float drops the fraction; % keeps the sign of the dividend.
  function Trunc(r: real): int {
    if r < 0.0 then -((-r).Floor) else r.Floor
  }

  function Rem(a: int, b: int): int
    requires b > 0
  {
    if a < 0 then -((-a) % b) else a % b
  }

  function Clip(i: int): int64 {
    if -0x8000_0000_0000_0000 <= i < 0x8000_0000_0000_0000 then i else -0x8000_0000_0000_0000
  }

  function Ftoa(r: real): Key {
    Itoa(Clip(Trunc(r))) + [46] + Itoa(Rem(Clip(Trunc(r * 1000.0)), 1000))
  }

  function ValueKey(v: Value): Key {
    match v
    case Null => [78]
    case Str(s) => [83] + s
    case Int(i) => [73] + Itoa(i)
    case Float(r) => [70] + Ftoa(r)
    case Bool(b) => if b then [84] else [70]
  }

  // distinctKey: a zero byte stands between columns.
  function DistinctKey(vs: seq<Value>): Key {
    if vs == [] then []
    else if |vs| == 1 then ValueKey(vs[0])
    else ValueKey(vs[0]) + [0] + DistinctKey(vs[1..])
  }

  // The number that a row of digits stands for.
  function NumberOf(d: Key): int {
    if d == [] then 0 else 10 * NumberOf(d[..|d| - 1]) + d[|d| - 1] - 48
  }

  lemma {:induction false} DigitsMean(n: nat)
    ensures NumberOf(Digits(n)) == n && (n > 0 ==> Digits(n)[0] != 48)
  {
    if n > 0 {
      DigitsMean(n / 10);
      var d := Digits(n);
      assert d[..|d| - 1] == Digits(n / 10) && d[|d| - 1] == 48 + n % 10;
      assert n / 10 > 0 ==> d[0] == Digits(n / 10)[0];
    }
  }

  // All but the least number are written in decimal: a sign and digits without a zero in front.
  lemma ItoaMeans(i: int64)
    requires i != -0x8000_0000_0000_0000
    ensures var d := if i < 0 then Itoa(i)[1..] else Itoa(i);
            && (i < 0 ==> Itoa(i)[0] == 45)
            && NumberOf(d) == (if i < 0 then -i else i) && (i != 0 ==> d != [] && d[0] != 48)
            && forall k :: 0 <= k < |d| ==> 48 <= d[k] < 58
  {
    if i == 0 {
      assert [48 as byte][..0] == [];
    } else {
      var n := if i < 0 then -i else i;
      DigitsMean(n);
      if i < 0 { assert Itoa(i)[1..] == Digits(n); }
    }
  }

  lemma {:induction false} DigitsInjective(a: nat, b: nat)
    requires Digits(a) == Digits(b)
    ensures a == b
  {
    if a != 0 && b != 0 {
      var x, y := Digits(a), Digits(b);
      assert x[..|x| - 1] == Digits(a / 10) && y[..|y| - 1] == Digits(b / 10);
      assert x[|x| - 1] == 48 + a % 10 && y[|y| - 1] == 48 + b % 10;
      DigitsInjective(a / 10, b / 10);
    }
  }

  lemma ItoaInjective(a: int64, b: int64)
    requires Itoa(a) == Itoa(b)
    ensures a == b
  {
    assert a > 0 ==> Itoa(a)[0] >= 48;
    assert b > 0 ==> Itoa(b)[0] >= 48;
    ZeroDigit(a);
    ZeroDigit(b);
    if a > 0 && b > 0 {
      DigitsInjective(a, b);
    } else if a < 0 && b < 0 {
      assert Itoa(a)[1..] == if a == -0x8000_0000_0000_0000 then [] else Digits(-a);
      assert Itoa(b)[1..] == if b == -0x8000_0000_0000_0000 then [] else Digits(-b);
      if a != -0x8000_0000_0000_0000 && b != -0x8000_0000_0000_0000 { DigitsInjective(-a, -b); }
    }
  }

  // No positive number is written as "0".
  lemma ZeroDigit(a: int64)
    ensures a > 0 ==> Digits(a) != [48]
  {
    if a > 0 {
      assert Digits(a)[|Digits(a)| - 1] == 48 + a % 10;
      if a >= 10 { assert |Digits(a / 10)| >= 1; }
    }
  }

  // ---------------------------------------------------------------- one column

  // Floats whose keys are the same: the integer part and the last three digits of the
  // thousandths are all that is kept.
  predicate FloatClose(x: real, y: real) {
    && Clip(Trunc(x)) == Clip(Trunc(y))
    && Rem(Clip(Trunc(x * 1000.0)), 1000) == Rem(Clip(Trunc(y * 1000.0)), 1000)
  }

  predicate SameBucket(a: Value, b: Value) {
    if a.Float? && b.Float? then FloatClose(a.r, b.r) else a == b
  }

  lemma ItoaPlain(i: int64)
    ensures forall j :: 0 <= j < |Itoa(i)| ==> Itoa(i)[j] != 46 && Itoa(i)[j] != 0
  {
  }

  lemma FtoaSplits(x: real, y: real)
    requires Ftoa(x) == Ftoa(y)
    ensures FloatClose(x, y)
  {
    var a, b := Itoa(Clip(Trunc(x))), Itoa(Clip(Trunc(y)));
    var c, d := Itoa(Rem(Clip(Trunc(x * 1000.0)), 1000)), Itoa(Rem(Clip(Trunc(y * 1000.0)), 1000));
    ItoaPlain(Clip(Trunc(x)));
    ItoaPlain(Clip(Trunc(y)));
    SplitAt(a, b, c, d, 46);
    ItoaInjective(Clip(Trunc(x)), Clip(Trunc(y)));
    ItoaInjective(Rem(Clip(Trunc(x * 1000.0)), 1000), Rem(Clip(Trunc(y * 1000.0)), 1000));
  }

  // The key of a value that is no string has no zero byte.
  lemma ScalarKey(v: Value)
    ensures ValueKey(v) != [] && ValueKey(v)[0] in {78, 83, 73, 70, 84}
    ensures !v.Str? ==> 0 !in ValueKey(v) && ValueKey(v)[0] != 83
  {
    match v
    case Float(r) =>
      ItoaPlain(Clip(Trunc(r)));
      ItoaPlain(Rem(Clip(Trunc(r * 1000.0)), 1000));
    case Int(i) => ItoaPlain(i);
    case _ =>
  }

  lemma ValueKeyTail(v: Value)
    ensures ValueKey(v)[1..] == match v case Str(s) => s case Int(i) => Itoa(i) case Float(r) => Ftoa(r) case _ => []
  {
  }

  // Exactly the values of one bucket have the same key.
  lemma ValueKeyExact(a: Value, b: Value)
    ensures ValueKey(a) == ValueKey(b) <==> SameBucket(a, b)
  {
    hide Ftoa, Itoa;
    ValueKeyTail(a);
    ValueKeyTail(b);
    if ValueKey(a) == ValueKey(b) {
      assert ValueKey(a)[0] == ValueKey(b)[0];
      if a.Int? && b.Int? { ItoaInjective(a.i, b.i); }
      if a.Float? && b.Float? { FtoaSplits(a.r, b.r); }
      if a.Float? != b.Float? { FtoaSome(if a.Float? then a.r else b.r); }
    }
    if a.Float? && b.Float? && FloatClose(a.r, b.r) { FtoaOfClose(a.r, b.r); }
  }

  lemma FtoaSome(r: real)
    ensures Ftoa(r) != []
  {
  }

  lemma FtoaOfClose(x: real, y: real)
    requires FloatClose(x, y)
    ensures Ftoa(x) == Ftoa(y)
  {
  }

  lemma TruncThousand(x: real)
    ensures var q := Trunc(x * 1000.0); Trunc(x) == if q < 0 then -((-q) / 1000) else q / 1000
  {
    var q := Trunc(x * 1000.0);
    if x >= 0.0 {
      assert q as real <= x * 1000.0 < q as real + 1.0;
      assert (q / 1000) as real <= x < (q / 1000) as real + 1.0;
    } else {
      var p := (-(x * 1000.0)).Floor;
      assert q == -p && p >= 0;
      assert p as real <= -x * 1000.0 < p as real + 1.0;
      assert (p / 1000) as real <= -x < (p / 1000) as real + 1.0;
    }
  }

  // Floats in range share a bucket exactly when their thousandths agree, so the hash
  // form takes them for one group and the list form for two unless they are equal.
  lemma FloatsMerge(x: real, y: real, toFloat: ToFloat)
    requires var m := 0x8000_0000_0000_0000 as real; -m < x * 1000.0 < m && -m < y * 1000.0 < m
    ensures DistinctKey([Float(x)]) == DistinctKey([Float(y)]) <==> Trunc(x * 1000.0) == Trunc(y * 1000.0)
    ensures (DistinctKey([Float(x)]) == DistinctKey([Float(y)]) <==> KeysEqual([Float(x)], [Float(y)], toFloat)) <==>
            x == y || Trunc(x * 1000.0) != Trunc(y * 1000.0)
  {
    hide Ftoa, Itoa;
    ValueKeyExact(Float(x), Float(y));
    TruncThousand(x);
    TruncThousand(y);
    InRange(x);
    InRange(y);
    ThousandthsExact(Trunc(x * 1000.0), Trunc(y * 1000.0));
    assert EqualValue([Float(x)][0], [Float(y)][0], toFloat) <==> x == y;
  }

  lemma InRange(x: real)
    requires var m := 0x8000_0000_0000_0000 as real; -m < x * 1000.0 < m
    ensures Clip(Trunc(x * 1000.0)) == Trunc(x * 1000.0) && Clip(Trunc(x)) == Trunc(x)
  {
    TruncThousand(x);
  }

  lemma ThousandthsExact(p: int, q: int)
    ensures p == q <==>
            (if p < 0 then -((-p) / 1000) else p / 1000) == (if q < 0 then -((-q) / 1000) else q / 1000) &&
            Rem(p, 1000) == Rem(q, 1000)
  {
  }

  // An integer and a float never share a bucket, so the hash form splits them when the
  // float is what the integer is rounded to.
  lemma FloatsSplit(i: int64, y: real, toFloat: ToFloat)
    ensures (DistinctKey([Int(i)]) == DistinctKey([Float(y)]) <==> KeysEqual([Int(i)], [Float(y)], toFloat)) <==>
            toFloat(i) != y
  {
    hide Ftoa, Itoa;
    ValueKeyExact(Int(i), Float(y));
    assert EqualValue([Int(i)][0], [Float(y)][0], toFloat) <==> toFloat(i) == y;
  }

  // ---------------------------------------------------------------- several columns

  // The length of w before the first z.
  function First(w: Key, z: byte): (n: nat)
    ensures n <= |w| && (n < |w| ==> w[n] == z) && z !in w[..n]
  {
    if w == [] || w[0] == z then 0 else 1 + First(w[1..], z)
  }

  lemma {:induction false} FirstBehind(x: Key, k: Key, z: byte)
    requires z !in x
    ensures First(x + [z] + k, z) == |x|
  {
    if x != [] {
      assert (x + [z] + k)[1..] == x[1..] + [z] + k;
      FirstBehind(x[1..], k, z);
    }
  }

  lemma Parts(x: Key, z: byte, k: Key)
    ensures var w := x + [z] + k; |w| == |x| + 1 + |k| && w[..|x|] == x && w[|x|] == z && w[|x| + 1..] == k
  {
  }

  lemma Tail(a: Key, b: Key, i: nat)
    requires i <= |a|
    ensures (a + b)[i..] == a[i..] + b
  {
  }

  // Two strings without a separator in front of the same one.
  lemma SplitAt(x: Key, y: Key, k: Key, l: Key, z: byte)
    requires z !in x && z !in y && x + [z] + k == y + [z] + l
    ensures x == y && k == l
  {
    FirstBehind(x, k, z);
    FirstBehind(y, l, z);
    Parts(x, z, k);
    Parts(y, z, l);
  }

  // The longer of two beginnings holds the separator after the shorter one.
  lemma Longer(r: Key, k: Key, h: Key, rest: Key, z: byte)
    requires r + [z] + k == h + [z] + rest && |h| < |r|
    ensures r[|h|] == z && r[..|h|] == h && rest == r[|h| + 1..] + [z] + k
  {
    var w := r + [z] + k;
    Parts(r, z, k);
    Parts(h, z, rest);
    assert w == r + ([z] + k);
    Tail(r, [z] + k, |h| + 1);
    assert r[|h| + 1..] + ([z] + k) == r[|h| + 1..] + [z] + k;
    assert r[|h|] == w[..|r|][|h|] && r[..|h|] == w[..|r|][..|h|];
  }

  ghost predicate IsScalarKey(h: Key) {
    exists d: Value :: !d.Str? && ValueKey(d) == h
  }

  // r can be the beginning of the keys of m columns that go on past its end: complete
  // keys of values that are no strings, and then the end of r or a string's key.
  ghost predicate Ambiguous(r: Key, m: nat)
    decreases m
  {
    && m > 0 && r != []
    && (r[0] == 83 ||
        (m > 1 && IsScalarKey(r[..First(r, 0)]) && (First(r, 0) == |r| || Ambiguous(r[First(r, 0) + 1..], m - 1))))
  }

  // A string with m columns after it can be mistaken for a shorter one.
  ghost predicate Marked(x: Key, m: nat) {
    exists i :: 0 <= i < |x| && x[i] == 0 && Ambiguous(x[i + 1..], m)
  }

  // No string before the last column can be mistaken.
  ghost predicate Separable(vs: seq<Value>) {
    forall i :: 0 <= i < |vs| - 1 && vs[i].Str? ==> !Marked(vs[i].s, |vs| - 1 - i)
  }

  predicate NoFloats(vs: seq<Value>) {
    forall i :: 0 <= i < |vs| ==> !vs[i].Float?
  }

  lemma KeyStarts(vs: seq<Value>)
    requires vs != []
    ensures DistinctKey(vs) != [] && DistinctKey(vs)[0] == ValueKey(vs[0])[0] && ValueKey(vs[0]) <= DistinctKey(vs)
  {
    ScalarKey(vs[0]);
  }

  // What a longer string swallows is ambiguous.
  lemma {:induction false} SwallowedIsAmbiguous(r: Key, s: seq<Value>, t: seq<Value>)
    requires t != [] && s != [] && r + [0] + DistinctKey(s) == DistinctKey(t)
    ensures Ambiguous(r, |t|)
    decreases |t|
  {
    var w, h := DistinctKey(t), ValueKey(t[0]);
    ScalarKey(t[0]);
    KeyStarts(t);
    assert w[|r|] == 0;
    assert r != [] && r[0] == w[0];
    if !t[0].Str? {
      assert |t| > 1;
      var rest := DistinctKey(t[1..]);
      FirstBehind(h, rest, 0);
      SwallowScalar(r, DistinctKey(s), h, rest);
      if |h| < |r| { SwallowedIsAmbiguous(r[|h| + 1..], s, t[1..]); }
    }
  }

  lemma SwallowScalar(r: Key, k: Key, h: Key, rest: Key)
    requires 0 !in h && r + [0] + k == h + [0] + rest
    ensures |h| <= |r| && First(r, 0) == |h| && r[..|h|] == h
    ensures |h| < |r| ==> r[|h| + 1..] + [0] + k == rest
  {
    hide First;
    if |r| < |h| { Longer(h, rest, r, k, 0); }
    if |h| < |r| {
      Longer(r, k, h, rest, 0);
      FirstAt(r, |h|, 0);
    } else {
      Parts(r, 0, k);
      Parts(h, 0, rest);
      NoneBefore(r, 0);
    }
  }

  lemma {:induction false} FirstAt(w: Key, n: nat, z: byte)
    requires n < |w| && w[n] == z && z !in w[..n]
    ensures First(w, z) == n
  {
    if n > 0 {
      assert w[0] == w[..n][0] && w[..n][1..] == w[1..][..n - 1];
      FirstAt(w[1..], n - 1, z);
    }
  }

  lemma {:induction false} NoneBefore(w: Key, z: byte)
    requires z !in w
    ensures First(w, z) == |w|
  {
    if w != [] { NoneBefore(w[1..], z); }
  }

  // The columns that follow a string which is swallowed: an empty string and NULLs.
  function Filler(n: nat): (s: seq<Value>)
    ensures |s| == n
  {
    if n == 0 then [] else [Str([])] + seq(n - 1, _ => Null)
  }

  // A string column can take in the columns after it.
  lemma TakeIn(x: Key, a: seq<Value>, b: seq<Value>)
    requires a != []
    ensures DistinctKey([Str(x + [0] + DistinctKey(a))] + b) == [83] + x + [0] + DistinctKey(a + b)
  {
    var h := DistinctKey(a);
    KeyCat(a, b);
    if b == [] {
      assert [Str(x + [0] + h)] + b == [Str(x + [0] + h)];
      Assoc(x, h);
    } else {
      hide DistinctKey;
      KeyOfStr(x + [0] + h, b);
      Nested(x, h, DistinctKey(b));
    }
  }

  lemma Assoc(x: Key, k: Key)
    ensures [83] + x + [0] + k == [83] + (x + [0] + k)
  {
  }

  lemma Nested(x: Key, h: Key, k: Key)
    ensures [83] + (x + [0] + h) + [0] + k == [83] + x + [0] + (h + [0] + k)
  {
    var w := [83] + x + [0];
    assert [83] + (x + [0] + h) == w + h;
    assert w + h + [0] + k == w + (h + [0] + k);
  }

  lemma KeyOfStr(x: Key, s: seq<Value>)
    requires s != []
    ensures DistinctKey([Str(x)] + s) == [83] + x + [0] + DistinctKey(s)
  {
    assert ([Str(x)] + s)[1..] == s;
  }

  lemma KeyOfScalar(d: Value, s: seq<Value>)
    requires s != []
    ensures DistinctKey([d] + s) == ValueKey(d) + [0] + DistinctKey(s)
  {
    assert ([d] + s)[1..] == s;
  }

  lemma {:induction false} KeyCat(a: seq<Value>, b: seq<Value>)
    requires a != []
    ensures DistinctKey(a + b) == if b == [] then DistinctKey(a) else DistinctKey(a) + [0] + DistinctKey(b)
  {
    if b == [] {
      assert a + b == a;
    } else {
      assert (a + b)[1..] == a[1..] + b;
      if |a| > 1 { KeyCat(a[1..], b); } else { assert a[1..] + b == b; }
    }
  }

  // Columns that start with an empty string have the key of fewer columns.
  lemma SwallowFirst(s: seq<Value>, q: nat) returns (t: seq<Value>)
    requires 0 < q < |s| && s[0] == Str([])
    ensures |t| == q && DistinctKey(t) == DistinctKey(s)
  {
    hide DistinctKey;
    var a, b := s[1..|s| - q + 1], s[|s| - q + 1..];
    TakeIn([], a, b);
    t := [Str([] + [0] + DistinctKey(a))] + b;
    KeyOfStr([], a + b);
    assert [Str([])] + (a + b) == s;
  }

  // And what is ambiguous can be swallowed.
  lemma {:induction false} AmbiguousIsSwallowed(r: Key, q: nat, s: seq<Value>) returns (t: seq<Value>)
    requires Ambiguous(r, q) && q <= |s| && s[0] == Str([])
    ensures |t| == q && DistinctKey(t) == r + [0] + DistinctKey(s)
    decreases q
  {
    hide DistinctKey, First, ValueKey;
    if r[0] == 83 {
      var a, b := s[..|s| - q + 1], s[|s| - q + 1..];
      assert a + b == s && [83] + r[1..] == r;
      TakeIn(r[1..], a, b);
      t := [Str(r[1..] + [0] + DistinctKey(a))] + b;
    } else {
      var n := First(r, 0);
      var d: Value :| !d.Str? && ValueKey(d) == r[..n];
      var t1: seq<Value>;
      if n == |r| {
        t1 := SwallowFirst(s, q - 1);
        assert r[..n] == r;
      } else {
        t1 := AmbiguousIsSwallowed(r[n + 1..], q - 1, s);
        Regroup(r, n, DistinctKey(s));
      }
      KeyOfScalar(d, t1);
      t := [d] + t1;
    }
  }

  lemma Regroup(r: Key, n: nat, k: Key)
    requires n < |r| && r[n] == 0
    ensures r[..n] + [0] + (r[n + 1..] + [0] + k) == r + [0] + k
  {
    assert r == r[..n] + [0] + r[n + 1..];
  }

  // x as a string with m columns after it has the key of a shorter string with m others.
  ghost predicate CanCollide(x: Key, m: nat) {
    exists y, s, t :: Collides(x, m, y, s, t)
  }

  ghost predicate Collides(x: Key, m: nat, y: Key, s: seq<Value>, t: seq<Value>) {
    |y| < |x| && |s| == |t| == m && DistinctKey([Str(x)] + s) == DistinctKey([Str(y)] + t)
  }

  // Different group keys share a hash key exactly when a string before the last column
  // is marked: a zero byte in it can pass for the end of the column.
  lemma ZeroBytesCollide(x: Key, m: nat)
    requires m > 0
    ensures CanCollide(x, m) <==> Marked(x, m)
  {
    hide DistinctKey, Ambiguous;
    if CanCollide(x, m) {
      var y, s, t :| Collides(x, m, y, s, t);
      KeyOfStr(x, s);
      KeyOfStr(y, t);
      LongerIsMarked(x, y, s, t);
    }
    if Marked(x, m) {
      var i :| 0 <= i < |x| && x[i] == 0 && Ambiguous(x[i + 1..], m);
      var t := AmbiguousIsSwallowed(x[i + 1..], m, Filler(m));
      MarkedCollides(x, i, Filler(m), t);
      assert Collides(x, m, x[..i], Filler(m), t);
    }
  }

  lemma MarkedCollides(x: Key, i: nat, s: seq<Value>, t: seq<Value>)
    requires i < |x| && x[i] == 0 && s != [] && t != []
    requires DistinctKey(t) == x[i + 1..] + [0] + DistinctKey(s)
    ensures DistinctKey([Str(x)] + s) == DistinctKey([Str(x[..i])] + t)
  {
    hide DistinctKey;
    KeyOfStr(x, s);
    KeyOfStr(x[..i], t);
    Regroup(x, i, DistinctKey(s));
    Assoc(x, DistinctKey(s));
    Assoc(x[..i], DistinctKey(t));
  }

  lemma LongerIsMarked(x: Key, y: Key, s: seq<Value>, t: seq<Value>)
    requires |y| < |x| && s != [] && t != []
    requires [83] + x + [0] + DistinctKey(s) == [83] + y + [0] + DistinctKey(t)
    ensures Marked(x, |t|)
  {
    hide DistinctKey, Ambiguous;
    var k, l := DistinctKey(s), DistinctKey(t);
    Assoc(x, k);
    Assoc(y, l);
    assert ([83] + (x + [0] + k))[1..] == x + [0] + k && ([83] + (y + [0] + l))[1..] == y + [0] + l;
    Longer(x, k, y, l, 0);
    SwallowedIsAmbiguous(x[|y| + 1..], s, t);
  }

  // A string with [0, 83] in front of the last column, and what it collides with.
  lemma FamilyCollides(u: Key, v: Key, w: Value, toFloat: ToFloat)
    ensures Marked(u + [0, 83] + v, 1)
    ensures DistinctKey([Str(u + [0, 83] + v), w]) == DistinctKey([Str(u), Str(v + [0] + ValueKey(w))])
    ensures !KeysEqual([Str(u + [0, 83] + v), w], [Str(u), Str(v + [0] + ValueKey(w))], toFloat)
  {
    var x, z := u + [0, 83] + v, Str(v + [0] + ValueKey(w));
    assert x[|u|] == 0 && x[|u| + 1..] == [83] + v && x[..|u|] == u;
    assert Ambiguous(x[|u| + 1..], 1);
    hide ValueKey, Ambiguous;
    LastKeys(v, w);
    MarkedCollides(x, |u|, [w], [z]);
    assert [Str(x)] + [w] == [Str(x), w] && [Str(u)] + [z] == [Str(u), z];
    assert !EqualValue([Str(x), w][0], [Str(u), z][0], toFloat);
  }

  lemma LastKeys(v: Key, w: Value)
    ensures DistinctKey([Str(v + [0] + ValueKey(w))]) == [83] + v + [0] + DistinctKey([w])
  {
    Assoc(v, ValueKey(w));
  }

  lemma FirstColumn(a: seq<Value>, b: seq<Value>)
    requires |a| == |b| > 1 && Separable(a) && Separable(b) && DistinctKey(a) == DistinctKey(b)
    ensures ValueKey(a[0]) == ValueKey(b[0]) && DistinctKey(a[1..]) == DistinctKey(b[1..])
  {
    KeyStarts(a);
    KeyStarts(b);
    ScalarKey(a[0]);
    ScalarKey(b[0]);
    var k, l := DistinctKey(a[1..]), DistinctKey(b[1..]);
    if a[0].Str? {
      var x, y := a[0].s, b[0].s;
      if |y| < |x| {
        LongerIsMarked(x, y, a[1..], b[1..]);
      } else if |x| < |y| {
        LongerIsMarked(y, x, b[1..], a[1..]);
      } else {
        SameLength(x, y, k, l);
      }
    } else {
      SplitAt(ValueKey(a[0]), ValueKey(b[0]), k, l, 0);
    }
  }

  lemma SameLength(x: Key, y: Key, k: Key, l: Key)
    requires |x| == |y| && [83] + x + [0] + k == [83] + y + [0] + l
    ensures x == y && k == l
  {
    Assoc(x, k);
    Assoc(y, l);
    assert ([83] + (x + [0] + k))[1..] == x + [0] + k && ([83] + (y + [0] + l))[1..] == y + [0] + l;
    Parts(x, 0, k);
    Parts(y, 0, l);
  }

  lemma SeparableRest(a: seq<Value>)
    requires |a| > 1 && Separable(a)
    ensures Separable(a[1..])
  {
    forall i | 0 <= i < |a| - 2 && a[1..][i].Str? ensures !Marked(a[1..][i].s, |a| - 2 - i) {
      assert a[1..][i] == a[i + 1];
    }
  }

  // Separable group keys have the same hash key exactly when each column has.
  lemma {:induction false} DistinctKeyColumns(a: seq<Value>, b: seq<Value>)
    requires |a| == |b| && Separable(a) && Separable(b)
    ensures DistinctKey(a) == DistinctKey(b) <==> forall i :: 0 <= i < |a| ==> SameBucket(a[i], b[i])
  {
    hide ValueKey, SameBucket, Separable;
    if |a| == 1 {
      ValueKeyExact(a[0], b[0]);
    } else if |a| > 1 {
      SeparableRest(a);
      SeparableRest(b);
      DistinctKeyColumns(a[1..], b[1..]);
      ValueKeyExact(a[0], b[0]);
      if DistinctKey(a) == DistinctKey(b) { FirstColumn(a, b); }
      assert (forall i :: 0 <= i < |a| ==> SameBucket(a[i], b[i])) <==>
             SameBucket(a[0], b[0]) && forall i :: 0 <= i < |a| - 1 ==> SameBucket(a[1..][i], b[1..][i]) by {
        assert forall i :: 0 < i < |a| ==> a[i] == a[1..][i - 1] && b[i] == b[1..][i - 1];
      }
    }
  }

  // So without floats the hash key tells them apart, and the comparison agrees with it.
  lemma DistinctKeyInjective(a: seq<Value>, b: seq<Value>, toFloat: ToFloat)
    requires |a| == |b| && Separable(a) && Separable(b) && NoFloats(a) && NoFloats(b)
    ensures DistinctKey(a) == DistinctKey(b) <==> a == b
    ensures KeysEqual(a, b, toFloat) <==> a == b
  {
    hide Separable, DistinctKey;
    DistinctKeyColumns(a, b);
  }

  // One column is always separable, and so are columns whose strings, but for the last,
  // have no zero byte.
  lemma NoZerosSeparable(vs: seq<Value>)
    requires forall i :: 0 <= i < |vs| - 1 && vs[i].Str? ==> 0 !in vs[i].s
    ensures Separable(vs)
  {
  }

  // The digits of v go into a buffer of twenty bytes from its end; none for a v below 1.
  method FillDigits(buf: array<byte>, v0: int64) returns (pos: nat)
    requires buf.Length == 20
    modifies buf
    ensures 1 <= pos <= 20 && buf[pos..] == if v0 > 0 then Digits(v0) else []
  {
    hide Digits, Pow10;
    var v := v0;
    pos := 20;
    ghost var done: Key := [];
    PowStart();
    NoDigits();
    while v > 0
      invariant 1 <= pos <= 20 && (v > 0 ==> v < Pow10(pos - 1)) && (v0 > 0 ==> v >= 0)
      invariant buf[pos..] == done && (if v0 > 0 then Digits(v0) == Digits(v) + done else done == [])
      decreases v
    {
      PowStep(pos - 1, v);
      DigitsStep(v, done);
      pos := pos - 1;
      buf[pos] := 48 + v % 10;
      assert buf[pos + 1..] == done;
      done := [48 + v % 10] + done;
      v := v / 10;
    }
  }

  // itoa
  method ItoaLoop(i: int64) returns (d: Key)
    ensures d == Itoa(i)
  {
    if i == 0 {
      return [48];
    }
    hide Itoa, Digits;
    var neg := i < 0;
    var v: int64 := if neg && i != -0x8000_0000_0000_0000 then -i else i;
    var buf := new byte[20](_ => 0);
    var pos := FillDigits(buf, v);
    ghost var all := buf[pos..];
    ItoaOf(i, all);
    if neg {
      pos := pos - 1;
      buf[pos] := 45;
      assert buf[pos + 1..] == all;
    }
    d := buf[pos..];
  }

  lemma ItoaOf(i: int64, all: Key)
    requires i != 0 && all == if i > 0 then Digits(i) else if i == -0x8000_0000_0000_0000 then [] else Digits(-i)
    ensures Itoa(i) == if i < 0 then [45] + all else all
  {
  }

  lemma NoDigits()
    ensures Digits(0) == []
  {
  }

  lemma DigitsStep(v: nat, done: Key)
    requires v > 0
    ensures Digits(v) + done == Digits(v / 10) + ([48 + v % 10] + done)
  {
  }

  ghost function Pow10(n: nat): nat {
    if n == 0 then 1 else 10 * Pow10(n - 1)
  }

  lemma PowStart()
    ensures Pow10(19) == 10000000000000000000
  {
    assert Pow10(5) == 100000 && Pow10(10) == 10000000000 && Pow10(15) == 1000000000000000;
  }

  lemma PowStep(n: nat, v: nat)
    requires 0 < v < Pow10(n)
    ensures n >= 1 && (v / 10 > 0 ==> n >= 2) && v / 10 < Pow10(n - 1)
  {
  }
}
