// The parallel sample sort of the executor (internal/SQL/EX/sort_parallel.go).
//
// A stable sort is fixed by two facts: the output is sorted, and rows that compare
// equal keep their input order.  StableSortUnique says these two facts leave one
// possible output, so it is enough to show them for the sample sort, whatever
// rows are sampled as splitters.
module SampleSort {
  import opened Bytes

  datatype Value = Nil | Int(i: int) | Float(r: real) | Str(s: Key) | Bool(b: bool)
  datatype SortKey = SortKey(col: string, ascending: bool)
  type Row = map<string, Value>

  // Row.Lookup; an absent column reads as nil.
  function Get(row: Row, col: string): Value {
    if col in row then row[col] else Nil
  }

  function Sign(less: bool, greater: bool): int {
    if less then -1 else if greater then 1 else 0
  }

  function CompareValues(a: Value, b: Value): int {
    match (a, b)
    case (Nil, Nil) => 0
    case (Nil, _) => -1
    case (_, Nil) => 1
    case (Int(x), Int(y)) => Sign(x < y, x > y)
    case (Float(x), Float(y)) => Sign(x < y, x > y)
    case (Str(x), Str(y)) => Sign(Compare(x, y) < 0, Compare(x, y) > 0)
    case (Bool(x), Bool(y)) => if x == y then 0 else if !x then -1 else 1
    case _ => 0
  }

  function LessRow(a: Row, b: Row, keys: seq<SortKey>): bool {
    if keys == [] then false
    else
      var key := keys[0];
      var cmp := CompareValues(Get(a, key.col), Get(b, key.col));
      if (key.col !in a && key.col !in b) || cmp == 0 then LessRow(a, b, keys[1..])
      else if key.ascending then cmp < 0
      else cmp > 0
  }

  // ---------------------------------------------------------------- what the order is

  // nil is below everything else, numbers of one type go by size, strings by their bytes,
  // false is below true; values of different types are not ordered.
  ghost predicate Below(a: Value, b: Value) {
    || (a.Nil? && !b.Nil?)
    || (a.Int? && b.Int? && a.i < b.i)
    || (a.Float? && b.Float? && a.r < b.r)
    || (a.Str? && b.Str? && Rank(a.s) < Rank(b.s))
    || (a.Bool? && b.Bool? && !a.b && b.b)
  }

  ghost predicate Even(a: Value, b: Value) {
    !Below(a, b) && !Below(b, a)
  }

  lemma CompareMeans(a: Value, b: Value)
    ensures CompareValues(a, b) < 0 <==> Below(a, b)
    ensures CompareValues(a, b) > 0 <==> Below(b, a)
    ensures CompareValues(a, b) == 0 <==> Even(a, b)
  {
    if a.Str? && b.Str? { CompareIsRankOrder(a.s, b.s); }
  }

  // Column k decides that a comes before b: all columns before it are even.
  ghost predicate LessAt(a: Row, b: Row, keys: seq<SortKey>, k: int) {
    && 0 <= k < |keys| && (forall d :: 0 <= d < k ==> Even(Get(a, keys[d].col), Get(b, keys[d].col)))
    && if keys[k].ascending then Below(Get(a, keys[k].col), Get(b, keys[k].col))
       else Below(Get(b, keys[k].col), Get(a, keys[k].col))
  }

  ghost predicate LessSomewhere(a: Row, b: Row, keys: seq<SortKey>) {
    exists k :: LessAt(a, b, keys, k)
  }

  lemma {:induction false} LessRowMeans(a: Row, b: Row, keys: seq<SortKey>)
    ensures LessRow(a, b, keys) <==> LessSomewhere(a, b, keys)
  {
    hide Even, Below, CompareValues;
    if keys != [] {
      CompareMeans(Get(a, keys[0].col), Get(b, keys[0].col));
      assert Even(Nil, Nil) by { CompareMeans(Nil, Nil); NilEven(); }
      LessRowMeans(a, b, keys[1..]);
      LessTail(a, b, keys);
    }
  }

  lemma NilEven()
    ensures CompareValues(Nil, Nil) == 0 && Even(Nil, Nil)
  {
  }

  lemma LessTail(a: Row, b: Row, keys: seq<SortKey>)
    requires keys != []
    ensures LessSomewhere(a, b, keys) <==>
              LessAt(a, b, keys, 0) ||
              (Even(Get(a, keys[0].col), Get(b, keys[0].col)) && LessSomewhere(a, b, keys[1..]))
  {
    hide Below;
    if LessSomewhere(a, b, keys) {
      var k :| LessAt(a, b, keys, k);
      if k > 0 {
        assert forall d :: 0 <= d < k ==> keys[1..][d] == keys[d + 1];
        assert LessAt(a, b, keys[1..], k - 1);
      }
    }
    if Even(Get(a, keys[0].col), Get(b, keys[0].col)) && LessSomewhere(a, b, keys[1..]) {
      var k :| LessAt(a, b, keys[1..], k);
      assert forall d :: 0 < d <= k + 1 ==> keys[d] == keys[1..][d - 1];
      assert LessAt(a, b, keys, k + 1);
    }
  }

  // ---------------------------------------------------------------- a strict weak order

  predicate SameKind(a: Value, b: Value) {
    a.Nil? || b.Nil? || (a.Int? && b.Int?) || (a.Float? && b.Float?) || (a.Str? && b.Str?) || (a.Bool? && b.Bool?)
  }

  // In every sort column the two rows hold values of one type, or nil.
  predicate Alike(a: Row, b: Row, keys: seq<SortKey>) {
    forall i :: 0 <= i < |keys| ==> SameKind(Get(a, keys[i].col), Get(b, keys[i].col))
  }

  ghost predicate Uniform(rows: set<Row>, keys: seq<SortKey>) {
    forall a, b :: a in rows && b in rows ==> Alike(a, b, keys)
  }

  lemma CompareValuesOrder(a: Value, b: Value, c: Value)
    requires SameKind(a, b) && SameKind(b, c) && SameKind(a, c)
    ensures CompareValues(a, a) == 0 && CompareValues(a, b) == -CompareValues(b, a)
    ensures CompareValues(a, b) <= 0 && CompareValues(b, c) <= 0 ==>
              && CompareValues(a, c) <= 0
              && (CompareValues(a, c) == 0 ==> CompareValues(a, b) == 0 && CompareValues(b, c) == 0)
  {
    if a.Str? && b.Str? {
      CompareIsRankOrder(a.s, b.s);
      CompareIsRankOrder(b.s, a.s);
    }
    if b.Str? && c.Str? { CompareIsRankOrder(b.s, c.s); }
    if a.Str? && c.Str? { CompareIsRankOrder(a.s, c.s); }
    if a.Str? { CompareIsRankOrder(a.s, a.s); }
  }

  // lessRow is a strict weak order on rows whose sort columns are type-homogeneous.
  lemma {:induction false} LessRowWeak(a: Row, b: Row, c: Row, keys: seq<SortKey>)
    requires Alike(a, b, keys) && Alike(b, c, keys) && Alike(a, c, keys)
    ensures !LessRow(a, a, keys)
    ensures LessRow(a, b, keys) ==> !LessRow(b, a, keys)
    ensures !LessRow(b, a, keys) && !LessRow(c, b, keys) ==> !LessRow(c, a, keys)
    ensures LessRow(a, b, keys) && !LessRow(c, b, keys) ==> LessRow(a, c, keys)
    ensures !LessRow(b, a, keys) && LessRow(b, c, keys) ==> LessRow(a, c, keys)
  {
    if keys != [] {
      var x, y, z := Get(a, keys[0].col), Get(b, keys[0].col), Get(c, keys[0].col);
      assert SameKind(x, y) && SameKind(y, z) && SameKind(x, z);
      CompareValuesOrder(x, y, z);
      CompareValuesOrder(z, y, x);
      CompareValuesOrder(x, z, y);
      assert Alike(a, b, keys[1..]) && Alike(b, c, keys[1..]) && Alike(a, c, keys[1..]);
      LessRowWeak(a, b, c, keys[1..]);
    }
  }

  // No row is less than itself, and no two are less than each other, whatever they hold.
  lemma {:induction false} LessRowAsymmetric(a: Row, b: Row, keys: seq<SortKey>)
    ensures !LessRow(a, a, keys) && (LessRow(a, b, keys) ==> !LessRow(b, a, keys))
  {
    if keys != [] {
      var x, y := Get(a, keys[0].col), Get(b, keys[0].col);
      if x.Str? {
        CompareIsRankOrder(x.s, x.s);
        if y.Str? {
          CompareIsRankOrder(x.s, y.s);
          CompareIsRankOrder(y.s, x.s);
        }
      }
      LessRowAsymmetric(a, b, keys[1..]);
    }
  }

  // What is not less passes on: with the asymmetry, a strict weak order.
  ghost predicate Weak(all: set<Row>, keys: seq<SortKey>) {
    forall a, b, c :: a in all && b in all && c in all ==> PassesOn(a, b, c, keys)
  }

  predicate PassesOn(a: Row, b: Row, c: Row, keys: seq<SortKey>) {
    !LessRow(b, a, keys) && !LessRow(c, b, keys) ==> !LessRow(c, a, keys)
  }

  lemma UniformIsWeak(all: set<Row>, keys: seq<SortKey>)
    requires Uniform(all, keys)
    ensures Weak(all, keys)
  {
    hide LessRow;
    forall a, b, c | a in all && b in all && c in all ensures PassesOn(a, b, c, keys) {
      LessRowWeak(a, b, c, keys);
    }
  }

  lemma WeakFacts(a: Row, b: Row, c: Row, all: set<Row>, keys: seq<SortKey>)
    requires Weak(all, keys) && a in all && b in all && c in all
    ensures !LessRow(a, a, keys)
    ensures LessRow(a, b, keys) ==> !LessRow(b, a, keys)
    ensures !LessRow(b, a, keys) && !LessRow(c, b, keys) ==> !LessRow(c, a, keys)
    ensures LessRow(a, b, keys) && !LessRow(c, b, keys) ==> LessRow(a, c, keys)
    ensures !LessRow(b, a, keys) && LessRow(b, c, keys) ==> LessRow(a, c, keys)
  {
    hide LessRow;
    LessRowAsymmetric(a, b, keys);
    assert PassesOn(a, b, c, keys);
    assert PassesOn(a, c, b, keys);
    assert PassesOn(b, a, c, keys);
    assert PassesOn(c, a, b, keys);
    assert PassesOn(b, c, a, keys);
    assert PassesOn(c, b, a, keys);
  }

  // For one sort column the order is weak exactly if no value of another type than
  // two different ones of one type is about.
  ghost predicate NoThirdType(all: set<Row>, key: SortKey) {
    forall a, b, c :: a in all && b in all && c in all ==> TypesAgree(a, b, c, key)
  }

  predicate TypesAgree(a: Row, b: Row, c: Row, key: SortKey) {
    LessRow(a, b, [key]) && Get(a, key.col) != Nil && Get(b, key.col) != Nil ==>
      SameKind(Get(a, key.col), Get(c, key.col))
  }

  lemma OneColumn(a: Row, b: Row, key: SortKey)
    ensures var cmp := CompareValues(Get(a, key.col), Get(b, key.col));
            LessRow(a, b, [key]) <==> if key.ascending then cmp < 0 else cmp > 0
  {
    assert [key][1..] == [];
  }

  lemma OneColumnExact(all: set<Row>, key: SortKey)
    ensures Weak(all, [key]) <==> NoThirdType(all, key)
  {
    hide LessRow;
    if Weak(all, [key]) {
      forall a, b, c | a in all && b in all && c in all ensures TypesAgree(a, b, c, key) {
        assert PassesOn(b, c, a, [key]);
        OneColumn(a, b, key);
        OneColumn(c, b, key);
        OneColumn(a, c, key);
      }
    }
    if NoThirdType(all, key) {
      forall a, b, c | a in all && b in all && c in all ensures PassesOn(a, b, c, [key]) {
        assert TypesAgree(c, a, b, key);
        OneColumnPasses(a, b, c, key);
      }
    }
  }

  lemma OneColumnPasses(a: Row, b: Row, c: Row, key: SortKey)
    requires TypesAgree(c, a, b, key)
    ensures PassesOn(a, b, c, [key])
  {
    hide LessRow;
    var x, y, z := Get(a, key.col), Get(b, key.col), Get(c, key.col);
    OneColumn(b, a, key);
    OneColumn(c, b, key);
    OneColumn(c, a, key);
    if LessRow(c, a, [key]) && SameKind(x, y) && SameKind(y, z) && SameKind(x, z) {
      CompareValuesOrder(x, y, z);
      CompareValuesOrder(z, y, x);
      CompareValuesOrder(y, z, x);
    }
  }

  // ---------------------------------------------------------------- stable sorting

  ghost predicate Among(rows: seq<Row>, all: set<Row>) {
    forall i :: 0 <= i < |rows| ==> rows[i] in all
  }

  ghost predicate SortedRows(rows: seq<Row>, keys: seq<SortKey>) {
    forall i, j :: 0 <= i < j < |rows| ==> !LessRow(rows[j], rows[i], keys)
  }

  predicate Ties(a: Row, b: Row, keys: seq<SortKey>) {
    !LessRow(a, b, keys) && !LessRow(b, a, keys)
  }

  // The rows that tie with x, in order.
  function Tied(rows: seq<Row>, x: Row, keys: seq<SortKey>): seq<Row> {
    if rows == [] then []
    else (if Ties(rows[0], x, keys) then [rows[0]] else []) + Tied(rows[1..], x, keys)
  }

  ghost predicate SameTies(a: seq<Row>, b: seq<Row>, all: set<Row>, keys: seq<SortKey>) {
    forall x :: x in all ==> Tied(a, x, keys) == Tied(b, x, keys)
  }

  // out is a stable sort of rows.
  ghost predicate StableSort(rows: seq<Row>, out: seq<Row>, all: set<Row>, keys: seq<SortKey>) {
    SortedRows(out, keys) && Among(out, all) && SameTies(rows, out, all, keys)
  }

  lemma {:induction false} TiedIn(rows: seq<Row>, x: Row, keys: seq<SortKey>)
    ensures forall i :: 0 <= i < |Tied(rows, x, keys)| ==>
              Tied(rows, x, keys)[i] in rows && Ties(Tied(rows, x, keys)[i], x, keys)
    ensures forall y :: y in rows && Ties(y, x, keys) ==> y in Tied(rows, x, keys)
  {
    if rows != [] { TiedIn(rows[1..], x, keys); }
  }

  // The least row of a sorted output is the first of its ties.
  lemma FirstRow(a: seq<Row>, b: seq<Row>, all: set<Row>, keys: seq<SortKey>)
    requires Weak(all, keys) && Among(a, all) && Among(b, all)
    requires SortedRows(a, keys) && SortedRows(b, keys) && SameTies(a, b, all, keys) && a != []
    ensures b != [] && a[0] == b[0]
  {
    var x := a[0];
    WeakFacts(x, x, x, all, keys);
    TiedIn(a, x, keys);
    TiedIn(b, x, keys);
    assert x in Tied(b, x, keys);
    var y := b[0];
    WeakFacts(y, y, y, all, keys);
    TiedIn(b, y, keys);
    TiedIn(a, y, keys);
    assert y in Tied(a, y, keys);
    var i :| 0 <= i < |a| && a[i] == y;
    assert !LessRow(y, x, keys);
    var j :| 0 <= j < |b| && b[j] == x;
    assert !LessRow(x, y, keys);
    assert Tied(a, x, keys)[0] == x && Tied(b, x, keys)[0] == y;
  }

  lemma DropFirst(a: seq<Row>, b: seq<Row>, x: Row, keys: seq<SortKey>)
    requires a != [] && b != [] && a[0] == b[0] && Tied(a, x, keys) == Tied(b, x, keys)
    ensures Tied(a[1..], x, keys) == Tied(b[1..], x, keys)
  {
    if Ties(a[0], x, keys) {
      assert Tied(a, x, keys)[1..] == Tied(a[1..], x, keys);
      assert Tied(b, x, keys)[1..] == Tied(b[1..], x, keys);
    } else {
      assert Tied(a, x, keys) == Tied(a[1..], x, keys);
      assert Tied(b, x, keys) == Tied(b[1..], x, keys);
    }
  }

  lemma {:induction false} StableSortUnique(a: seq<Row>, b: seq<Row>, all: set<Row>, keys: seq<SortKey>)
    requires Weak(all, keys) && Among(a, all) && Among(b, all)
    requires SortedRows(a, keys) && SortedRows(b, keys) && SameTies(a, b, all, keys)
    ensures a == b
  {
    hide LessRow, Ties, Weak;
    if a == [] {
      if b != [] { FirstRow(b, a, all, keys); }
    } else {
      FirstRow(a, b, all, keys);
      forall x | x in all ensures Tied(a[1..], x, keys) == Tied(b[1..], x, keys) {
        DropFirst(a, b, x, keys);
      }
      StableSortUnique(a[1..], b[1..], all, keys);
      assert a == [a[0]] + a[1..] && b == [b[0]] + b[1..];
    }
  }

  // ---------------------------------------------------------------- partitions

  // partitionBySplitters: the first splitter a row is less than, or the last part.
  function PartOf(row: Row, splitters: seq<Row>, keys: seq<SortKey>): (i: nat)
    ensures i <= |splitters|
  {
    if splitters == [] || LessRow(row, splitters[0], keys) then 0
    else 1 + PartOf(row, splitters[1..], keys)
  }

  lemma {:induction false} PartOfFirst(row: Row, splitters: seq<Row>, keys: seq<SortKey>)
    ensures forall j :: 0 <= j < PartOf(row, splitters, keys) ==> !LessRow(row, splitters[j], keys)
    ensures PartOf(row, splitters, keys) < |splitters| ==> LessRow(row, splitters[PartOf(row, splitters, keys)], keys)
  {
    if splitters != [] && !LessRow(row, splitters[0], keys) { PartOfFirst(row, splitters[1..], keys); }
  }

  // The rows that go to part i, in order.
  function Part(rows: seq<Row>, splitters: seq<Row>, keys: seq<SortKey>, i: nat): seq<Row> {
    if rows == [] then []
    else (if PartOf(rows[0], splitters, keys) == i then [rows[0]] else []) + Part(rows[1..], splitters, keys, i)
  }

  // Rows that tie go to the same part.
  lemma {:induction false} TiesSharePart(a: Row, b: Row, splitters: seq<Row>, all: set<Row>, keys: seq<SortKey>)
    requires Weak(all, keys) && Among(splitters, all) && a in all && b in all && Ties(a, b, keys)
    ensures PartOf(a, splitters, keys) == PartOf(b, splitters, keys)
  {
    if splitters != [] {
      var p := splitters[0];
      WeakFacts(a, b, p, all, keys);
      WeakFacts(b, a, p, all, keys);
      TiesSharePart(a, b, splitters[1..], all, keys);
    }
  }

  lemma {:induction false} PartTies(rows: seq<Row>, splitters: seq<Row>, all: set<Row>, keys: seq<SortKey>, i: nat,
                                    x: Row)
    requires Weak(all, keys) && Among(rows, all) && Among(splitters, all) && x in all
    ensures Tied(Part(rows, splitters, keys, i), x, keys) ==
            if PartOf(x, splitters, keys) == i then Tied(rows, x, keys) else []
  {
    if rows != [] {
      PartTies(rows[1..], splitters, all, keys, i, x);
      if Ties(rows[0], x, keys) { TiesSharePart(rows[0], x, splitters, all, keys); }
      var rest := Part(rows[1..], splitters, keys, i);
      assert ([rows[0]] + rest)[1..] == rest && [] + rest == rest;
    }
  }

  lemma {:induction false} PartMembers(rows: seq<Row>, splitters: seq<Row>, keys: seq<SortKey>, i: nat, all: set<Row>)
    requires Among(rows, all)
    ensures Among(Part(rows, splitters, keys, i), all)
    ensures forall r :: r in Part(rows, splitters, keys, i) ==> PartOf(r, splitters, keys) == i
  {
    if rows != [] { PartMembers(rows[1..], splitters, keys, i, all); }
  }

  // A row of an earlier part is never greater than a row of a later one.
  lemma PartsOrdered(a: Row, b: Row, splitters: seq<Row>, all: set<Row>, keys: seq<SortKey>)
    requires Weak(all, keys) && Among(splitters, all) && a in all && b in all
    requires PartOf(a, splitters, keys) < PartOf(b, splitters, keys)
    ensures !LessRow(b, a, keys)
  {
    PartOfFirst(a, splitters, keys);
    PartOfFirst(b, splitters, keys);
    var p := splitters[PartOf(a, splitters, keys)];
    WeakFacts(b, a, p, all, keys);
  }

  lemma {:induction false} TiedCat(a: seq<Row>, b: seq<Row>, x: Row, keys: seq<SortKey>)
    ensures Tied(a + b, x, keys) == Tied(a, x, keys) + Tied(b, x, keys)
  {
    hide Ties;
    if a == [] {
      assert a + b == b;
    } else {
      var first := if Ties(a[0], x, keys) then [a[0]] else [];
      assert (a + b)[1..] == a[1..] + b && (a + b)[0] == a[0];
      assert Tied(a + b, x, keys) == first + Tied(a[1..] + b, x, keys)
             && Tied(a, x, keys) == first + Tied(a[1..], x, keys);
      TiedCat(a[1..], b, x, keys);
      hide Tied;
      Assoc(first, Tied(a[1..], x, keys), Tied(b, x, keys));
    }
  }

  lemma Assoc(a: seq<Row>, b: seq<Row>, c: seq<Row>)
    ensures a + (b + c) == (a + b) + c
  {
  }

  // ---------------------------------------------------------------- concatenation

  // parts[i] is a stable sort of part i of the rows, for every i.
  ghost predicate SortedParts(rows: seq<Row>, parts: seq<seq<Row>>, splitters: seq<Row>, all: set<Row>,
                              keys: seq<SortKey>) {
    forall i :: 0 <= i < |parts| ==> StableSort(Part(rows, splitters, keys, i), parts[i], all, keys)
  }

  function Concat(parts: seq<seq<Row>>): seq<Row> {
    if parts == [] then [] else Concat(parts[..|parts| - 1]) + parts[|parts| - 1]
  }

  // A sorted part holds rows of that part only.
  lemma PartKept(rows: seq<Row>, part: seq<Row>, splitters: seq<Row>, all: set<Row>, keys: seq<SortKey>, i: nat, r: Row)
    requires Weak(all, keys) && Among(rows, all) && r in part
    requires StableSort(Part(rows, splitters, keys, i), part, all, keys)
    ensures r in all && PartOf(r, splitters, keys) == i
  {
    WeakFacts(r, r, r, all, keys);
    TiedIn(part, r, keys);
    TiedIn(Part(rows, splitters, keys, i), r, keys);
    assert r in Tied(part, r, keys);
    PartMembers(rows, splitters, keys, i, all);
  }

  lemma SortedCat(a: seq<Row>, b: seq<Row>, keys: seq<SortKey>)
    requires SortedRows(a, keys) && SortedRows(b, keys)
    requires forall x, y :: x in a && y in b ==> !LessRow(y, x, keys)
    ensures SortedRows(a + b, keys)
  {
    hide LessRow;
  }

  // out is the sorted rows of the first n parts.
  ghost predicate FirstParts(out: seq<Row>, n: nat, rows: seq<Row>, splitters: seq<Row>, all: set<Row>,
                             keys: seq<SortKey>) {
    && SortedRows(out, keys)
    && (forall r :: r in out ==> r in all && PartOf(r, splitters, keys) < n)
    && (forall x :: x in all ==>
          Tied(out, x, keys) == if PartOf(x, splitters, keys) < n then Tied(rows, x, keys) else [])
  }

  lemma NextPart(out: seq<Row>, part: seq<Row>, n: nat, rows: seq<Row>, splitters: seq<Row>, all: set<Row>,
                 keys: seq<SortKey>)
    requires Weak(all, keys) && Among(rows, all) && Among(splitters, all)
    requires FirstParts(out, n, rows, splitters, all, keys)
             && StableSort(Part(rows, splitters, keys, n), part, all, keys)
    ensures FirstParts(out + part, n + 1, rows, splitters, all, keys)
  {
    hide LessRow, Tied, Part, Weak, PartOf;
    forall r | r in part ensures r in all && PartOf(r, splitters, keys) == n {
      PartKept(rows, part, splitters, all, keys, n, r);
    }
    forall a, b | a in out && b in part ensures !LessRow(b, a, keys) {
      PartsOrdered(a, b, splitters, all, keys);
    }
    SortedCat(out, part, keys);
    hide SortedRows;
    forall x | x in all
      ensures Tied(out + part, x, keys) == if PartOf(x, splitters, keys) < n + 1 then Tied(rows, x, keys) else []
    {
      TiedCat(out, part, x, keys);
      PartTies(rows, splitters, all, keys, n, x);
    }
  }

  lemma {:induction false} ConcatKept(rows: seq<Row>, parts: seq<seq<Row>>, splitters: seq<Row>, all: set<Row>,
                                      keys: seq<SortKey>)
    requires Weak(all, keys) && Among(rows, all) && Among(splitters, all)
    requires SortedParts(rows, parts, splitters, all, keys)
    ensures FirstParts(Concat(parts), |parts|, rows, splitters, all, keys)
  {
    hide StableSort;
    if parts != [] {
      var n := |parts| - 1;
      ConcatKept(rows, parts[..n], splitters, all, keys);
      hide FirstParts;
      NextPart(Concat(parts[..n]), parts[n], n, rows, splitters, all, keys);
    }
  }

  // Sorting the parts and concatenating them is a stable sort of the whole.
  lemma SampleSortIsStable(rows: seq<Row>, parts: seq<seq<Row>>, splitters: seq<Row>, all: set<Row>, keys: seq<SortKey>)
    requires Weak(all, keys) && Among(rows, all) && Among(splitters, all)
    requires |parts| == |splitters| + 1 && SortedParts(rows, parts, splitters, all, keys)
    ensures StableSort(rows, Concat(parts), all, keys)
  {
    ConcatKept(rows, parts, splitters, all, keys);
  }

  // The sample sort gives the same rows as one stable sort, for any splitters.
  lemma SampleSortSame(rows: seq<Row>, parts: seq<seq<Row>>, splitters: seq<Row>, out: seq<Row>, all: set<Row>,
                       keys: seq<SortKey>)
    requires Weak(all, keys) && Among(rows, all) && Among(splitters, all)
    requires |parts| == |splitters| + 1 && SortedParts(rows, parts, splitters, all, keys)
    requires StableSort(rows, out, all, keys)
    ensures Concat(parts) == out
  {
    SampleSortIsStable(rows, parts, splitters, all, keys);
    StableSortUnique(Concat(parts), out, all, keys);
  }

  // ---------------------------------------------------------------- the operator

  lemma {:induction false} NoTies(rows: seq<Row>, x: Row, keys: seq<SortKey>)
    requires forall r :: r in rows ==> !Ties(r, x, keys)
    ensures Tied(rows, x, keys) == []
  {
    if rows != [] { NoTies(rows[1..], x, keys); }
  }

  // row goes in at p, behind the rows it is not less than.
  ghost predicate InsertAt(out: seq<Row>, p: nat, row: Row, all: set<Row>, keys: seq<SortKey>) {
    && Weak(all, keys) && Among(out, all) && row in all && SortedRows(out, keys) && p <= |out|
    && (forall i :: 0 <= i < p ==> !LessRow(row, out[i], keys))
    && (p < |out| ==> LessRow(row, out[p], keys))
  }

  lemma LessThanRest(out: seq<Row>, p: nat, row: Row, i: nat, all: set<Row>, keys: seq<SortKey>)
    requires InsertAt(out, p, row, all, keys) && p <= i < |out|
    ensures LessRow(row, out[i], keys) && !LessRow(out[i], row, keys)
  {
    if i > p { WeakFacts(row, out[p], out[i], all, keys); }
    WeakFacts(row, out[i], row, all, keys);
  }

  lemma InsertSorted(out: seq<Row>, p: nat, row: Row, all: set<Row>, keys: seq<SortKey>)
    requires InsertAt(out, p, row, all, keys)
    ensures SortedRows(out[..p] + [row] + out[p..], keys)
  {
    hide LessRow;
    var out' := out[..p] + [row] + out[p..];
    forall i, j | 0 <= i < j < |out'| ensures !LessRow(out'[j], out'[i], keys) {
      if i == p { LessThanRest(out, p, row, j - 1, all, keys); }
    }
  }

  // The new row joins its ties at the end, and no other ties change.
  lemma InsertTies(out: seq<Row>, p: nat, row: Row, x: Row, all: set<Row>, keys: seq<SortKey>)
    requires InsertAt(out, p, row, all, keys) && x in all
    ensures Tied(out[..p] + [row] + out[p..], x, keys) == Tied(out, x, keys) + Tied([row], x, keys)
  {
    hide LessRow, Tied;
    TiedCat(out[..p] + [row], out[p..], x, keys);
    TiedCat(out[..p], [row], x, keys);
    TiedCat(out[..p], out[p..], x, keys);
    assert out[..p] + out[p..] == out;
    if Ties(row, x, keys) {
      forall r | r in out[p..] ensures !Ties(r, x, keys) {
        var i :| p <= i < |out| && out[i] == r;
        LessThanRest(out, p, row, i, all, keys);
        WeakFacts(x, row, r, all, keys);
      }
      NoTies(out[p..], x, keys);
    } else {
      NoTies([row], x, keys);
    }
  }

  lemma InsertKeeps(out: seq<Row>, p: nat, row: Row, all: set<Row>, keys: seq<SortKey>)
    requires InsertAt(out, p, row, all, keys)
    ensures var out' := out[..p] + [row] + out[p..];
            && SortedRows(out', keys) && Among(out', all)
            && forall x :: x in all ==> Tied(out', x, keys) == Tied(out, x, keys) + Tied([row], x, keys)
  {
    InsertSorted(out, p, row, all, keys);
    forall x | x in all
      ensures Tied(out[..p] + [row] + out[p..], x, keys) == Tied(out, x, keys) + Tied([row], x, keys)
    {
      InsertTies(out, p, row, x, all, keys);
    }
  }

  // Row n goes in behind its ties, and the output holds the first n + 1 rows.
  lemma InsertNext(rows: seq<Row>, n: nat, out: seq<Row>, p: nat, all: set<Row>, keys: seq<SortKey>)
    requires n < |rows| && InsertAt(out, p, rows[n], all, keys)
    requires forall x :: x in all ==> Tied(out, x, keys) == Tied(rows[..n], x, keys)
    ensures var out' := out[..p] + [rows[n]] + out[p..];
            && SortedRows(out', keys) && Among(out', all)
            && forall x :: x in all ==> Tied(out', x, keys) == Tied(rows[..n + 1], x, keys)
  {
    hide Tied, SortedRows, InsertAt;
    InsertKeeps(out, p, rows[n], all, keys);
    forall x | x in all ensures Tied(rows[..n + 1], x, keys) == Tied(out, x, keys) + Tied([rows[n]], x, keys) {
      TiedCat(rows[..n], [rows[n]], x, keys);
      assert rows[..n + 1] == rows[..n] + [rows[n]];
    }
  }

  // out is the stable sort of rows if lessRow is a strict weak order on them; it always
  // holds the same rows.
  ghost predicate Sorts(rows: seq<Row>, out: seq<Row>, keys: seq<SortKey>) {
    && multiset(out) == multiset(rows)
    && forall all :: Weak(all, keys) && Among(rows, all) ==> StableSort(rows, out, all, keys)
  }

  lemma InsertPermutes(rows: seq<Row>, n: nat, out: seq<Row>, p: nat)
    requires n < |rows| && p <= |out| && multiset(out) == multiset(rows[..n])
    ensures multiset(out[..p] + [rows[n]] + out[p..]) == multiset(rows[..n + 1])
  {
    assert rows[..n + 1] == rows[..n] + [rows[n]] && out == out[..p] + out[p..];
  }

  lemma InsertSorts(rows: seq<Row>, n: nat, out: seq<Row>, p: nat, keys: seq<SortKey>)
    requires n < |rows| && p <= |out| && Sorts(rows[..n], out, keys)
    requires forall i :: 0 <= i < p ==> !LessRow(rows[n], out[i], keys)
    requires p < |out| ==> LessRow(rows[n], out[p], keys)
    ensures Sorts(rows[..n + 1], out[..p] + [rows[n]] + out[p..], keys)
  {
    hide LessRow, Tied, SortedRows;
    InsertPermutes(rows, n, out, p);
    forall all | Weak(all, keys) && Among(rows[..n + 1], all)
      ensures StableSort(rows[..n + 1], out[..p] + [rows[n]] + out[p..], all, keys)
    {
      assert rows[n] == rows[..n + 1][n];
      assert Among(rows[..n], all) by { assert forall k :: 0 <= k < n ==> rows[..n][k] == rows[..n + 1][k]; }
      InsertNext(rows, n, out, p, all, keys);
    }
  }

  // sort.SliceStable with lessRow.
  method SliceStable(rows: seq<Row>, keys: seq<SortKey>) returns (out: seq<Row>)
    ensures Sorts(rows, out, keys)
  {
    hide LessRow, Sorts;
    out := [];
    NothingSorts(rows, keys);
    for n := 0 to |rows|
      invariant Sorts(rows[..n], out, keys)
    {
      var p := 0;
      while p < |out| && !LessRow(rows[n], out[p], keys)
        invariant p <= |out| && forall i :: 0 <= i < p ==> !LessRow(rows[n], out[i], keys)
      {
        p := p + 1;
      }
      InsertSorts(rows, n, out, p, keys);
      out := out[..p] + [rows[n]] + out[p..];
    }
    assert rows[..|rows|] == rows;
  }

  lemma NothingSorts(rows: seq<Row>, keys: seq<SortKey>)
    ensures Sorts(rows[..0], [], keys)
  {
    assert rows[..0] == [];
  }

  lemma {:induction false} PartCat(a: seq<Row>, b: seq<Row>, splitters: seq<Row>, keys: seq<SortKey>, i: nat)
    ensures Part(a + b, splitters, keys, i) == Part(a, splitters, keys, i) + Part(b, splitters, keys, i)
  {
    hide PartOf, LessRow;
    if a == [] {
      assert a + b == b;
    } else {
      var first := if PartOf(a[0], splitters, keys) == i then [a[0]] else [];
      assert (a + b)[1..] == a[1..] + b && (a + b)[0] == a[0];
      assert Part(a + b, splitters, keys, i) == first + Part(a[1..] + b, splitters, keys, i);
      assert Part(a, splitters, keys, i) == first + Part(a[1..], splitters, keys, i);
      PartCat(a[1..], b, splitters, keys, i);
      hide Part;
      Assoc(first, Part(a[1..], splitters, keys, i), Part(b, splitters, keys, i));
    }
  }

  lemma PartSnoc(rows: seq<Row>, row: Row, splitters: seq<Row>, keys: seq<SortKey>, i: nat)
    ensures Part(rows + [row], splitters, keys, i) ==
            Part(rows, splitters, keys, i) + if PartOf(row, splitters, keys) == i then [row] else []
  {
    hide PartOf, LessRow;
    PartCat(rows, [row], splitters, keys, i);
    var none: seq<Row> := [];
    assert [row][1..] == none && Part(none, splitters, keys, i) == none;
  }

  lemma {:induction false} PartOfStep(row: Row, splitters: seq<Row>, keys: seq<SortKey>, i: nat)
    requires i <= |splitters| && forall j :: 0 <= j < i ==> !LessRow(row, splitters[j], keys)
    ensures i < |splitters| && LessRow(row, splitters[i], keys) ==> PartOf(row, splitters, keys) == i
    ensures i == |splitters| ==> PartOf(row, splitters, keys) == i
  {
    if i > 0 {
      assert splitters[1..][i - 1..] == splitters[i..];
      PartOfStep(row, splitters[1..], keys, i - 1);
    }
  }

  method PartitionBySplitters(rows: seq<Row>, splitters: seq<Row>, keys: seq<SortKey>) returns (parts: seq<seq<Row>>)
    ensures |parts| == |splitters| + 1
    ensures forall i :: 0 <= i < |parts| ==> parts[i] == Part(rows, splitters, keys, i)
  {
    parts := seq(|splitters| + 1, _ => []);
    for n := 0 to |rows|
      invariant |parts| == |splitters| + 1
      invariant forall i :: 0 <= i < |parts| ==> parts[i] == Part(rows[..n], splitters, keys, i)
    {
      var row := rows[n];
      var i := 0;
      while i < |splitters| && !LessRow(row, splitters[i], keys)
        invariant i <= |splitters| && forall j :: 0 <= j < i ==> !LessRow(row, splitters[j], keys)
      {
        i := i + 1;
      }
      PartOfStep(row, splitters, keys, i);
      assert rows[..n + 1] == rows[..n] + [row];
      forall j | 0 <= j < |parts|
        ensures Part(rows[..n + 1], splitters, keys, j) == if j == i then parts[j] + [row] else parts[j]
      {
        PartSnoc(rows[..n], row, splitters, keys, j);
      }
      parts := parts[i := parts[i] + [row]];
    }
    assert rows[..|rows|] == rows;
  }

  function SampleStep(rows: nat, workers: nat): nat
    requires workers > 0
  {
    if rows / (workers * 4) < 1 then 1 else rows / (workers * 4)
  }

  // The first n samples, as far as there are rows: every step-th row, but not the first.
  function Samples(rows: seq<Row>, step: nat, n: nat): seq<Row> {
    if n == 0 then []
    else Samples(rows, step, n - 1) + if n * step < |rows| then [rows[n * step]] else []
  }

  function EveryFourth(rows: seq<Row>): seq<Row>
    decreases |rows|
  {
    if rows == [] then [] else [rows[0]] + EveryFourth(if |rows| < 4 then [] else rows[4..])
  }

  lemma FourthStep(rows: seq<Row>)
    requires rows != []
    ensures EveryFourth(rows) == [rows[0]] + EveryFourth(if |rows| < 4 then [] else rows[4..])
  {
  }

  // The splitters are picked from the sorted samples.
  ghost predicate SplitsBy(rows: seq<Row>, workers: nat, splitters: seq<Row>, keys: seq<SortKey>)
    requires workers >= 2
  {
    exists sorted ::
      Sorts(Samples(rows, SampleStep(|rows|, workers), workers - 1), sorted, keys) && splitters == EveryFourth(sorted)
  }

  ghost predicate SampleSorted(rows: seq<Row>, workers: nat, splitters: seq<Row>, parts: seq<seq<Row>>, out: seq<Row>,
                               keys: seq<SortKey>)
  {
    && workers >= 2 && SplitsBy(rows, workers, splitters, keys) && |parts| == |splitters| + 1
    && (forall i :: 0 <= i < |parts| ==> Sorts(Part(rows, splitters, keys, i), parts[i], keys))
    && out == Concat(parts)
  }

  // out is what the sample sort makes of rows.
  ghost predicate SampleSorts(rows: seq<Row>, workers: nat, out: seq<Row>, keys: seq<SortKey>) {
    exists splitters, parts :: SampleSorted(rows, workers, splitters, parts, out, keys)
  }

  lemma {:induction false} SamplesFew(rows: seq<Row>, step: nat, n: nat)
    ensures |Samples(rows, step, n)| <= n && forall r :: r in Samples(rows, step, n) ==> r in rows
  {
    if n > 0 {
      SamplesFew(rows, step, n - 1);
      assert n * step >= 0;
    }
  }

  lemma {:induction false} FourthFew(rows: seq<Row>)
    ensures |EveryFourth(rows)| <= |rows| && forall r :: r in EveryFourth(rows) ==> r in rows
    decreases |rows|
  {
    if rows != [] { FourthFew(if |rows| < 4 then [] else rows[4..]); }
  }

  // There are fewer splitters than workers, and they are rows.
  lemma FewSplitters(rows: seq<Row>, workers: nat, splitters: seq<Row>, keys: seq<SortKey>)
    requires workers >= 2 && SplitsBy(rows, workers, splitters, keys)
    ensures |splitters| < workers && forall r :: r in splitters ==> r in rows
  {
    var samples := Samples(rows, SampleStep(|rows|, workers), workers - 1);
    var sorted :| Sorts(samples, sorted, keys) && splitters == EveryFourth(sorted);
    SamplesFew(rows, SampleStep(|rows|, workers), workers - 1);
    FourthFew(sorted);
    assert |sorted| == |multiset(sorted)| == |samples|;
    forall r | r in splitters ensures r in rows { assert r in multiset(sorted); }
  }

  function AllParts(rows: seq<Row>, splitters: seq<Row>, keys: seq<SortKey>): (parts: seq<seq<Row>>)
    ensures |parts| == |splitters| + 1
  {
    seq(|splitters| + 1, i requires 0 <= i => Part(rows, splitters, keys, i))
  }

  lemma {:induction false} ConcatMore(parts: seq<seq<Row>>, i: nat, row: Row)
    requires i < |parts|
    ensures multiset(Concat(parts[i := [row] + parts[i]])) == multiset{row} + multiset(Concat(parts))
  {
    hide Concat;
    var n := |parts| - 1;
    var parts' := parts[i := [row] + parts[i]];
    ConcatLast(parts);
    ConcatLast(parts');
    if i == n {
      assert parts'[..n] == parts[..n];
    } else {
      ConcatMore(parts[..n], i, row);
      assert parts'[..n] == parts[..n][i := [row] + parts[i]];
    }
  }

  lemma ConcatLast(parts: seq<seq<Row>>)
    requires parts != []
    ensures var n := |parts| - 1; multiset(Concat(parts)) == multiset(Concat(parts[..n])) + multiset(parts[n])
  {
  }

  lemma {:induction false} ConcatNothing(parts: seq<seq<Row>>)
    requires forall i :: 0 <= i < |parts| ==> parts[i] == []
    ensures Concat(parts) == []
  {
    if parts != [] { ConcatNothing(parts[..|parts| - 1]); }
  }

  // Every row goes into one part.
  lemma {:induction false} PartsPermute(rows: seq<Row>, splitters: seq<Row>, keys: seq<SortKey>)
    ensures multiset(Concat(AllParts(rows, splitters, keys))) == multiset(rows)
  {
    hide PartOf, LessRow, Concat;
    if rows == [] {
      ConcatNothing(AllParts(rows, splitters, keys));
    } else {
      var rest, i := AllParts(rows[1..], splitters, keys), PartOf(rows[0], splitters, keys);
      PartsPermute(rows[1..], splitters, keys);
      ConcatMore(rest, i, rows[0]);
      forall j | 0 <= j <= |splitters|
        ensures AllParts(rows, splitters, keys)[j] == rest[i := [rows[0]] + rest[i]][j]
      {
      }
      assert AllParts(rows, splitters, keys) == rest[i := [rows[0]] + rest[i]];
      assert rows == [rows[0]] + rows[1..];
    }
  }

  lemma {:induction false} ConcatPermutes(a: seq<seq<Row>>, b: seq<seq<Row>>)
    requires |a| == |b| && forall i :: 0 <= i < |a| ==> multiset(a[i]) == multiset(b[i])
    ensures multiset(Concat(a)) == multiset(Concat(b))
  {
    if a != [] { ConcatPermutes(a[..|a| - 1], b[..|b| - 1]); }
  }

  // What the sample sort gives is one stable sort wherever there is an order, and the
  // same rows anyway.
  lemma SampleSortSorts(rows: seq<Row>, workers: nat, splitters: seq<Row>, parts: seq<seq<Row>>, out: seq<Row>,
                        keys: seq<SortKey>)
    requires SampleSorted(rows, workers, splitters, parts, out, keys)
    ensures Sorts(rows, out, keys)
  {
    hide LessRow, Concat, StableSort, SplitsBy, Part, Weak, Among;
    assert multiset(out) == multiset(rows) by {
      PartsPermute(rows, splitters, keys);
      ConcatPermutes(parts, AllParts(rows, splitters, keys));
    }
    forall all | Weak(all, keys) && Among(rows, all) ensures StableSort(rows, out, all, keys) {
      SplittersAmong(rows, workers, splitters, keys, all);
      forall i | 0 <= i < |parts| ensures StableSort(Part(rows, splitters, keys, i), parts[i], all, keys) {
        PartMembers(rows, splitters, keys, i, all);
      }
      SampleSortIsStable(rows, parts, splitters, all, keys);
    }
  }

  lemma SplittersAmong(rows: seq<Row>, workers: nat, splitters: seq<Row>, keys: seq<SortKey>, all: set<Row>)
    requires workers >= 2 && SplitsBy(rows, workers, splitters, keys) && Among(rows, all)
    ensures Among(splitters, all)
  {
    hide SplitsBy;
    FewSplitters(rows, workers, splitters, keys);
    forall i | 0 <= i < |splitters| ensures splitters[i] in all { assert splitters[i] in rows; }
  }

  // ---------------------------------------------------------------- what a stable sort is

  ghost predicate OneTypeEach(rows: seq<Row>, keys: seq<SortKey>) {
    forall i, j :: 0 <= i < |rows| && 0 <= j < |rows| ==> Alike(rows[i], rows[j], keys)
  }

  predicate SameTo(a: Row, b: Row, keys: seq<SortKey>, k: nat)
    requires k <= |keys|
  {
    forall d :: 0 <= d < k ==> Get(a, keys[d].col) == Get(b, keys[d].col)
  }

  // In the first sort column in which the rows differ, the values ascend or descend as
  // the key says.
  ghost predicate ColumnsInOrder(a: Row, b: Row, keys: seq<SortKey>) {
    forall k :: 0 <= k < |keys| && SameTo(a, b, keys, k) && Get(a, keys[k].col) != Get(b, keys[k].col) ==>
      if keys[k].ascending then Below(Get(a, keys[k].col), Get(b, keys[k].col))
      else Below(Get(b, keys[k].col), Get(a, keys[k].col))
  }

  // The rows that have the same values as x in all sort columns, in order.
  function Likes(rows: seq<Row>, x: Row, keys: seq<SortKey>): seq<Row> {
    if rows == [] then []
    else (if SameTo(rows[0], x, keys, |keys|) then [rows[0]] else []) + Likes(rows[1..], x, keys)
  }

  lemma DifferMeans(a: Value, b: Value)
    requires SameKind(a, b)
    ensures a == b <==> Even(a, b)
  {
    if a.Str? && b.Str? { RankInjective(a.s, b.s); }
  }

  lemma NotLessMeans(a: Row, b: Row, keys: seq<SortKey>)
    requires Alike(a, b, keys) && !LessRow(b, a, keys)
    ensures ColumnsInOrder(a, b, keys)
  {
    hide Below, LessRow, SameKind;
    LessRowMeans(b, a, keys);
    forall k | 0 <= k < |keys| && SameTo(a, b, keys, k) && Get(a, keys[k].col) != Get(b, keys[k].col)
      ensures if keys[k].ascending then Below(Get(a, keys[k].col), Get(b, keys[k].col))
              else Below(Get(b, keys[k].col), Get(a, keys[k].col))
    {
      DifferMeans(Get(a, keys[k].col), Get(b, keys[k].col));
      forall d | 0 <= d < k ensures Even(Get(b, keys[d].col), Get(a, keys[d].col)) {
        DifferMeans(Get(a, keys[d].col), Get(b, keys[d].col));
      }
      NotLessAt(b, a, keys, k);
    }
  }

  lemma NotLessAt(a: Row, b: Row, keys: seq<SortKey>, k: int)
    requires !LessSomewhere(a, b, keys)
    ensures !LessAt(a, b, keys, k)
  {
  }

  lemma {:induction false} TiesMean(a: Row, b: Row, keys: seq<SortKey>)
    requires Alike(a, b, keys)
    ensures Ties(a, b, keys) <==> SameTo(a, b, keys, |keys|)
  {
    hide Even, Below, CompareValues, SameKind;
    if keys != [] {
      var x, y := Get(a, keys[0].col), Get(b, keys[0].col);
      DifferMeans(x, y);
      CompareMeans(x, y);
      CompareMeans(y, x);
      EvenBoth(x, y);
      assert Alike(a, b, keys[1..]);
      TiesMean(a, b, keys[1..]);
      assert SameTo(a, b, keys, |keys|) <==> x == y && SameTo(a, b, keys[1..], |keys| - 1) by {
        assert forall d :: 0 < d < |keys| ==> keys[d] == keys[1..][d - 1];
        assert forall d :: 0 <= d < |keys| - 1 ==> keys[1..][d] == keys[d + 1];
      }
    }
  }

  lemma EvenBoth(a: Value, b: Value)
    ensures Even(a, b) <==> Even(b, a)
    ensures Below(a, b) ==> !Even(a, b)
  {
  }

  lemma {:induction false} TiedMeans(rows: seq<Row>, x: Row, keys: seq<SortKey>)
    requires forall i :: 0 <= i < |rows| ==> Alike(rows[i], x, keys)
    ensures Tied(rows, x, keys) == Likes(rows, x, keys)
  {
    hide Ties, Alike, SameTo;
    if rows != [] {
      TiesMean(rows[0], x, keys);
      TiedMeans(rows[1..], x, keys);
    }
  }

  // The output holds the same rows.  For one type a column, it is in the order of the
  // columns, and rows with the same sort columns keep their order.
  ghost predicate SortedByColumns(rows: seq<Row>, out: seq<Row>, keys: seq<SortKey>) {
    && multiset(out) == multiset(rows)
    && (OneTypeEach(rows, keys) ==>
          && (forall i, j :: 0 <= i < j < |out| ==> ColumnsInOrder(out[i], out[j], keys))
          && forall x :: x in rows ==> Likes(out, x, keys) == Likes(rows, x, keys))
  }

  lemma SortsMeans(rows: seq<Row>, out: seq<Row>, keys: seq<SortKey>)
    requires Sorts(rows, out, keys)
    ensures SortedByColumns(rows, out, keys)
  {
    hide Sorts, OneTypeEach, ColumnsInOrder, Likes;
    SortsPermutes(rows, out, keys);
    if OneTypeEach(rows, keys) { OneTypeSorted(rows, out, keys); }
  }

  lemma SortsPermutes(rows: seq<Row>, out: seq<Row>, keys: seq<SortKey>)
    requires Sorts(rows, out, keys)
    ensures multiset(out) == multiset(rows)
  {
  }

  lemma OneTypeSorted(rows: seq<Row>, out: seq<Row>, keys: seq<SortKey>)
    requires Sorts(rows, out, keys) && OneTypeEach(rows, keys)
    ensures forall i, j :: 0 <= i < j < |out| ==> ColumnsInOrder(out[i], out[j], keys)
    ensures forall x :: x in rows ==> Likes(out, x, keys) == Likes(rows, x, keys)
  {
    hide LessRow, Alike, ColumnsInOrder, Tied, Likes;
    var all := set row | row in rows;
    assert Uniform(all, keys);
    UniformIsWeak(all, keys);
    assert StableSort(rows, out, all, keys);
    forall i | 0 <= i < |out| ensures out[i] in rows { assert out[i] in all; }
    forall i, j | 0 <= i < j < |out| ensures ColumnsInOrder(out[i], out[j], keys) {
      assert out[i] in all && out[j] in all;
      NotLessMeans(out[i], out[j], keys);
    }
    forall x | x in rows ensures Likes(out, x, keys) == Likes(rows, x, keys) {
      assert x in all;
      TiedMeans(rows, x, keys);
      TiedMeans(out, x, keys);
    }
  }

  class ParallelSorter {
    var rows: seq<Row>
    const keys: seq<SortKey>
    const workers: nat

    constructor (rows: seq<Row>, keys: seq<SortKey>, workers: nat)
      ensures this.rows == rows && this.keys == keys && this.workers == workers
    {
      this.rows, this.keys, this.workers := rows, keys, workers;
    }

    method SequentialSort()
      modifies this
      ensures Sorts(old(rows), rows, keys)
    {
      rows := SliceStable(rows, keys);
    }

    // Every sampleStep-th row, sorted, and every fourth of those.
    method PickSplitters() returns (splitters: seq<Row>)
      requires workers >= 2
      ensures SplitsBy(rows, workers, splitters, keys)
    {
      hide Sorts;
      var sampleStep := |rows| / (workers * 4);
      if sampleStep < 1 {
        sampleStep := 1;
      }
      var samples := [];
      for i := 0 to workers - 1
        invariant samples == Samples(rows, sampleStep, i)
      {
        var idx := (i + 1) * sampleStep;
        if idx < |rows| {
          assert 0 <= idx;
          samples := samples + [rows[idx]];
        }
      }
      samples := SliceStable(samples, keys);
      splitters := [];
      var i := 0;
      while i < |samples|
        invariant i <= |samples| + 3
        invariant splitters + EveryFourth(if i < |samples| then samples[i..] else []) == EveryFourth(samples)
      {
        FourthStep(samples[i..]);
        assert i + 4 <= |samples| ==> samples[i..][4..] == samples[i + 4..];
        splitters := splitters + [samples[i]];
        i := i + 4;
      }
    }

    // One stable sort per part; failAt is the part at which the pool refuses a job, if there is one.
    method SortParts(parts: seq<seq<Row>>, failAt: nat) returns (ok: bool, sorted: seq<seq<Row>>)
      ensures ok <==> failAt >= |parts|
      ensures ok ==> |sorted| == |parts| && forall i :: 0 <= i < |parts| ==> Sorts(parts[i], sorted[i], keys)
    {
      hide Sorts;
      sorted := [];
      for i := 0 to |parts|
        invariant |sorted| == i <= failAt && forall j :: 0 <= j < i ==> Sorts(parts[j], sorted[j], keys)
      {
        if i == failAt { return false, []; }
        var part := SliceStable(parts[i], keys);
        sorted := sorted + [part];
      }
      return true, sorted;
    }

    // The rows are sorted as by one stable sort.  With at least two workers, two rows for
    // each, and a pool that takes every job, it is the sample sort that sorts them.
    method ParallelSort(failAt: nat)
      modifies this
      ensures Sorts(old(rows), rows, keys) && SortedByColumns(old(rows), rows, keys)
      ensures workers >= 2 && |old(rows)| >= workers * 2 && failAt >= workers ==>
                SampleSorts(old(rows), workers, rows, keys)
    {
      hide Sorts, SplitsBy, SortedByColumns;
      if workers < 2 || |rows| < workers * 2 {
        SequentialSort();
        SortsMeans(old(rows), rows, keys);
        return;
      }
      var splitters := PickSplitters();
      var parts := PartitionBySplitters(rows, splitters, keys);
      var ok, sorted := SortParts(parts, failAt);
      if !ok {
        FewSplitters(rows, workers, splitters, keys);
        SequentialSort();
        SortsMeans(old(rows), rows, keys);
        return;
      }
      ghost var start := rows;
      rows := Merge(sorted);
      assert SampleSorted(start, workers, splitters, sorted, rows, keys);
      SampleSortSorts(start, workers, splitters, sorted, rows, keys);
      SortsMeans(start, rows, keys);
    }
  }

  method Merge(sorted: seq<seq<Row>>) returns (merged: seq<Row>)
    ensures merged == Concat(sorted)
  {
    merged := [];
    for i := 0 to |sorted|
      invariant merged == Concat(sorted[..i])
    {
      assert sorted[..i + 1][..i] == sorted[..i];
      merged := merged + sorted[i];
    }
    assert sorted[..|sorted|] == sorted;
  }

  // ---------------------------------------------------------------- when there is a stable sort

  lemma {:induction false} SortExists(rows: seq<Row>, all: set<Row>, keys: seq<SortKey>) returns (out: seq<Row>)
    requires Weak(all, keys) && Among(rows, all)
    ensures StableSort(rows, out, all, keys)
  {
    out := [];
    if rows != [] {
      var n := |rows| - 1;
      var sorted := SortExists(rows[..n], all, keys);
      var p := 0;
      while p < |sorted| && !LessRow(rows[n], sorted[p], keys)
        invariant p <= |sorted| && forall i :: 0 <= i < p ==> !LessRow(rows[n], sorted[i], keys)
      {
        p := p + 1;
      }
      InsertNext(rows, n, sorted, p, all, keys);
      out := sorted[..p] + [rows[n]] + sorted[p..];
      assert rows[..n + 1] == rows;
    }
  }

  // Ties keep their positions in the list of ties.
  lemma {:induction false} TiedOrder(rows: seq<Row>, i: nat, j: nat, x: Row, keys: seq<SortKey>)
    returns (p: nat, q: nat)
    requires i < j < |rows| && Ties(rows[i], x, keys) && Ties(rows[j], x, keys)
    ensures p < q < |Tied(rows, x, keys)| && Tied(rows, x, keys)[p] == rows[i] && Tied(rows, x, keys)[q] == rows[j]
  {
    hide Ties;
    var first := if Ties(rows[0], x, keys) then 1 else 0;
    if i == 0 {
      TiedIn(rows[1..], x, keys);
      assert rows[j] == rows[1..][j - 1] && rows[j] in Tied(rows[1..], x, keys);
      var r: nat :| r < |Tied(rows[1..], x, keys)| && Tied(rows[1..], x, keys)[r] == rows[j];
      p, q := 0, r + 1;
    } else {
      var r, t := TiedOrder(rows[1..], i - 1, j - 1, x, keys);
      p, q := r + first, t + first;
    }
  }

  predicate InOrder(rows: seq<Row>, u: Row, v: Row) {
    forall i, j :: 0 <= i < |rows| && 0 <= j < |rows| && rows[i] == u && rows[j] == v ==> i < j
  }

  // A stable sort keeps two rows in their order if the second one is not less.
  lemma KeptInOrder(rows: seq<Row>, out: seq<Row>, u: Row, v: Row, all: set<Row>, keys: seq<SortKey>)
    requires StableSort(rows, out, all, keys) && u in all && v in all && u in rows && v in rows
    requires u != v && !LessRow(v, u, keys) && (Ties(u, v, keys) ==> InOrder(Tied(rows, u, keys), u, v))
    ensures u in out && v in out && InOrder(out, u, v)
  {
    hide LessRow;
    LessRowAsymmetric(u, u, keys);
    LessRowAsymmetric(v, v, keys);
    TiedIn(rows, u, keys);
    TiedIn(rows, v, keys);
    TiedIn(out, u, keys);
    TiedIn(out, v, keys);
    assert Tied(rows, u, keys) == Tied(out, u, keys) && Tied(rows, v, keys) == Tied(out, v, keys);
    hide Tied;
    forall i, j | 0 <= i < |out| && 0 <= j < |out| && out[i] == u && out[j] == v ensures i < j {
      if j < i && Ties(u, v, keys) {
        var p, q := TiedOrder(out, j, i, u, keys);
      }
    }
  }

  lemma {:induction false} TiedInOrder(rows: seq<Row>, x: Row, u: Row, v: Row, keys: seq<SortKey>)
    requires u != v && InOrder(rows, u, v)
    ensures InOrder(Tied(rows, x, keys), u, v)
  {
    hide LessRow;
    if rows != [] {
      assert InOrder(rows[1..], u, v) by {
        forall i, j | 0 <= i < |rows| - 1 && 0 <= j < |rows| - 1 && rows[1..][i] == u && rows[1..][j] == v
          ensures i < j
        {
          assert rows[i + 1] == u && rows[j + 1] == v;
        }
      }
      TiedInOrder(rows[1..], x, u, v, keys);
      TiedIn(rows[1..], x, keys);
    }
  }

  lemma ChainUnsorted(out: seq<Row>, a: Row, b: Row, c: Row, keys: seq<SortKey>)
    requires a in out && b in out && c in out && InOrder(out, a, b) && InOrder(out, b, c) && LessRow(c, a, keys)
    ensures !SortedRows(out, keys)
  {
    hide LessRow;
    var i :| 0 <= i < |out| && out[i] == a;
    var j :| 0 <= j < |out| && out[j] == b;
    var k :| 0 <= k < |out| && out[k] == c;
    assert i < j < k;
  }

  // Where rows a, b, c that break the order stand in this order, there is no stable sort.
  lemma NoStableSort(rows: seq<Row>, a: Row, b: Row, c: Row, out: seq<Row>, all: set<Row>, keys: seq<SortKey>)
    requires a in all && b in all && c in all && !PassesOn(a, b, c, keys)
    requires a in rows && b in rows && c in rows && InOrder(rows, a, b) && InOrder(rows, b, c)
    ensures !StableSort(rows, out, all, keys)
  {
    hide LessRow, SortedRows, Tied, InOrder;
    LessRowAsymmetric(a, c, keys);
    LessRowAsymmetric(c, a, keys);
    if StableSort(rows, out, all, keys) {
      TiedInOrder(rows, a, a, b, keys);
      TiedInOrder(rows, b, b, c, keys);
      KeptInOrder(rows, out, a, b, all, keys);
      KeptInOrder(rows, out, b, c, all, keys);
      ChainUnsorted(out, a, b, c, keys);
    }
  }

  // Every list of the rows has a stable sort exactly if lessRow is a strict weak order
  // on them; then it is unique and the sample sort finds it.
  lemma StableSortExists(all: set<Row>, keys: seq<SortKey>)
    ensures Weak(all, keys) <==> forall rows :: Among(rows, all) ==> exists out :: StableSort(rows, out, all, keys)
  {
    if Weak(all, keys) {
      forall rows | Among(rows, all) ensures exists out :: StableSort(rows, out, all, keys) {
        var out := SortExists(rows, all, keys);
      }
    } else {
      var a, b, c :| a in all && b in all && c in all && !PassesOn(a, b, c, keys);
      assert Among([a, b, c], all);
      LessRowAsymmetric(a, c, keys);
      LessRowAsymmetric(a, a, keys);
      assert a == [a, b, c][0] && b == [a, b, c][1] && c == [a, b, c][2];
      forall out ensures !StableSort([a, b, c], out, all, keys) { NoStableSort([a, b, c], a, b, c, out, all, keys); }
    }
  }

  lemma ConcatTwo(a: seq<Row>, b: seq<Row>)
    ensures Concat([a, b]) == a + b
  {
    var one := [a];
    assert one[..0] == [] && one[0] == a;
    assert Concat(one) == [] + a == a;
    assert [a, b][..1] == one;
  }

  // One row is less than one other, and no more is known to be less.
  ghost predicate OnlyLess(one: Row, two: Row, letter: Row, keys: seq<SortKey>) {
    && one != two && one != letter && two != letter
    && forall a, b :: a in {one, two, letter} && b in {one, two, letter} ==>
         (LessRow(a, b, keys) <==> a == one && b == two)
  }

  lemma MixedRows(col: string)
    ensures OnlyLess(map[col := Int(1)], map[col := Int(2)], map[col := Str([97])], [SortKey(col, true)])
  {
    var one, two, letter := map[col := Int(1)], map[col := Int(2)], map[col := Str([97])];
    assert two[col] != one[col] && two[col] != letter[col] && one[col] != letter[col];
    forall a, b | a in {one, two, letter} && b in {one, two, letter}
      ensures LessRow(a, b, [SortKey(col, true)]) <==> a == one && b == two
    {
      OneColumn(a, b, SortKey(col, true));
    }
  }

  // Rows none of which is less than another are sorted as they stand.
  lemma Unmoved(rows: seq<Row>, out: seq<Row>, all: set<Row>, keys: seq<SortKey>)
    requires Among(rows, all) && Sorts(rows, out, keys)
    requires forall a, b :: a in all && b in all ==> !LessRow(a, b, keys)
    ensures out == rows
  {
    hide LessRow, Tied;
    assert Weak(all, keys);
    StableSortUnique(rows, out, all, keys);
  }

  // The run on 2, 2, 'a', 1 with two workers: the splitter is 2.
  lemma MixedSplitters(one: Row, two: Row, letter: Row, splitters: seq<Row>, keys: seq<SortKey>)
    requires OnlyLess(one, two, letter, keys) && SplitsBy([two, two, letter, one], 2, splitters, keys)
    ensures splitters == [two]
  {
    hide LessRow, Sorts;
    var rows := [two, two, letter, one];
    assert Samples(rows, 1, 0) == [] && Samples(rows, 1, 1) == [two];
    assert SampleStep(|rows|, 2) == 1;
    var sorted :| Sorts(Samples(rows, 1, 1), sorted, keys) && splitters == EveryFourth(sorted);
    Unmoved([two], sorted, {two}, keys);
    assert EveryFourth([two]) == [two] + EveryFourth([]);
  }

  lemma MixedParts(one: Row, two: Row, letter: Row, keys: seq<SortKey>)
    requires OnlyLess(one, two, letter, keys)
    ensures Part([two, two, letter, one], [two], keys, 0) == [one]
    ensures Part([two, two, letter, one], [two], keys, 1) == [two, two, letter]
  {
    hide LessRow;
    var none: seq<Row> := [];
    assert [two][1..] == none;
    assert [one][1..] == none && [letter, one][1..] == [one] && [two, letter, one][1..] == [letter, one];
    assert [two, two, letter, one][1..] == [two, letter, one];
    assert Part(none, [two], keys, 0) == none && Part(none, [two], keys, 1) == none;
    assert Part([one], [two], keys, 0) == [one] && Part([one], [two], keys, 1) == none;
    assert Part([letter, one], [two], keys, 0) == [one] && Part([letter, one], [two], keys, 1) == [letter];
    assert Part([two, letter, one], [two], keys, 0) == [one];
    assert Part([two, letter, one], [two], keys, 1) == [two, letter];
  }

  lemma MixedOutput(one: Row, two: Row, letter: Row, out: seq<Row>, keys: seq<SortKey>)
    requires OnlyLess(one, two, letter, keys) && SampleSorts([two, two, letter, one], 2, out, keys)
    ensures out == [one, two, two, letter]
  {
    hide LessRow, Sorts, SplitsBy, Concat, Part;
    var rows := [two, two, letter, one];
    var splitters, parts :| SampleSorted(rows, 2, splitters, parts, out, keys);
    MixedSplitters(one, two, letter, splitters, keys);
    MixedParts(one, two, letter, keys);
    Unmoved([one], parts[0], {one}, keys);
    Unmoved([two, two, letter], parts[1], {two, letter}, keys);
    assert parts == [[one], [two, two, letter]];
    ConcatTwo([one], [two, two, letter]);
  }

  // With 2, 2, 'a', 1 in a column and two workers, one worker sorts 1 and the other one
  // 2, 2, 'a', both stably, and 1 overtakes 'a', with which it ties.  What comes out is
  // no stable sort, and there is none.
  method MixedTypesBreakTies(col: string) returns (rows: seq<Row>, out: seq<Row>)
    ensures var two, letter, one := map[col := Int(2)], map[col := Str([97])], map[col := Int(1)];
            rows == [two, two, letter, one] && out == [one, two, two, letter] && Ties(one, letter, [SortKey(col, true)])
    ensures SampleSorts(rows, 2, out, [SortKey(col, true)])
    ensures forall sorted, all :: Among(rows, all) ==> !StableSort(rows, sorted, all, [SortKey(col, true)])
  {
    hide LessRow, Sorts, SampleSorts, StableSort, SortedByColumns;
    var keys := [SortKey(col, true)];
    var two, letter, one := map[col := Int(2)], map[col := Str([97])], map[col := Int(1)];
    rows := [two, two, letter, one];
    var sorter := new ParallelSorter(rows, keys, 2);
    sorter.ParallelSort(2);
    out := sorter.rows;
    MixedRows(col);
    MixedOutput(one, two, letter, out, keys);
    forall sorted, all | Among(rows, all) ensures !StableSort(rows, sorted, all, keys) {
      MixedUnsorted(one, two, letter, sorted, all, keys);
    }
  }

  lemma MixedUnsorted(one: Row, two: Row, letter: Row, out: seq<Row>, all: set<Row>, keys: seq<SortKey>)
    requires OnlyLess(one, two, letter, keys) && Among([two, two, letter, one], all)
    ensures !StableSort([two, two, letter, one], out, all, keys)
  {
    hide LessRow, StableSort;
    var rows := [two, two, letter, one];
    assert rows[0] == two && rows[2] == letter && rows[3] == one;
    NoStableSort(rows, two, letter, one, out, all, keys);
  }
}
