// The vectorized pipeline (internal/SQL/EX/operators_vec.go, aggregate_vec.go): a scan
// turns rows into batches, a filter sets selections, and COUNT and SUM fold them.
// Each result is that of the loop over the rows.
module VecPipeline {
  import opened Bytes
  import opened Codec
  import opened VecEval

  type Row = seq<Cell>

  datatype Type = IntType | FloatType | TextType

  predicate OfType(v: Cell, t: Type) {
    (v.IntCell? && t.IntType?) || (v.FloatCell? && t.FloatType?) || (v.StrCell? && t.TextType?)
  }

  // A row without NULL, in the order of the schema.
  predicate RowFits(row: Row, types: seq<Type>) {
    |row| == |types| && forall c :: 0 <= c < |types| ==> OfType(row[c], types[c])
  }

  predicate PredFits(p: Pred, types: seq<Type>) {
    match p
    case ColLit(c, _, lit) => c < |types| && OfType(lit, types[c])
    case LitCol(lit, _, c) => c < |types| && OfType(lit, types[c])
    case ColCol(c, _, d) => c < |types| && d < |types| && types[c] == types[d]
    case Not(q) => PredFits(q, types)
  }

  // The predicate on a row, and the rows on which it holds.
  predicate RowHolds(p: Pred, row: Row, types: seq<Type>)
    requires RowFits(row, types) && PredFits(p, types)
  {
    match p
    case ColLit(c, op, lit) => CellOp(row[c], lit, op)
    case LitCol(lit, op, c) => CellOp(lit, row[c], op)
    case ColCol(c, op, d) => CellOp(row[c], row[d], op)
    case Not(q) => !RowHolds(q, row, types)
  }

  predicate Passes(p: Option<Pred>, row: Row, types: seq<Type>)
    requires RowFits(row, types) && (p.Some? ==> PredFits(p.value, types))
  {
    p.None? || RowHolds(p.value, row, types)
  }

  predicate AllFit(rows: seq<Row>, types: seq<Type>) {
    forall i :: 0 <= i < |rows| ==> RowFits(rows[i], types)
  }

  function Filtered(p: Option<Pred>, rows: seq<Row>, types: seq<Type>): seq<Row>
    requires AllFit(rows, types) && (p.Some? ==> PredFits(p.value, types))
  {
    if rows == [] then []
    else
      var n := |rows| - 1;
      Filtered(p, rows[..n], types) + if Passes(p, rows[n], types) then [rows[n]] else []
  }

  // int64 addition wraps around.
  function Wrap(x: int): int64 {
    (x + 0x8000_0000_0000_0000) % 0x1_0000_0000_0000_0000 - 0x8000_0000_0000_0000
  }

  lemma WrapMeans(x: int)
    ensures (Wrap(x) - x) % 0x1_0000_0000_0000_0000 == 0
  {
  }

  lemma WrapAdd(a: int, b: int)
    ensures Wrap(Wrap(a) + b) == Wrap(a + b)
  {
  }

  function SumOf(rows: seq<Row>, c: nat): int
    requires forall i :: 0 <= i < |rows| ==> c < |rows[i]| && rows[i][c].IntCell?
  {
    if rows == [] then 0 else SumOf(rows[..|rows| - 1], c) + rows[|rows| - 1][c].i
  }

  // ---------------------------------------------------------------- batches of rows

  predicate ColOfType(c: Column, t: Type) {
    (c.Ints? && t.IntType?) || (c.Floats? && t.FloatType?) || (c.Strs? && t.TextType?)
  }

  predicate Columns(b: Batch, types: seq<Type>) {
    BatchFits(b) && |b.cols| == |types| && forall c :: 0 <= c < |types| ==> ColOfType(b.cols[c], types[c])
  }

  function RowAt(b: Batch, types: seq<Type>, i: nat): (row: Row)
    requires Columns(b, types) && i < b.size
    ensures RowFits(row, types)
  {
    seq(|types|, c requires 0 <= c < |types| => CellAt(b.cols[c], i))
  }

  // The batch holds these rows, before any selection.
  ghost predicate HoldsRows(b: Batch, types: seq<Type>, rows: seq<Row>) {
    && Columns(b, types) && b.size == |rows| && AllFit(rows, types)
    && forall i :: 0 <= i < |rows| ==> RowAt(b, types, i) == rows[i]
  }

  function Empty(t: Type): Column {
    match t
    case IntType => Ints(seq(BATCH_SIZE, _ => 0))
    case FloatType => Floats(seq(BATCH_SIZE, _ => 0.0))
    case TextType => Strs(seq(BATCH_SIZE, _ => []))
  }

  // AppendRow for a value of the column's type.
  function Store(c: Column, i: nat, v: Cell): Column
    requires SameType(c, v) && i < ColLen(c)
  {
    match c
    case Ints(d) => Ints(d[i := v.i])
    case Floats(d) => Floats(d[i := v.r])
    case Strs(d) => Strs(d[i := v.s])
  }

  // The buffers of a batch: one column of BATCH_SIZE cells for each type.
  predicate Buffers(cols: seq<Column>, types: seq<Type>) {
    |cols| == |types| && forall c :: 0 <= c < |types| ==> ColOfType(cols[c], types[c]) && ColLen(cols[c]) == BATCH_SIZE
  }

  lemma StoreAt(c: Column, i: nat, v: Cell, j: nat)
    requires SameType(c, v) && ColLen(c) == BATCH_SIZE && i < BATCH_SIZE && j < BATCH_SIZE
    ensures ColLen(Store(c, i, v)) == BATCH_SIZE && CellAt(Store(c, i, v), j) == if j == i then v else CellAt(c, j)
  {
  }

  lemma TypedColumns(p: Pred, b: Batch, types: seq<Type>)
    requires Columns(b, types) && PredFits(p, types)
    ensures Typed(p, b.cols)
  {
    if p.Not? { TypedColumns(p.arg, b, types); }
  }

  lemma {:induction false} HoldsOnRow(p: Pred, b: Batch, types: seq<Type>, i: nat)
    requires Columns(b, types) && PredFits(p, types) && Typed(p, b.cols) && i < b.size
    ensures HoldsAt(p, b, i) == RowHolds(p, RowAt(b, types, i), types)
  {
    if p.Not? { HoldsOnRow(p.arg, b, types, i); }
  }

  // The rows that a selection stands for.
  function Picked(sel: seq<nat>, rows: seq<Row>): seq<Row>
    requires forall k :: 0 <= k < |sel| ==> sel[k] < |rows|
  {
    if sel == [] then [] else Picked(sel[..|sel| - 1], rows) + [rows[sel[|sel| - 1]]]
  }

  lemma {:induction false} SelectPicks(p: Option<Pred>, flags: seq<bool>, rows: seq<Row>, types: seq<Type>, n: nat)
    requires AllFit(rows, types) && (p.Some? ==> PredFits(p.value, types)) && n <= |rows| == |flags|
    requires forall i :: 0 <= i < |rows| ==> flags[i] == Passes(p, rows[i], types)
    ensures Picked(Select(flags, n), rows) == Filtered(p, rows[..n], types)
  {
    hide Passes;
    if n > 0 {
      SelectPicks(p, flags, rows, types, n - 1);
      assert rows[..n][..n - 1] == rows[..n - 1];
      var before := Select(flags, n - 1);
      assert (before + [n - 1])[..|before|] == before && before + [] == before;
      assert Filtered(p, rows[..n - 1], types) + [] == Filtered(p, rows[..n - 1], types);
    }
  }

  // ---------------------------------------------------------------- scan and filter

  class Scan {
    const source: seq<Row>
    const types: seq<Type>
    var pos: nat
    var done: bool

    ghost predicate Valid()
      reads this
    {
      AllFit(source, types) && pos <= |source| && (done ==> pos == |source|)
    }

    ghost function Remaining(): (rows: seq<Row>)
      requires Valid()
      reads this
      ensures AllFit(rows, types)
    {
      source[pos..]
    }

    constructor (source: seq<Row>, types: seq<Type>)
      requires AllFit(source, types)
      ensures Valid() && Remaining() == source && this.types == types
    {
      this.source, this.types, pos, done := source, types, 0, false;
    }

    // One row goes into the columns.
    method Append(cols: seq<Column>, size: nat, row: Row) returns (out: seq<Column>)
      requires RowFits(row, types) && Buffers(cols, types) && size < BATCH_SIZE
      ensures Buffers(out, types)
      ensures forall c, j :: 0 <= c < |types| && 0 <= j < BATCH_SIZE ==>
                CellAt(out[c], j) == if j == size then row[c] else CellAt(cols[c], j)
    {
      hide CellAt, Store;
      out := cols;
      for c := 0 to |types|
        invariant Buffers(out, types)
        invariant forall d :: c <= d < |types| ==> out[d] == cols[d]
        invariant forall d, j :: 0 <= d < c && 0 <= j < BATCH_SIZE ==>
                    CellAt(out[d], j) == if j == size then row[d] else CellAt(cols[d], j)
      {
        var stored := StoreCell(cols[c], size, row[c], types[c]);
        out := out[c := stored];
      }
    }

    method StoreCell(c: Column, i: nat, v: Cell, t: Type) returns (out: Column)
      requires ColOfType(c, t) && OfType(v, t) && ColLen(c) == BATCH_SIZE && i < BATCH_SIZE
      ensures ColOfType(out, t) && ColLen(out) == BATCH_SIZE
      ensures forall j :: 0 <= j < BATCH_SIZE ==> CellAt(out, j) == if j == i then v else CellAt(c, j)
    {
      out := Store(c, i, v);
      forall j | 0 <= j < BATCH_SIZE
        ensures ColLen(out) == BATCH_SIZE && CellAt(out, j) == if j == i then v else CellAt(c, j)
      {
        StoreAt(c, i, v, j);
      }
    }

    // Up to BATCH_SIZE of the next rows; nil at the end.
    method NextBatch() returns (b: Option<Batch>)
      requires Valid()
      modifies this
      ensures Valid()
      ensures b.None? ==> Remaining() == old(Remaining()) == []
      ensures b.Some? ==> b.value.sel.None? && 0 < b.value.size <= |old(Remaining())|
      ensures b.Some? ==> HoldsRows(b.value, types, old(Remaining())[..b.value.size])
      ensures b.Some? ==> Remaining() == old(Remaining())[b.value.size..]
    {
      if done {
        return None;
      }
      ghost var start := pos;
      var cols := seq(|types|, c requires 0 <= c < |types| => Empty(types[c]));
      var size := 0;
      while size < BATCH_SIZE
        invariant Valid() && size <= BATCH_SIZE && pos == start + size && !done
        invariant Buffers(cols, types)
        invariant forall c, j :: 0 <= c < |types| && 0 <= j < size ==> CellAt(cols[c], j) == source[start + j][c]
      {
        if pos == |source| {
          done := true;
          break;
        }
        var row := source[pos];
        cols := Append(cols, size, row);
        pos := pos + 1;
        size := size + 1;
      }
      if size == 0 {
        return None;
      }
      var batch := Batch(cols, None, size);
      BatchHolds(batch, types, source[start..start + size]);
      assert source[start..][..size] == source[start..start + size]
             && source[start..][size..] == source[start + size..];
      return Some(batch);
    }
  }

  lemma BatchHolds(b: Batch, types: seq<Type>, rows: seq<Row>)
    requires b.size == |rows| <= BATCH_SIZE && AllFit(rows, types) && Buffers(b.cols, types)
    requires forall c, j :: 0 <= c < |types| && 0 <= j < b.size ==> CellAt(b.cols[c], j) == rows[j][c]
    ensures HoldsRows(b, types, rows)
  {
    forall i | 0 <= i < |rows| ensures RowAt(b, types, i) == rows[i] { assert RowFits(rows[i], types); }
  }

  lemma {:induction false} FilteredCat(p: Option<Pred>, a: seq<Row>, b: seq<Row>, types: seq<Type>)
    requires AllFit(a, types) && AllFit(b, types) && AllFit(a + b, types) && (p.Some? ==> PredFits(p.value, types))
    ensures Filtered(p, a + b, types) == Filtered(p, a, types) + Filtered(p, b, types)
  {
    hide Passes;
    if b == [] {
      assert a + b == a;
    } else {
      var n := |b| - 1;
      assert (a + b)[..|a| + n] == a + b[..n];
      FilteredCat(p, a, b[..n], types);
    }
  }

  class Filter {
    const child: Scan
    const pred: Option<Pred>

    constructor (child: Scan, pred: Option<Pred>)
      ensures this.child == child && this.pred == pred
    {
      this.child, this.pred := child, pred;
    }

    ghost predicate Valid()
      reads this, child
    {
      child.Valid() && (pred.Some? ==> PredFits(pred.value, child.types))
    }

    // The rows still to come out of the filter.
    ghost function Remaining(): (rows: seq<Row>)
      requires Valid()
      reads this, child
    {
      Filtered(pred, child.Remaining(), child.types)
    }

    // Batches without a matching row are dropped; in the others the selection says which
    // of the rows, held in rows, match.
    method NextBatch() returns (b: Option<Batch>, ghost rows: seq<Row>)
      requires Valid()
      modifies child
      ensures Valid()
      ensures b.None? ==> Remaining() == old(Remaining()) == []
      ensures b.Some? ==> Delivers(b.value, rows, child.types)
      ensures b.Some? ==> old(Remaining()) == Picked(Chosen(b.value.sel, |rows|), rows) + Remaining()
      ensures b.Some? ==> |child.Remaining()| < old(|child.Remaining()|)
    {
      b, rows := None, [];
      var more := true;
      while more
        invariant Valid() && more && old(Remaining()) == Remaining() && |child.Remaining()| <= old(|child.Remaining()|)
        decreases |child.Remaining()|
      {
        ghost var before := child.Remaining();
        var next := child.NextBatch();
        if next.None? {
          return;
        }
        var batch := next.value;
        rows := before[..batch.size];
        assert before == rows + child.Remaining();
        FilteredCat(pred, rows, child.Remaining(), child.types);
        var sel: Option<seq<nat>> := None;
        if pred.Some? {
          TypedColumns(pred.value, batch, child.types);
          sel := EvalBatch(pred.value, batch);
        }
        ChosenRows(pred, batch, rows, sel, child.types);
        if sel.None? {
          return Some(batch), rows;
        }
        if |sel.value| == 0 {
          continue;
        }
        return Some(batch.(sel := sel, size := |sel.value|)), rows;
      }
    }
  }

  // A filtered batch: all of the rows, or the selected ones with the size set to their number.
  ghost predicate Delivers(b: Batch, rows: seq<Row>, types: seq<Type>) {
    && (forall k :: 0 <= k < |Chosen(b.sel, |rows|)| ==> Chosen(b.sel, |rows|)[k] < |rows|)
    && |rows| <= BATCH_SIZE
    && (if b.sel.None? then b.size == |rows| else b.size == |b.sel.value|)
    && HoldsRows(Batch(b.cols, None, |rows|), types, rows)
  }

  lemma ChosenRows(p: Option<Pred>, b: Batch, rows: seq<Row>, sel: Option<seq<nat>>, types: seq<Type>)
    requires HoldsRows(b, types, rows) && (p.Some? ==> PredFits(p.value, types) && Typed(p.value, b.cols))
    requires if p.None? then sel.None? else Chosen(sel, b.size) == Select(Flags(p.value, b), b.size)
    ensures forall k :: 0 <= k < |Chosen(sel, |rows|)| ==> Chosen(sel, |rows|)[k] < |rows|
    ensures Picked(Chosen(sel, |rows|), rows) == Filtered(p, rows, types)
  {
    hide Passes, RowHolds;
    var flags := if p.None? then seq(|rows|, _ => true) else Flags(p.value, b);
    forall i | 0 <= i < |rows| ensures flags[i] == Passes(p, rows[i], types) { FlagPasses(p, b, rows, types, i); }
    if p.None? { SelectAll(flags, |rows|); }
    SelectPicks(p, flags, rows, types, |rows|);
    assert rows[..|rows|] == rows;
  }

  lemma FlagPasses(p: Option<Pred>, b: Batch, rows: seq<Row>, types: seq<Type>, i: nat)
    requires HoldsRows(b, types, rows) && (p.Some? ==> PredFits(p.value, types) && Typed(p.value, b.cols)) && i < |rows|
    ensures Passes(p, rows[i], types) == (p.None? || HoldsAt(p.value, b, i))
  {
    if p.Some? { HoldsOnRow(p.value, b, types, i); }
  }

  // ---------------------------------------------------------------- COUNT and SUM

  lemma {:induction false} PickedLength(sel: seq<nat>, rows: seq<Row>)
    requires forall k :: 0 <= k < |sel| ==> sel[k] < |rows|
    ensures |Picked(sel, rows)| == |sel|
  {
    if sel != [] { PickedLength(sel[..|sel| - 1], rows); }
  }

  // VectorizedCount
  class Counter {
    const child: Filter
    var total: int64
    var done: bool

    constructor (child: Filter)
      ensures this.child == child && total == 0 && !done
    {
      this.child, total, done := child, 0, false;
    }

    // The number of rows that pass the filter, and nil from then on.
    method NextBatch() returns (result: Option<int64>)
      requires child.Valid() && (!done ==> total == 0)
      modifies this, child.child
      ensures child.Valid() && done
      ensures result == if old(done) then None else Some(Wrap(|old(child.Remaining())|))
    {
      if done {
        return None;
      }
      ghost var counted: nat := 0;
      var more := true;
      while more
        invariant child.Valid() && total == Wrap(counted)
        invariant counted + |child.Remaining()| == |old(child.Remaining())|
        invariant !more ==> child.Remaining() == []
        decreases more, |child.child.Remaining()|
      {
        ghost var rows;
        var b;
        b, rows := child.NextBatch();
        if b.None? {
          more := false;
        } else {
          PickedLength(Chosen(b.value.sel, |rows|), rows);
          var n := if b.value.sel.None? then b.value.size else |b.value.sel.value|;
          WrapAdd(counted, n);
          total := Wrap(total + n);
          counted := counted + n;
        }
      }
      done := true;
      return Some(total);
    }
  }

  function SumAt(data: seq<int64>, sel: seq<nat>): int
    requires forall k :: 0 <= k < |sel| ==> sel[k] < |data|
  {
    if sel == [] then 0 else SumAt(data, sel[..|sel| - 1]) + data[sel[|sel| - 1]]
  }

  function SumTo(data: seq<int64>, n: nat): int
    requires n <= |data|
  {
    if n == 0 then 0 else SumTo(data, n - 1) + data[n - 1]
  }

  lemma {:induction false} SumAll(data: seq<int64>, n: nat)
    requires n <= |data|
    ensures SumAt(data, All(n)) == SumTo(data, n)
  {
    if n > 0 {
      SumAll(data, n - 1);
      assert All(n)[..n - 1] == All(n - 1);
    }
  }

  // Adding up the chosen cells of the column is adding up the chosen rows.
  lemma {:induction false} SumPicked(data: seq<int64>, sel: seq<nat>, rows: seq<Row>, c: nat)
    requires forall k :: 0 <= k < |sel| ==> sel[k] < |rows|
    requires |rows| <= |data| && forall i :: 0 <= i < |rows| ==> c < |rows[i]| && rows[i][c] == IntCell(data[i])
    ensures forall i :: 0 <= i < |Picked(sel, rows)| ==> c < |Picked(sel, rows)[i]| && Picked(sel, rows)[i][c].IntCell?
    ensures SumOf(Picked(sel, rows), c) == SumAt(data, sel)
  {
    if sel != [] {
      var n := |sel| - 1;
      SumPicked(data, sel[..n], rows, c);
      var picked := Picked(sel[..n], rows);
      assert (picked + [rows[sel[n]]])[..|picked|] == picked;
    }
  }

  lemma {:induction false} SumCat(a: seq<Row>, b: seq<Row>, c: nat)
    requires forall i :: 0 <= i < |a| ==> c < |a[i]| && a[i][c].IntCell?
    requires forall i :: 0 <= i < |b| ==> c < |b[i]| && b[i][c].IntCell?
    ensures SumOf(a + b, c) == SumOf(a, c) + SumOf(b, c)
  {
    if b == [] {
      assert a + b == a;
    } else {
      var n := |b| - 1;
      assert (a + b)[..|a| + n] == a + b[..n];
      SumCat(a, b[..n], c);
    }
  }

  lemma SumOne(row: Row, c: nat)
    requires c < |row| && row[c].IntCell?
    ensures SumOf([row], c) == row[c].i
  {
    assert [row][..0] == [];
  }

  lemma WrapTwice(a: int, b: int)
    ensures Wrap(Wrap(a) + Wrap(b)) == Wrap(a + b)
  {
  }

  lemma {:induction false} FilteredTyped(p: Option<Pred>, rows: seq<Row>, types: seq<Type>)
    requires AllFit(rows, types) && (p.Some? ==> PredFits(p.value, types))
    ensures AllFit(Filtered(p, rows, types), types)
  {
    hide Passes;
    if rows != [] { FilteredTyped(p, rows[..|rows| - 1], types); }
  }

  // VectorizedSum over a column of integers
  class Adder {
    const child: Filter
    const colIdx: nat
    var intSum: int64
    var done: bool

    constructor (child: Filter, colIdx: nat)
      ensures this.child == child && this.colIdx == colIdx && intSum == 0 && !done
    {
      this.child, this.colIdx, intSum, done := child, colIdx, 0, false;
    }

    // accumulateColumn: along the selection, or four at a time over the whole batch.
    method Accumulate(data: seq<int64>, sel: Option<seq<nat>>, size: nat)
      requires sel.Some? ==> forall k :: 0 <= k < |sel.value| ==> sel.value[k] < |data|
      requires sel.None? ==> size <= |data|
      modifies this`intSum
      ensures intSum == Wrap(old(intSum) + if sel.None? then SumTo(data, size) else SumAt(data, sel.value))
    {
      hide Wrap;
      WrapId(intSum);
      if sel.Some? {
        for k := 0 to |sel.value|
          invariant intSum == Wrap(old(intSum) + SumAt(data, sel.value[..k]))
        {
          assert sel.value[..k + 1][..k] == sel.value[..k];
          var idx := sel.value[k];
          if idx < |data| {
            WrapAdd(old(intSum) + SumAt(data, sel.value[..k]), data[idx]);
            intSum := Wrap(intSum + data[idx]);
          }
        }
        assert sel.value[..|sel.value|] == sel.value;
        return;
      }
      var i := 0;
      var n := |data|;
      if size < n {
        n := size;
      }
      while i + 4 <= n
        invariant i <= n == size && intSum == Wrap(old(intSum) + SumTo(data, i))
      {
        FourMore(data, i);
        WrapTwice(old(intSum) + SumTo(data, i), Four(data, i));
        intSum := Wrap(intSum + Wrap(Four(data, i)));
        i := i + 4;
      }
      while i < n
        invariant i <= n == size && intSum == Wrap(old(intSum) + SumTo(data, i))
      {
        WrapAdd(old(intSum) + SumTo(data, i), data[i]);
        intSum := Wrap(intSum + data[i]);
        i := i + 1;
      }
    }

    // One filtered batch.
    method AddBatch(b: Batch, ghost rows: seq<Row>) returns (ghost part: int)
      requires colIdx < |child.child.types| && child.child.types[colIdx].IntType?
               && Delivers(b, rows, child.child.types)
      modifies this`intSum
      ensures forall k :: 0 <= k < |Chosen(b.sel, |rows|)| ==> Chosen(b.sel, |rows|)[k] < |rows|
      ensures var picked := Picked(Chosen(b.sel, |rows|), rows);
              && (forall i :: 0 <= i < |picked| ==> colIdx < |picked[i]| && picked[i][colIdx].IntCell?)
              && part == SumOf(picked, colIdx) && intSum == Wrap(old(intSum) + part)
    {
      hide Wrap, Delivers;
      DeliveredColumn(b, rows, child.child.types, colIdx);
      var col := b.cols[colIdx];
      SumAll(col.ints, |rows|);
      part := SumAt(col.ints, Chosen(b.sel, |rows|));
      Accumulate(col.ints, b.sel, b.size);
    }

    // The sum of the column over the rows that pass the filter, modulo 2^64.
    method NextBatch() returns (result: Option<int64>)
      requires child.Valid() && (!done ==> intSum == 0)
      requires colIdx < |child.child.types| && child.child.types[colIdx].IntType?
      modifies this, child.child
      ensures child.Valid() && done
      ensures forall i :: 0 <= i < |old(child.Remaining())| ==>
                colIdx < |old(child.Remaining())[i]| && old(child.Remaining())[i][colIdx].IntCell?
      ensures result == if old(done) then None else Some(Wrap(SumOf(old(child.Remaining()), colIdx)))
    {
      hide Wrap, Filtered, Delivers, SumOf, Picked;
      ghost var all := child.Remaining();
      IntColumn(child, colIdx);
      if done {
        return None;
      }
      ghost var summed := 0;
      var more := true;
      WrapId(0);
      while more
        invariant child.Valid() && intSum == Wrap(summed)
        invariant forall i :: 0 <= i < |child.Remaining()| ==>
                    colIdx < |child.Remaining()[i]| && child.Remaining()[i][colIdx].IntCell?
        invariant summed + SumOf(child.Remaining(), colIdx) == SumOf(all, colIdx)
        invariant !more ==> child.Remaining() == []
        decreases more, |child.child.Remaining()|
      {
        ghost var rows;
        var b;
        b, rows := child.NextBatch();
        if b.None? {
          more := false;
        } else {
          IntColumn(child, colIdx);
          ghost var part := AddBatch(b.value, rows);
          SumCat(Picked(Chosen(b.value.sel, |rows|), rows), child.Remaining(), colIdx);
          WrapAdd(summed, part);
          summed := summed + part;
        }
      }
      NoRows(colIdx);
      done := true;
      return Some(intSum);
    }
  }

  lemma NoRows(c: nat)
    ensures SumOf([], c) == 0
  {
  }

  lemma WrapId(x: int64)
    ensures Wrap(x) == x
  {
  }

  function Four(data: seq<int64>, i: nat): int
    requires i + 4 <= |data|
  {
    var a: int, b: int, c: int, d: int := data[i], data[i + 1], data[i + 2], data[i + 3];
    a + b + c + d
  }

  lemma FourMore(data: seq<int64>, i: nat)
    requires i + 4 <= |data|
    ensures SumTo(data, i + 4) == SumTo(data, i) + Four(data, i)
  {
    assert SumTo(data, i + 2) == SumTo(data, i) + data[i] + data[i + 1];
    assert SumTo(data, i + 4) == SumTo(data, i + 2) + data[i + 2] + data[i + 3];
  }

  lemma IntColumn(f: Filter, c: nat)
    requires f.Valid() && c < |f.child.types| && f.child.types[c].IntType?
    ensures forall i :: 0 <= i < |f.Remaining()| ==> c < |f.Remaining()[i]| && f.Remaining()[i][c].IntCell?
  {
    FilteredTyped(f.pred, f.child.Remaining(), f.child.types);
  }

  lemma DeliveredColumn(b: Batch, rows: seq<Row>, types: seq<Type>, c: nat)
    requires Delivers(b, rows, types) && c < |types| && types[c].IntType?
    ensures c < |b.cols| && b.cols[c].Ints? && |rows| <= |b.cols[c].ints|
    ensures b.sel.None? ==> b.size == |rows|
    ensures var sel := Chosen(b.sel, |rows|);
            && (forall k :: 0 <= k < |sel| ==> sel[k] < |rows|)
            && (forall i :: 0 <= i < |Picked(sel, rows)| ==>
                  c < |Picked(sel, rows)[i]| && Picked(sel, rows)[i][c].IntCell?)
            && SumOf(Picked(sel, rows), c) == SumAt(b.cols[c].ints, sel)
  {
    var whole := Batch(b.cols, None, |rows|);
    assert ColOfType(b.cols[c], types[c]) && |rows| <= ColLen(b.cols[c]);
    forall i | 0 <= i < |rows| ensures c < |rows[i]| && rows[i][c] == IntCell(b.cols[c].ints[i]) {
      assert RowAt(whole, types, i)[c] == CellAt(b.cols[c], i);
    }
    SumPicked(b.cols[c].ints, Chosen(b.sel, |rows|), rows, c);
  }
}
