// Predicates over columnar batches (internal/SQL/EX/eval_vec.go): comparison kernels
// with unrolled loops that fill a selection vector, and NOT as its complement.
//
// Columns hold no NULL, and a comparison is between values of one type; other cases
// take the row-at-a-time path of the source.
module VecEval {
  import opened Bytes
  import opened Codec
  import Grouping

  const BATCH_SIZE := 1024

  datatype Op = Eq | Ne | Lt | Le | Gt | Ge | Other

  datatype Cell = IntCell(i: int64) | FloatCell(r: real) | StrCell(s: Key)
  datatype Column = Ints(ints: seq<int64>) | Floats(floats: seq<real>) | Strs(strs: seq<Key>)

  // A nil selection selects every row.
  datatype Batch = Batch(cols: seq<Column>, sel: Option<seq<nat>>, size: nat)

  datatype Pred =
    | ColLit(col: nat, op: Op, lit: Cell)
    | LitCol(lit: Cell, op: Op, col: nat)
    | ColCol(col: nat, op: Op, other: nat)
    | Not(arg: Pred)

  // ---------------------------------------------------------------- comparisons

  function IntOp(a: int64, b: int64, op: Op): bool {
    match op
    case Eq => a == b
    case Ne => a != b
    case Lt => a < b
    case Le => a <= b
    case Gt => a > b
    case Ge => a >= b
    case Other => false
  }

  function FloatOp(a: real, b: real, op: Op): bool {
    match op
    case Eq => a == b
    case Ne => a != b
    case Lt => a < b
    case Le => a <= b
    case Gt => a > b
    case Ge => a >= b
    case Other => false
  }

  function StrOp(a: Key, b: Key, op: Op): bool {
    match op
    case Eq => a == b
    case Ne => a != b
    case Lt => Compare(a, b) < 0
    case Le => Compare(a, b) <= 0
    case Gt => Compare(a, b) > 0
    case Ge => Compare(a, b) >= 0
    case Other => false
  }

  function SwapOp(op: Op): Op {
    match op
    case Lt => Gt
    case Le => Ge
    case Gt => Lt
    case Ge => Le
    case _ => op
  }

  // Comparing the cells of one row; cells of different types do not compare.
  function CellOp(a: Cell, b: Cell, op: Op): bool {
    match (a, b)
    case (IntCell(x), IntCell(y)) => IntOp(x, y, op)
    case (FloatCell(x), FloatCell(y)) => FloatOp(x, y, op)
    case (StrCell(x), StrCell(y)) => StrOp(x, y, op)
    case _ => false
  }

  // `5 < x` means `x > 5`.
  lemma SwapMeans(a: Cell, b: Cell, op: Op)
    ensures CellOp(a, b, op) == CellOp(b, a, SwapOp(op))
  {
    if a.StrCell? && b.StrCell? {
      CompareIsRankOrder(a.s, b.s);
      CompareIsRankOrder(b.s, a.s);
    }
  }

  // Where a cell lies in the order of its type: numbers by size, strings by their bytes.
  ghost function Size(a: Cell): real {
    match a
    case IntCell(i) => i as real
    case FloatCell(r) => r
    case StrCell(s) => Rank(s)
  }

  predicate OneType(a: Cell, b: Cell) {
    (a.IntCell? && b.IntCell?) || (a.FloatCell? && b.FloatCell?) || (a.StrCell? && b.StrCell?)
  }

  // What the kernels answer.
  lemma OpMeans(a: Cell, b: Cell)
    requires OneType(a, b)
    ensures CellOp(a, b, Eq) <==> Size(a) == Size(b)
    ensures CellOp(a, b, Ne) <==> Size(a) != Size(b)
    ensures CellOp(a, b, Lt) <==> Size(a) < Size(b)
    ensures CellOp(a, b, Le) <==> Size(a) <= Size(b)
    ensures CellOp(a, b, Gt) <==> Size(a) > Size(b)
    ensures CellOp(a, b, Ge) <==> Size(a) >= Size(b)
    ensures !CellOp(a, b, Other)
    ensures Size(a) == Size(b) <==> a == b
  {
    if a.StrCell? { CompareIsRankOrder(a.s, b.s); }
  }

  function ValueOf(a: Cell): Grouping.Value {
    match a
    case IntCell(i) => Grouping.Int(i)
    case FloatCell(r) => Grouping.Float(r)
    case StrCell(s) => Grouping.Str(s)
  }

  // What the row-at-a-time path answers: it compares by equalValue and compare.
  function RowOp(a: Cell, b: Cell, op: Op, toFloat: int64 -> real): bool {
    var cmp := Grouping.CompareValue(ValueOf(a), ValueOf(b), toFloat);
    match op
    case Eq => Grouping.EqualValue(ValueOf(a), ValueOf(b), toFloat)
    case Ne => !Grouping.EqualValue(ValueOf(a), ValueOf(b), toFloat)
    case Lt => cmp < 0
    case Le => cmp <= 0
    case Gt => cmp > 0
    case Ge => cmp >= 0
    case Other => false
  }

  ghost predicate Monotone(toFloat: int64 -> real) {
    forall x, y :: x <= y ==> toFloat(x) <= toFloat(y)
  }

  // Two cells that are not different integers converted to one float.
  predicate Apart(a: Cell, b: Cell, toFloat: int64 -> real) {
    a.IntCell? && b.IntCell? ==> a == b || toFloat(a.i) != toFloat(b.i)
  }

  // On strings and floats the row path and the kernels agree; on two integers exactly if
  // these are equal or stay apart as floats.
  lemma RowPathRounds(a: Cell, b: Cell, toFloat: int64 -> real)
    requires OneType(a, b) && Monotone(toFloat)
    ensures (forall op :: RowOp(a, b, op, toFloat) == CellOp(a, b, op)) <==> Apart(a, b, toFloat)
  {
    if a.IntCell? && a != b && toFloat(a.i) == toFloat(b.i) {
      var op := if a.i < b.i then Lt else Gt;
      assert RowOp(a, b, op, toFloat) != CellOp(a, b, op);
    } else if a.StrCell? {
      CompareIsRankOrder(a.s, b.s);
    }
  }

  // float64 keeps every integer up to 2^53 and takes the next one for 2^53: there the
  // paths first part.
  lemma FirstRounding(a: int64, b: int64, toFloat: int64 -> real)
    requires Monotone(toFloat)
    requires forall i: int64 :: -0x20_0000_0000_0000 <= i <= 0x20_0000_0000_0000 ==> toFloat(i) == i as real
    requires toFloat(0x20_0000_0000_0001) == 0x20_0000_0000_0000 as real
    requires -0x20_0000_0000_0000 <= a < b <= 0x20_0000_0000_0001
    ensures (exists op :: RowOp(IntCell(a), IntCell(b), op, toFloat) != CellOp(IntCell(a), IntCell(b), op)) <==>
              a == 0x20_0000_0000_0000
  {
    RowPathRounds(IntCell(a), IntCell(b), toFloat);
  }

  // ---------------------------------------------------------------- rows of a batch

  function ColLen(c: Column): nat {
    match c
    case Ints(d) => |d|
    case Floats(d) => |d|
    case Strs(d) => |d|
  }

  predicate BatchFits(b: Batch) {
    b.size <= BATCH_SIZE && forall i :: 0 <= i < |b.cols| ==> b.size <= ColLen(b.cols[i])
  }

  function CellAt(c: Column, i: nat): Cell
    requires i < ColLen(c)
  {
    match c
    case Ints(d) => IntCell(d[i])
    case Floats(d) => FloatCell(d[i])
    case Strs(d) => StrCell(d[i])
  }

  predicate SameType(c: Column, v: Cell) {
    (c.Ints? && v.IntCell?) || (c.Floats? && v.FloatCell?) || (c.Strs? && v.StrCell?)
  }

  predicate SameTypes(c: Column, d: Column) {
    (c.Ints? && d.Ints?) || (c.Floats? && d.Floats?) || (c.Strs? && d.Strs?)
  }

  // Every comparison is between values of one type.
  predicate Typed(p: Pred, cols: seq<Column>) {
    match p
    case ColLit(c, _, lit) => c < |cols| && SameType(cols[c], lit)
    case LitCol(lit, _, c) => c < |cols| && SameType(cols[c], lit)
    case ColCol(c, _, d) => c < |cols| && d < |cols| && SameTypes(cols[c], cols[d])
    case Not(q) => Typed(q, cols)
  }

  // The predicate on one row of the batch.
  predicate HoldsAt(p: Pred, b: Batch, i: nat)
    requires BatchFits(b) && Typed(p, b.cols) && i < b.size
  {
    match p
    case ColLit(c, op, lit) => CellOp(CellAt(b.cols[c], i), lit, op)
    case LitCol(lit, op, c) => CellOp(lit, CellAt(b.cols[c], i), op)
    case ColCol(c, op, d) => CellOp(CellAt(b.cols[c], i), CellAt(b.cols[d], i), op)
    case Not(q) => !HoldsAt(q, b, i)
  }

  // What the row-at-a-time path answers for that row.
  predicate RowPath(p: Pred, b: Batch, i: nat, toFloat: int64 -> real)
    requires BatchFits(b) && Typed(p, b.cols) && i < b.size
  {
    match p
    case ColLit(c, op, lit) => RowOp(CellAt(b.cols[c], i), lit, op, toFloat)
    case LitCol(lit, op, c) => RowOp(lit, CellAt(b.cols[c], i), op, toFloat)
    case ColCol(c, op, d) => RowOp(CellAt(b.cols[c], i), CellAt(b.cols[d], i), op, toFloat)
    case Not(q) => !RowPath(q, b, i, toFloat)
  }

  // No comparison is between different integers converted to one float.
  predicate KeptApart(p: Pred, b: Batch, i: nat, toFloat: int64 -> real)
    requires BatchFits(b) && Typed(p, b.cols) && i < b.size
  {
    match p
    case ColLit(c, _, lit) => Apart(CellAt(b.cols[c], i), lit, toFloat)
    case LitCol(lit, _, c) => Apart(lit, CellAt(b.cols[c], i), toFloat)
    case ColCol(c, _, d) => Apart(CellAt(b.cols[c], i), CellAt(b.cols[d], i), toFloat)
    case Not(q) => KeptApart(q, b, i, toFloat)
  }

  // Where integers are kept apart, and so wherever there are none, the two paths agree.
  lemma {:induction false} PathsAgree(p: Pred, b: Batch, i: nat, toFloat: int64 -> real)
    requires BatchFits(b) && Typed(p, b.cols) && i < b.size && Monotone(toFloat) && KeptApart(p, b, i, toFloat)
    ensures HoldsAt(p, b, i) == RowPath(p, b, i, toFloat)
  {
    hide CellOp, RowOp, Apart;
    match p
    case ColLit(c, op, lit) => RowPathRounds(CellAt(b.cols[c], i), lit, toFloat);
    case LitCol(lit, op, c) => RowPathRounds(lit, CellAt(b.cols[c], i), toFloat);
    case ColCol(c, op, d) => RowPathRounds(CellAt(b.cols[c], i), CellAt(b.cols[d], i), toFloat);
    case Not(q) => PathsAgree(q, b, i, toFloat);
  }

  // ---------------------------------------------------------------- selections

  // The ascending indices below n at which the flag is set.
  function Select(flags: seq<bool>, n: nat): (sel: seq<nat>)
    requires n <= |flags|
    ensures forall k :: 0 <= k < |sel| ==> sel[k] < n && flags[sel[k]]
    ensures forall i :: 0 <= i < n && flags[i] ==> i in sel
  {
    if n == 0 then [] else Select(flags, n - 1) + if flags[n - 1] then [n - 1] else []
  }

  predicate Ascending(sel: seq<nat>) {
    forall j, k :: 0 <= j < k < |sel| ==> sel[j] < sel[k]
  }

  lemma {:induction false} SelectAscends(flags: seq<bool>, n: nat)
    requires n <= |flags|
    ensures Ascending(Select(flags, n))
  {
    if n > 0 {
      SelectAscends(flags, n - 1);
      AscendingSnoc(Select(flags, n - 1), n - 1);
      assert Select(flags, n - 1) + [] == Select(flags, n - 1);
    }
  }

  lemma AscendingSnoc(sel: seq<nat>, i: nat)
    requires Ascending(sel) && forall k :: 0 <= k < |sel| ==> sel[k] < i
    ensures Ascending(sel + [i])
  {
  }

  function All(n: nat): seq<nat> {
    seq(n, i => i)
  }

  lemma {:induction false} SelectAll(flags: seq<bool>, n: nat)
    requires n <= |flags| && forall i :: 0 <= i < n ==> flags[i]
    ensures Select(flags, n) == All(n)
  {
    if n > 0 {
      SelectAll(flags, n - 1);
      assert All(n) == All(n - 1) + [n - 1];
    }
  }

  lemma {:induction false} SelectNone(flags: seq<bool>, n: nat)
    requires n <= |flags|
    ensures Select(flags, n) == [] <==> forall i :: 0 <= i < n ==> !flags[i]
  {
    if n > 0 { SelectNone(flags, n - 1); }
  }

  lemma {:induction false} SelectOnly(flags: seq<bool>, other: seq<bool>, n: nat)
    requires n <= |flags| && n <= |other| && forall i :: 0 <= i < n ==> flags[i] == other[i]
    ensures Select(flags, n) == Select(other, n)
  {
    if n > 0 { SelectOnly(flags, other, n - 1); }
  }

  function Flags(p: Pred, b: Batch): (flags: seq<bool>)
    requires BatchFits(b) && Typed(p, b.cols)
    ensures |flags| == b.size && forall i :: 0 <= i < b.size ==> flags[i] == HoldsAt(p, b, i)
  {
    seq(b.size, i requires 0 <= i < b.size => HoldsAt(p, b, i))
  }

  // ---------------------------------------------------------------- kernels

  function Tests<T>(data: seq<T>, test: T -> bool): (flags: seq<bool>)
    ensures |flags| == |data| && forall i :: 0 <= i < |data| ==> flags[i] == test(data[i])
  {
    seq(|data|, i requires 0 <= i < |data| => test(data[i]))
  }

  // if test(v) { sel = append(sel, i) }
  method Push<T>(sel: seq<nat>, v: T, i: nat, data: seq<T>, test: T -> bool) returns (out: seq<nat>)
    requires i < |data| && v == data[i] && sel == Select(Tests(data, test), i)
    ensures out == Select(Tests(data, test), i + 1)
  {
    out := sel;
    if test(v) {
      out := out + [i];
    }
  }

  method Push4<T>(sel: seq<nat>, i: nat, data: seq<T>, test: T -> bool) returns (out: seq<nat>)
    requires i + 4 <= |data| && sel == Select(Tests(data, test), i)
    ensures out == Select(Tests(data, test), i + 4)
  {
    var v0, v1, v2, v3 := data[i], data[i + 1], data[i + 2], data[i + 3];
    out := Push(sel, v0, i, data, test);
    out := Push(out, v1, i + 1, data, test);
    out := Push(out, v2, i + 2, data, test);
    out := Push(out, v3, i + 3, data, test);
  }

  lemma NoneYet<T>(data: seq<T>, test: T -> bool)
    ensures Select(Tests(data, test), 0) == []
  {
  }

  // compareInt64ColLit: eight at a time from 32 rows on, then four, then one.
  method Kernel8<T>(data: seq<T>, test: T -> bool, n: nat) returns (sel: seq<nat>)
    requires n <= |data|
    ensures sel == Select(Tests(data, test), n)
  {
    hide Select, Tests;
    NoneYet(data, test);
    sel := [];
    var i := 0;
    if n >= 32 {
      while i + 8 <= n
        invariant i <= n && sel == Select(Tests(data, test), i)
      {
        sel := Push4(sel, i, data, test);
        sel := Push4(sel, i + 4, data, test);
        i := i + 8;
      }
    }
    sel := Rest4(sel, i, data, test, n);
  }

  // compareFloat64ColLit
  method Kernel4<T>(data: seq<T>, test: T -> bool, n: nat) returns (sel: seq<nat>)
    requires n <= |data|
    ensures sel == Select(Tests(data, test), n)
  {
    hide Select, Tests;
    NoneYet(data, test);
    sel := Rest4([], 0, data, test, n);
  }

  // compareStringColLit
  method Kernel1<T>(data: seq<T>, test: T -> bool, n: nat) returns (sel: seq<nat>)
    requires n <= |data|
    ensures sel == Select(Tests(data, test), n)
  {
    NoneYet(data, test);
    sel := Rest1([], 0, data, test, n);
  }

  method Rest4<T>(start: seq<nat>, from: nat, data: seq<T>, test: T -> bool, n: nat) returns (sel: seq<nat>)
    requires from <= n <= |data| && start == Select(Tests(data, test), from)
    ensures sel == Select(Tests(data, test), n)
  {
    hide Select, Tests;
    sel := start;
    var i := from;
    while i + 4 <= n
      invariant i <= n && sel == Select(Tests(data, test), i)
    {
      sel := Push4(sel, i, data, test);
      i := i + 4;
    }
    sel := Rest1(sel, i, data, test, n);
  }

  method Rest1<T>(start: seq<nat>, from: nat, data: seq<T>, test: T -> bool, n: nat) returns (sel: seq<nat>)
    requires from <= n <= |data| && start == Select(Tests(data, test), from)
    ensures sel == Select(Tests(data, test), n)
  {
    sel := start;
    for i := from to n
      invariant sel == Select(Tests(data, test), i)
    {
      sel := Push(sel, data[i], i, data, test);
    }
  }

  // The pairs of two columns, for the column-to-column kernels.
  function Zip<T>(l: seq<T>, r: seq<T>, n: nat): (pairs: seq<(T, T)>)
    requires n <= |l| && n <= |r|
    ensures |pairs| == n && forall i :: 0 <= i < n ==> pairs[i] == (l[i], r[i])
  {
    seq(n, i requires 0 <= i < n => (l[i], r[i]))
  }

  // One flag for every row of a comparison.
  function LitFlags(c: Column, op: Op, lit: Cell, n: nat): (flags: seq<bool>)
    requires n <= ColLen(c)
    ensures |flags| == n && forall i :: 0 <= i < n ==> flags[i] == CellOp(CellAt(c, i), lit, op)
  {
    seq(n, i requires 0 <= i < n => CellOp(CellAt(c, i), lit, op))
  }

  function ColFlags(c: Column, d: Column, op: Op, n: nat): (flags: seq<bool>)
    requires n <= ColLen(c) && n <= ColLen(d)
    ensures |flags| == n && forall i :: 0 <= i < n ==> flags[i] == CellOp(CellAt(c, i), CellAt(d, i), op)
  {
    seq(n, i requires 0 <= i < n => CellOp(CellAt(c, i), CellAt(d, i), op))
  }

  function Negate(flags: seq<bool>): (inverse: seq<bool>)
    ensures |inverse| == |flags| && forall i :: 0 <= i < |flags| ==> inverse[i] == !flags[i]
  {
    seq(|flags|, i requires 0 <= i < |flags| => !flags[i])
  }

  method CompareColLit(c: Column, op: Op, lit: Cell, n: nat) returns (sel: seq<nat>)
    requires SameType(c, lit) && n <= ColLen(c)
    ensures sel == Select(LitFlags(c, op, lit, n), n)
  {
    ghost var flags := LitFlags(c, op, lit, n);
    match c
    case Ints(d) =>
      var test := (v: int64) => IntOp(v, lit.i, op);
      sel := Kernel8(d, test, n);
      SelectOnly(Tests(d, test), flags, n);
    case Floats(d) =>
      var test := (v: real) => FloatOp(v, lit.r, op);
      sel := Kernel4(d, test, n);
      SelectOnly(Tests(d, test), flags, n);
    case Strs(d) =>
      var test := (v: Key) => StrOp(v, lit.s, op);
      sel := Kernel1(d, test, n);
      SelectOnly(Tests(d, test), flags, n);
  }

  method CompareCols(c: Column, d: Column, op: Op, n: nat) returns (sel: seq<nat>)
    requires SameTypes(c, d) && n <= ColLen(c) && n <= ColLen(d)
    ensures sel == Select(ColFlags(c, d, op, n), n)
  {
    ghost var flags := ColFlags(c, d, op, n);
    match c
    case Ints(l) =>
      var test := (v: (int64, int64)) => IntOp(v.0, v.1, op);
      sel := Kernel4(Zip(l, d.ints, n), test, n);
      SelectOnly(Tests(Zip(l, d.ints, n), test), flags, n);
    case Floats(l) =>
      var test := (v: (real, real)) => FloatOp(v.0, v.1, op);
      sel := Kernel4(Zip(l, d.floats, n), test, n);
      SelectOnly(Tests(Zip(l, d.floats, n), test), flags, n);
    case Strs(l) =>
      var test := (v: (Key, Key)) => StrOp(v.0, v.1, op);
      sel := Kernel1(Zip(l, d.strs, n), test, n);
      SelectOnly(Tests(Zip(l, d.strs, n), test), flags, n);
  }

  // The rows below n that are not selected, in order.
  method InvertSelection(sel: seq<nat>, n: nat, ghost flags: seq<bool>) returns (inv: seq<nat>)
    requires n == |flags| && sel == Select(flags, n)
    ensures inv == Select(Negate(flags), n)
  {
    hide Negate;
    ghost var inverse := Negate(flags);
    var selSet: set<nat> := {};
    for k := 0 to |sel|
      invariant forall i :: i in selSet <==> i in sel[..k]
    {
      selSet := selSet + {sel[k]};
      assert sel[..k + 1] == sel[..k] + [sel[k]];
    }
    assert sel[..|sel|] == sel;
    inv := [];
    for i := 0 to n
      invariant inv == Select(inverse, i)
    {
      assert i in selSet <==> flags[i];
      if i !in selSet {
        inv := inv + [i];
      }
    }
  }

  // ---------------------------------------------------------------- EvalBatch

  // The rows that a selection stands for.
  function Chosen(sel: Option<seq<nat>>, size: nat): seq<nat> {
    if sel.None? then All(size) else sel.value
  }

  // Ascending, and exactly the rows that the row path accepts.
  lemma SelectsRowPath(p: Pred, b: Batch, s: seq<nat>, toFloat: int64 -> real)
    requires BatchFits(b) && Typed(p, b.cols) && s == Select(Flags(p, b), b.size)
    requires Monotone(toFloat) && forall i :: 0 <= i < b.size ==> KeptApart(p, b, i, toFloat)
    ensures Ascending(s) && forall i :: i in s <==> 0 <= i < b.size && RowPath(p, b, i, toFloat)
  {
    hide HoldsAt, RowPath, KeptApart;
    SelectAscends(Flags(p, b), b.size);
    forall i | 0 <= i < b.size ensures Flags(p, b)[i] == RowPath(p, b, i, toFloat) { PathsAgree(p, b, i, toFloat); }
  }

  // The selection is exactly the rows on which the predicate holds, under any NOTs.
  method EvalBatch(p: Pred, b: Batch) returns (sel: Option<seq<nat>>)
    requires BatchFits(b) && Typed(p, b.cols)
    ensures Chosen(sel, b.size) == Select(Flags(p, b), b.size)
    decreases p, 0
  {
    if b.size == 0 {
      SelectAll(Flags(p, b), b.size);
      return None;
    }
    if p.Not? {
      sel := EvalNot(p.arg, b);
      NotFlags(p.arg, b);
    } else {
      var s := EvalCompare(p, b);
      sel := Some(s);
    }
  }

  // evalBinaryBatch; a literal on the left swaps the operator.
  method EvalCompare(p: Pred, b: Batch) returns (s: seq<nat>)
    requires BatchFits(b) && Typed(p, b.cols) && !p.Not?
    ensures s == Select(Flags(p, b), b.size)
  {
    hide CellOp, CellAt;
    match p
    case ColLit(c, op, lit) =>
      s := CompareColLit(b.cols[c], op, lit, b.size);
      SelectOnly(LitFlags(b.cols[c], op, lit, b.size), Flags(p, b), b.size);
    case LitCol(lit, op, c) =>
      s := CompareColLit(b.cols[c], SwapOp(op), lit, b.size);
      ghost var flags := LitFlags(b.cols[c], SwapOp(op), lit, b.size);
      forall i | 0 <= i < b.size ensures flags[i] == Flags(p, b)[i] { SwapMeans(lit, CellAt(b.cols[c], i), op); }
      SelectOnly(flags, Flags(p, b), b.size);
    case ColCol(c, op, d) =>
      s := CompareCols(b.cols[c], b.cols[d], op, b.size);
      SelectOnly(ColFlags(b.cols[c], b.cols[d], op, b.size), Flags(p, b), b.size);
  }

  lemma NotFlags(q: Pred, b: Batch)
    requires BatchFits(b) && Typed(q, b.cols)
    ensures Flags(Not(q), b) == Negate(Flags(q, b))
  {
  }

  method EvalNot(q: Pred, b: Batch) returns (sel: Option<seq<nat>>)
    requires BatchFits(b) && Typed(q, b.cols) && b.size > 0
    ensures Chosen(sel, b.size) == Select(Negate(Flags(q, b)), b.size)
    decreases q, 1
  {
    hide HoldsAt, Select;
    var inner := EvalBatch(q, b);
    ghost var flags := Flags(q, b);
    ghost var inverse := Negate(flags);
    SelectNone(flags, b.size);
    SelectNone(inverse, b.size);
    if inner.None? {
      AllSelected(flags, b.size);
      return Some([]);
    }
    if |inner.value| == 0 {
      SelectAll(inverse, b.size);
      return None;
    }
    var inv := InvertSelection(inner.value, b.size, flags);
    sel := Some(inv);
  }

  lemma AllSelected(flags: seq<bool>, n: nat)
    requires n <= |flags| && Select(flags, n) == All(n)
    ensures forall i :: 0 <= i < n ==> flags[i]
  {
    forall i | 0 <= i < n ensures flags[i] { assert All(n)[i] == i; }
  }
}
