// The byte encoding of a statement that keys the plan cache (internal/SQL/PL/memo.go).
//
// The encoder drops part of some nodes: DISTINCT on an aggregate, the fraction of
// a float literal, everything but the base type of a cast, and all of an interval or a
// window function but the byte of a node that is there.  `Keep` erases exactly those
// parts, and the main theorem says that this is all that is lost:
//   two statements have the same bytes  <==>  they are equal after Keep
// as long as no byte after an interval or a window function passes for a tag.
module Fingerprint {
  import opened Bytes
  import opened Codec

  // Values the float lexer produces: non-negative and within uint64 once truncated.
  type Float = r: real | 0.0 <= r < 18446744073709551616.0

  datatype TypeInfo = TypeInfo(base: int64, precision: int64, scale: int64, size: int64)
  datatype When = When(cond: Expr, then_: Expr)
  datatype OrderItem = OrderItem(expr: Expr, desc: bool)
  datatype Join = Join(kind: Key, right: Key, on: Expr)

  // NoExpr and NoStmt are Go's nil.
  datatype Expr =
    | NoExpr
    | Number(num: int64) | Float(value: Float) | Str(str: Key) | Bool(truth: bool) | Null
    | Ident(name: Key) | Qualified(table: Key, col: Key) | Alias(aliased: Expr, alias: Key)
    | Param(index: int64) | Star
    | Unary(uop: int64, operand: Expr) | Binary(bop: int64, left: Expr, right: Expr)
    | Func(fname: Key, args: seq<Expr>) | Agg(aname: Key, arg: Expr, distinct: bool)
    | Cast(castee: Expr, typ: TypeInfo) | List(items: seq<Expr>)
    | Between(tested: Expr, low: Expr, high: Expr)
    | Case(subject: Expr, whens: seq<When>, else_: Expr)
    | In(member: Expr, list: seq<Expr>, inSub: Stmt)
    | Exists(existsSub: Stmt) | Subquery(sub: Stmt)
    | Interval(amount: Key, unit: Key)
    | Window(wname: Key, wargs: seq<Expr>, partitionBy: seq<Expr>, windowOrder: seq<OrderItem>)

  datatype Stmt =
    | NoStmt
    | Select(distinct: bool, cols: seq<Expr>, from: Key, fromAlias: Key, where_: Expr, orderBy: seq<OrderItem>,
             joins: seq<Join>, groupBy: seq<Expr>, having: Expr, subqueryFrom: Stmt, limit: Expr, offset: Expr)

  const TAG_SELECT := 1
  const TAG_NULL := 10
  const TAG_NUMBER := 11
  const TAG_FLOAT := 12
  const TAG_STRING := 13
  const TAG_BOOL := 14
  const TAG_IDENT := 15
  const TAG_PARAM := 16
  const TAG_STAR := 17
  const TAG_UNARY := 18
  const TAG_BINARY := 19
  const TAG_FUNC := 20
  const TAG_AGG := 21
  const TAG_LIST := 22
  const TAG_BETWEEN := 23
  const TAG_CASE := 24
  const TAG_IN := 25
  const TAG_ALIAS := 26
  const TAG_CAST := 27
  const TAG_EXISTS := 28
  const TAG_SUBQ := 29
  const TAG_QNAME := 30

  // ---------------------------------------------------------------- bytes of each part
  //
  // Every function here writes its first argument in front of the bytes k.

  // encoding/binary PutVarint: zig-zag, then uvarint
  function Varint(x: int64, k: Key): Key {
    Uvarint(if x < 0 then -2 * x - 1 else 2 * x, k)
  }

  function BoolByte(b: bool, k: Key): Key {
    [if b then 1 else 0] + k
  }

  function StrBytes(s: Key, k: Key): Key {
    Uvarint(|s|, s + k)
  }

  function Op(op: int64, k: Key): Key {
    Uvarint(ToUint64(op), k)
  }

  // The encoder has no case for these nodes.
  predicate Untagged(x: Expr) {
    x.Interval? || x.Window?
  }

  function ExprTag(x: Expr): byte
    requires !x.NoExpr? && !Untagged(x)
  {
    match x
    case Number(_) => TAG_NUMBER
    case Float(_) => TAG_FLOAT
    case Str(_) => TAG_STRING
    case Bool(_) => TAG_BOOL
    case Null => TAG_NULL
    case Ident(_) => TAG_IDENT
    case Qualified(_, _) => TAG_QNAME
    case Alias(_, _) => TAG_ALIAS
    case Param(_) => TAG_PARAM
    case Star => TAG_STAR
    case Unary(_, _) => TAG_UNARY
    case Binary(_, _, _) => TAG_BINARY
    case Func(_, _) => TAG_FUNC
    case Agg(_, _, _) => TAG_AGG
    case Cast(_, _) => TAG_CAST
    case List(_) => TAG_LIST
    case Between(_, _, _) => TAG_BETWEEN
    case Case(_, _, _) => TAG_CASE
    case In(_, _, _) => TAG_IN
    case Exists(_) => TAG_EXISTS
    case Subquery(_) => TAG_SUBQ
  }

  // writeExpr
  function ExprBytes(x: Expr, k: Key): Key
    decreases x, 1
  {
    if x.NoExpr? then [0] + k else if Untagged(x) then [1] + k else [1, ExprTag(x)] + Fields(x, k)
  }

  function Fields(x: Expr, k: Key): Key
    requires !x.NoExpr? && !Untagged(x)
    decreases x, 0
  {
    match x
    case Number(n) => Varint(n, k)
    case Float(f) => LittleEndian(f.Floor, 8, k)
    case Str(s) => StrBytes(s, k)
    case Bool(b) => BoolByte(b, k)
    case Null => k
    case Star => k
    case Ident(name) => StrBytes(name, k)
    case Qualified(t, c) => StrBytes(t, StrBytes(c, k))
    case Alias(e, a) => ExprBytes(e, StrBytes(a, k))
    case Param(i) => Op(i, k)
    case Unary(op, e) => Op(op, ExprBytes(e, k))
    case Binary(op, l, r) => Op(op, ExprBytes(l, ExprBytes(r, k)))
    case Func(name, args) => StrBytes(name, ExprsBytes(args, k))
    case Agg(name, arg, _) => StrBytes(name, ExprBytes(arg, k))
    case Cast(e, t) => ExprBytes(e, Op(t.base, k))
    case List(items) => ExprsBytes(items, k)
    case Between(e, lo, hi) => ExprBytes(e, ExprBytes(lo, ExprBytes(hi, k)))
    case Case(e, ws, els) => ExprBytes(e, Uvarint(|ws|, WhenItems(ws, ExprBytes(els, k))))
    case In(e, items, s) => ExprBytes(e, ExprsBytes(items, SubBytes(s, k)))
    case Exists(s) => SubBytes(s, k)
    case Subquery(s) => SubBytes(s, k)
  }

  function ExprsBytes(xs: seq<Expr>, k: Key): Key
    decreases xs, 1
  {
    Uvarint(|xs|, ExprItems(xs, k))
  }

  function ExprItems(xs: seq<Expr>, k: Key): Key
    decreases xs, 0
  {
    if xs == [] then k else ExprBytes(xs[0], ExprItems(xs[1..], k))
  }

  function WhenItems(ws: seq<When>, k: Key): Key
    decreases ws, 0
  {
    if ws == [] then k else WhenBytes(ws[0], WhenItems(ws[1..], k))
  }

  function WhenBytes(w: When, k: Key): Key
    decreases w, 0
  {
    ExprBytes(w.cond, ExprBytes(w.then_, k))
  }

  function OrderItems(os: seq<OrderItem>, k: Key): Key
    decreases os, 0
  {
    if os == [] then k else OrderBytes(os[0], OrderItems(os[1..], k))
  }

  function OrderBytes(o: OrderItem, k: Key): Key
    decreases o, 0
  {
    ExprBytes(o.expr, BoolByte(o.desc, k))
  }

  function JoinItems(js: seq<Join>, k: Key): Key
    decreases js, 0
  {
    if js == [] then k else JoinBytes(js[0], JoinItems(js[1..], k))
  }

  function JoinBytes(j: Join, k: Key): Key
    decreases j, 0
  {
    StrBytes(j.kind, StrBytes(j.right, ExprBytes(j.on, k)))
  }

  // A subquery: a presence byte of its own, then the statement.
  function SubBytes(s: Stmt, k: Key): Key
    decreases s, 2
  {
    if s.NoStmt? then [0] + k else [1] + StmtBytes(s, k)
  }

  // writeStmt
  function StmtBytes(s: Stmt, k: Key): Key
    decreases s, 1
  {
    if s.NoStmt? then [0] + k
    else [1, TAG_SELECT] + BoolByte(s.distinct, SelectCols(s, SelectOrder(s, SelectGroup(s, SelectLimit(s, k)))))
  }

  function SelectCols(s: Stmt, k: Key): Key
    requires s.Select?
    decreases s, 0
  {
    ExprsBytes(s.cols, StrBytes(s.from, StrBytes(s.fromAlias, ExprBytes(s.where_, k))))
  }

  function SelectOrder(s: Stmt, k: Key): Key
    requires s.Select?
    decreases s, 0
  {
    Uvarint(|s.orderBy|, OrderItems(s.orderBy, Uvarint(|s.joins|, JoinItems(s.joins, k))))
  }

  function SelectGroup(s: Stmt, k: Key): Key
    requires s.Select?
    decreases s, 0
  {
    ExprsBytes(s.groupBy, ExprBytes(s.having, k))
  }

  function SelectLimit(s: Stmt, k: Key): Key
    requires s.Select?
    decreases s, 0
  {
    StmtBytes(s.subqueryFrom, ExprBytes(s.limit, ExprBytes(s.offset, k)))
  }

  // ---------------------------------------------------------------- what survives

  function KeepExpr(x: Expr): Expr
    decreases x
  {
    match x
    case NoExpr => x
    case Number(_) => x
    case Float(f) => Expr.Float(f.Floor as real)
    case Str(_) => x
    case Bool(_) => x
    case Null => x
    case Star => x
    case Ident(_) => x
    case Qualified(_, _) => x
    case Alias(e, a) => Alias(KeepExpr(e), a)
    case Param(_) => x
    case Unary(op, e) => Unary(op, KeepExpr(e))
    case Binary(op, l, r) => Binary(op, KeepExpr(l), KeepExpr(r))
    case Func(name, args) => Func(name, KeepExprs(args))
    case Agg(name, arg, _) => Agg(name, KeepExpr(arg), false)
    case Cast(e, t) => Cast(KeepExpr(e), TypeInfo(t.base, 0, 0, 0))
    case List(items) => List(KeepExprs(items))
    case Between(e, lo, hi) => Between(KeepExpr(e), KeepExpr(lo), KeepExpr(hi))
    case Case(e, ws, els) => Case(KeepExpr(e), KeepWhens(ws), KeepExpr(els))
    case In(e, items, s) => In(KeepExpr(e), KeepExprs(items), KeepStmt(s))
    case Exists(s) => Exists(KeepStmt(s))
    case Subquery(s) => Subquery(KeepStmt(s))
    case Interval(_, _) => Interval([], [])
    case Window(_, _, _, _) => Interval([], [])
  }

  function KeepExprs(xs: seq<Expr>): (r: seq<Expr>)
    ensures |r| == |xs|
    decreases xs
  {
    if xs == [] then [] else [KeepExpr(xs[0])] + KeepExprs(xs[1..])
  }

  function KeepWhens(ws: seq<When>): (r: seq<When>)
    ensures |r| == |ws|
    decreases ws
  {
    if ws == [] then [] else [KeepWhen(ws[0])] + KeepWhens(ws[1..])
  }

  function KeepOrder(os: seq<OrderItem>): (r: seq<OrderItem>)
    ensures |r| == |os|
    decreases os
  {
    if os == [] then [] else [KeepItem(os[0])] + KeepOrder(os[1..])
  }

  function KeepJoins(js: seq<Join>): (r: seq<Join>)
    ensures |r| == |js|
    decreases js
  {
    if js == [] then [] else [KeepJoin(js[0])] + KeepJoins(js[1..])
  }

  function KeepWhen(w: When): When
    decreases w
  {
    When(KeepExpr(w.cond), KeepExpr(w.then_))
  }

  function KeepItem(o: OrderItem): OrderItem
    decreases o
  {
    OrderItem(KeepExpr(o.expr), o.desc)
  }

  function KeepJoin(j: Join): Join
    decreases j
  {
    Join(j.kind, j.right, KeepExpr(j.on))
  }

  function KeepStmt(s: Stmt): Stmt
    decreases s
  {
    match s
    case NoStmt => s
    case Select(d, cols, from, alias, wh, ord, joins, grp, hav, sub, lim, off) =>
      Select(d, KeepExprs(cols), from, alias, KeepExpr(wh), KeepOrder(ord), KeepJoins(joins), KeepExprs(grp),
             KeepExpr(hav), KeepStmt(sub), KeepExpr(lim), KeepExpr(off))
  }

  // ---------------------------------------------------------------- untagged nodes

  // The first byte passes for the tag of an expression.
  predicate TagNext(k: Key) {
    k != [] && TAG_NULL <= k[0] <= TAG_QNAME
  }

  // No byte right after an untagged node of x passes for a tag, when k follows x.
  predicate Clear(x: Expr, k: Key)
    decreases x, 1
  {
    match x
    case Interval(_, _) => !TagNext(k)
    case Window(_, _, _, _) => !TagNext(k)
    case Alias(e, a) => Clear(e, StrBytes(a, k))
    case Unary(_, e) => Clear(e, k)
    case Binary(_, l, r) => Clear(l, ExprBytes(r, k)) && Clear(r, k)
    case Func(_, args) => ClearItems(args, k)
    case Agg(_, arg, _) => Clear(arg, k)
    case Cast(e, t) => Clear(e, Op(t.base, k))
    case List(items) => ClearItems(items, k)
    case Between(e, lo, hi) =>
      Clear(e, ExprBytes(lo, ExprBytes(hi, k))) && Clear(lo, ExprBytes(hi, k)) && Clear(hi, k)
    case Case(e, ws, els) =>
      && Clear(e, Uvarint(|ws|, WhenItems(ws, ExprBytes(els, k))))
      && ClearWhens(ws, ExprBytes(els, k)) && Clear(els, k)
    case In(e, items, s) =>
      && Clear(e, ExprsBytes(items, SubBytes(s, k)))
      && ClearItems(items, SubBytes(s, k)) && ClearStmt(s, k)
    case Exists(s) => ClearStmt(s, k)
    case Subquery(s) => ClearStmt(s, k)
    case _ => true
  }

  predicate ClearItems(xs: seq<Expr>, k: Key)
    decreases xs, 0
  {
    xs == [] || (Clear(xs[0], ExprItems(xs[1..], k)) && ClearItems(xs[1..], k))
  }

  predicate ClearWhens(ws: seq<When>, k: Key)
    decreases ws, 0
  {
    ws == [] || (ClearWhen(ws[0], WhenItems(ws[1..], k)) && ClearWhens(ws[1..], k))
  }

  predicate ClearWhen(w: When, k: Key)
    decreases w, 0
  {
    Clear(w.cond, ExprBytes(w.then_, k)) && Clear(w.then_, k)
  }

  predicate ClearOrders(os: seq<OrderItem>, k: Key)
    decreases os, 0
  {
    os == [] || (ClearOrder(os[0], OrderItems(os[1..], k)) && ClearOrders(os[1..], k))
  }

  predicate ClearOrder(o: OrderItem, k: Key)
    decreases o, 0
  {
    Clear(o.expr, BoolByte(o.desc, k))
  }

  predicate ClearJoins(js: seq<Join>, k: Key)
    decreases js, 0
  {
    js == [] || (ClearJoin(js[0], JoinItems(js[1..], k)) && ClearJoins(js[1..], k))
  }

  predicate ClearJoin(j: Join, k: Key)
    decreases j, 0
  {
    Clear(j.on, k)
  }

  predicate ClearStmt(s: Stmt, k: Key)
    decreases s, 1
  {
    s.Select? ==>
      var k3 := SelectLimit(s, k);
      var k2 := SelectGroup(s, k3);
      && ClearCols(s, SelectOrder(s, k2)) && ClearOrderPart(s, k2) && ClearGroup(s, k3) && ClearLimit(s, k)
  }

  predicate ClearCols(s: Stmt, k: Key)
    requires s.Select?
    decreases s, 0
  {
    ClearItems(s.cols, StrBytes(s.from, StrBytes(s.fromAlias, ExprBytes(s.where_, k)))) && Clear(s.where_, k)
  }

  predicate ClearOrderPart(s: Stmt, k: Key)
    requires s.Select?
    decreases s, 0
  {
    ClearOrders(s.orderBy, Uvarint(|s.joins|, JoinItems(s.joins, k))) && ClearJoins(s.joins, k)
  }

  predicate ClearGroup(s: Stmt, k: Key)
    requires s.Select?
    decreases s, 0
  {
    ClearItems(s.groupBy, ExprBytes(s.having, k)) && Clear(s.having, k)
  }

  predicate ClearLimit(s: Stmt, k: Key)
    requires s.Select?
    decreases s, 0
  {
    && ClearStmt(s.subqueryFrom, ExprBytes(s.limit, ExprBytes(s.offset, k)))
    && Clear(s.limit, ExprBytes(s.offset, k)) && Clear(s.offset, k)
  }

  // ---------------------------------------------------------------- unique decodability

  lemma VarintUnique(a: int64, b: int64, k: Key, l: Key)
    requires Varint(a, k) == Varint(b, l)
    ensures a == b && k == l
  {
    UvarintUnique(if a < 0 then -2 * a - 1 else 2 * a, if b < 0 then -2 * b - 1 else 2 * b, k, l);
  }

  lemma StrUnique(a: Key, b: Key, k: Key, l: Key)
    requires StrBytes(a, k) == StrBytes(b, l)
    ensures a == b && k == l
  {
    UvarintUnique(|a|, |b|, a + k, b + l);
    assert a == (a + k)[..|a|] && b == (b + l)[..|b|];
    assert k == (a + k)[|a|..] && l == (b + l)[|b|..];
  }

  lemma BoolUnique(a: bool, b: bool, k: Key, l: Key)
    requires BoolByte(a, k) == BoolByte(b, l)
    ensures a == b && k == l
  {
    assert BoolByte(a, k)[0] == BoolByte(b, l)[0];
    assert BoolByte(a, k)[1..] == k && BoolByte(b, l)[1..] == l;
  }

  lemma OpUnique(a: int64, b: int64, k: Key, l: Key)
    requires Op(a, k) == Op(b, l)
    ensures a == b && k == l
  {
    UvarintUnique(ToUint64(a), ToUint64(b), k, l);
  }

  // The first two bytes give the kind of node.
  lemma TagUnique(x: Expr, y: Expr, k: Key, l: Key)
    requires ExprBytes(x, k) == ExprBytes(y, l)
    requires (Untagged(x) ==> !TagNext(k)) && (Untagged(y) ==> !TagNext(l))
    ensures x.NoExpr? == y.NoExpr? && Untagged(x) == Untagged(y)
    ensures if x.NoExpr? || Untagged(x) then k == l else ExprTag(x) == ExprTag(y) && Fields(x, k) == Fields(y, l)
  {
    hide Fields;
    HeadBytes(x, k);
    HeadBytes(y, l);
    var a, b := ExprBytes(x, k), ExprBytes(y, l);
    assert a[0] == b[0] && a[1..] == b[1..];
    if !x.NoExpr? && !Untagged(x) && !Untagged(y) {
      assert a[1] == b[1] && a[2..] == b[2..];
    }
  }

  lemma HeadBytes(x: Expr, k: Key)
    ensures var a := ExprBytes(x, k);
            && a != [] && a[0] == (if x.NoExpr? then 0 else 1)
            && (x.NoExpr? || Untagged(x) ==> a[1..] == k)
            && (!x.NoExpr? && !Untagged(x) ==> TagNext(a[1..]) && a[1] == ExprTag(x) && a[2..] == Fields(x, k))
  {
    hide Fields;
  }

  lemma {:induction false} ExprUnique(x: Expr, y: Expr, k: Key, l: Key)
    requires Clear(x, k) && Clear(y, l)
    requires ExprBytes(x, k) == ExprBytes(y, l)
    ensures KeepExpr(x) == KeepExpr(y) && k == l
    decreases x, 1
  {
    TagUnique(x, y, k, l);
    if !x.NoExpr? && !Untagged(x) {
      if x.Number? || x.Float? || x.Str? || x.Bool? || x.Null? || x.Star? || x.Ident? || x.Qualified? || x.Param? {
        LeafUnique(x, y, k, l);
      } else {
        NodeUnique(x, y, k, l);
      }
    }
  }

  lemma LeafUnique(x: Expr, y: Expr, k: Key, l: Key)
    requires !Untagged(x) && !Untagged(y)
    requires !x.NoExpr? && !y.NoExpr? && ExprTag(x) == ExprTag(y) && Fields(x, k) == Fields(y, l)
    requires x.Number? || x.Float? || x.Str? || x.Bool? || x.Null? || x.Star? || x.Ident? || x.Qualified? || x.Param?
    ensures KeepExpr(x) == KeepExpr(y) && k == l
  {
    match x
    case Number(n) => VarintUnique(n, y.num, k, l);
    case Float(f) =>
      assert Pow256(8) == 18446744073709551616;
      LittleEndianUnique(f.Floor, y.value.Floor, 8, k, l);
    case Str(s) => StrUnique(s, y.str, k, l);
    case Bool(b) => BoolUnique(b, y.truth, k, l);
    case Null =>
    case Star =>
    case Ident(name) => StrUnique(name, y.name, k, l);
    case Qualified(t, c) =>
      StrUnique(t, y.table, StrBytes(c, k), StrBytes(y.col, l));
      StrUnique(c, y.col, k, l);
    case Param(i) => OpUnique(i, y.index, k, l);
  }

  lemma {:induction false} NodeUnique(x: Expr, y: Expr, k: Key, l: Key)
    requires Clear(x, k) && Clear(y, l) && !Untagged(x) && !Untagged(y)
    requires !x.NoExpr? && !y.NoExpr? && ExprTag(x) == ExprTag(y) && Fields(x, k) == Fields(y, l)
    requires !(x.Number? || x.Float? || x.Str? || x.Bool? || x.Null? || x.Star? || x.Ident? || x.Qualified? || x.Param?)
    ensures KeepExpr(x) == KeepExpr(y) && k == l
    decreases x, 0
  {
    match x
    case Alias(e, a) =>
      ExprUnique(e, y.aliased, StrBytes(a, k), StrBytes(y.alias, l));
      StrUnique(a, y.alias, k, l);
    case Unary(op, e) =>
      OpUnique(op, y.uop, ExprBytes(e, k), ExprBytes(y.operand, l));
      ExprUnique(e, y.operand, k, l);
    case Binary(op, left, right) =>
      OpUnique(op, y.bop, ExprBytes(left, ExprBytes(right, k)), ExprBytes(y.left, ExprBytes(y.right, l)));
      ExprUnique(left, y.left, ExprBytes(right, k), ExprBytes(y.right, l));
      ExprUnique(right, y.right, k, l);
    case Func(name, args) =>
      StrUnique(name, y.fname, ExprsBytes(args, k), ExprsBytes(y.args, l));
      ExprsUnique(args, y.args, k, l);
    case Agg(name, arg, _) =>
      StrUnique(name, y.aname, ExprBytes(arg, k), ExprBytes(y.arg, l));
      ExprUnique(arg, y.arg, k, l);
    case Cast(e, t) =>
      ExprUnique(e, y.castee, Op(t.base, k), Op(y.typ.base, l));
      OpUnique(t.base, y.typ.base, k, l);
    case List(items) => ExprsUnique(items, y.items, k, l);
    case Between(e, lo, hi) =>
      ExprUnique(e, y.tested, ExprBytes(lo, ExprBytes(hi, k)), ExprBytes(y.low, ExprBytes(y.high, l)));
      ExprUnique(lo, y.low, ExprBytes(hi, k), ExprBytes(y.high, l));
      ExprUnique(hi, y.high, k, l);
    case Case(e, ws, els) =>
      var k1, l1 := WhenItems(ws, ExprBytes(els, k)), WhenItems(y.whens, ExprBytes(y.else_, l));
      ExprUnique(e, y.subject, Uvarint(|ws|, k1), Uvarint(|y.whens|, l1));
      UvarintUnique(|ws|, |y.whens|, k1, l1);
      WhensUnique(ws, y.whens, ExprBytes(els, k), ExprBytes(y.else_, l));
      ExprUnique(els, y.else_, k, l);
    case In(e, items, s) =>
      ExprUnique(e, y.member, ExprsBytes(items, SubBytes(s, k)), ExprsBytes(y.list, SubBytes(y.inSub, l)));
      ExprsUnique(items, y.list, SubBytes(s, k), SubBytes(y.inSub, l));
      SubUnique(s, y.inSub, k, l);
    case Exists(s) => SubUnique(s, y.existsSub, k, l);
    case Subquery(s) => SubUnique(s, y.sub, k, l);
  }

  lemma {:induction false} ExprsUnique(xs: seq<Expr>, ys: seq<Expr>, k: Key, l: Key)
    requires ClearItems(xs, k) && ClearItems(ys, l)
    requires ExprsBytes(xs, k) == ExprsBytes(ys, l)
    ensures KeepExprs(xs) == KeepExprs(ys) && k == l
    decreases xs, 1
  {
    UvarintUnique(|xs|, |ys|, ExprItems(xs, k), ExprItems(ys, l));
    ItemsUnique(xs, ys, k, l);
  }

  lemma {:induction false} ItemsUnique(xs: seq<Expr>, ys: seq<Expr>, k: Key, l: Key)
    requires ClearItems(xs, k) && ClearItems(ys, l)
    requires |xs| == |ys| && ExprItems(xs, k) == ExprItems(ys, l)
    ensures KeepExprs(xs) == KeepExprs(ys) && k == l
    decreases xs, 0
  {
    if xs != [] {
      ExprUnique(xs[0], ys[0], ExprItems(xs[1..], k), ExprItems(ys[1..], l));
      ItemsUnique(xs[1..], ys[1..], k, l);
    }
  }

  lemma {:induction false} WhensUnique(ws: seq<When>, vs: seq<When>, k: Key, l: Key)
    requires ClearWhens(ws, k) && ClearWhens(vs, l)
    requires |ws| == |vs| && WhenItems(ws, k) == WhenItems(vs, l)
    ensures KeepWhens(ws) == KeepWhens(vs) && k == l
    decreases ws, 0
  {
    if ws != [] {
      WhenUnique(ws[0], vs[0], WhenItems(ws[1..], k), WhenItems(vs[1..], l));
      WhensUnique(ws[1..], vs[1..], k, l);
    }
  }

  lemma {:induction false} WhenUnique(w: When, v: When, k: Key, l: Key)
    requires ClearWhen(w, k) && ClearWhen(v, l)
    requires WhenBytes(w, k) == WhenBytes(v, l)
    ensures KeepWhen(w) == KeepWhen(v) && k == l
    decreases w, 0
  {
    ExprUnique(w.cond, v.cond, ExprBytes(w.then_, k), ExprBytes(v.then_, l));
    ExprUnique(w.then_, v.then_, k, l);
  }

  lemma {:induction false} OrderUnique(os: seq<OrderItem>, ps: seq<OrderItem>, k: Key, l: Key)
    requires ClearOrders(os, k) && ClearOrders(ps, l)
    requires |os| == |ps| && OrderItems(os, k) == OrderItems(ps, l)
    ensures KeepOrder(os) == KeepOrder(ps) && k == l
    decreases os, 0
  {
    if os != [] {
      OrderItemUnique(os[0], ps[0], OrderItems(os[1..], k), OrderItems(ps[1..], l));
      OrderUnique(os[1..], ps[1..], k, l);
    }
  }

  lemma {:induction false} OrderItemUnique(o: OrderItem, p: OrderItem, k: Key, l: Key)
    requires ClearOrder(o, k) && ClearOrder(p, l)
    requires OrderBytes(o, k) == OrderBytes(p, l)
    ensures KeepItem(o) == KeepItem(p) && k == l
    decreases o, 0
  {
    ExprUnique(o.expr, p.expr, BoolByte(o.desc, k), BoolByte(p.desc, l));
    BoolUnique(o.desc, p.desc, k, l);
  }

  lemma {:induction false} JoinsUnique(js: seq<Join>, hs: seq<Join>, k: Key, l: Key)
    requires ClearJoins(js, k) && ClearJoins(hs, l)
    requires |js| == |hs| && JoinItems(js, k) == JoinItems(hs, l)
    ensures KeepJoins(js) == KeepJoins(hs) && k == l
    decreases js, 0
  {
    if js != [] {
      JoinUnique(js[0], hs[0], JoinItems(js[1..], k), JoinItems(hs[1..], l));
      JoinsUnique(js[1..], hs[1..], k, l);
    }
  }

  lemma {:induction false} JoinUnique(j: Join, i: Join, k: Key, l: Key)
    requires ClearJoin(j, k) && ClearJoin(i, l)
    requires JoinBytes(j, k) == JoinBytes(i, l)
    ensures KeepJoin(j) == KeepJoin(i) && k == l
    decreases j, 0
  {
    StrUnique(j.kind, i.kind, StrBytes(j.right, ExprBytes(j.on, k)), StrBytes(i.right, ExprBytes(i.on, l)));
    StrUnique(j.right, i.right, ExprBytes(j.on, k), ExprBytes(i.on, l));
    ExprUnique(j.on, i.on, k, l);
  }

  lemma {:induction false} SubUnique(s: Stmt, t: Stmt, k: Key, l: Key)
    requires ClearStmt(s, k) && ClearStmt(t, l)
    requires SubBytes(s, k) == SubBytes(t, l)
    ensures KeepStmt(s) == KeepStmt(t) && k == l
    decreases s, 2
  {
    assert SubBytes(s, k)[0] == SubBytes(t, l)[0];
    assert SubBytes(s, k)[1..] == if s.NoStmt? then k else StmtBytes(s, k);
    assert SubBytes(t, l)[1..] == if t.NoStmt? then l else StmtBytes(t, l);
    if !s.NoStmt? { StmtUnique(s, t, k, l); }
  }

  lemma {:induction false} StmtUnique(s: Stmt, t: Stmt, k: Key, l: Key)
    requires ClearStmt(s, k) && ClearStmt(t, l)
    requires StmtBytes(s, k) == StmtBytes(t, l)
    ensures KeepStmt(s) == KeepStmt(t) && k == l
    decreases s, 1
  {
    var a, b := StmtBytes(s, k), StmtBytes(t, l);
    assert a[0] == b[0];
    if s.NoStmt? {
      assert a[1..] == k && b[1..] == l;
    } else {
      var k3, l3 := SelectLimit(s, k), SelectLimit(t, l);
      var k2, l2 := SelectGroup(s, k3), SelectGroup(t, l3);
      var k1, l1 := SelectOrder(s, k2), SelectOrder(t, l2);
      assert a[2..] == BoolByte(s.distinct, SelectCols(s, k1)) && b[2..] == BoolByte(t.distinct, SelectCols(t, l1));
      BoolUnique(s.distinct, t.distinct, SelectCols(s, k1), SelectCols(t, l1));
      ColsUnique(s, t, k1, l1);
      OrderPartUnique(s, t, k2, l2);
      ExprsUnique(s.groupBy, t.groupBy, ExprBytes(s.having, k3), ExprBytes(t.having, l3));
      ExprUnique(s.having, t.having, k3, l3);
      LimitUnique(s, t, k, l);
    }
  }

  lemma {:induction false} ColsUnique(s: Stmt, t: Stmt, k: Key, l: Key)
    requires s.Select? && t.Select? && SelectCols(s, k) == SelectCols(t, l)
    requires ClearCols(s, k) && ClearCols(t, l)
    ensures KeepExprs(s.cols) == KeepExprs(t.cols) && s.from == t.from && s.fromAlias == t.fromAlias
    ensures KeepExpr(s.where_) == KeepExpr(t.where_) && k == l
    decreases s, 0
  {
    var k2, l2 := ExprBytes(s.where_, k), ExprBytes(t.where_, l);
    var k1, l1 := StrBytes(s.fromAlias, k2), StrBytes(t.fromAlias, l2);
    ExprsUnique(s.cols, t.cols, StrBytes(s.from, k1), StrBytes(t.from, l1));
    StrUnique(s.from, t.from, k1, l1);
    StrUnique(s.fromAlias, t.fromAlias, k2, l2);
    ExprUnique(s.where_, t.where_, k, l);
  }

  lemma {:induction false} OrderPartUnique(s: Stmt, t: Stmt, k: Key, l: Key)
    requires s.Select? && t.Select? && SelectOrder(s, k) == SelectOrder(t, l)
    requires ClearOrderPart(s, k) && ClearOrderPart(t, l)
    ensures KeepOrder(s.orderBy) == KeepOrder(t.orderBy) && KeepJoins(s.joins) == KeepJoins(t.joins) && k == l
    decreases s, 0
  {
    var k2, l2 := JoinItems(s.joins, k), JoinItems(t.joins, l);
    var k1, l1 := Uvarint(|s.joins|, k2), Uvarint(|t.joins|, l2);
    UvarintUnique(|s.orderBy|, |t.orderBy|, OrderItems(s.orderBy, k1), OrderItems(t.orderBy, l1));
    OrderUnique(s.orderBy, t.orderBy, k1, l1);
    UvarintUnique(|s.joins|, |t.joins|, k2, l2);
    JoinsUnique(s.joins, t.joins, k, l);
  }

  lemma {:induction false} LimitUnique(s: Stmt, t: Stmt, k: Key, l: Key)
    requires s.Select? && t.Select? && SelectLimit(s, k) == SelectLimit(t, l)
    requires ClearLimit(s, k) && ClearLimit(t, l)
    ensures KeepStmt(s.subqueryFrom) == KeepStmt(t.subqueryFrom)
    ensures KeepExpr(s.limit) == KeepExpr(t.limit) && KeepExpr(s.offset) == KeepExpr(t.offset) && k == l
    decreases s, 0
  {
    var k1, l1 := ExprBytes(s.offset, k), ExprBytes(t.offset, l);
    StmtUnique(s.subqueryFrom, t.subqueryFrom, ExprBytes(s.limit, k1), ExprBytes(t.limit, l1));
    ExprUnique(s.limit, t.limit, k1, l1);
    ExprUnique(s.offset, t.offset, k, l);
  }

  // ---------------------------------------------------------------- nothing else survives

  lemma {:induction false} KeepSameExpr(x: Expr, k: Key)
    ensures ExprBytes(KeepExpr(x), k) == ExprBytes(x, k)
    decreases x, 1
  {
    if !x.NoExpr? && !Untagged(x) { KeepSameFields(x, k); }
  }

  lemma {:induction false} KeepSameFields(x: Expr, k: Key)
    requires !x.NoExpr? && !Untagged(x)
    ensures !KeepExpr(x).NoExpr? && !Untagged(KeepExpr(x)) && ExprTag(KeepExpr(x)) == ExprTag(x)
    ensures Fields(KeepExpr(x), k) == Fields(x, k)
    decreases x, 0, 1
  {
    match x
    case Number(_) =>
    case Float(_) =>
    case Str(_) =>
    case Bool(_) =>
    case Null =>
    case Star =>
    case Ident(_) =>
    case Qualified(_, _) =>
    case Param(_) =>
    case Alias(e, a) => KeepSameExpr(e, StrBytes(a, k));
    case Unary(_, e) => KeepSameExpr(e, k);
    case Binary(_, left, right) =>
      KeepSameExpr(right, k);
      KeepSameExpr(left, ExprBytes(right, k));
    case Func(_, args) => KeepSameItems(args, k);
    case Agg(_, arg, _) => KeepSameExpr(arg, k);
    case Cast(e, t) => KeepSameExpr(e, Op(t.base, k));
    case List(items) => KeepSameItems(items, k);
    case Between(e, lo, hi) =>
      KeepSameExpr(hi, k);
      KeepSameExpr(lo, ExprBytes(hi, k));
      KeepSameExpr(e, ExprBytes(lo, ExprBytes(hi, k)));
    case Case(_, _, _) => KeepSameNested(x, k);
    case In(_, _, _) => KeepSameNested(x, k);
    case Exists(_) => KeepSameNested(x, k);
    case Subquery(_) => KeepSameNested(x, k);
  }

  lemma {:induction false} KeepSameNested(x: Expr, k: Key)
    requires x.Case? || x.In? || x.Exists? || x.Subquery?
    ensures ExprTag(KeepExpr(x)) == ExprTag(x) && Fields(KeepExpr(x), k) == Fields(x, k)
    decreases x, 0, 0
  {
    match x
    case Case(e, ws, els) =>
      KeepSameExpr(els, k);
      KeepSameWhens(ws, ExprBytes(els, k));
      KeepSameExpr(e, Uvarint(|ws|, WhenItems(ws, ExprBytes(els, k))));
    case In(e, items, sub) =>
      KeepSameSub(sub, k);
      KeepSameItems(items, SubBytes(sub, k));
      KeepSameExpr(e, ExprsBytes(items, SubBytes(sub, k)));
    case Exists(sub) => KeepSameSub(sub, k);
    case Subquery(sub) => KeepSameSub(sub, k);
  }

  lemma {:induction false} KeepSameItems(xs: seq<Expr>, k: Key)
    ensures ExprItems(KeepExprs(xs), k) == ExprItems(xs, k)
    decreases xs
  {
    if xs != [] {
      KeepSameItems(xs[1..], k);
      KeepSameExpr(xs[0], ExprItems(xs[1..], k));
    }
  }

  lemma {:induction false} KeepSameWhens(ws: seq<When>, k: Key)
    ensures WhenItems(KeepWhens(ws), k) == WhenItems(ws, k)
    decreases ws
  {
    if ws != [] {
      KeepSameWhens(ws[1..], k);
      KeepSameWhen(ws[0], WhenItems(ws[1..], k));
    }
  }

  lemma {:induction false} KeepSameWhen(w: When, k: Key)
    ensures WhenBytes(KeepWhen(w), k) == WhenBytes(w, k)
    decreases w
  {
    KeepSameExpr(w.then_, k);
    KeepSameExpr(w.cond, ExprBytes(w.then_, k));
  }

  lemma {:induction false} KeepSameOrder(os: seq<OrderItem>, k: Key)
    ensures OrderItems(KeepOrder(os), k) == OrderItems(os, k)
    decreases os
  {
    if os != [] {
      KeepSameOrder(os[1..], k);
      KeepSameItem(os[0], OrderItems(os[1..], k));
    }
  }

  lemma {:induction false} KeepSameItem(o: OrderItem, k: Key)
    ensures OrderBytes(KeepItem(o), k) == OrderBytes(o, k)
    decreases o
  {
    KeepSameExpr(o.expr, BoolByte(o.desc, k));
  }

  lemma {:induction false} KeepSameJoins(js: seq<Join>, k: Key)
    ensures JoinItems(KeepJoins(js), k) == JoinItems(js, k)
    decreases js
  {
    if js != [] {
      KeepSameJoins(js[1..], k);
      KeepSameJoin(js[0], JoinItems(js[1..], k));
    }
  }

  lemma {:induction false} KeepSameJoin(j: Join, k: Key)
    ensures JoinBytes(KeepJoin(j), k) == JoinBytes(j, k)
    decreases j
  {
    KeepSameExpr(j.on, k);
  }

  lemma {:induction false} KeepSameSub(s: Stmt, k: Key)
    ensures SubBytes(KeepStmt(s), k) == SubBytes(s, k)
    decreases s, 2
  {
    KeepSameStmt(s, k);
  }

  lemma {:induction false} KeepSameStmt(s: Stmt, k: Key)
    ensures StmtBytes(KeepStmt(s), k) == StmtBytes(s, k)
    decreases s, 1
  {
    if s.Select? {
      KeepSameLimit(s, k);
      KeepSameGroup(s, SelectLimit(s, k));
      KeepSameOrderPart(s, SelectGroup(s, SelectLimit(s, k)));
      KeepSameCols(s, SelectOrder(s, SelectGroup(s, SelectLimit(s, k))));
    }
  }

  lemma {:induction false} KeepSameLimit(s: Stmt, k: Key)
    requires s.Select?
    ensures KeepStmt(s).Select? && SelectLimit(KeepStmt(s), k) == SelectLimit(s, k)
    decreases s, 0
  {
    KeepSameExpr(s.offset, k);
    KeepSameExpr(s.limit, ExprBytes(s.offset, k));
    KeepSameStmt(s.subqueryFrom, ExprBytes(s.limit, ExprBytes(s.offset, k)));
  }

  lemma {:induction false} KeepSameGroup(s: Stmt, k: Key)
    requires s.Select?
    ensures KeepStmt(s).Select? && SelectGroup(KeepStmt(s), k) == SelectGroup(s, k)
    decreases s, 0
  {
    var t := KeepStmt(s);
    KeepSameExpr(s.having, k);
    KeepSameItems(s.groupBy, ExprBytes(s.having, k));
    assert t.groupBy == KeepExprs(s.groupBy) && t.having == KeepExpr(s.having);
    assert ExprsBytes(t.groupBy, ExprBytes(t.having, k)) == ExprsBytes(s.groupBy, ExprBytes(s.having, k));
  }

  lemma {:induction false} KeepSameOrderPart(s: Stmt, k: Key)
    requires s.Select?
    ensures KeepStmt(s).Select? && SelectOrder(KeepStmt(s), k) == SelectOrder(s, k)
    decreases s, 0
  {
    KeepSameJoins(s.joins, k);
    KeepSameOrder(s.orderBy, Uvarint(|s.joins|, JoinItems(s.joins, k)));
  }

  lemma {:induction false} KeepSameCols(s: Stmt, k: Key)
    requires s.Select?
    ensures KeepStmt(s).Select? && SelectCols(KeepStmt(s), k) == SelectCols(s, k)
    decreases s, 0
  {
    var t := KeepStmt(s);
    var k1 := StrBytes(s.from, StrBytes(s.fromAlias, ExprBytes(s.where_, k)));
    KeepSameExpr(s.where_, k);
    KeepSameItems(s.cols, k1);
    assert t.cols == KeepExprs(s.cols) && t.where_ == KeepExpr(s.where_);
    assert ExprsBytes(t.cols, k1) == ExprsBytes(s.cols, k1);
  }

  // ---------------------------------------------------------------- statements that lose nothing

  // No DISTINCT aggregate, no fraction, no type parameter and no untagged node anywhere.
  predicate Plain(x: Expr)
    decreases x
  {
    match x
    case NoExpr => true
    case Number(_) => true
    case Float(f) => f.Floor as real == f
    case Str(_) => true
    case Bool(_) => true
    case Null => true
    case Star => true
    case Ident(_) => true
    case Qualified(_, _) => true
    case Param(_) => true
    case Alias(e, _) => Plain(e)
    case Unary(_, e) => Plain(e)
    case Binary(_, left, right) => Plain(left) && Plain(right)
    case Func(_, args) => PlainAll(args)
    case Agg(_, arg, d) => Plain(arg) && !d
    case Cast(e, t) => Plain(e) && t == TypeInfo(t.base, 0, 0, 0)
    case List(items) => PlainAll(items)
    case Between(e, lo, hi) => Plain(e) && Plain(lo) && Plain(hi)
    case Case(e, ws, els) => Plain(e) && (forall w :: w in ws ==> PlainWhen(w)) && Plain(els)
    case In(e, items, s) => Plain(e) && PlainAll(items) && PlainStmt(s)
    case Exists(s) => PlainStmt(s)
    case Subquery(s) => PlainStmt(s)
    case Interval(_, _) => false
    case Window(_, _, _, _) => false
  }

  predicate PlainAll(xs: seq<Expr>)
    decreases xs
  {
    forall x :: x in xs ==> Plain(x)
  }

  predicate PlainWhen(w: When)
    decreases w
  {
    Plain(w.cond) && Plain(w.then_)
  }

  predicate PlainItem(o: OrderItem)
    decreases o
  {
    Plain(o.expr)
  }

  predicate PlainJoin(j: Join)
    decreases j
  {
    Plain(j.on)
  }

  predicate PlainStmt(s: Stmt)
    decreases s
  {
    s.Select? ==>
      && PlainAll(s.cols) && Plain(s.where_) && PlainAll(s.groupBy) && Plain(s.having)
      && (forall o :: o in s.orderBy ==> PlainItem(o)) && (forall j :: j in s.joins ==> PlainJoin(j))
      && PlainStmt(s.subqueryFrom) && Plain(s.limit) && Plain(s.offset)
  }

  lemma {:induction false} PlainKept(x: Expr)
    ensures Plain(x) ==> KeepExpr(x) == x && forall k :: Clear(x, k)
    decreases x, 1
  {
    match x
    case Alias(e, _) => PlainKept(e);
    case Unary(_, e) => PlainKept(e);
    case Binary(_, left, right) => PlainKept(left); PlainKept(right);
    case Func(_, args) => PlainAllKept(args);
    case Agg(_, arg, _) => PlainKept(arg);
    case Cast(e, _) => PlainKept(e);
    case List(items) => PlainAllKept(items);
    case Between(e, lo, hi) => PlainKept(e); PlainKept(lo); PlainKept(hi);
    case Case(_, _, _) => PlainNestedKept(x);
    case In(_, _, _) => PlainNestedKept(x);
    case Exists(_) => PlainNestedKept(x);
    case Subquery(_) => PlainNestedKept(x);
    case _ =>
  }

  lemma {:induction false} PlainNestedKept(x: Expr)
    requires x.Case? || x.In? || x.Exists? || x.Subquery?
    ensures Plain(x) ==> KeepExpr(x) == x && forall k :: Clear(x, k)
    decreases x, 0
  {
    match x
    case Case(e, ws, els) => PlainKept(e); PlainWhensKept(ws); PlainKept(els);
    case In(e, items, s) => PlainKept(e); PlainAllKept(items); PlainStmtKept(s);
    case Exists(s) => PlainStmtKept(s);
    case Subquery(s) => PlainStmtKept(s);
  }

  lemma {:induction false} PlainAllKept(xs: seq<Expr>)
    ensures PlainAll(xs) ==> KeepExprs(xs) == xs && forall k :: ClearItems(xs, k)
    decreases xs, 0
  {
    if xs != [] {
      PlainKept(xs[0]);
      PlainAllKept(xs[1..]);
      assert xs == [xs[0]] + xs[1..];
      assert KeepExprs(xs)[0] == KeepExpr(xs[0]) && KeepExprs(xs)[1..] == KeepExprs(xs[1..]);
    }
  }

  lemma {:induction false} PlainWhensKept(ws: seq<When>)
    ensures (forall w :: w in ws ==> PlainWhen(w)) ==> KeepWhens(ws) == ws && forall k :: ClearWhens(ws, k)
    decreases ws, 0
  {
    if ws != [] {
      PlainWhenKept(ws[0]);
      PlainWhensKept(ws[1..]);
      assert ws == [ws[0]] + ws[1..];
      assert KeepWhens(ws)[0] == KeepWhen(ws[0]) && KeepWhens(ws)[1..] == KeepWhens(ws[1..]);
    }
  }

  lemma {:induction false} PlainWhenKept(w: When)
    ensures PlainWhen(w) ==> KeepWhen(w) == w && forall k :: ClearWhen(w, k)
    decreases w, 0
  {
    PlainKept(w.cond);
    PlainKept(w.then_);
  }

  lemma {:induction false} PlainOrderKept(os: seq<OrderItem>)
    ensures (forall o :: o in os ==> PlainItem(o)) ==> KeepOrder(os) == os && forall k :: ClearOrders(os, k)
    decreases os, 0
  {
    if os != [] {
      PlainItemKept(os[0]);
      PlainOrderKept(os[1..]);
      assert os == [os[0]] + os[1..];
      assert KeepOrder(os)[0] == KeepItem(os[0]) && KeepOrder(os)[1..] == KeepOrder(os[1..]);
    }
  }

  lemma {:induction false} PlainItemKept(o: OrderItem)
    ensures PlainItem(o) ==> KeepItem(o) == o && forall k :: ClearOrder(o, k)
    decreases o, 0
  {
    PlainKept(o.expr);
  }

  lemma {:induction false} PlainJoinsKept(js: seq<Join>)
    ensures (forall j :: j in js ==> PlainJoin(j)) ==> KeepJoins(js) == js && forall k :: ClearJoins(js, k)
    decreases js, 0
  {
    if js != [] {
      PlainJoinKept(js[0]);
      PlainJoinsKept(js[1..]);
      assert js == [js[0]] + js[1..];
      assert KeepJoins(js)[0] == KeepJoin(js[0]) && KeepJoins(js)[1..] == KeepJoins(js[1..]);
    }
  }

  lemma {:induction false} PlainJoinKept(j: Join)
    ensures PlainJoin(j) ==> KeepJoin(j) == j && forall k :: ClearJoin(j, k)
    decreases j, 0
  {
    PlainKept(j.on);
  }

  lemma {:induction false} PlainStmtKept(s: Stmt)
    ensures PlainStmt(s) ==> KeepStmt(s) == s && forall k :: ClearStmt(s, k)
    decreases s, 1
  {
    if s.Select? {
      PlainAllKept(s.cols);
      PlainKept(s.where_);
      PlainOrderKept(s.orderBy);
      PlainJoinsKept(s.joins);
      PlainAllKept(s.groupBy);
      PlainKept(s.having);
      PlainStmtKept(s.subqueryFrom);
      PlainKept(s.limit);
      PlainKept(s.offset);
      if PlainStmt(s) { ClearParts(s); }
    }
  }

  lemma ClearParts(s: Stmt)
    requires s.Select?
    requires forall k :: ClearItems(s.cols, k) && Clear(s.where_, k)
    requires forall k :: ClearOrders(s.orderBy, k) && ClearJoins(s.joins, k)
    requires forall k :: ClearItems(s.groupBy, k) && Clear(s.having, k)
    requires forall k :: ClearStmt(s.subqueryFrom, k) && Clear(s.limit, k) && Clear(s.offset, k)
    ensures forall k :: ClearStmt(s, k)
  {
    forall k ensures ClearStmt(s, k) {
      var k3 := SelectLimit(s, k);
      var k2 := SelectGroup(s, k3);
      assert ClearCols(s, SelectOrder(s, k2));
      assert ClearOrderPart(s, k2);
      assert ClearGroup(s, k3);
      assert ClearLimit(s, k);
    }
  }

  // ---------------------------------------------------------------- main results

  // Statements that agree on everything the encoding keeps have the same bytes, and no
  // others do, unless a byte after an untagged node passes for a tag.
  lemma SameBytes(a: Stmt, b: Stmt)
    ensures KeepStmt(a) == KeepStmt(b) ==> StmtBytes(a, []) == StmtBytes(b, [])
    ensures ClearStmt(a, []) && ClearStmt(b, []) ==>
              (StmtBytes(a, []) == StmtBytes(b, []) <==> KeepStmt(a) == KeepStmt(b))
  {
    if ClearStmt(a, []) && ClearStmt(b, []) && StmtBytes(a, []) == StmtBytes(b, []) { StmtUnique(a, b, [], []); }
    KeepSameStmt(a, []);
    KeepSameStmt(b, []);
  }

  // Different plain queries never share a key before hashing.
  lemma PlainQueriesDiffer(a: Stmt, b: Stmt)
    requires PlainStmt(a) && PlainStmt(b)
    ensures StmtBytes(a, []) == StmtBytes(b, []) <==> a == b
  {
    PlainStmtKept(a);
    PlainStmtKept(b);
    SameBytes(a, b);
  }

  // No statement's bytes are the start of another's.
  lemma PrefixFree(a: Stmt, b: Stmt, rest: Key)
    requires ClearStmt(a, rest) && ClearStmt(b, []) && StmtBytes(a, rest) == StmtBytes(b, [])
    ensures rest == []
  {
    StmtUnique(a, b, rest, []);
  }

  // SELECT x FROM t
  function Query(x: Expr, t: Key): Stmt {
    Select(false, [x], t, [], NoExpr, [], [], [], NoExpr, NoStmt, NoExpr, NoExpr)
  }

  // Of intervals and window functions nothing is kept, so any two of them collide:
  //   SELECT ROW_NUMBER() OVER (...) FROM t    and    SELECT INTERVAL '7' DAY FROM t
  lemma UntaggedCollide(x: Expr, y: Expr, t: Key)
    requires Untagged(x) && Untagged(y)
    ensures StmtBytes(Query(x, t), []) == StmtBytes(Query(y, t), [])
  {
    assert KeepExprs([x]) == [KeepExpr(x)] == [KeepExpr(y)] == KeepExprs([y]);
    SameBytes(Query(x, t), Query(y, t));
  }

  // A length that follows one can pass for a tag.  With an alias of ten bytes, of which
  // the first is 9, it collides with NULL under the other nine.
  lemma LengthPassesForTag(x: Expr, name: Key, t: Key)
    requires Untagged(x) && |name| == 9
    ensures !Clear(Alias(x, [9] + name), [])
    ensures StmtBytes(Query(Alias(x, [9] + name), t), []) == StmtBytes(Query(Alias(Null, name), t), [])
    ensures KeepStmt(Query(Alias(x, [9] + name), t)) != KeepStmt(Query(Alias(Null, name), t))
  {
    var u, v := Alias(x, [9] + name), Alias(Null, name);
    AliasOfTen(x, [9] + name);
    var k0 := SelectLimit(Query(v, t), []);
    var k := SelectOrder(Query(v, t), SelectGroup(Query(v, t), k0));
    var k1 := StrBytes(t, StrBytes([], ExprBytes(NoExpr, k)));
    AliasesMeet(x, name, k1);
    assert [u][1..] == [] && [v][1..] == [] && ExprItems([u], k1) == ExprItems([v], k1);
    assert KeepExprs([u])[0] == KeepExpr(u) && KeepExprs([v])[0] == KeepExpr(v);
    hide ExprItems, Fields, Clear;
    assert SelectCols(Query(u, t), k) == ExprsBytes([u], k1) == ExprsBytes([v], k1) == SelectCols(Query(v, t), k);
  }

  lemma AliasOfTen(x: Expr, alias: Key)
    requires Untagged(x) && |alias| == 10
    ensures !Clear(Alias(x, alias), [])
  {
    assert StrBytes(alias, [])[0] == 10;
  }

  lemma AliasesMeet(x: Expr, name: Key, k: Key)
    requires Untagged(x) && |name| == 9
    ensures ExprBytes(Alias(x, [9] + name), k) == ExprBytes(Alias(Null, name), k)
  {
    hide StrBytes;
    var a, b := StrBytes([9] + name, k), StrBytes(name, k);
    ShortString([9] + name, k);
    ShortString(name, k);
    assert [1] + ([10] + ([9] + name + k)) == [1, 10] + ([9] + (name + k));
    assert Fields(Alias(x, [9] + name), k) == ExprBytes(x, a) == [1] + a;
    assert Fields(Alias(Null, name), k) == ExprBytes(Null, b) == [1, 10] + b;
  }

  lemma ShortString(a: Key, k: Key)
    requires |a| < 128
    ensures StrBytes(a, k) == [|a|] + (a + k)
  {
  }

  // DISTINCT on an aggregate is not in the bytes, so these two queries share a
  // cache key although their answers differ:
  //   SELECT COUNT(DISTINCT c) FROM t    and    SELECT COUNT(c) FROM t
  lemma DistinctAggregateCollides(name: Key, c: Key, t: Key)
    ensures var q := (d: bool) => Select(false, [Agg(name, Ident(c), d)], t, [], NoExpr, [], [], [], NoExpr, NoStmt,
                                         NoExpr, NoExpr);
            q(true) != q(false) && StmtBytes(q(true), []) == StmtBytes(q(false), [])
  {
    var q := (d: bool) => Select(false, [Agg(name, Ident(c), d)], t, [], NoExpr, [], [], [], NoExpr, NoStmt, NoExpr,
                                 NoExpr);
    assert KeepExprs(q(true).cols) == [KeepExpr(q(true).cols[0])] == KeepExprs(q(false).cols);
    SameBytes(q(true), q(false));
  }

  lemma FloatsCollide(x: Float, y: Float)
    ensures ExprBytes(Expr.Float(x), []) == ExprBytes(Expr.Float(y), []) <==> x.Floor == y.Floor
  {
    if ExprBytes(Expr.Float(x), []) == ExprBytes(Expr.Float(y), []) {
      ExprUnique(Expr.Float(x), Expr.Float(y), [], []);
    }
  }

  // ---------------------------------------------------------------- the encoder

  lemma {:induction false} UvarintAppends(v: nat, k: Key)
    ensures Uvarint(v, []) + k == Uvarint(v, k)
  {
    if v >= 128 { UvarintAppends(v / 128, k); }
  }

  lemma {:induction false} LittleEndianAppends(v: nat, n: nat, k: Key)
    ensures LittleEndian(v, n, []) + k == LittleEndian(v, n, k)
  {
    if n > 0 { LittleEndianAppends(v / 256, n - 1, k); }
  }

  // Each method appends; its ghost argument k stands for the bytes written later.
  class Enc {
    var buf: Key

    constructor ()
      ensures buf == []
    {
      buf := [];
    }

    method WriteByte(b: byte, ghost k: Key)
      modifies this
      ensures buf + k == old(buf) + ([b] + k)
    {
      buf := buf + [b];
    }

    method WriteUvarint(v: nat, ghost k: Key)
      modifies this
      ensures buf + k == old(buf) + Uvarint(v, k)
    {
      UvarintAppends(v, k);
      buf := buf + Uvarint(v, []);
    }

    method WriteBool(b: bool, ghost k: Key)
      modifies this
      ensures buf + k == old(buf) + BoolByte(b, k)
    {
      if b {
        WriteByte(1, k);
      } else {
        WriteByte(0, k);
      }
    }

    method WriteString(s: Key, ghost k: Key)
      modifies this
      ensures buf + k == old(buf) + StrBytes(s, k)
    {
      WriteUvarint(|s|, s + k);
      buf := buf + s;
    }

    method WriteOp(op: int64, ghost k: Key)
      modifies this
      ensures buf + k == old(buf) + Op(op, k)
    {
      WriteUvarint(ToUint64(op), k);
    }

    method WriteExprs(xs: seq<Expr>, ghost k: Key)
      modifies this
      ensures buf + k == old(buf) + ExprsBytes(xs, k)
      decreases xs, 2
    {
      WriteUvarint(|xs|, ExprItems(xs, k));
      for i := 0 to |xs|
        invariant buf + ExprItems(xs[i..], k) == old(buf) + ExprsBytes(xs, k)
      {
        WriteExpr(xs[i], ExprItems(xs[i + 1..], k));
      }
    }

    method WriteWhen(w: When, ghost k: Key)
      modifies this
      ensures buf + k == old(buf) + WhenBytes(w, k)
      decreases w, 0
    {
      WriteExpr(w.cond, ExprBytes(w.then_, k));
      WriteExpr(w.then_, k);
    }

    method WriteExpr(x: Expr, ghost k: Key)
      modifies this
      ensures buf + k == old(buf) + ExprBytes(x, k)
      decreases x, 2
    {
      if x.NoExpr? {
        WriteByte(0, k);
        return;
      }
      if Untagged(x) {
        WriteByte(1, k);
        return;
      }
      WriteByte(1, [ExprTag(x)] + Fields(x, k));
      WriteByte(ExprTag(x), Fields(x, k));
      assert [1] + ([ExprTag(x)] + Fields(x, k)) == [1, ExprTag(x)] + Fields(x, k);
      WriteFields(x, k);
    }

    method WriteFields(x: Expr, ghost k: Key)
      requires !x.NoExpr? && !Untagged(x)
      modifies this
      ensures buf + k == old(buf) + Fields(x, k)
      decreases x, 1
    {
      hide ExprBytes, ExprsBytes, StrBytes, BoolByte, SubBytes, Uvarint, Op, LittleEndian;
      match x
      case Number(n) =>
        WriteUvarint(if n < 0 then -2 * n - 1 else 2 * n, k);
      case Float(f) =>
        LittleEndianAppends(f.Floor, 8, k);
        buf := buf + LittleEndian(f.Floor, 8, []);
      case Str(s) => WriteString(s, k);
      case Bool(b) => WriteBool(b, k);
      case Null =>
      case Star =>
      case Ident(name) => WriteString(name, k);
      case Qualified(t, c) =>
        WriteString(t, StrBytes(c, k));
        WriteString(c, k);
      case Alias(e, a) =>
        WriteExpr(e, StrBytes(a, k));
        WriteString(a, k);
      case Param(i) => WriteOp(i, k);
      case Unary(op, e) =>
        WriteOp(op, ExprBytes(e, k));
        WriteExpr(e, k);
      case Binary(op, left, right) =>
        WriteOp(op, ExprBytes(left, ExprBytes(right, k)));
        WriteExpr(left, ExprBytes(right, k));
        WriteExpr(right, k);
      case Func(name, args) =>
        WriteString(name, ExprsBytes(args, k));
        WriteExprs(args, k);
      case Agg(name, arg, _) =>
        WriteString(name, ExprBytes(arg, k));
        WriteExpr(arg, k);
      case Cast(e, t) =>
        WriteExpr(e, Op(t.base, k));
        WriteOp(t.base, k);
      case List(items) => WriteExprs(items, k);
      case Between(e, lo, hi) =>
        WriteExpr(e, ExprBytes(lo, ExprBytes(hi, k)));
        WriteExpr(lo, ExprBytes(hi, k));
        WriteExpr(hi, k);
      case Case(e, ws, els) =>
        ghost var k1 := ExprBytes(els, k);
        WriteExpr(e, Uvarint(|ws|, WhenItems(ws, k1)));
        WriteUvarint(|ws|, WhenItems(ws, k1));
        for i := 0 to |ws|
          invariant buf + WhenItems(ws[i..], k1) == old(buf) + Fields(x, k)
        {
          WriteWhen(ws[i], WhenItems(ws[i + 1..], k1));
        }
        WriteExpr(els, k);
      case In(e, items, sub) =>
        WriteExpr(e, ExprsBytes(items, SubBytes(sub, k)));
        WriteExprs(items, SubBytes(sub, k));
        WriteSub(sub, k);
      case Exists(sub) => WriteSub(sub, k);
      case Subquery(sub) => WriteSub(sub, k);
    }

    method WriteSub(s: Stmt, ghost k: Key)
      modifies this
      ensures buf + k == old(buf) + SubBytes(s, k)
      decreases s, 3
    {
      if s.NoStmt? {
        WriteByte(0, k);
      } else {
        WriteByte(1, StmtBytes(s, k));
        WriteStmt(s, k);
      }
    }

    method WriteOrder(o: OrderItem, ghost k: Key)
      modifies this
      ensures buf + k == old(buf) + OrderBytes(o, k)
      decreases o, 0
    {
      WriteExpr(o.expr, BoolByte(o.desc, k));
      WriteBool(o.desc, k);
    }

    method WriteJoin(j: Join, ghost k: Key)
      modifies this
      ensures buf + k == old(buf) + JoinBytes(j, k)
      decreases j, 0
    {
      WriteString(j.kind, StrBytes(j.right, ExprBytes(j.on, k)));
      WriteString(j.right, ExprBytes(j.on, k));
      WriteExpr(j.on, k);
    }

    method WriteStmt(s: Stmt, ghost k: Key)
      modifies this
      ensures buf + k == old(buf) + StmtBytes(s, k)
      decreases s, 2
    {
      hide ExprBytes, ExprsBytes, StrBytes, BoolByte, Uvarint;
      if s.NoStmt? {
        WriteByte(0, k);
        return;
      }
      ghost var k3 := SelectLimit(s, k);
      ghost var k2 := SelectGroup(s, k3);
      ghost var k1 := SelectOrder(s, k2);
      ghost var k0 := BoolByte(s.distinct, SelectCols(s, k1));
      WriteByte(1, [TAG_SELECT] + k0);
      WriteByte(TAG_SELECT, k0);
      assert [1] + ([TAG_SELECT] + k0) == [1, TAG_SELECT] + k0;
      WriteBool(s.distinct, SelectCols(s, k1));
      WriteExprs(s.cols, StrBytes(s.from, StrBytes(s.fromAlias, ExprBytes(s.where_, k1))));
      WriteString(s.from, StrBytes(s.fromAlias, ExprBytes(s.where_, k1)));
      WriteString(s.fromAlias, ExprBytes(s.where_, k1));
      WriteExpr(s.where_, k1);
      WriteUvarint(|s.orderBy|, OrderItems(s.orderBy, Uvarint(|s.joins|, JoinItems(s.joins, k2))));
      for i := 0 to |s.orderBy|
        invariant buf + OrderItems(s.orderBy[i..], Uvarint(|s.joins|, JoinItems(s.joins, k2))) ==
                    old(buf) + StmtBytes(s, k)
      {
        WriteOrder(s.orderBy[i], OrderItems(s.orderBy[i + 1..], Uvarint(|s.joins|, JoinItems(s.joins, k2))));
      }
      WriteUvarint(|s.joins|, JoinItems(s.joins, k2));
      for i := 0 to |s.joins|
        invariant buf + JoinItems(s.joins[i..], k2) == old(buf) + StmtBytes(s, k)
      {
        WriteJoin(s.joins[i], JoinItems(s.joins[i + 1..], k2));
      }
      WriteExprs(s.groupBy, ExprBytes(s.having, k3));
      WriteExpr(s.having, k3);
      WriteStmt(s.subqueryFrom, ExprBytes(s.limit, ExprBytes(s.offset, k)));
      WriteExpr(s.limit, ExprBytes(s.offset, k));
      WriteExpr(s.offset, k);
    }
  }

  // The bytes that are hashed into the cache key.
  method KeyBytes(s: Stmt) returns (bytes: Key)
    ensures bytes == StmtBytes(s, [])
  {
    var e := new Enc();
    e.WriteStmt(s, []);
    bytes := e.buf;
    assert bytes + [] == bytes && [] + StmtBytes(s, []) == StmtBytes(s, []);
  }
}
