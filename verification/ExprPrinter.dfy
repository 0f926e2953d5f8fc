// The printed form of an expression, as tokens (internal/SQL/RE/format.go), and
// the round trip through the parser.
//
// RoundTrip says exactly which expressions read back as themselves.  The printer
// spells some operators in a way the lexer reads as something else: `<>` is read
// as `<` `>`, and every operator it has no spelling for comes out as `?`.  It writes
// no parentheses around a BETWEEN and leaves out the DISTINCT of an aggregate.
module ExprPrinter {
  import opened ExprSyntax
  import opened ExprParser

  // opString, lexed.
  function OpToks(op: Op, k: seq<Token>): seq<Token> {
    match op
    case Ne => [OpTok(Lt), OpTok(Gt)] + k
    case BitAnd => [Bind] + k
    case BitOr => [Bind] + k
    case BitXor => [Bind] + k
    case Mod => [Bind] + k
    case Concat => [Bind] + k
    case _ => [OpTok(op)] + k
  }

  function UnaryOpToks(op: UnaryOp, k: seq<Token>): seq<Token> {
    if op == BitNot then [Bind] + k else [UnaryTok(op)] + k
  }

  // exprString, lexed.
  function Print(e: Expr, k: seq<Token>): seq<Token>
    decreases e, 1
  {
    match e
    case Number(n) => if n < 0 then [OpTok(Minus), IntTok(-n)] + k else [IntTok(n)] + k
    case Str(s) => [StrTok(s)] + k
    case Null => [NullTok] + k
    case Bool(b) => [if b then TrueTok else FalseTok] + k
    case Ident(name) => [IdentTok(name)] + k
    case Qualified(_, _) => [Bind] + k
    case Param(_) => [Bind] + k
    case Star => [OpTok(Times)] + k
    case Binary(op, l, r) => [LParen] + Print(l, OpToks(op, Print(r, [RParen] + k)))
    case Unary(op, x) => UnaryOpToks(op, Print(x, k))
    case Func(name, args) => [IdentTok(name), LParen] + PrintAll(args, [RParen] + k)
    case Agg(name, arg, _) => [IdentTok(name), LParen]
      + (if arg.None? then [Bind, RParen] + k else PrintOpt([], arg, [RParen] + k))
    case Case(s, ws, x) => [CaseTok] + PrintOpt([], s, PrintWhens(ws, PrintOpt([ElseTok], x, [EndTok] + k)))
    case Between(x, lo, hi) => Print(x, [BetweenTok] + Print(lo, [OpTok(And)] + Print(hi, k)))
    case In(_, _) => [Bind] + k
  }

  function PrintOpt(before: seq<Token>, o: Option<Expr>, k: seq<Token>): seq<Token>
    decreases o, 0
  {
    match o case None => k case Some(e) => before + Print(e, k)
  }

  function PrintAll(es: seq<Expr>, k: seq<Token>): seq<Token>
    decreases es, 0
  {
    if es == [] then k
    else if |es| == 1 then Print(es[0], k)
    else Print(es[0], [Comma] + PrintAll(es[1..], k))
  }

  function PrintWhens(ws: seq<When>, k: seq<Token>): seq<Token>
    decreases ws, 0
  {
    if ws == [] then k else PrintWhen(ws[0], PrintWhens(ws[1..], k))
  }

  function PrintWhen(w: When, k: seq<Token>): seq<Token>
    decreases w, 0
  {
    [WhenTok] + Print(w.cond, [ThenTok] + Print(w.then_, k))
  }

  // ---------------------------------------------------------------- what is spelled faithfully

  predicate SpelledOp(op: Op) {
    !(op in [Ne, BitAnd, BitOr, BitXor, Mod, Concat])
  }

  // Every token is what the lexer reads for that part.
  predicate Worded(e: Expr)
    decreases e, 1
  {
    match e
    case Number(n) => n >= 0
    case Qualified(_, _) => false
    case Unary(op, x) => op != BitNot && Worded(x)
    case Binary(op, l, r) => SpelledOp(op) && Worded(l) && Worded(r)
    case Func(name, args) => (IsAggregateName(name) ==> IsMinMaxName(name) && |args| > 1) && WordedAll(args)
    case Agg(name, arg, distinct) => IsAggregateName(name) && !distinct && (arg.Some? ==> Worded(arg.value))
    case Case(s, ws, x) => WordedOpt(s) && WordedWhens(ws) && WordedOpt(x) && (s.None? ==> ws != [])
    case Between(x, lo, hi) => Worded(x) && Worded(lo) && Worded(hi)
    case In(_, _) => false
    case _ => true
  }

  predicate WordedOpt(o: Option<Expr>)
    decreases o, 0
  {
    o.Some? ==> Worded(o.value)
  }

  predicate WordedAll(es: seq<Expr>)
    decreases es, 0
  {
    es == [] || (Worded(es[0]) && WordedAll(es[1..]))
  }

  predicate WordedWhens(ws: seq<When>)
    decreases ws, 0
  {
    ws == [] || (WordedWhen(ws[0]) && WordedWhens(ws[1..]))
  }

  predicate WordedWhen(w: When)
    decreases w, 0
  {
    Worded(w.cond) && Worded(w.then_)
  }

  // A BETWEEN is printed without parentheses: an operator of higher precedence than
  // AND right after it goes on with its upper bound.
  predicate EndsInBetween(e: Expr) {
    match e
    case Between(_, _, _) => true
    case Unary(_, x) => EndsInBetween(x)
    case _ => false
  }

  // Nothing is drawn into another part, and each aggregate has an argument.
  predicate Grouped(e: Expr)
    decreases e, 1
  {
    match e
    case Unary(_, x) => Grouped(x)
    case Binary(op, l, r) => Grouped(l) && Grouped(r) && (EndsInBetween(l) ==> Precedence(op) <= Precedence(And))
    case Func(_, args) => GroupedAll(args)
    case Agg(_, arg, _) => arg.Some? && Grouped(arg.value)
    case Case(s, ws, x) => GroupedOpt(s) && GroupedWhens(ws) && GroupedOpt(x)
    case Between(x, lo, hi) => !x.Unary? && !x.Between? && Grouped(x) && Grouped(lo) && Grouped(hi)
    case _ => true
  }

  predicate GroupedOpt(o: Option<Expr>)
    decreases o, 0
  {
    o.Some? ==> Grouped(o.value)
  }

  predicate GroupedAll(es: seq<Expr>)
    decreases es, 0
  {
    es == [] || (Grouped(es[0]) && GroupedAll(es[1..]))
  }

  predicate GroupedWhens(ws: seq<When>)
    decreases ws, 0
  {
    ws == [] || (GroupedWhen(ws[0]) && GroupedWhens(ws[1..]))
  }

  predicate GroupedWhen(w: When)
    decreases w, 0
  {
    Grouped(w.cond) && Grouped(w.then_)
  }

  predicate Spelled(e: Expr) {
    Worded(e) && Grouped(e)
  }

  // The same expression with its parameters numbered n, n+1, ... from left to
  // right, and the next number.
  function Renumber(e: Expr, n: nat): (Expr, nat)
    decreases e, 1
  {
    match e
    case Param(_) => (Param(n), n + 1)
    case Unary(op, x) => var x' := Renumber(x, n); (Unary(op, x'.0), x'.1)
    case Binary(op, l, r) =>
      var l' := Renumber(l, n);
      var r' := Renumber(r, l'.1);
      (Binary(op, l'.0, r'.0), r'.1)
    case Func(name, args) => var as' := RenumberAll(args, n); (Func(name, as'.0), as'.1)
    case Agg(name, arg, distinct) => var arg' := RenumberOpt(arg, n); (Agg(name, arg'.0, distinct), arg'.1)
    case Between(x, lo, hi) =>
      var x' := Renumber(x, n);
      var lo' := Renumber(lo, x'.1);
      var hi' := Renumber(hi, lo'.1);
      (Between(x'.0, lo'.0, hi'.0), hi'.1)
    case In(x, es) =>
      var x' := Renumber(x, n);
      var es' := RenumberAll(es, x'.1);
      (In(x'.0, es'.0), es'.1)
    case Case(s, ws, x) =>
      var s' := RenumberOpt(s, n);
      var ws' := RenumberWhens(ws, s'.1);
      var x' := RenumberOpt(x, ws'.1);
      (Case(s'.0, ws'.0, x'.0), x'.1)
    case _ => (e, n)
  }

  function RenumberOpt(o: Option<Expr>, n: nat): (Option<Expr>, nat)
    decreases o, 0
  {
    match o
    case None => (None, n)
    case Some(e) => var e' := Renumber(e, n); (Some(e'.0), e'.1)
  }

  function RenumberAll(es: seq<Expr>, n: nat): (seq<Expr>, nat)
    decreases es, 0
  {
    if es == [] then ([], n)
    else
      var e := Renumber(es[0], n);
      var rest := RenumberAll(es[1..], e.1);
      ([e.0] + rest.0, rest.1)
  }

  function RenumberWhens(ws: seq<When>, n: nat): (seq<When>, nat)
    decreases ws, 0
  {
    if ws == [] then ([], n)
    else
      var w := RenumberWhen(ws[0], n);
      var rest := RenumberWhens(ws[1..], w.1);
      ([w.0] + rest.0, rest.1)
  }

  function RenumberWhen(w: When, n: nat): (When, nat)
    decreases w, 0
  {
    var c := Renumber(w.cond, n);
    var t := Renumber(w.then_, c.1);
    (When(c.0, t.0), t.1)
  }

  // ---------------------------------------------------------------- the tree of a printed expression

  function TreeOf(e: Expr): Tree
    requires Worded(e)
    decreases e, 1
  {
    match e
    case Number(n) => Leaf(IntTok(n))
    case Str(s) => Leaf(StrTok(s))
    case Null => Leaf(NullTok)
    case Bool(b) => Leaf(if b then TrueTok else FalseTok)
    case Ident(name) => Leaf(IdentTok(name))
    case Param(_) => Leaf(Bind)
    case Star => Leaf(OpTok(Times))
    case Unary(op, x) => UnaryTree(op, TreeOf(x))
    case Binary(op, l, r) => Paren(BinaryTree(op, TreeOf(l), TreeOf(r)))
    case Func(name, args) => CallTree(name, false, TreesOf(args))
    case Agg(name, arg, _) => CallTree(name, false, if arg.None? then [Leaf(Bind)] else [TreeOf(arg.value)])
    case Case(s, ws, x) => CaseTree(OptTreeOf(s), WhenTreesOf(ws), OptTreeOf(x))
    case Between(x, lo, hi) => BetweenTree(TreeOf(x), false, TreeOf(lo), TreeOf(hi))
  }

  function OptTreeOf(o: Option<Expr>): Option<Tree>
    requires WordedOpt(o)
    decreases o, 0
  {
    match o case None => None case Some(e) => Some(TreeOf(e))
  }

  function TreesOf(es: seq<Expr>): (ts: seq<Tree>)
    requires WordedAll(es)
    ensures |ts| == |es|
    decreases es, 0
  {
    if es == [] then [] else [TreeOf(es[0])] + TreesOf(es[1..])
  }

  function WhenTreesOf(ws: seq<When>): (vs: seq<WhenTree>)
    requires WordedWhens(ws)
    ensures |vs| == |ws|
    decreases ws, 0
  {
    if ws == [] then [] else [WhenTreeOf(ws[0])] + WhenTreesOf(ws[1..])
  }

  function WhenTreeOf(w: When): WhenTree
    requires WordedWhen(w)
    decreases w, 0
  {
    WhenTree(TreeOf(w.cond), TreeOf(w.then_))
  }

  // The tree reads as printed.
  lemma {:induction false} TreeToks(e: Expr, k: seq<Token>)
    requires Worded(e)
    ensures Toks(TreeOf(e), k) == Print(e, k)
    decreases e, 1
  {
    match e
    case Unary(op, x) => TreeToks(x, k);
    case Binary(_, _, _) => BinaryToks(e, k);
    case Func(_, args) => ListOfToks(args, [RParen] + k);
    case Agg(_, arg, _) => AggToks(e, k);
    case Case(_, _, _) => CaseToks(e, k);
    case Between(_, _, _) => BetweenToks(e, k);
    case _ =>
  }

  lemma {:induction false} BinaryToks(e: Expr, k: seq<Token>)
    requires Worded(e) && e.Binary?
    ensures Toks(TreeOf(e), k) == Print(e, k)
    decreases e, 0
  {
    var rightToks := Print(e.right, [RParen] + k);
    assert TreeOf(e) == Paren(BinaryTree(e.bop, TreeOf(e.left), TreeOf(e.right)));
    assert Print(e, k) == [LParen] + Print(e.left, OpToks(e.bop, rightToks))
           && OpToks(e.bop, rightToks) == [OpTok(e.bop)] + rightToks;
    TreeToks(e.right, [RParen] + k);
    TreeToks(e.left, OpToks(e.bop, rightToks));
    hide Print, TreeOf;
  }

  lemma {:induction false} AggToks(e: Expr, k: seq<Token>)
    requires Worded(e) && e.Agg?
    ensures Toks(TreeOf(e), k) == Print(e, k)
    decreases e, 0
  {
    var k1 := [RParen] + k;
    if e.arg.Some? {
      TreeToks(e.arg.value, k1);
      assert ListToks([TreeOf(e.arg.value)], k1) == Toks(TreeOf(e.arg.value), k1);
      assert [] + Print(e.arg.value, k1) == Print(e.arg.value, k1);
    } else {
      assert ListToks([Leaf(Bind)], k1) == [Bind] + k1;
      assert [IdentTok(e.aname), LParen] + ([Bind] + k1) == [IdentTok(e.aname), LParen] + ([Bind, RParen] + k);
    }
  }

  lemma {:induction false} BetweenToks(e: Expr, k: seq<Token>)
    requires Worded(e) && e.Between?
    ensures Toks(TreeOf(e), k) == Print(e, k)
    decreases e, 0
  {
    var lowToks := Print(e.low, [OpTok(And)] + Print(e.high, k));
    TreeToks(e.high, k);
    TreeToks(e.low, [OpTok(And)] + Print(e.high, k));
    TreeToks(e.tested, [BetweenTok] + lowToks);
  }

  lemma {:induction false} CaseToks(e: Expr, k: seq<Token>)
    requires Worded(e) && e.Case?
    ensures Toks(TreeOf(e), k) == Print(e, k)
    decreases e, 0
  {
    var elseToks := PrintOpt([ElseTok], e.else_, [EndTok] + k);
    OptOfToks([ElseTok], e.else_, [EndTok] + k);
    WhensOfToks(e.whens, elseToks);
    OptOfToks([], e.subject, PrintWhens(e.whens, elseToks));
  }

  lemma {:induction false} OptOfToks(before: seq<Token>, o: Option<Expr>, k: seq<Token>)
    requires WordedOpt(o)
    ensures OptToks(before, OptTreeOf(o), k) == PrintOpt(before, o, k)
    decreases o, 0
  {
    if o.Some? { TreeToks(o.value, k); }
  }

  lemma {:induction false} ListOfToks(es: seq<Expr>, k: seq<Token>)
    requires WordedAll(es)
    ensures ListToks(TreesOf(es), k) == PrintAll(es, k)
    decreases es, 0
  {
    if es != [] {
      ListOfToks(es[1..], k);
      TreeToks(es[0], if |es| == 1 then k else [Comma] + PrintAll(es[1..], k));
      assert TreesOf(es)[1..] == TreesOf(es[1..]);
    }
  }

  lemma {:induction false} WhensOfToks(ws: seq<When>, k: seq<Token>)
    requires WordedWhens(ws)
    ensures WhenToks(WhenTreesOf(ws), k) == PrintWhens(ws, k)
    decreases ws, 0
  {
    if ws != [] {
      WhensOfToks(ws[1..], k);
      WhenOfToks(ws[0], PrintWhens(ws[1..], k));
      assert WhenTreesOf(ws)[1..] == WhenTreesOf(ws[1..]);
    }
  }

  lemma {:induction false} WhenOfToks(w: When, k: seq<Token>)
    requires WordedWhen(w)
    ensures OneWhenToks(WhenTreeOf(w), k) == PrintWhen(w, k)
    decreases w, 0
  {
    TreeToks(w.then_, k);
    TreeToks(w.cond, [ThenTok] + Print(w.then_, k));
  }

  // It is a precedence tree and presents itself as an operand, unless it ends in a BETWEEN.
  lemma {:induction false} TreeValid(e: Expr)
    requires Spelled(e)
    ensures Valid(TreeOf(e)) && !TreeOf(e).BinaryTree? && Tail(TreeOf(e)) == (if EndsInBetween(e) then 2 else 10)
    ensures IsPrimary(TreeOf(e)) <==> !e.Unary? && !e.Between?
    decreases e, 1
  {
    match e
    case Unary(_, x) => TreeValid(x);
    case Binary(_, _, _) => BinaryValid(e);
    case Func(_, args) => TreesValid(args);
    case Agg(_, arg, _) => TreeValid(arg.value);
    case Case(s, ws, x) =>
      OptTreeValid(s);
      WhenTreesValid(ws);
      OptTreeValid(x);
    case Between(_, _, _) => BetweenValid(e);
    case _ =>
  }

  lemma {:induction false} BinaryValid(e: Expr)
    requires Spelled(e) && e.Binary?
    ensures Valid(TreeOf(e))
    decreases e, 0
  {
    var l, r := TreeOf(e.left), TreeOf(e.right);
    TreeValid(e.left);
    TreeValid(e.right);
    assert Valid(BinaryTree(e.bop, l, r));
    assert TreeOf(e) == Paren(BinaryTree(e.bop, l, r));
  }

  lemma {:induction false} BetweenValid(e: Expr)
    requires Spelled(e) && e.Between?
    ensures Valid(TreeOf(e)) && Tail(TreeOf(e)) == 2
    decreases e, 0
  {
    TreeValid(e.tested);
    TreeValid(e.low);
    TreeValid(e.high);
  }

  lemma {:induction false} OptTreeValid(o: Option<Expr>)
    requires WordedOpt(o) && GroupedOpt(o)
    ensures ValidOpt(OptTreeOf(o))
    decreases o, 0
  {
    if o.Some? { TreeValid(o.value); }
  }

  lemma {:induction false} TreesValid(es: seq<Expr>)
    requires WordedAll(es) && GroupedAll(es)
    ensures ValidAll(TreesOf(es))
    decreases es, 0
  {
    if es != [] {
      TreeValid(es[0]);
      TreesValid(es[1..]);
      assert TreesOf(es)[1..] == TreesOf(es[1..]);
    }
  }

  lemma {:induction false} WhenTreesValid(ws: seq<When>)
    requires WordedWhens(ws) && GroupedWhens(ws)
    ensures ValidWhens(WhenTreesOf(ws))
    decreases ws, 0
  {
    if ws != [] {
      WhenTreeValid(ws[0]);
      WhenTreesValid(ws[1..]);
      assert WhenTreesOf(ws)[1..] == WhenTreesOf(ws[1..]);
    }
  }

  lemma {:induction false} WhenTreeValid(w: When)
    requires WordedWhen(w) && GroupedWhen(w)
    ensures ValidWhen(WhenTreeOf(w))
    decreases w, 0
  {
    TreeValid(w.cond);
    TreeValid(w.then_);
  }

  // Building the expression back renumbers the parameters and changes nothing else.
  lemma {:induction false} AstOfTree(e: Expr, n: nat)
    requires Spelled(e)
    ensures Ast(TreeOf(e), n) == Renumber(e, n)
    decreases e, 1
  {
    match e
    case Unary(op, x) => AstOfTree(x, n);
    case Binary(op, l, r) =>
      AstOfTree(l, n);
      AstOfTree(r, Renumber(l, n).1);
    case Func(_, args) => AstOfTrees(args, n);
    case Agg(_, arg, _) =>
      AstOfTree(arg.value, n);
      OneAst(TreeOf(arg.value), n);
    case Between(_, _, _) => AstOfBetween(e, n);
    case Case(_, _, _) => AstOfCase(e, n);
    case _ =>
  }

  lemma OneAst(t: Tree, n: nat)
    ensures ListAst([t], n) == ([Ast(t, n).0], Ast(t, n).1)
  {
    var m := Ast(t, n).1;
    assert [t][1..] == [] && ListAst([t][1..], m) == ([], m);
    assert [Ast(t, n).0] + [] == [Ast(t, n).0];
  }

  lemma {:induction false} AstOfBetween(e: Expr, n: nat)
    requires Spelled(e) && e.Between?
    ensures Ast(TreeOf(e), n) == Renumber(e, n)
    decreases e, 0
  {
    var m := Renumber(e.tested, n).1;
    AstOfTree(e.tested, n);
    AstOfTree(e.low, m);
    AstOfTree(e.high, Renumber(e.low, m).1);
  }

  lemma {:induction false} AstOfCase(e: Expr, n: nat)
    requires Spelled(e) && e.Case?
    ensures Ast(TreeOf(e), n) == Renumber(e, n)
    decreases e, 0
  {
    var m := RenumberOpt(e.subject, n).1;
    AstOfOpt(e.subject, n);
    AstOfWhens(e.whens, m);
    AstOfOpt(e.else_, RenumberWhens(e.whens, m).1);
  }

  lemma {:induction false} AstOfOpt(o: Option<Expr>, n: nat)
    requires WordedOpt(o) && GroupedOpt(o)
    ensures OptAst(OptTreeOf(o), n) == RenumberOpt(o, n)
    decreases o, 0
  {
    if o.Some? { AstOfTree(o.value, n); }
  }

  lemma {:induction false} AstOfTrees(es: seq<Expr>, n: nat)
    requires WordedAll(es) && GroupedAll(es)
    ensures ListAst(TreesOf(es), n) == RenumberAll(es, n) && |RenumberAll(es, n).0| == |es|
    decreases es, 0
  {
    if es != [] {
      AstOfTree(es[0], n);
      AstOfTrees(es[1..], Renumber(es[0], n).1);
      assert TreesOf(es)[1..] == TreesOf(es[1..]);
    }
  }

  lemma {:induction false} AstOfWhens(ws: seq<When>, n: nat)
    requires WordedWhens(ws) && GroupedWhens(ws)
    ensures WhenAst(WhenTreesOf(ws), n) == RenumberWhens(ws, n)
    decreases ws, 0
  {
    if ws != [] {
      AstOfWhen(ws[0], n);
      AstOfWhens(ws[1..], RenumberWhen(ws[0], n).1);
      assert WhenTreesOf(ws)[1..] == WhenTreesOf(ws[1..]);
    }
  }

  lemma {:induction false} AstOfWhen(w: When, n: nat)
    requires WordedWhen(w) && GroupedWhen(w)
    ensures OneWhenAst(WhenTreeOf(w), n) == RenumberWhen(w, n)
    decreases w, 0
  {
    AstOfTree(w.cond, n);
    AstOfTree(w.then_, Renumber(w.cond, n).1);
  }

  // ---------------------------------------------------------------- the other direction

  // Tokens a printed expression never holds.
  predicate Never(tok: Token) {
    tok == Dot || tok == InTok || tok == BitNotTok || tok == DistinctTok || (tok.OpTok? && !SpelledOp(tok.op))
  }

  // Tokens no operand begins with, and which a printed NOT never stands before.
  predicate Infix(tok: Token) {
    tok == OpTok(Like) || tok == BetweenTok
  }

  ghost predicate Clean(ts: seq<Token>) {
    forall i :: 0 <= i < |ts| ==> !Never(ts[i]) && (ts[i] == NotTok && i + 1 < |ts| ==> !Infix(ts[i + 1]))
  }

  lemma CleanCat(a: seq<Token>, b: seq<Token>)
    requires Clean(a) && Clean(b) && (a != [] ==> a[|a| - 1] != NotTok)
    ensures Clean(a + b)
  {
  }

  lemma CleanTail(a: seq<Token>, b: seq<Token>)
    requires Clean(a + b)
    ensures Clean(a) && Clean(b)
  {
    var ts := a + b;
    forall i | 0 <= i < |a| ensures !Never(a[i]) && (a[i] == NotTok && i + 1 < |a| ==> !Infix(a[i + 1])) {
      assert ts[i] == a[i] && (i + 1 < |a| ==> ts[i + 1] == a[i + 1]);
    }
    forall i | 0 <= i < |b| ensures !Never(b[i]) && (b[i] == NotTok && i + 1 < |b| ==> !Infix(b[i + 1])) {
      assert ts[|a| + i] == b[i] && (i + 1 < |b| ==> ts[|a| + i + 1] == b[i + 1]);
    }
  }

  lemma NotCleanAt(ts: seq<Token>, i: nat)
    requires i < |ts| && (Never(ts[i]) || (ts[i] == NotTok && i + 1 < |ts| && Infix(ts[i + 1])))
    ensures !Clean(ts)
  {
  }

  lemma {:induction false} PrintStarts(e: Expr, k: seq<Token>)
    ensures Print(e, k) != [] && !Infix(Print(e, k)[0])
    decreases e
  {
    if e.Between? {
      PrintStarts(e.tested, [BetweenTok] + Print(e.low, [OpTok(And)] + Print(e.high, k)));
    }
  }

  lemma {:induction false} PrintClean(e: Expr, k: seq<Token>)
    requires Clean(k)
    ensures Clean(Print(e, k))
    decreases e, 1
  {
    match e
    case Binary(_, _, _) => PrintBinaryClean(e, k);
    case Unary(_, _) => PrintUnaryClean(e, k);
    case Func(_, _) => PrintFuncClean(e, k);
    case Agg(_, _, _) => PrintAggClean(e, k);
    case Case(s, ws, x) => PrintCaseClean(e, k);
    case Between(_, _, _) => PrintBetweenClean(e, k);
    case _ =>
  }

  lemma {:induction false} PrintUnaryClean(e: Expr, k: seq<Token>)
    requires Clean(k) && e.Unary?
    ensures Clean(Print(e, k))
    decreases e, 0
  {
    PrintClean(e.operand, k);
    PrintStarts(e.operand, k);
    UnaryClean(e.uop, Print(e.operand, k));
  }

  lemma {:induction false} PrintFuncClean(e: Expr, k: seq<Token>)
    requires Clean(k) && e.Func?
    ensures Clean(Print(e, k))
    decreases e, 0
  {
    PrintAllClean(e.args, [RParen] + k);
    CleanCat([IdentTok(e.fname), LParen], PrintAll(e.args, [RParen] + k));
  }

  lemma {:induction false} PrintAggClean(e: Expr, k: seq<Token>)
    requires Clean(k) && e.Agg?
    ensures Clean(Print(e, k))
    decreases e, 0
  {
    PrintOptClean([], e.arg, [RParen] + k);
    CleanCat([IdentTok(e.aname), LParen], PrintOpt([], e.arg, [RParen] + k));
    CleanCat([Bind, RParen], k);
    CleanCat([IdentTok(e.aname), LParen], [Bind, RParen] + k);
  }

  lemma {:induction false} PrintBetweenClean(e: Expr, k: seq<Token>)
    requires Clean(k) && e.Between?
    ensures Clean(Print(e, k))
    decreases e, 0
  {
    var highToks := [OpTok(And)] + Print(e.high, k);
    PrintClean(e.high, k);
    PrintClean(e.low, highToks);
    PrintClean(e.tested, [BetweenTok] + Print(e.low, highToks));
  }

  lemma {:induction false} PrintBinaryClean(e: Expr, k: seq<Token>)
    requires Clean(k) && e.Binary?
    ensures Clean(Print(e, k))
    decreases e, 0
  {
    var rightToks := Print(e.right, [RParen] + k);
    CleanCat([RParen], k);
    PrintClean(e.right, [RParen] + k);
    OpClean(e.bop, rightToks);
    PrintClean(e.left, OpToks(e.bop, rightToks));
  }

  lemma UnaryClean(op: UnaryOp, k: seq<Token>)
    requires Clean(k) && k != [] && !Infix(k[0])
    ensures Clean(UnaryOpToks(op, k))
  {
  }

  lemma OpClean(op: Op, k: seq<Token>)
    requires Clean(k)
    ensures Clean(OpToks(op, k))
  {
  }

  lemma {:induction false} PrintCaseClean(e: Expr, k: seq<Token>)
    requires Clean(k) && e.Case?
    ensures Clean(Print(e, k))
    decreases e, 0
  {
    PrintOptClean([ElseTok], e.else_, [EndTok] + k);
    var elseToks := PrintOpt([ElseTok], e.else_, [EndTok] + k);
    PrintWhensClean(e.whens, elseToks);
    PrintOptClean([], e.subject, PrintWhens(e.whens, elseToks));
    CleanCat([CaseTok], PrintOpt([], e.subject, PrintWhens(e.whens, elseToks)));
  }

  lemma {:induction false} PrintOptClean(before: seq<Token>, o: Option<Expr>, k: seq<Token>)
    requires Clean(before) && Clean(k) && NotTok !in before
    ensures Clean(PrintOpt(before, o, k))
    decreases o, 0
  {
    if o.Some? {
      PrintClean(o.value, k);
      CleanCat(before, Print(o.value, k));
    }
  }

  lemma {:induction false} PrintAllClean(es: seq<Expr>, k: seq<Token>)
    requires Clean(k)
    ensures Clean(PrintAll(es, k))
    decreases es, 0
  {
    if |es| == 1 {
      PrintClean(es[0], k);
    } else if |es| > 1 {
      PrintAllClean(es[1..], k);
      PrintClean(es[0], [Comma] + PrintAll(es[1..], k));
    }
  }

  lemma {:induction false} PrintWhensClean(ws: seq<When>, k: seq<Token>)
    requires Clean(k)
    ensures Clean(PrintWhens(ws, k))
    decreases ws, 0
  {
    if ws != [] {
      PrintWhensClean(ws[1..], k);
      PrintWhenClean(ws[0], PrintWhens(ws[1..], k));
    }
  }

  lemma {:induction false} PrintWhenClean(w: When, k: seq<Token>)
    requires Clean(k)
    ensures Clean(PrintWhen(w, k))
    decreases w, 0
  {
    PrintClean(w.then_, k);
    PrintClean(w.cond, [ThenTok] + Print(w.then_, k));
  }

  // A tree with nothing in it that is not printed: no qualified name, IN, DISTINCT or
  // negated BETWEEN, LIKE.
  predicate Plain(t: Tree)
    decreases t, 1
  {
    match t
    case Leaf(_) => true
    case CallTree(_, distinct, args) => !distinct && PlainAll(args)
    case Paren(u) => Plain(u)
    case CaseTree(s, ws, x) => PlainOpt(s) && PlainWhens(ws) && PlainOpt(x)
    case UnaryTree(_, u) => Plain(u)
    case BinaryTree(_, l, r) => Plain(l) && Plain(r)
    case BetweenTree(u, negated, lo, hi) => !negated && Plain(u) && Plain(lo) && Plain(hi)
    case _ => false
  }

  predicate PlainOpt(o: Option<Tree>)
    decreases o, 0
  {
    o.Some? ==> Plain(o.value)
  }

  predicate PlainAll(ts: seq<Tree>)
    decreases ts, 0
  {
    ts == [] || (Plain(ts[0]) && PlainAll(ts[1..]))
  }

  predicate PlainWhens(ws: seq<WhenTree>)
    decreases ws, 0
  {
    ws == [] || (PlainWhen(ws[0]) && PlainWhens(ws[1..]))
  }

  predicate PlainWhen(w: WhenTree)
    decreases w, 0
  {
    Plain(w.cond) && Plain(w.then_)
  }

  // A tree that reads clean tokens is plain, and its expression is worded as printed.
  lemma {:induction false} CleanPlain(t: Tree, k: seq<Token>, n: nat)
    requires Valid(t) && Clean(Toks(t, k))
    ensures Plain(t) && Worded(Ast(t, n).0) && Clean(k)
    decreases t, 1
  {
    match t
    case Leaf(tok) => CleanTail([tok], k);
    case QualifiedTree(_, _) => NotCleanAt(Toks(t, k), 1);
    case CallTree(_, _, _) => CleanCall(t, k, n);
    case Paren(u) =>
      CleanTail([LParen], Toks(u, [RParen] + k));
      CleanPlain(u, [RParen] + k, n);
      CleanTail([RParen], k);
    case CaseTree(_, _, _) => CleanCase(t, k, n);
    case UnaryTree(op, u) =>
      CleanTail([UnaryTok(op)], Toks(u, k));
      assert !Never([UnaryTok(op)][0]);
      CleanPlain(u, k, n);
    case BinaryTree(op, l, r) =>
      CleanPlain(l, [OpTok(op)] + Toks(r, k), n);
      CleanTail([OpTok(op)], Toks(r, k));
      assert !Never([OpTok(op)][0]);
      CleanPlain(r, k, Ast(l, n).1);
    case BetweenTree(_, _, _, _) => CleanBetween(t, k, n);
    case InTree(u, negated, items) =>
      var after := OptTok(negated, NotTok, [InTok, LParen] + ListToks(items, [RParen] + k));
      NotCleanAt(after, if negated then 1 else 0);
      CleanPlain(u, after, n);
    case NotLikeTree(u, p) =>
      var after := [NotTok, OpTok(Like)] + Toks(p, k);
      NotCleanAt(after, 0);
      CleanPlain(u, after, n);
  }

  lemma {:induction false} CleanBetween(t: Tree, k: seq<Token>, n: nat)
    requires Valid(t) && t.BetweenTree? && Clean(Toks(t, k))
    ensures Plain(t) && Worded(Ast(t, n).0) && Clean(k)
    decreases t, 0
  {
    var highToks := [OpTok(And)] + Toks(t.high, k);
    var lowToks := [BetweenTok] + Toks(t.low, highToks);
    NotCleanAt([NotTok] + lowToks, 0);
    CleanPlain(t.tested, OptTok(t.negated, NotTok, lowToks), n);
    CleanTail([BetweenTok], Toks(t.low, highToks));
    CleanPlain(t.low, highToks, Ast(t.tested, n).1);
    CleanTail([OpTok(And)], Toks(t.high, k));
    CleanPlain(t.high, k, Ast(t.low, Ast(t.tested, n).1).1);
  }

  lemma {:induction false} CleanCall(t: Tree, k: seq<Token>, n: nat)
    requires Valid(t) && t.CallTree? && Clean(Toks(t, k))
    ensures Plain(t) && Worded(Ast(t, n).0) && Clean(k)
    decreases t, 0
  {
    var items := ListToks(t.args, [RParen] + k);
    NotCleanAt([DistinctTok] + items, 0);
    CleanTail([IdentTok(t.name), LParen], OptTok(t.distinct, DistinctTok, items));
    CleanAll(t.args, [RParen] + k, n);
    CleanTail([RParen], k);
  }

  lemma {:induction false} CleanCase(t: Tree, k: seq<Token>, n: nat)
    requires Valid(t) && t.CaseTree? && Clean(Toks(t, k))
    ensures Plain(t) && Worded(Ast(t, n).0) && Clean(k)
    decreases t, 0
  {
    var elseToks := OptToks([ElseTok], t.else_, [EndTok] + k);
    var whenToks := WhenToks(t.whens, elseToks);
    CleanTail([CaseTok], OptToks([], t.subject, whenToks));
    CleanOpt([], t.subject, whenToks, n);
    var m := OptAst(t.subject, n).1;
    CleanWhens(t.whens, elseToks, m);
    CleanOpt([ElseTok], t.else_, [EndTok] + k, WhenAst(t.whens, m).1);
    CleanTail([EndTok], k);
  }

  lemma {:induction false} CleanOpt(before: seq<Token>, o: Option<Tree>, k: seq<Token>, n: nat)
    requires ValidOpt(o) && Clean(OptToks(before, o, k))
    ensures PlainOpt(o) && WordedOpt(OptAst(o, n).0) && Clean(k)
    decreases o, 0
  {
    if o.Some? {
      CleanTail(before, Toks(o.value, k));
      CleanPlain(o.value, k, n);
    }
  }

  lemma {:induction false} CleanAll(ts: seq<Tree>, k: seq<Token>, n: nat)
    requires ValidAll(ts) && Clean(ListToks(ts, k))
    ensures PlainAll(ts) && WordedAll(ListAst(ts, n).0) && |ListAst(ts, n).0| == |ts| && Clean(k)
    decreases ts, 0
  {
    if |ts| > 0 {
      var e := Ast(ts[0], n);
      assert ListAst(ts, n).0[1..] == ListAst(ts[1..], e.1).0;
      if |ts| == 1 {
        CleanPlain(ts[0], k, n);
      } else {
        var more := ListToks(ts[1..], k);
        CleanPlain(ts[0], [Comma] + more, n);
        CleanTail([Comma], more);
        CleanAll(ts[1..], k, e.1);
      }
    }
  }

  lemma {:induction false} CleanWhens(ws: seq<WhenTree>, k: seq<Token>, n: nat)
    requires ValidWhens(ws) && Clean(WhenToks(ws, k))
    ensures PlainWhens(ws) && WordedWhens(WhenAst(ws, n).0) && Clean(k) && (ws != [] ==> WhenAst(ws, n).0 != [])
    decreases ws, 0
  {
    if ws != [] {
      var w := OneWhenAst(ws[0], n);
      assert WhenAst(ws, n).0[1..] == WhenAst(ws[1..], w.1).0;
      CleanWhen(ws[0], WhenToks(ws[1..], k), n);
      CleanWhens(ws[1..], k, w.1);
    }
  }

  lemma {:induction false} CleanWhen(w: WhenTree, k: seq<Token>, n: nat)
    requires ValidWhen(w) && Clean(OneWhenToks(w, k))
    ensures PlainWhen(w) && WordedWhen(OneWhenAst(w, n).0) && Clean(k)
    decreases w, 0
  {
    var thenToks := [ThenTok] + Toks(w.then_, k);
    CleanTail([WhenTok], Toks(w.cond, thenToks));
    CleanPlain(w.cond, thenToks, n);
    CleanTail([ThenTok], Toks(w.then_, k));
    CleanPlain(w.then_, k, Ast(w.cond, n).1);
  }

  // ---------------------------------------------------------------- no other tree reads back
  //
  // A plain tree of an expression that reads like the printed expression is its tree.
  // To the left of an operator the two may still differ in parentheses: those around a
  // tree are counted, and compared at the next token that is no parenthesis.

  function Parens(t: Tree): nat {
    if t.Paren? then 1 + Parens(t.inner) else 0
  }

  function Core(t: Tree): (c: Tree)
    ensures !c.Paren?
  {
    if t.Paren? then Core(t.inner) else t
  }

  function Left(n: nat): seq<Token> {
    seq(n, i => LParen)
  }

  function Right(n: nat): seq<Token> {
    seq(n, i => RParen)
  }

  lemma {:induction false} CoreOf(t: Tree, k: seq<Token>, n: nat)
    ensures Toks(t, k) == Left(Parens(t)) + Toks(Core(t), Right(Parens(t)) + k)
    ensures Ast(t, n) == Ast(Core(t), n) && (Valid(t) ==> Valid(Core(t))) && (Plain(t) ==> Plain(Core(t)))
    decreases t
  {
    if t.Paren? {
      var p := Parens(t.inner);
      CoreOf(t.inner, [RParen] + k, n);
      assert [LParen] + Left(p) == Left(p + 1);
      assert Right(p) + ([RParen] + k) == Right(p + 1) + k;
    } else {
      assert Left(0) + Toks(t, Right(0) + k) == Toks(t, k) by { assert Right(0) + k == k; }
    }
  }

  lemma {:induction false} CoreAndParens(t: Tree, u: Tree)
    requires Core(t) == Core(u) && Parens(t) == Parens(u)
    ensures t == u
    decreases t
  {
    if t.Paren? { CoreAndParens(t.inner, u.inner); }
  }

  lemma LeftSame(p: nat, q: nat, a: seq<Token>, b: seq<Token>)
    requires Left(p) + a == Left(q) + b && a != [] && b != [] && a[0] != LParen && b[0] != LParen
    ensures p == q && a == b
  {
    assert (Left(p) + a)[p] == a[0] && (Left(q) + b)[q] == b[0];
    if p == q { assert a == (Left(p) + a)[p..] && b == (Left(q) + b)[q..]; }
  }

  lemma RightSame(p: nat, q: nat, a: seq<Token>, b: seq<Token>)
    requires Right(p) + a == Right(q) + b && a != [] && b != [] && a[0] != RParen && b[0] != RParen
    ensures p == q && a == b
  {
    assert (Right(p) + a)[p] == a[0] && (Right(q) + b)[q] == b[0];
    if p == q { assert a == (Right(p) + a)[p..] && b == (Right(q) + b)[q..]; }
  }

  // The same up to parentheses around the whole.
  ghost predicate Meets(t: Tree, u: Tree, p: nat, q: nat, k: seq<Token>, k': seq<Token>) {
    Core(t) == Core(u) && p + Parens(t) == q + Parens(u) && Right(Parens(t)) + k == Right(Parens(u)) + k'
  }

  lemma MeetsSame(t: Tree, u: Tree, p: nat, q: nat, a: seq<Token>, b: seq<Token>)
    requires Meets(t, u, p, q, a, b) && a != [] && b != [] && a[0] != RParen && b[0] != RParen
    ensures t == u && p == q && a == b
  {
    RightSame(Parens(t), Parens(u), a, b);
    CoreAndParens(t, u);
  }

  lemma {:induction false} SameTree(t: Tree, e: Expr, p: nat, q: nat, k: seq<Token>, k': seq<Token>, n: nat)
    requires Valid(t) && Plain(t) && Ast(t, n).0 == e && Worded(e)
    requires Left(p) + Toks(t, k) == Left(q) + Toks(TreeOf(e), k')
    ensures Meets(t, TreeOf(e), p, q, k, k') && Grouped(e)
    decreases e, 3
  {
    hide Toks, Ast, Valid, Plain, Worded, TreeOf, Grouped, Core, Parens;
    var u := TreeOf(e);
    CoreOf(t, k, n);
    CoreOf(u, k', n);
    var a, b := Right(Parens(t)) + k, Right(Parens(u)) + k';
    assert Left(p) + (Left(Parens(t)) + Toks(Core(t), a)) == Left(p + Parens(t)) + Toks(Core(t), a);
    assert Left(q) + (Left(Parens(u)) + Toks(Core(u), b)) == Left(q + Parens(u)) + Toks(Core(u), b);
    SameCore(Core(t), e, p + Parens(t), q + Parens(u), a, b, n);
  }

  // Aligned on the left.
  lemma {:induction false} Same(t: Tree, e: Expr, k: seq<Token>, k': seq<Token>, n: nat)
    requires Valid(t) && Plain(t) && Ast(t, n).0 == e && Worded(e) && Toks(t, k) == Toks(TreeOf(e), k')
    ensures t == TreeOf(e) && k == k' && Grouped(e)
    decreases e, 4
  {
    assert Left(0) + Toks(t, k) == Left(0) + Toks(TreeOf(e), k');
    SameTree(t, e, 0, 0, k, k', n);
    CoreAndParens(t, TreeOf(e));
    var p := Parens(t);
    assert k == (Right(p) + k)[p..] && k' == (Right(p) + k')[p..];
  }

  lemma {:induction false} SameCore(c: Tree, e: Expr, p: nat, q: nat, k: seq<Token>, k': seq<Token>, n: nat)
    requires !c.Paren? && Valid(c) && Plain(c) && Ast(c, n).0 == e && Worded(e)
    requires Left(p) + Toks(c, k) == Left(q) + Toks(Core(TreeOf(e)), k')
    ensures c == Core(TreeOf(e)) && p == q && k == k' && Grouped(e)
    decreases e, 2
  {
    match c
    case Leaf(tok) =>
      LeftSame(p, q, Toks(c, k), Toks(Core(TreeOf(e)), k'));
      assert k == Toks(c, k)[1..] && k' == Toks(Core(TreeOf(e)), k')[1..];
    case UnaryTree(op, u) =>
      LeftSame(p, q, Toks(c, k), Toks(TreeOf(e), k'));
      assert Toks(u, k) == Toks(c, k)[1..];
      assert Toks(TreeOf(e.operand), k') == Toks(TreeOf(e), k')[1..];
      Same(u, e.operand, k, k', n);
    case BinaryTree(_, _, _) => SameBinary(c, e, p, q, k, k', n);
    case BetweenTree(_, _, _, _) => SameBetween(c, e, p, q, k, k', n);
    case CallTree(_, _, _) => SameCall(c, e, p, q, k, k', n);
    case CaseTree(_, _, _) => SameCase(c, e, p, q, k, k', n);
  }

  lemma {:induction false} SameBinary(c: Tree, e: Expr, p: nat, q: nat, k: seq<Token>, k': seq<Token>, n: nat)
    requires c.BinaryTree? && Valid(c) && Plain(c) && Ast(c, n).0 == e && Worded(e)
    requires Left(p) + Toks(c, k) == Left(q) + Toks(Core(TreeOf(e)), k')
    ensures c == Core(TreeOf(e)) && p == q && k == k' && Grouped(e)
    decreases e, 1
  {
    hide Left, Right, Tail, Level, Grouped, IsPrimary;
    hide Spelled;
    var u, op := TreeOf(e.left), [OpTok(e.bop)];
    var a, b := op + Toks(c.right, k), op + Toks(TreeOf(e.right), k');
    BinaryCore(e, k');
    assert Toks(c, k) == Toks(c.left, a);
    SameTree(c.left, e.left, p, q, a, b, n);
    MeetsSame(c.left, u, p, q, a, b);
    hide Meets, Core, Parens;
    assert Toks(c.right, k) == a[1..] && Toks(TreeOf(e.right), k') == b[1..];
    Same(c.right, e.right, k, k', Ast(c.left, n).1);
    BinaryGrouped(c, e);
  }

  lemma BinaryCore(e: Expr, k: seq<Token>)
    requires e.Binary? && Worded(e)
    ensures Core(TreeOf(e)) == BinaryTree(e.bop, TreeOf(e.left), TreeOf(e.right))
    ensures Toks(Core(TreeOf(e)), k) == Toks(TreeOf(e.left), [OpTok(e.bop)] + Toks(TreeOf(e.right), k))
  {
    hide Toks;
    var t := BinaryTree(e.bop, TreeOf(e.left), TreeOf(e.right));
    assert TreeOf(e) == Paren(t) && Core(t) == t;
    BinaryReads(t, k);
  }

  lemma BinaryReads(t: Tree, k: seq<Token>)
    requires t.BinaryTree?
    ensures Toks(t, k) == Toks(t.left, [OpTok(t.bop)] + Toks(t.right, k))
  {
  }

  lemma BinaryGrouped(c: Tree, e: Expr)
    requires c.BinaryTree? && Valid(c) && e.Binary? && Worded(e) && e.bop == c.bop && c.left == TreeOf(e.left)
    requires Grouped(e.left) && Grouped(e.right)
    ensures Grouped(e)
  {
    TreeValid(e.left);
  }

  lemma {:induction false} SameBetween(c: Tree, e: Expr, p: nat, q: nat, k: seq<Token>, k': seq<Token>, n: nat)
    requires c.BetweenTree? && Valid(c) && Plain(c) && Ast(c, n).0 == e && Worded(e)
    requires Left(p) + Toks(c, k) == Left(q) + Toks(Core(TreeOf(e)), k')
    ensures c == Core(TreeOf(e)) && p == q && k == k' && Grouped(e)
    decreases e, 1
  {
    var u, lo, hi := TreeOf(e.tested), TreeOf(e.low), TreeOf(e.high);
    var a1, b1 := [OpTok(And)] + Toks(c.high, k), [OpTok(And)] + Toks(hi, k');
    var a, b := [BetweenTok] + Toks(c.low, a1), [BetweenTok] + Toks(lo, b1);
    assert Core(TreeOf(e)) == BetweenTree(u, false, lo, hi);
    assert Toks(c, k) == Toks(c.tested, a) && Toks(Core(TreeOf(e)), k') == Toks(u, b);
    SameTree(c.tested, e.tested, p, q, a, b, n);
    RightSame(Parens(c.tested), Parens(u), a, b);
    CoreAndParens(c.tested, u);
    var m := Ast(c.tested, n).1;
    assert Toks(c.low, a1) == a[1..] && Toks(lo, b1) == b[1..];
    Same(c.low, e.low, a1, b1, m);
    assert Toks(c.high, k) == a1[1..] && Toks(hi, k') == b1[1..];
    Same(c.high, e.high, k, k', Ast(c.low, m).1);
    TreeValid(e.tested);
  }

  lemma {:induction false} SameCall(c: Tree, e: Expr, p: nat, q: nat, k: seq<Token>, k': seq<Token>, n: nat)
    requires c.CallTree? && Valid(c) && Plain(c) && Ast(c, n).0 == e && Worded(e)
    requires Left(p) + Toks(c, k) == Left(q) + Toks(Core(TreeOf(e)), k')
    ensures c == Core(TreeOf(e)) && p == q && k == k' && Grouped(e)
    decreases e, 1
  {
    var u := TreeOf(e);
    LeftSame(p, q, Toks(c, k), Toks(u, k'));
    assert ListToks(c.args, [RParen] + k) == Toks(c, k)[2..];
    assert ListToks(u.args, [RParen] + k') == Toks(u, k')[2..];
    if e.Func? {
      SameList(c.args, e.args, k, k', n);
    } else {
      SameArgument(c.args, e, k, k', n);
    }
  }

  // An aggregate that is printed has one argument.
  lemma {:induction false} SameArgument(ts: seq<Tree>, e: Expr, k: seq<Token>, k': seq<Token>, n: nat)
    requires ValidAll(ts) && PlainAll(ts) && e.Agg? && Worded(e)
    requires e.arg == if |ListAst(ts, n).0| > 0 then Some(ListAst(ts, n).0[0]) else None
    requires ListToks(ts, [RParen] + k) == ListToks(TreeOf(e).args, [RParen] + k')
    ensures ts == TreeOf(e).args && k == k' && Grouped(e)
    decreases e, 0
  {
    assert ListToks([Leaf(Bind)], [RParen] + k')[0] == Bind;
    if ts != [] {
      var u := TreeOf(e.arg.value);
      var after := if |ts| == 1 then [RParen] + k else [Comma] + ListToks(ts[1..], [RParen] + k);
      assert ListToks([u], [RParen] + k') == Toks(u, [RParen] + k');
      Same(ts[0], e.arg.value, after, [RParen] + k', n);
      assert after[0] == RParen;
      assert k == after[1..] && k' == ([RParen] + k')[1..];
    }
  }

  lemma {:induction false} AstLength(ts: seq<Tree>, n: nat)
    ensures |ListAst(ts, n).0| == |ts|
    ensures ts != [] ==> ListAst(ts, n).0[0] == Ast(ts[0], n).0
    ensures ts != [] ==> ListAst(ts, n).0[1..] == ListAst(ts[1..], Ast(ts[0], n).1).0
    decreases ts
  {
    if ts != [] { AstLength(ts[1..], Ast(ts[0], n).1); }
  }

  lemma {:induction false} SameList(ts: seq<Tree>, es: seq<Expr>, k: seq<Token>, k': seq<Token>, n: nat)
    requires ValidAll(ts) && PlainAll(ts) && ListAst(ts, n).0 == es && WordedAll(es)
    requires ListToks(ts, [RParen] + k) == ListToks(TreesOf(es), [RParen] + k')
    ensures ts == TreesOf(es) && k == k' && GroupedAll(es)
    decreases es, 0
  {
    AstLength(ts, n);
    if ts == [] {
      assert k == ([RParen] + k)[1..] && k' == ([RParen] + k')[1..];
    } else {
      var us := TreesOf(es);
      assert us[1..] == TreesOf(es[1..]);
      var a := if |ts| == 1 then [RParen] + k else [Comma] + ListToks(ts[1..], [RParen] + k);
      var b := if |ts| == 1 then [RParen] + k' else [Comma] + ListToks(us[1..], [RParen] + k');
      Same(ts[0], es[0], a, b, n);
      if |ts| == 1 {
        assert k == a[1..] && k' == b[1..];
        assert es[1..] == [];
      } else {
        assert ListToks(ts[1..], [RParen] + k) == a[1..] && ListToks(us[1..], [RParen] + k') == b[1..];
        SameList(ts[1..], es[1..], k, k', Ast(ts[0], n).1);
      }
    }
  }

  lemma {:induction false} SameCase(c: Tree, e: Expr, p: nat, q: nat, k: seq<Token>, k': seq<Token>, n: nat)
    requires c.CaseTree? && Valid(c) && Plain(c) && Ast(c, n).0 == e && Worded(e)
    requires Left(p) + Toks(c, k) == Left(q) + Toks(Core(TreeOf(e)), k')
    ensures c == Core(TreeOf(e)) && p == q && k == k' && Grouped(e)
    decreases e, 1
  {
    var u := TreeOf(e);
    LeftSame(p, q, Toks(c, k), Toks(u, k'));
    var a, b := OptToks([ElseTok], c.else_, [EndTok] + k), OptToks([ElseTok], u.else_, [EndTok] + k');
    assert OptToks([], c.subject, WhenToks(c.whens, a)) == Toks(c, k)[1..];
    assert OptToks([], u.subject, WhenToks(u.whens, b)) == Toks(u, k')[1..];
    SameOpt([], c.subject, e.subject, WhenToks(c.whens, a), WhenToks(u.whens, b), n);
    var m := OptAst(c.subject, n).1;
    SameWhens(c.whens, e.whens, a, b, m);
    SameOpt([ElseTok], c.else_, e.else_, [EndTok] + k, [EndTok] + k', WhenAst(c.whens, m).1);
    assert k == ([EndTok] + k)[1..] && k' == ([EndTok] + k')[1..];
  }

  lemma {:induction false} SameOpt(before: seq<Token>, o: Option<Tree>, e: Option<Expr>, k: seq<Token>,
                                   k': seq<Token>, n: nat)
    requires ValidOpt(o) && PlainOpt(o) && OptAst(o, n).0 == e && WordedOpt(e)
    requires OptToks(before, o, k) == OptToks(before, OptTreeOf(e), k')
    ensures o == OptTreeOf(e) && k == k' && GroupedOpt(e)
    decreases e, 0
  {
    if o.Some? {
      var u := TreeOf(e.value);
      assert Toks(o.value, k) == (before + Toks(o.value, k))[|before|..];
      assert Toks(u, k') == (before + Toks(u, k'))[|before|..];
      Same(o.value, e.value, k, k', n);
    }
  }

  lemma {:induction false} SameWhens(ws: seq<WhenTree>, es: seq<When>, k: seq<Token>, k': seq<Token>, n: nat)
    requires ValidWhens(ws) && PlainWhens(ws) && WhenAst(ws, n).0 == es && WordedWhens(es)
    requires WhenToks(ws, k) == WhenToks(WhenTreesOf(es), k')
    ensures ws == WhenTreesOf(es) && k == k' && GroupedWhens(es)
    decreases es, 0
  {
    if ws != [] {
      var us := WhenTreesOf(es);
      var w := OneWhenAst(ws[0], n);
      assert es[0] == w.0 && es[1..] == WhenAst(ws[1..], w.1).0 && us[1..] == WhenTreesOf(es[1..]);
      SameWhen(ws[0], es[0], WhenToks(ws[1..], k), WhenToks(us[1..], k'), n);
      SameWhens(ws[1..], es[1..], k, k', w.1);
    }
  }

  lemma {:induction false} SameWhen(w: WhenTree, e: When, k: seq<Token>, k': seq<Token>, n: nat)
    requires ValidWhen(w) && PlainWhen(w) && OneWhenAst(w, n).0 == e && WordedWhen(e)
    requires OneWhenToks(w, k) == OneWhenToks(WhenTreeOf(e), k')
    ensures w == WhenTreeOf(e) && k == k' && GroupedWhen(e)
    decreases e, 0
  {
    var u, v := TreeOf(e.cond), TreeOf(e.then_);
    var a, b := [ThenTok] + Toks(w.then_, k), [ThenTok] + Toks(v, k');
    assert Toks(w.cond, a) == OneWhenToks(w, k)[1..] && Toks(u, b) == OneWhenToks(WhenTreeOf(e), k')[1..];
    Same(w.cond, e.cond, a, b, n);
    assert Toks(w.then_, k) == a[1..] && Toks(v, k') == b[1..];
    Same(w.then_, e.then_, k, k', Ast(w.cond, n).1);
  }

  // ---------------------------------------------------------------- round trip

  // An expression reads back as itself exactly when every part of it is spelled
  // faithfully, nothing is drawn into the bound of a BETWEEN, and its parameters are
  // numbered from left to right.
  lemma RoundTrip(e: Expr)
    ensures ParseAll(Print(e, [])) == Some(e) <==> Spelled(e) && Renumber(e, 0).0 == e
  {
    if ParseAll(Print(e, [])) == Some(e) {
      var t := ParseBinary(1, Print(e, [])).tree;
      SoundBinary(1, Print(e, []));
      PrintClean(e, []);
      CleanPlain(t, [], 0);
      TreeToks(e, []);
      Same(t, e, [], [], 0);
    }
    if Spelled(e) {
      TreeToks(e, []);
      TreeValid(e);
      CompleteClosed(TreeOf(e), 1, []);
      AstOfTree(e, 0);
    }
  }

  // `a <> b` is printed with tokens the parser rejects.
  lemma NotEqualIsLost(a: Expr, b: Expr)
    ensures ParseAll(Print(Binary(Ne, a, b), [])) != Some(Binary(Ne, a, b))
  {
    RoundTrip(Binary(Ne, a, b));
  }

  // `(x BETWEEN a AND b) = c` is printed without the inner parentheses, and its right
  // operand becomes part of the upper bound.
  lemma BetweenDrawsIn(x: Expr, lo: Expr, hi: Expr, op: Op, c: Expr)
    requires Precedence(op) > Precedence(And)
    ensures var e := Binary(op, Between(x, lo, hi), c); ParseAll(Print(e, [])) != Some(e)
  {
    RoundTrip(Binary(op, Between(x, lo, hi), c));
  }

  // ---------------------------------------------------------------- the printer

  method Emit(b: seq<Token>, ts: seq<Token>, ghost k: seq<Token>) returns (out: seq<Token>)
    ensures out + k == b + (ts + k)
  {
    out := b + ts;
  }

  // Append the printed form of e to b; k stands for what is printed later.
  method WriteExpr(b: seq<Token>, e: Expr, ghost k: seq<Token>) returns (out: seq<Token>)
    ensures out + k == b + Print(e, k)
    decreases e, 1
  {
    match e
    case Number(n) => out := Emit(b, if n < 0 then [OpTok(Minus), IntTok(-n)] else [IntTok(n)], k);
    case Str(s) => out := Emit(b, [StrTok(s)], k);
    case Null => out := Emit(b, [NullTok], k);
    case Bool(t) => out := Emit(b, [if t then TrueTok else FalseTok], k);
    case Ident(name) => out := Emit(b, [IdentTok(name)], k);
    case Qualified(_, _) => out := Emit(b, [Bind], k);
    case Param(_) => out := Emit(b, [Bind], k);
    case Star => out := Emit(b, [OpTok(Times)], k);
    case In(_, _) => out := Emit(b, [Bind], k);
    case Binary(_, _, _) => out := WriteBinary(b, e, k);
    case Unary(op, x) =>
      assert UnaryOpToks(op, Print(x, k)) == UnaryOpToks(op, []) + Print(x, k);
      out := Emit(b, UnaryOpToks(op, []), Print(x, k));
      out := WriteExpr(out, x, k);
    case Func(_, _) => out := WriteCall(b, e, k);
    case Agg(_, _, _) => out := WriteAggregate(b, e, k);
    case Case(_, _, _) => out := WriteCase(b, e, k);
    case Between(_, _, _) => out := WriteBetween(b, e, k);
  }

  method WriteBinary(b: seq<Token>, e: Expr, ghost k: seq<Token>) returns (out: seq<Token>)
    requires e.Binary?
    ensures out + k == b + Print(e, k)
    decreases e, 0
  {
    ghost var k1 := Print(e.right, [RParen] + k);
    out := Emit(b, [LParen], Print(e.left, OpToks(e.bop, k1)));
    out := WriteExpr(out, e.left, OpToks(e.bop, k1));
    assert OpToks(e.bop, k1) == OpToks(e.bop, []) + k1;
    out := Emit(out, OpToks(e.bop, []), k1);
    out := WriteExpr(out, e.right, [RParen] + k);
    out := Emit(out, [RParen], k);
  }

  lemma AggregateToks(e: Expr, k: seq<Token>)
    requires e.Agg?
    ensures Print(e, k) ==
            [IdentTok(e.aname), LParen] + if e.arg.Some? then Print(e.arg.value, [RParen] + k) else [Bind, RParen] + k
  {
    assert e.arg.Some? ==> [] + Print(e.arg.value, [RParen] + k) == Print(e.arg.value, [RParen] + k);
  }

  method WriteAggregate(b: seq<Token>, e: Expr, ghost k: seq<Token>) returns (out: seq<Token>)
    requires e.Agg?
    ensures out + k == b + Print(e, k)
    decreases e, 0
  {
    hide Print;
    ghost var argToks := if e.arg.Some? then Print(e.arg.value, [RParen] + k) else [Bind, RParen] + k;
    AggregateToks(e, k);
    out := Emit(b, [IdentTok(e.aname), LParen], argToks);
    if e.arg.Some? {
      out := WriteExpr(out, e.arg.value, [RParen] + k);
      out := Emit(out, [RParen], k);
    } else {
      out := Emit(out, [Bind, RParen], k);
    }
  }

  method WriteBetween(b: seq<Token>, e: Expr, ghost k: seq<Token>) returns (out: seq<Token>)
    requires e.Between?
    ensures out + k == b + Print(e, k)
    decreases e, 0
  {
    ghost var k1 := Print(e.high, k);
    ghost var k2 := Print(e.low, [OpTok(And)] + k1);
    out := WriteExpr(b, e.tested, [BetweenTok] + k2);
    out := Emit(out, [BetweenTok], k2);
    out := WriteExpr(out, e.low, [OpTok(And)] + k1);
    out := Emit(out, [OpTok(And)], k1);
    out := WriteExpr(out, e.high, k);
  }

  // What is still to be printed of a call before argument i.
  ghost function FromArg(args: seq<Expr>, i: nat, k: seq<Token>): seq<Token>
    requires i <= |args|
  {
    if 0 < i < |args| then [Comma] + PrintAll(args[i..], k) else PrintAll(args[i..], k)
  }

  method WriteCall(b: seq<Token>, e: Expr, ghost k: seq<Token>) returns (out: seq<Token>)
    requires e.Func?
    ensures out + k == b + Print(e, k)
    decreases e, 0
  {
    var args := e.args;
    ghost var k1 := [RParen] + k;
    assert args[0..] == args;
    out := Emit(b, [IdentTok(e.fname), LParen], PrintAll(args, k1));
    for i := 0 to |args|
      invariant out + FromArg(args, i, k1) == b + Print(e, k)
    {
      if i > 0 {
        out := Emit(out, [Comma], PrintAll(args[i..], k1));
      }
      assert args[i..][1..] == args[i + 1..];
      out := WriteExpr(out, args[i], FromArg(args, i + 1, k1));
    }
    out := Emit(out, [RParen], k);
  }

  method WriteCase(b: seq<Token>, e: Expr, ghost k: seq<Token>) returns (out: seq<Token>)
    requires e.Case?
    ensures out + k == b + Print(e, k)
    decreases e, 0
  {
    var ws := e.whens;
    ghost var k2 := PrintOpt([ElseTok], e.else_, [EndTok] + k);
    out := Emit(b, [CaseTok], PrintOpt([], e.subject, PrintWhens(ws, k2)));
    if e.subject.Some? {
      assert [] + Print(e.subject.value, PrintWhens(ws, k2)) == Print(e.subject.value, PrintWhens(ws, k2));
      out := WriteExpr(out, e.subject.value, PrintWhens(ws, k2));
    }
    assert ws[0..] == ws;
    for i := 0 to |ws|
      invariant out + PrintWhens(ws[i..], k2) == b + Print(e, k)
    {
      assert ws[i..][1..] == ws[i + 1..];
      out := WriteWhen(out, ws[i], PrintWhens(ws[i + 1..], k2));
    }
    if e.else_.Some? {
      out := Emit(out, [ElseTok], Print(e.else_.value, [EndTok] + k));
      out := WriteExpr(out, e.else_.value, [EndTok] + k);
    }
    out := Emit(out, [EndTok], k);
  }

  method WriteWhen(b: seq<Token>, w: When, ghost k: seq<Token>) returns (out: seq<Token>)
    ensures out + k == b + PrintWhen(w, k)
    decreases w, 0
  {
    out := Emit(b, [WhenTok], Print(w.cond, [ThenTok] + Print(w.then_, k)));
    out := WriteExpr(out, w.cond, [ThenTok] + Print(w.then_, k));
    out := Emit(out, [ThenTok], Print(w.then_, k));
    out := WriteExpr(out, w.then_, k);
  }

  // exprString
  method Format(e: Expr) returns (out: seq<Token>)
    ensures out == Print(e, [])
  {
    out := WriteExpr([], e, []);
    assert out + [] == out && [] + Print(e, []) == Print(e, []);
  }
}
