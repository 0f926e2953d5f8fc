// Tokens, syntax trees and printed forms of SQL expressions
// (internal/SQL/PS/ps.go and internal/SQL/RE/format.go).
//
// A Tree is what the parser recognises, parentheses included; Toks reads it off
// from left to right and Ast is the expression the parser builds from it.
module ExprSyntax {
  datatype Option<T> = None | Some(value: T)

  datatype Op =
    | Eq | Ne | Lt | Le | Gt | Ge | And | Or | Plus | Minus | Times | Slash
    | Like | Is | BitAnd | BitOr | BitXor | Mod | Concat

  datatype UnaryOp = Not | Neg | Pos | BitNot

  // Other stands for every token kind the modelled part of the parser rejects.
  datatype Token =
    | IdentTok(name: string) | StrTok(str: string) | IntTok(num: nat) | Bind | Dot | LParen | RParen | Comma
    | OpTok(op: Op) | NotTok | BitNotTok | InTok | BetweenTok | NullTok | TrueTok | FalseTok
    | CaseTok | WhenTok | ThenTok | ElseTok | EndTok | DistinctTok | Other(kind: nat)

  datatype When = When(cond: Expr, then_: Expr)

  datatype Expr =
    | Number(num: int) | Str(str: string) | Null | Bool(truth: bool) | Ident(name: string)
    | Qualified(table: string, col: string) | Param(index: nat) | Star
    | Unary(uop: UnaryOp, operand: Expr) | Binary(bop: Op, left: Expr, right: Expr)
    | Func(fname: string, args: seq<Expr>) | Agg(aname: string, arg: Option<Expr>, distinct: bool)
    | Case(subject: Option<Expr>, whens: seq<When>, else_: Option<Expr>)
    | Between(tested: Expr, low: Expr, high: Expr) | In(member: Expr, list: seq<Expr>)

  datatype WhenTree = WhenTree(cond: Tree, then_: Tree)

  datatype Tree =
    | Leaf(tok: Token) | QualifiedTree(table: string, col: string)
    | CallTree(name: string, distinct: bool, args: seq<Tree>) | Paren(inner: Tree)
    | CaseTree(subject: Option<Tree>, whens: seq<WhenTree>, else_: Option<Tree>)
    | UnaryTree(uop: UnaryOp, operand: Tree) | BinaryTree(bop: Op, left: Tree, right: Tree)
    | BetweenTree(tested: Tree, negated: bool, low: Tree, high: Tree)
    | InTree(member: Tree, negated: bool, list: seq<Tree>)
    | NotLikeTree(text: Tree, pattern: Tree)

  // The operators from the loosest to the tightest.
  const LADDER: seq<set<Op>> :=
    [{Or}, {And}, {BitOr}, {BitXor}, {BitAnd}, {Eq, Ne, Lt, Le, Gt, Ge, Like, Is}, {Concat}, {Plus, Minus},
     {Times, Slash, Mod}]

  // p stands on a later rung than q.
  predicate Tighter(p: Op, q: Op) {
    exists i, j :: 0 <= i < j < |LADDER| && q in LADDER[i] && p in LADDER[j]
  }

  // precedence
  function Precedence(op: Op): (p: nat)
    ensures 1 <= p <= 9
  {
    match op
    case Or => 1
    case And => 2
    case BitOr => 3
    case BitXor => 4
    case BitAnd => 5
    case Eq => 6
    case Ne => 6
    case Lt => 6
    case Le => 6
    case Gt => 6
    case Ge => 6
    case Like => 6
    case Is => 6
    case Concat => 7
    case Plus => 8
    case Minus => 8
    case Times => 9
    case Slash => 9
    case Mod => 9
  }

  function UnaryTok(op: UnaryOp): Token {
    match op
    case Not => NotTok
    case Neg => OpTok(Minus)
    case Pos => OpTok(Plus)
    case BitNot => BitNotTok
  }

  // ---------------------------------------------------------------- reading a tree
  //
  // Each function writes the tokens of its first argument in front of the tokens k.

  function Toks(t: Tree, k: seq<Token>): seq<Token>
    decreases t, 1
  {
    match t
    case Leaf(tok) => [tok] + k
    case QualifiedTree(tb, c) => [IdentTok(tb), Dot, IdentTok(c)] + k
    case CallTree(name, d, args) => [IdentTok(name), LParen] + OptTok(d, DistinctTok, ListToks(args, [RParen] + k))
    case Paren(u) => [LParen] + Toks(u, [RParen] + k)
    case CaseTree(s, ws, e) => [CaseTok] + OptToks([], s, WhenToks(ws, OptToks([ElseTok], e, [EndTok] + k)))
    case UnaryTree(op, u) => [UnaryTok(op)] + Toks(u, k)
    case BinaryTree(op, l, r) => Toks(l, [OpTok(op)] + Toks(r, k))
    case BetweenTree(u, neg, lo, hi) =>
      Toks(u, OptTok(neg, NotTok, [BetweenTok] + Toks(lo, [OpTok(And)] + Toks(hi, k))))
    case InTree(u, neg, items) => Toks(u, OptTok(neg, NotTok, [InTok, LParen] + ListToks(items, [RParen] + k)))
    case NotLikeTree(u, p) => Toks(u, [NotTok, OpTok(Like)] + Toks(p, k))
  }

  function OptTok(present: bool, tok: Token, k: seq<Token>): seq<Token> {
    if present then [tok] + k else k
  }

  function OptToks(before: seq<Token>, o: Option<Tree>, k: seq<Token>): seq<Token>
    decreases o, 0
  {
    match o case None => k case Some(u) => before + Toks(u, k)
  }

  // Comma-separated.
  function ListToks(ts: seq<Tree>, k: seq<Token>): seq<Token>
    decreases ts, 0
  {
    if ts == [] then k
    else if |ts| == 1 then Toks(ts[0], k)
    else Toks(ts[0], [Comma] + ListToks(ts[1..], k))
  }

  function WhenToks(ws: seq<WhenTree>, k: seq<Token>): seq<Token>
    decreases ws, 0
  {
    if ws == [] then k else OneWhenToks(ws[0], WhenToks(ws[1..], k))
  }

  function OneWhenToks(w: WhenTree, k: seq<Token>): seq<Token>
    decreases w, 0
  {
    [WhenTok] + Toks(w.cond, [ThenTok] + Toks(w.then_, k))
  }

  // ---------------------------------------------------------------- the expression built

  function Upper(s: string): string {
    if s == [] then [] else [if 'a' <= s[0] <= 'z' then s[0] - 'a' + 'A' else s[0]] + Upper(s[1..])
  }

  predicate IsAggregateName(name: string) {
    Upper(name) in ["COUNT", "SUM", "AVG", "MIN", "MAX", "GROUP_CONCAT"]
  }

  predicate IsMinMaxName(name: string) {
    Upper(name) in ["MIN", "MAX"]
  }

  // What parsePrimary makes of a call.
  function MakeCall(name: string, distinct: bool, args: seq<Expr>): Expr {
    if IsAggregateName(name) then
      if |args| > 1 && IsMinMaxName(name) then Func(name, args)
      else Agg(name, if |args| > 0 then Some(args[0]) else None, distinct)
    else Func(name, args)
  }

  function Negate(neg: bool, e: Expr): Expr {
    if neg then Unary(Not, e) else e
  }

  function LeafAst(tok: Token, n: nat): (Expr, nat) {
    match tok
    case IntTok(v) => (Number(v), n)
    case StrTok(s) => (Str(s), n)
    case NullTok => (Null, n)
    case TrueTok => (Bool(true), n)
    case FalseTok => (Bool(false), n)
    case Bind => (Param(n), n + 1)
    case IdentTok(s) => (Ident(s), n)
    case _ => (Star, n)
  }

  // The expression and the next parameter number; `?`s are numbered from n on, left to right.
  function Ast(t: Tree, n: nat): (Expr, nat)
    decreases t, 1
  {
    match t
    case Leaf(tok) => LeafAst(tok, n)
    case QualifiedTree(tb, c) => (Qualified(tb, c), n)
    case CallTree(name, d, args) =>
      var es := ListAst(args, n);
      (MakeCall(name, d, es.0), es.1)
    case Paren(u) => Ast(u, n)
    case CaseTree(s, ws, e) =>
      var s' := OptAst(s, n);
      var ws' := WhenAst(ws, s'.1);
      var e' := OptAst(e, ws'.1);
      (Case(s'.0, ws'.0, e'.0), e'.1)
    case UnaryTree(op, u) =>
      var e := Ast(u, n);
      (Unary(op, e.0), e.1)
    case BinaryTree(op, l, r) =>
      var l' := Ast(l, n);
      var r' := Ast(r, l'.1);
      (Binary(op, l'.0, r'.0), r'.1)
    case BetweenTree(u, neg, lo, hi) =>
      var u' := Ast(u, n);
      var lo' := Ast(lo, u'.1);
      var hi' := Ast(hi, lo'.1);
      (Negate(neg, Between(u'.0, lo'.0, hi'.0)), hi'.1)
    case InTree(u, neg, items) =>
      var u' := Ast(u, n);
      var items' := ListAst(items, u'.1);
      (Negate(neg, In(u'.0, items'.0)), items'.1)
    case NotLikeTree(u, p) =>
      var u' := Ast(u, n);
      var p' := Ast(p, u'.1);
      (Unary(Not, Binary(Like, u'.0, p'.0)), p'.1)
  }

  function OptAst(o: Option<Tree>, n: nat): (Option<Expr>, nat)
    decreases o, 0
  {
    match o
    case None => (None, n)
    case Some(u) => var e := Ast(u, n); (Some(e.0), e.1)
  }

  function ListAst(ts: seq<Tree>, n: nat): (seq<Expr>, nat)
    decreases ts, 0
  {
    if ts == [] then ([], n)
    else
      var e := Ast(ts[0], n);
      var es := ListAst(ts[1..], e.1);
      ([e.0] + es.0, es.1)
  }

  function WhenAst(ws: seq<WhenTree>, n: nat): (seq<When>, nat)
    decreases ws, 0
  {
    if ws == [] then ([], n)
    else
      var w := OneWhenAst(ws[0], n);
      var vs := WhenAst(ws[1..], w.1);
      ([w.0] + vs.0, vs.1)
  }

  function OneWhenAst(w: WhenTree, n: nat): (When, nat)
    decreases w, 0
  {
    var c := Ast(w.cond, n);
    var t := Ast(w.then_, c.1);
    (When(c.0, t.0), t.1)
  }

  // ---------------------------------------------------------------- well-formed trees

  // The precedence a tree presents to an operator on its left or right ...
  function Level(t: Tree): nat {
    if t.BinaryTree? then Precedence(t.bop) else 10
  }

  // ... and the highest precedence an operator right after it may have without
  // being drawn into it.
  function Tail(t: Tree): nat
    decreases t
  {
    match t
    case UnaryTree(_, u) => Tail(u)
    case BinaryTree(op, _, r) => Min(Precedence(op), Tail(r))
    case BetweenTree(_, _, _, hi) => Min(2, Tail(hi))
    case NotLikeTree(_, p) => Min(6, Tail(p))
    case _ => 10
  }

  function Min(a: nat, b: nat): nat {
    if a < b then a else b
  }

  predicate IsPrimary(t: Tree) {
    t.Leaf? || t.QualifiedTree? || t.CallTree? || t.Paren? || t.CaseTree?
  }

  predicate IsLeafTok(tok: Token) {
    tok.IntTok? || tok.StrTok? || tok.NullTok? || tok.TrueTok? || tok.FalseTok? || tok.Bind? || tok.IdentTok?
      || tok == OpTok(Times)
  }

  // Left operands bind at least as tightly as their operator, right operands more
  // tightly, and nothing to the left of an operator reaches over it.
  predicate Valid(t: Tree)
    decreases t, 1
  {
    match t
    case Leaf(tok) => IsLeafTok(tok)
    case QualifiedTree(_, _) => true
    case CallTree(name, d, args) => ValidAll(args)
      && (d ==> IsAggregateName(name) && (args != [] ==> First(args[0]) != OpTok(Times)))
    case Paren(u) => Valid(u)
    case CaseTree(s, ws, e) => ValidOpt(s) && ValidOpt(e) && ValidWhens(ws) && (s.None? ==> ws != [])
    case UnaryTree(_, u) => Valid(u) && !u.BinaryTree?
    case BinaryTree(op, l, r) =>
      Valid(l) && Valid(r) && Level(l) >= Precedence(op) && Tail(l) >= Precedence(op) && Level(r) > Precedence(op)
    case BetweenTree(u, _, lo, hi) => Valid(u) && IsPrimary(u) && Valid(lo) && Valid(hi) && Level(lo) >= 3
      && Tail(lo) >= 2 && Level(hi) >= 3
    case InTree(u, _, items) => Valid(u) && IsPrimary(u) && ValidAll(items)
    case NotLikeTree(u, p) => Valid(u) && IsPrimary(u) && Valid(p) && Level(p) >= 7
  }

  predicate ValidOpt(o: Option<Tree>)
    decreases o, 0
  {
    o.Some? ==> Valid(o.value)
  }

  predicate ValidAll(ts: seq<Tree>)
    decreases ts, 0
  {
    ts == [] || (Valid(ts[0]) && ValidAll(ts[1..]))
  }

  predicate ValidWhens(ws: seq<WhenTree>)
    decreases ws, 0
  {
    ws == [] || (ValidWhen(ws[0]) && ValidWhens(ws[1..]))
  }

  predicate ValidWhen(w: WhenTree)
    decreases w, 0
  {
    Valid(w.cond) && Valid(w.then_)
  }

  // The first token of a tree.
  function First(t: Tree): Token
    decreases t
  {
    match t
    case Leaf(tok) => tok
    case QualifiedTree(tb, _) => IdentTok(tb)
    case CallTree(name, _, _) => IdentTok(name)
    case Paren(_) => LParen
    case CaseTree(_, _, _) => CaseTok
    case UnaryTree(op, _) => UnaryTok(op)
    case BinaryTree(_, l, _) => First(l)
    case BetweenTree(u, _, _, _) => First(u)
    case InTree(u, _, _) => First(u)
    case NotLikeTree(u, _) => First(u)
  }

  predicate Starts(tok: Token) {
    IsLeafTok(tok) || tok == LParen || tok == CaseTok || tok == NotTok || tok == BitNotTok || tok == OpTok(Minus)
      || tok == OpTok(Plus)
  }

  lemma {:induction false} FirstStarts(t: Tree, k: seq<Token>)
    requires Valid(t)
    ensures |Toks(t, k)| > 0 && Toks(t, k)[0] == First(t) && Starts(First(t))
    decreases t
  {
    match t
    case BinaryTree(op, l, r) => FirstStarts(l, [OpTok(op)] + Toks(r, k));
    case BetweenTree(u, neg, lo, hi) =>
      FirstStarts(u, OptTok(neg, NotTok, [BetweenTok] + Toks(lo, [OpTok(And)] + Toks(hi, k))));
    case InTree(u, neg, items) => FirstStarts(u, OptTok(neg, NotTok, [InTok, LParen] + ListToks(items, [RParen] + k)));
    case NotLikeTree(u, p) => FirstStarts(u, [NotTok, OpTok(Like)] + Toks(p, k));
    case _ =>
  }
}
