// The parser object: a cursor over the lexer's tokens and a parameter counter,
// moved along by mutually recursive methods (internal/SQL/PS/ps.go).
module SqlParser {
  import opened ExprSyntax
  import P = ExprParser

  datatype Result = Parsed(expr: Expr) | SyntaxError
  datatype ListResult = ParsedList(exprs: seq<Expr>) | ListError

  // What a method leaves behind, given what the parsing function says.
  ghost predicate Follows(want: P.Res, n: nat, got: Result, rest: seq<Token>, m: nat) {
    if want.Fail? then got == SyntaxError
    else got == Parsed(Ast(want.tree, n).0) && rest == want.rest && m == Ast(want.tree, n).1
  }

  ghost predicate FollowsList(want: P.ListRes, n: nat, got: ListResult, rest: seq<Token>, m: nat) {
    if want.FailList? then got == ListError
    else got == ParsedList(ListAst(want.trees, n).0) && rest == want.rest && m == ListAst(want.trees, n).1
  }

  lemma {:induction false} ListAstSnoc(ts: seq<Tree>, t: Tree, n: nat)
    ensures var es := ListAst(ts, n);
            var all := ListAst(ts + [t], n);
            all.0 == es.0 + [Ast(t, es.1).0] && all.1 == Ast(t, es.1).1
    decreases ts
  {
    if ts == [] {
      assert ts + [t] == [t] && [t][1..] == [];
    } else {
      ListAstSnoc(ts[1..], t, Ast(ts[0], n).1);
      assert (ts + [t])[1..] == ts[1..] + [t];
    }
  }

  lemma {:induction false} WhenAstSnoc(ws: seq<WhenTree>, w: WhenTree, n: nat)
    ensures var vs := WhenAst(ws, n);
            var all := WhenAst(ws + [w], n);
            all.0 == vs.0 + [OneWhenAst(w, vs.1).0] && all.1 == OneWhenAst(w, vs.1).1
    decreases ws
  {
    if ws == [] {
      assert ws + [w] == [w] && [w][1..] == [];
    } else {
      WhenAstSnoc(ws[1..], w, OneWhenAst(ws[0], n).1);
      assert (ws + [w])[1..] == ws[1..] + [w];
    }
  }

  // ParseItems after the items in acc have been read.
  ghost function ItemsFrom(acc: seq<Tree>, ts: seq<Token>): P.ListRes {
    if P.At(ts, Comma) then
      var more := P.ParseItems(ts[1..]);
      if more.FailList? then P.FailList else P.OkList(acc + more.trees, more.rest)
    else if P.At(ts, RParen) then P.OkList(acc, ts[1..])
    else P.FailList
  }

  lemma ItemsStep(acc: seq<Tree>, ts: seq<Token>)
    requires P.At(ts, Comma)
    ensures var e := P.ParseBinary(1, ts[1..]);
            ItemsFrom(acc, ts) == if e.Fail? then P.FailList else ItemsFrom(acc + [e.tree], e.rest)
  {
    var e := P.ParseBinary(1, ts[1..]);
    if e.Ok? && P.At(e.rest, Comma) {
      var more := P.ParseItems(e.rest[1..]);
      if more.OkList? { assert acc + ([e.tree] + more.trees) == acc + [e.tree] + more.trees; }
    }
  }

  // ParseWhens after the clauses in acc have been read.
  ghost function WhensFrom(acc: seq<WhenTree>, ts: seq<Token>): P.WhenRes {
    var more := P.ParseWhens(ts);
    if more.FailWhens? then P.FailWhens else P.OkWhens(acc + more.whens, more.rest)
  }

  lemma WhensStep(acc: seq<WhenTree>, ts: seq<Token>)
    requires P.At(ts, WhenTok)
    ensures var c := P.ParseBinary(1, ts[1..]);
            if c.Fail? || !P.At(c.rest, ThenTok) then WhensFrom(acc, ts).FailWhens?
            else var t := P.ParseBinary(1, c.rest[1..]);
                 if t.Fail? then WhensFrom(acc, ts).FailWhens?
                 else WhensFrom(acc, ts) == WhensFrom(acc + [WhenTree(c.tree, t.tree)], t.rest)
  {
    var c := P.ParseBinary(1, ts[1..]);
    if c.Ok? && P.At(c.rest, ThenTok) {
      var t := P.ParseBinary(1, c.rest[1..]);
      if t.Ok? && P.ParseWhens(t.rest).OkWhens? {
        var w, more := WhenTree(c.tree, t.tree), P.ParseWhens(t.rest).whens;
        assert acc + ([w] + more) == acc + [w] + more;
      }
    }
  }

  lemma WhensEnd(acc: seq<WhenTree>, ts: seq<Token>)
    requires !P.At(ts, WhenTok)
    ensures WhensFrom(acc, ts) == P.OkWhens(acc, ts)
  {
    assert acc + [] == acc;
  }

  lemma WhensBegin(ts: seq<Token>)
    ensures WhensFrom([], ts) == P.ParseWhens(ts)
  {
  }

  lemma WhenTreeAst(c: Tree, t: Tree, m: nat)
    ensures OneWhenAst(WhenTree(c, t), m) == (When(Ast(c, m).0, Ast(t, Ast(c, m).1).0), Ast(t, Ast(c, m).1).1)
  {
  }

  class Parser {
    const tokens: seq<Token>
    var pos: nat
    var paramIndex: nat

    constructor (tokens: seq<Token>)
      ensures this.tokens == tokens && pos == 0 && paramIndex == 0 && InRange()
    {
      this.tokens := tokens;
      pos, paramIndex := 0, 0;
    }

    ghost predicate InRange()
      reads this
    {
      pos <= |tokens|
    }

    ghost function Rest(): seq<Token>
      requires InRange()
      reads this
    {
      tokens[pos..]
    }

    predicate Is(tok: Token)
      requires InRange()
      reads this
      ensures Is(tok) == P.At(Rest(), tok)
    {
      pos < |tokens| && tokens[pos] == tok
    }

    predicate NextIs(tok: Token)
      requires InRange()
      reads this
      ensures NextIs(tok) == (Rest() != [] && P.At(Rest()[1..], tok))
    {
      pos + 1 < |tokens| && tokens[pos + 1] == tok
    }

    method Advance()
      requires InRange() && Rest() != []
      modifies this`pos
      ensures InRange() && Rest() == old(Rest())[1..] && pos == old(pos) + 1
    {
      pos := pos + 1;
    }

    method ParseBinary(minPrec: nat) returns (r: Result)
      requires InRange()
      modifies this
      ensures InRange() && Follows(P.ParseBinary(minPrec, old(Rest())), old(paramIndex), r, Rest(), paramIndex)
      decreases |tokens| - pos, 4
    {
      ghost var want, n := P.ParseBinary(minPrec, Rest()), paramIndex;
      ghost var lt := P.ParseUnary(Rest());
      var left := ParseUnary();
      if left.SyntaxError? {
        return SyntaxError;
      }
      ghost var tree := lt.tree;
      while pos < |tokens| && tokens[pos].OpTok? && Precedence(tokens[pos].op) >= minPrec
        invariant InRange() && left == Parsed(Ast(tree, n).0) && paramIndex == Ast(tree, n).1
        invariant want == P.BinaryLoop(minPrec, tree, Rest())
        invariant pos > old(pos)
        decreases |tokens| - pos
      {
        var op := tokens[pos].op;
        ghost var rt := P.ParseBinary(Precedence(op) + 1, Rest()[1..]);
        Advance();
        var right := ParseBinary(Precedence(op) + 1);
        if right.SyntaxError? {
          return SyntaxError;
        }
        left := Parsed(Binary(op, left.expr, right.expr));
        tree := BinaryTree(op, tree, rt.tree);
      }
      return left;
    }
  
    method ParseUnary() returns (r: Result)
      requires InRange()
      modifies this
      ensures InRange() && Follows(P.ParseUnary(old(Rest())), old(paramIndex), r, Rest(), paramIndex)
      decreases |tokens| - pos, 3
    {
      if Is(NotTok) || Is(OpTok(Minus)) || Is(OpTok(Plus)) || Is(BitNotTok) {
        var op := P.UnaryOpOf(tokens[pos]).value;
        Advance();
        var operand := ParseUnary();
        return if operand.SyntaxError? then SyntaxError else Parsed(Unary(op, operand.expr));
      }
      r := ParsePostfix();
    }

    method ParsePostfix() returns (r: Result)
      requires InRange()
      modifies this
      ensures InRange() && Follows(P.ParsePostfix(old(Rest())), old(paramIndex), r, Rest(), paramIndex)
      decreases |tokens| - pos, 2
    {
      ghost var p := P.ParsePrimary(Rest());
      var e := ParsePrimary();
      if e.SyntaxError? {
        return SyntaxError;
      }
      ghost var n := old(paramIndex);
      assert P.ParsePostfix(old(Rest())) == P.PostfixOf(p.tree, Rest());
      hide P.ParsePostfix, P.ParsePrimary;
      if Is(BetweenTok) {
        Advance();
        r := ParseBetween(e.expr, false, p.tree, n);
      } else if Is(InTok) {
        Advance();
        r := ParseInBody(e.expr, false, p.tree, n);
      } else if Is(NotTok) && NextIs(OpTok(Like)) {
        Advance();
        Advance();
        r := ParseNotLike(e.expr, p.tree, n);
      } else if Is(NotTok) && NextIs(InTok) {
        Advance();
        Advance();
        r := ParseInBody(e.expr, true, p.tree, n);
      } else if Is(NotTok) && NextIs(BetweenTok) {
        Advance();
        Advance();
        r := ParseBetween(e.expr, true, p.tree, n);
      } else {
        r := e;
      }
    }

    method ParseNotLike(e: Expr, ghost t: Tree, ghost n: nat) returns (r: Result)
      requires InRange() && Ast(t, n) == (e, paramIndex)
      modifies this
      ensures InRange() && Follows(P.ParseNotLike(t, old(Rest())), n, r, Rest(), paramIndex)
      decreases |tokens| - pos, 5
    {
      var right := ParseBinary(7);
      return if right.SyntaxError? then SyntaxError else Parsed(Unary(Not, Binary(Like, e, right.expr)));
    }

    method ParseBetween(e: Expr, negated: bool, ghost t: Tree, ghost n: nat) returns (r: Result)
      requires InRange() && Ast(t, n) == (e, paramIndex)
      modifies this
      ensures InRange() && Follows(P.ParseBetween(t, negated, old(Rest())), n, r, Rest(), paramIndex)
      decreases |tokens| - pos, 5
    {
      var low := ParseBinary(3);
      if low.SyntaxError? || !Is(OpTok(And)) {
        return SyntaxError;
      }
      Advance();
      var high := ParseBinary(3);
      return if high.SyntaxError? then SyntaxError else Parsed(Negate(negated, Between(e, low.expr, high.expr)));
    }

    method ParseInBody(e: Expr, negated: bool, ghost t: Tree, ghost n: nat) returns (r: Result)
      requires InRange() && Ast(t, n) == (e, paramIndex)
      modifies this
      ensures InRange() && Follows(P.ParseIn(t, negated, old(Rest())), n, r, Rest(), paramIndex)
      decreases |tokens| - pos, 6
    {
      if !Is(LParen) {
        return SyntaxError;
      }
      Advance();
      var items := ParseList();
      return if items.ListError? then SyntaxError else Parsed(Negate(negated, In(e, items.exprs)));
    }

    method ParseList() returns (r: ListResult)
      requires InRange()
      modifies this
      ensures InRange() && FollowsList(P.ParseList(old(Rest())), old(paramIndex), r, Rest(), paramIndex)
      decreases |tokens| - pos, 5
    {
      if Is(RParen) {
        Advance();
        return ParsedList([]);
      }
      ghost var want, n := P.ParseItems(Rest()), paramIndex;
      ghost var et := P.ParseBinary(1, Rest());
      var e := ParseBinary(1);
      if e.SyntaxError? {
        return ListError;
      }
      var exprs := [e.expr];
      ghost var trees := [et.tree];
      ListAstSnoc([], et.tree, n);
      assert [] + [et.tree] == trees && [] + [e.expr] == exprs;
      assert want == ItemsFrom(trees, Rest());
      while Is(Comma)
        invariant InRange() && ListAst(trees, n).0 == exprs && ListAst(trees, n).1 == paramIndex
                  && want == ItemsFrom(trees, Rest())
        invariant pos > old(pos)
        decreases |tokens| - pos
      {
        ItemsStep(trees, Rest());
        et := P.ParseBinary(1, Rest()[1..]);
        Advance();
        e := ParseBinary(1);
        if e.SyntaxError? {
          return ListError;
        }
        ListAstSnoc(trees, et.tree, n);
        exprs := exprs + [e.expr];
        trees := trees + [et.tree];
      }
      if !Is(RParen) {
        return ListError;
      }
      Advance();
      return ParsedList(exprs);
    }

    method ParsePrimary() returns (r: Result)
      requires InRange()
      modifies this
      ensures InRange() && Follows(P.ParsePrimary(old(Rest())), old(paramIndex), r, Rest(), paramIndex)
      decreases |tokens| - pos, 1
    {
      if pos == |tokens| {
        return SyntaxError;
      }
      hide P.ParseBinary, P.ParseCall, P.ParseCase;
      match tokens[pos]
      case IdentTok(name) =>
        r := ParseName(name);
      case LParen =>
        Advance();
        var e := ParseBinary(1);
        if e.SyntaxError? || !Is(RParen) {
          return SyntaxError;
        }
        Advance();
        return e;
      case CaseTok =>
        Advance();
        r := ParseCaseExpr();
      case _ =>
        r := ParseLeaf();
    }

    // The branches that consume a single token, and the refusal of every other one.
    method ParseLeaf() returns (r: Result)
      requires InRange() && pos < |tokens|
      requires !tokens[pos].IdentTok? && tokens[pos] != LParen && tokens[pos] != CaseTok
      modifies this
      ensures InRange() && Follows(P.ParsePrimary(old(Rest())), old(paramIndex), r, Rest(), paramIndex)
    {
      ghost var before := Rest();
      assert P.ParsePrimary(before) == if IsLeafTok(before[0]) then P.Ok(Leaf(before[0]), before[1..]) else P.Fail;
      hide P.ParsePrimary;
      assert before[0] == tokens[pos] && tokens[pos + 1..] == before[1..];
      match tokens[pos] {
        case IntTok(v) => r := Parsed(Number(v));
        case StrTok(v) => r := Parsed(Str(v));
        case NullTok => r := Parsed(Null);
        case TrueTok => r := Parsed(Bool(true));
        case FalseTok => r := Parsed(Bool(false));
        case Bind =>
          r := Parsed(Param(paramIndex));
          paramIndex := paramIndex + 1;
        case OpTok(op) =>
          if op != Times {
            return SyntaxError;
          }
          r := Parsed(Star);
        case _ => return SyntaxError;
      }
      Advance();
    }

    // The identifier branch: a column, a qualified column or a call.
    method ParseName(name: string) returns (r: Result)
      requires InRange() && Is(IdentTok(name))
      modifies this
      ensures InRange() && Follows(P.ParsePrimary(old(Rest())), old(paramIndex), r, Rest(), paramIndex)
      decreases |tokens| - pos, 0
    {
      Advance();
      if Is(Dot) {
        Advance();
        if pos == |tokens| || !tokens[pos].IdentTok? {
          return SyntaxError;
        }
        var col := tokens[pos].name;
        Advance();
        return Parsed(Qualified(name, col));
      }
      if !Is(LParen) {
        return Parsed(Ident(name));
      }
      Advance();
      r := ParseArgs(name);
    }

    // The arguments of a call.
    method ParseArgs(name: string) returns (r: Result)
      requires InRange()
      modifies this
      ensures InRange() && Follows(P.ParseCall(name, old(Rest())), old(paramIndex), r, Rest(), paramIndex)
      decreases |tokens| - pos, 6
    {
      var distinct := false;
      if IsAggregateName(name) && Is(DistinctTok) {
        distinct := true;
        Advance();
        if Is(OpTok(Times)) {
          return SyntaxError;
        }
      }
      var args := ParseList();
      if args.ListError? {
        return SyntaxError;
      }
      if IsAggregateName(name) {
        if |args.exprs| > 1 && IsMinMaxName(name) {
          return Parsed(Func(name, args.exprs));
        }
        return Parsed(Agg(name, if |args.exprs| > 0 then Some(args.exprs[0]) else None, distinct));
      }
      return Parsed(Func(name, args.exprs));
    }

    method ParseCaseExpr() returns (r: Result)
      requires InRange()
      modifies this
      ensures InRange() && Follows(P.ParseCase(old(Rest())), old(paramIndex), r, Rest(), paramIndex)
      decreases |tokens| - pos, 8
    {
      ghost var n := paramIndex;
      var subject: Option<Expr> := None;
      ghost var st: Option<Tree> := None;
      if !Is(WhenTok) {
        ghost var et := P.ParseBinary(1, Rest());
        var e := ParseBinary(1);
        if e.SyntaxError? {
          return SyntaxError;
        }
        st := Some(et.tree);
        subject := Some(e.expr);
      }
      ghost var ts := Rest();
      assert P.ParseCase(old(Rest())) == P.CaseBody(st, ts);
      ghost var ws := P.ParseWhens(ts);
      var whens := ParseWhens();
      if whens.None? {
        return SyntaxError;
      }
      r := ParseElse(subject, whens.value, st, ws.whens, n, ts);
    }

    // The WHEN clauses of a CASE.
    method ParseWhens() returns (r: Option<seq<When>>)
      requires InRange()
      modifies this
      ensures InRange()
      ensures var want := P.ParseWhens(old(Rest()));
              if want.FailWhens? then r == None
              else r == Some(WhenAst(want.whens, old(paramIndex)).0) && Rest() == want.rest &&
                   paramIndex == WhenAst(want.whens, old(paramIndex)).1
      decreases |tokens| - pos, 7
    {
      hide P.ParseBinary, P.ParseWhens, WhensFrom, OneWhenAst, Ast;
      ghost var m, ts := paramIndex, Rest();
      WhensBegin(ts);
      var whens: seq<When> := [];
      ghost var ws: seq<WhenTree> := [];
      while Is(WhenTok)
        invariant InRange() && WhenAst(ws, m).0 == whens && WhenAst(ws, m).1 == paramIndex
                  && P.ParseWhens(ts) == WhensFrom(ws, Rest())
        invariant pos >= old(pos)
        decreases |tokens| - pos
      {
        WhensStep(ws, Rest());
        ghost var ct := P.ParseBinary(1, Rest()[1..]);
        Advance();
        var cond := ParseBinary(1);
        if cond.SyntaxError? || !Is(ThenTok) {
          return None;
        }
        Advance();
        ghost var tt := P.ParseBinary(1, Rest());
        var then_ := ParseBinary(1);
        if then_.SyntaxError? {
          return None;
        }
        WhenAstSnoc(ws, WhenTree(ct.tree, tt.tree), m);
        WhenTreeAst(ct.tree, tt.tree, WhenAst(ws, m).1);
        whens := whens + [When(cond.expr, then_.expr)];
        ws := ws + [WhenTree(ct.tree, tt.tree)];
      }
      WhensEnd(ws, Rest());
      return Some(whens);
    }

    // The ELSE and END of a CASE.
    method ParseElse(subject: Option<Expr>, whens: seq<When>, ghost st: Option<Tree>, ghost ws: seq<WhenTree>,
                     ghost n: nat, ghost ts: seq<Token>) returns (r: Result)
      requires InRange() && P.ParseWhens(ts) == P.OkWhens(ws, Rest())
      requires OptAst(st, n).0 == subject
      requires WhenAst(ws, OptAst(st, n).1).0 == whens && WhenAst(ws, OptAst(st, n).1).1 == paramIndex
      modifies this
      ensures InRange() && Follows(P.CaseBody(st, ts), n, r, Rest(), paramIndex)
      decreases |tokens| - pos, 7
    {
      hide P.ParseWhens;
      var else_: Option<Expr> := None;
      ghost var et: Option<Tree>, m := None, paramIndex;
      if Is(ElseTok) {
        ghost var want := P.ParseBinary(1, Rest()[1..]);
        Advance();
        var e := ParseBinary(1);
        if e.SyntaxError? {
          return SyntaxError;
        }
        else_ := Some(e.expr);
        et := Some(want.tree);
      }
      assert OptAst(et, m).0 == else_ && OptAst(et, m).1 == paramIndex;
      if !Is(EndTok) {
        return SyntaxError;
      }
      Advance();
      assert P.CaseBody(st, ts) == P.Ok(CaseTree(st, ws, et), Rest());
      return Parsed(Case(subject, whens, else_));
    }

    // parseExpr
    method ParseExpr() returns (r: Result)
      requires InRange()
      modifies this
      ensures InRange() && Follows(P.ParseBinary(1, old(Rest())), old(paramIndex), r, Rest(), paramIndex)
    {
      r := ParseBinary(1);
    }
  }
}
