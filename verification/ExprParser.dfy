// The expression parser as a function of the token string (internal/SQL/PS/ps.go).
//
// SoundBinary and CompleteBinary together say that it computes exactly the reading
// that operator precedence prescribes; TreeUnique says there is only one.
module ExprParser {
  import opened ExprSyntax

  datatype Res = Ok(tree: Tree, rest: seq<Token>) | Fail
  datatype ListRes = OkList(trees: seq<Tree>, rest: seq<Token>) | FailList
  datatype WhenRes = OkWhens(whens: seq<WhenTree>, rest: seq<Token>) | FailWhens

  predicate At(ts: seq<Token>, tok: Token) {
    ts != [] && ts[0] == tok
  }

  // parseBinary
  function ParseBinary(minPrec: nat, ts: seq<Token>): (r: Res)
    ensures r.Ok? ==> |r.rest| < |ts|
    decreases |ts|, 4
  {
    var left := ParseUnary(ts);
    if left.Fail? then Fail else BinaryLoop(minPrec, left.tree, left.rest)
  }

  function BinaryLoop(minPrec: nat, left: Tree, ts: seq<Token>): (r: Res)
    ensures r.Ok? ==> |r.rest| <= |ts|
    decreases |ts|, 5
  {
    if ts != [] && ts[0].OpTok? && Precedence(ts[0].op) >= minPrec then
      var op := ts[0].op;
      var right := ParseBinary(Precedence(op) + 1, ts[1..]);
      if right.Fail? then Fail else BinaryLoop(minPrec, BinaryTree(op, left, right.tree), right.rest)
    else Ok(left, ts)
  }

  function UnaryOpOf(tok: Token): Option<UnaryOp> {
    match tok
    case NotTok => Some(Not)
    case BitNotTok => Some(BitNot)
    case OpTok(op) => (match op case Minus => Some(Neg) case Plus => Some(Pos) case _ => None)
    case _ => None
  }

  // parseUnary
  function ParseUnary(ts: seq<Token>): (r: Res)
    ensures r.Ok? ==> |r.rest| < |ts|
    decreases |ts|, 3
  {
    if ts != [] && UnaryOpOf(ts[0]).Some? then
      var u := ParseUnary(ts[1..]);
      if u.Fail? then Fail else Ok(UnaryTree(UnaryOpOf(ts[0]).value, u.tree), u.rest)
    else ParsePostfix(ts)
  }

  // parsePostfix
  function ParsePostfix(ts: seq<Token>): (r: Res)
    ensures r.Ok? ==> |r.rest| < |ts|
    decreases |ts|, 2
  {
    var p := ParsePrimary(ts);
    if p.Fail? then Fail else PostfixOf(p.tree, p.rest)
  }

  function PostfixOf(t: Tree, ts: seq<Token>): (r: Res)
    ensures r.Ok? ==> |r.rest| <= |ts|
    decreases |ts|, 5
  {
    if At(ts, BetweenTok) then ParseBetween(t, false, ts[1..])
    else if At(ts, InTok) then ParseIn(t, false, ts[1..])
    else if At(ts, NotTok) && At(ts[1..], OpTok(Like)) then ParseNotLike(t, ts[2..])
    else if At(ts, NotTok) && At(ts[1..], InTok) then ParseIn(t, true, ts[2..])
    else if At(ts, NotTok) && At(ts[1..], BetweenTok) then ParseBetween(t, true, ts[2..])
    else Ok(t, ts)
  }

  function ParseNotLike(t: Tree, ts: seq<Token>): (r: Res)
    ensures r.Ok? ==> |r.rest| <= |ts|
    decreases |ts|, 5
  {
    var p := ParseBinary(7, ts);
    if p.Fail? then Fail else Ok(NotLikeTree(t, p.tree), p.rest)
  }

  function ParseBetween(t: Tree, negated: bool, ts: seq<Token>): (r: Res)
    ensures r.Ok? ==> |r.rest| <= |ts|
    decreases |ts|, 5
  {
    var lo := ParseBinary(3, ts);
    if lo.Fail? || !At(lo.rest, OpTok(And)) then Fail
    else
      var hi := ParseBinary(3, lo.rest[1..]);
      if hi.Fail? then Fail else Ok(BetweenTree(t, negated, lo.tree, hi.tree), hi.rest)
  }

  // parseInBody
  function ParseIn(t: Tree, negated: bool, ts: seq<Token>): (r: Res)
    ensures r.Ok? ==> |r.rest| <= |ts|
    decreases |ts|, 6
  {
    if !At(ts, LParen) then Fail
    else
      var items := ParseList(ts[1..]);
      if items.FailList? then Fail else Ok(InTree(t, negated, items.trees), items.rest)
  }

  // A possibly empty comma-separated list up to and including the `)`.
  function ParseList(ts: seq<Token>): (r: ListRes)
    ensures r.OkList? ==> |r.rest| < |ts|
    decreases |ts|, 7
  {
    if At(ts, RParen) then OkList([], ts[1..]) else ParseItems(ts)
  }

  function ParseItems(ts: seq<Token>): (r: ListRes)
    ensures r.OkList? ==> |r.rest| < |ts|
    decreases |ts|, 6
  {
    var e := ParseBinary(1, ts);
    if e.Fail? then FailList
    else if At(e.rest, Comma) then
      var es := ParseItems(e.rest[1..]);
      if es.FailList? then FailList else OkList([e.tree] + es.trees, es.rest)
    else if At(e.rest, RParen) then OkList([e.tree], e.rest[1..])
    else FailList
  }

  // parsePrimary
  function ParsePrimary(ts: seq<Token>): (r: Res)
    ensures r.Ok? ==> |r.rest| < |ts|
    decreases |ts|, 1
  {
    if ts == [] then Fail
    else if ts[0].IdentTok? then
      if At(ts[1..], Dot) then
        if |ts| > 2 && ts[2].IdentTok? then Ok(QualifiedTree(ts[0].name, ts[2].name), ts[3..]) else Fail
      else if At(ts[1..], LParen) then ParseCall(ts[0].name, ts[2..])
      else Ok(Leaf(ts[0]), ts[1..])
    else if ts[0] == LParen then
      var e := ParseBinary(1, ts[1..]);
      if e.Fail? || !At(e.rest, RParen) then Fail else Ok(Paren(e.tree), e.rest[1..])
    else if ts[0] == CaseTok then ParseCase(ts[1..])
    else if IsLeafTok(ts[0]) then Ok(Leaf(ts[0]), ts[1..])
    else Fail
  }

  function ParseCall(name: string, ts: seq<Token>): (r: Res)
    ensures r.Ok? ==> |r.rest| < |ts|
    decreases |ts|, 8
  {
    var d := IsAggregateName(name) && At(ts, DistinctTok);
    var ts1 := if d then ts[1..] else ts;
    if d && At(ts1, OpTok(Times)) then Fail
    else
      var args := ParseList(ts1);
      if args.FailList? then Fail else Ok(CallTree(name, d, args.trees), args.rest)
  }

  // parseCaseExpr, after the CASE
  function ParseCase(ts: seq<Token>): (r: Res)
    ensures r.Ok? ==> |r.rest| < |ts|
    decreases |ts|, 8
  {
    if At(ts, WhenTok) then CaseBody(None, ts)
    else
      var s := ParseBinary(1, ts);
      if s.Fail? then Fail else CaseBody(Some(s.tree), s.rest)
  }

  function CaseBody(subject: Option<Tree>, ts: seq<Token>): (r: Res)
    ensures r.Ok? ==> |r.rest| < |ts|
    decreases |ts|, 7
  {
    var ws := ParseWhens(ts);
    if ws.FailWhens? then Fail
    else if At(ws.rest, ElseTok) then
      var e := ParseBinary(1, ws.rest[1..]);
      if e.Fail? || !At(e.rest, EndTok) then Fail else Ok(CaseTree(subject, ws.whens, Some(e.tree)), e.rest[1..])
    else if At(ws.rest, EndTok) then Ok(CaseTree(subject, ws.whens, None), ws.rest[1..])
    else Fail
  }

  function ParseWhens(ts: seq<Token>): (r: WhenRes)
    ensures r.OkWhens? ==> |r.rest| <= |ts|
    decreases |ts|, 6
  {
    if !At(ts, WhenTok) then OkWhens([], ts)
    else
      var c := ParseBinary(1, ts[1..]);
      if c.Fail? || !At(c.rest, ThenTok) then FailWhens
      else
        var t := ParseBinary(1, c.rest[1..]);
        if t.Fail? then FailWhens
        else
          var ws := ParseWhens(t.rest);
          if ws.FailWhens? then FailWhens else OkWhens([WhenTree(c.tree, t.tree)] + ws.whens, ws.rest)
  }

  // ---------------------------------------------------------------- soundness

  // Precedence of the operator a token string starts with, 0 if it starts with none.
  function NextPrec(ts: seq<Token>): nat {
    if ts != [] && ts[0].OpTok? then Precedence(ts[0].op) else 0
  }

  // A column name followed by a dot or a parenthesis is something else.
  predicate Apart(t: Tree, k: seq<Token>) {
    t.Leaf? && t.tok.IdentTok? ==> !At(k, Dot) && !At(k, LParen)
  }

  // BETWEEN, IN or LIKE, negated or not, are next.
  predicate PostfixNext(k: seq<Token>) {
    || At(k, BetweenTok) || At(k, InTok)
    || (At(k, NotTok) && (At(k[1..], OpTok(Like)) || At(k[1..], InTok) || At(k[1..], BetweenTok)))
  }

  // The tokens k do not go on with the last operand of t.
  predicate Ends(t: Tree, k: seq<Token>)
    decreases t
  {
    match t
    case UnaryTree(_, u) => Ends(u, k)
    case BinaryTree(_, _, r) => Ends(r, k)
    case BetweenTree(_, _, _, hi) => Ends(hi, k)
    case NotLikeTree(_, p) => Ends(p, k)
    case InTree(_, _, _) => true
    case _ => Apart(t, k) && !PostfixNext(k)
  }

  // t is a reading of what ts has before rest, and nothing after it belongs to it.
  ghost predicate Reads(t: Tree, ts: seq<Token>, rest: seq<Token>) {
    Valid(t) && ts == Toks(t, rest) && NextPrec(rest) <= Tail(t) && Ends(t, rest)
  }

  lemma Head(ts: seq<Token>, tok: Token)
    requires At(ts, tok)
    ensures ts == [tok] + ts[1..]
  {
  }

  lemma {:induction false} SoundBinary(minPrec: nat, ts: seq<Token>)
    requires 1 <= minPrec <= 10 && ParseBinary(minPrec, ts).Ok?
    ensures var r := ParseBinary(minPrec, ts);
            Reads(r.tree, ts, r.rest) && Level(r.tree) >= minPrec && NextPrec(r.rest) < minPrec
    decreases |ts|, 4
  {
    var left := ParseUnary(ts);
    SoundUnary(ts);
    SoundLoop(minPrec, left.tree, ts, left.rest);
  }

  lemma {:induction false} SoundLoop(minPrec: nat, left: Tree, all: seq<Token>, ts: seq<Token>)
    requires 1 <= minPrec <= 10 && BinaryLoop(minPrec, left, ts).Ok?
    requires Reads(left, all, ts) && Level(left) >= minPrec && NextPrec(ts) <= Level(left)
    ensures var r := BinaryLoop(minPrec, left, ts);
            Reads(r.tree, all, r.rest) && Level(r.tree) >= minPrec && NextPrec(r.rest) < minPrec
    decreases |ts|, 5
  {
    if ts != [] && ts[0].OpTok? && Precedence(ts[0].op) >= minPrec {
      var op := ts[0].op;
      Head(ts, OpTok(op));
      SoundBinary(Precedence(op) + 1, ts[1..]);
      var right := ParseBinary(Precedence(op) + 1, ts[1..]);
      hide BinaryLoop, ParseBinary;
      LoopReads(op, left, right.tree, all, ts, right.rest);
      SoundLoop(minPrec, BinaryTree(op, left, right.tree), all, right.rest);
    }
  }

  // The loop's next tree reads the same tokens and one operand more.
  lemma LoopReads(op: Op, left: Tree, right: Tree, all: seq<Token>, ts: seq<Token>, rest: seq<Token>)
    requires Reads(left, all, ts) && At(ts, OpTok(op)) && Precedence(op) <= Level(left)
    requires Reads(right, ts[1..], rest) && Level(right) > Precedence(op) && NextPrec(rest) <= Precedence(op)
    ensures Reads(BinaryTree(op, left, right), all, rest)
  {
    Head(ts, OpTok(op));
  }

  lemma {:induction false} SoundUnary(ts: seq<Token>)
    requires ParseUnary(ts).Ok?
    ensures var r := ParseUnary(ts); Reads(r.tree, ts, r.rest) && !r.tree.BinaryTree?
    decreases |ts|, 3
  {
    if ts != [] && UnaryOpOf(ts[0]).Some? {
      Head(ts, ts[0]);
      SoundUnary(ts[1..]);
    } else {
      SoundPrimary(ts);
      var p := ParsePrimary(ts);
      SoundPostfix(p.tree, ts, p.rest);
    }
  }

  lemma {:induction false} SoundPostfix(t: Tree, all: seq<Token>, ts: seq<Token>)
    requires PostfixOf(t, ts).Ok? && Valid(t) && IsPrimary(t) && Apart(t, ts) && all == Toks(t, ts)
    ensures var r := PostfixOf(t, ts); Reads(r.tree, all, r.rest) && !r.tree.BinaryTree?
    decreases |ts|, 5
  {
    hide ParseBinary, ParseIn, ParseBetween, ParseNotLike, Valid;
    if At(ts, BetweenTok) {
      Head(ts, BetweenTok);
      SoundBetween(t, false, ts[1..]);
    } else if At(ts, InTok) {
      Head(ts, InTok);
      SoundIn(t, false, ts[1..]);
    } else if At(ts, NotTok) && ts[1..] != [] && ts[1] in [OpTok(Like), InTok, BetweenTok] {
      SoundNotPostfix(t, all, ts);
    }
  }

  lemma {:induction false} SoundNotPostfix(t: Tree, all: seq<Token>, ts: seq<Token>)
    requires At(ts, NotTok) && ts[1..] != [] && ts[1] in [OpTok(Like), InTok, BetweenTok]
    requires PostfixOf(t, ts).Ok? && Valid(t) && IsPrimary(t) && all == Toks(t, ts)
    ensures var r := PostfixOf(t, ts); Reads(r.tree, all, r.rest) && !r.tree.BinaryTree?
    decreases |ts|, 4
  {
    hide ParseBinary, ParseIn, ParseBetween, ParseNotLike, Toks, Valid;
    assert OptTok(true, NotTok, [ts[1]] + ts[2..]) == ts;
    if ts[1] == InTok {
      assert [NotTok] + ([InTok] + ts[2..]) == ts;
      SoundIn(t, true, ts[2..]);
    } else if ts[1] == BetweenTok {
      SoundBetween(t, true, ts[2..]);
    } else {
      assert [NotTok, OpTok(Like)] + ts[2..] == ts;
      SoundNotLike(t, ts[2..]);
    }
  }

  lemma {:induction false} SoundNotLike(t: Tree, ts: seq<Token>)
    requires ParseNotLike(t, ts).Ok? && Valid(t) && IsPrimary(t)
    ensures var r := ParseNotLike(t, ts);
            && r.tree.NotLikeTree? && Valid(r.tree) && NextPrec(r.rest) <= Tail(r.tree) && Ends(r.tree, r.rest)
            && Toks(r.tree, r.rest) == Toks(t, [NotTok, OpTok(Like)] + ts)
    decreases |ts|, 5
  {
    SoundBinary(7, ts);
  }

  lemma {:induction false} SoundBetween(t: Tree, negated: bool, ts: seq<Token>)
    requires ParseBetween(t, negated, ts).Ok? && Valid(t) && IsPrimary(t)
    ensures var r := ParseBetween(t, negated, ts);
            && r.tree.BetweenTree? && Valid(r.tree) && NextPrec(r.rest) <= Tail(r.tree) && Ends(r.tree, r.rest)
            && Toks(r.tree, r.rest) == Toks(t, OptTok(negated, NotTok, [BetweenTok] + ts))
    decreases |ts|, 5
  {
    var lo := ParseBinary(3, ts);
    SoundBinary(3, ts);
    Head(lo.rest, OpTok(And));
    SoundBinary(3, lo.rest[1..]);
  }

  lemma {:induction false} SoundIn(t: Tree, negated: bool, ts: seq<Token>)
    requires ParseIn(t, negated, ts).Ok? && Valid(t) && IsPrimary(t)
    ensures var r := ParseIn(t, negated, ts);
            && r.tree.InTree? && Valid(r.tree)
            && Toks(r.tree, r.rest) == Toks(t, OptTok(negated, NotTok, [InTok] + ts))
    decreases |ts|, 6
  {
    Head(ts, LParen);
    SoundList(ts[1..]);
    var items := ParseList(ts[1..]);
    assert [InTok] + ts == [InTok, LParen] + ListToks(items.trees, [RParen] + items.rest);
  }

  lemma {:induction false} SoundList(ts: seq<Token>)
    requires ParseList(ts).OkList?
    ensures var r := ParseList(ts); ValidAll(r.trees) && ts == ListToks(r.trees, [RParen] + r.rest)
    ensures ParseList(ts).trees != [] ==> ts != [] && ts[0] == First(ParseList(ts).trees[0])
    decreases |ts|, 7
  {
    if At(ts, RParen) { Head(ts, RParen); } else { SoundItems(ts); }
  }

  lemma {:induction false} SoundItems(ts: seq<Token>)
    requires ParseItems(ts).OkList?
    ensures var r := ParseItems(ts);
            r.trees != [] && ValidAll(r.trees) && ts == ListToks(r.trees, [RParen] + r.rest)
    ensures ts != [] && ts[0] == First(ParseItems(ts).trees[0])
    decreases |ts|, 6
  {
    SoundBinary(1, ts);
    var e := ParseBinary(1, ts);
    FirstStarts(e.tree, e.rest);
    if At(e.rest, Comma) {
      Head(e.rest, Comma);
      SoundItems(e.rest[1..]);
      var es := ParseItems(e.rest[1..]);
      assert ([e.tree] + es.trees)[1..] == es.trees;
    } else {
      Head(e.rest, RParen);
    }
  }

  lemma {:induction false} SoundPrimary(ts: seq<Token>)
    requires ParsePrimary(ts).Ok?
    ensures var r := ParsePrimary(ts);
            Valid(r.tree) && IsPrimary(r.tree) && Apart(r.tree, r.rest) && ts == Toks(r.tree, r.rest)
    decreases |ts|, 1
  {
    Head(ts, ts[0]);
    if ts[0].IdentTok? {
      if At(ts[1..], Dot) {
        assert ts == [ts[0], Dot, ts[2]] + ts[3..];
      } else if At(ts[1..], LParen) {
        assert ts == [ts[0], LParen] + ts[2..];
        SoundCall(ts[0].name, ts[2..]);
      }
    } else if ts[0] == LParen {
      SoundBinary(1, ts[1..]);
      Head(ParseBinary(1, ts[1..]).rest, RParen);
    } else if ts[0] == CaseTok {
      SoundCase(ts[1..]);
    }
  }

  lemma {:induction false} SoundCall(name: string, ts: seq<Token>)
    requires ParseCall(name, ts).Ok?
    ensures var r := ParseCall(name, ts);
            Valid(r.tree) && IsPrimary(r.tree) && !r.tree.Leaf? && [IdentTok(name), LParen] + ts == Toks(r.tree, r.rest)
    decreases |ts|, 8
  {
    var d := IsAggregateName(name) && At(ts, DistinctTok);
    if d { Head(ts, DistinctTok); }
    SoundList(if d then ts[1..] else ts);
  }

  lemma {:induction false} SoundCase(ts: seq<Token>)
    requires ParseCase(ts).Ok?
    ensures var r := ParseCase(ts);
            Valid(r.tree) && IsPrimary(r.tree) && !r.tree.Leaf? && [CaseTok] + ts == Toks(r.tree, r.rest)
    decreases |ts|, 8
  {
    if At(ts, WhenTok) {
      SoundBody(None, ts, ts);
    } else {
      SoundBinary(1, ts);
      var s := ParseBinary(1, ts);
      SoundBody(Some(s.tree), ts, s.rest);
    }
  }

  lemma {:induction false} SoundBody(subject: Option<Tree>, all: seq<Token>, ts: seq<Token>)
    requires CaseBody(subject, ts).Ok? && ValidOpt(subject) && all == OptToks([], subject, ts)
    requires subject.None? ==> At(ts, WhenTok)
    ensures var r := CaseBody(subject, ts);
            Valid(r.tree) && IsPrimary(r.tree) && !r.tree.Leaf? && [CaseTok] + all == Toks(r.tree, r.rest)
    decreases |ts|, 7
  {
    SoundWhens(ts);
    var ws := ParseWhens(ts);
    if At(ws.rest, ElseTok) {
      Head(ws.rest, ElseTok);
      SoundBinary(1, ws.rest[1..]);
      Head(ParseBinary(1, ws.rest[1..]).rest, EndTok);
    } else {
      Head(ws.rest, EndTok);
    }
  }

  lemma {:induction false} SoundWhens(ts: seq<Token>)
    requires ParseWhens(ts).OkWhens?
    ensures var r := ParseWhens(ts);
            ValidWhens(r.whens) && ts == WhenToks(r.whens, r.rest) && (At(ts, WhenTok) ==> r.whens != [])
    decreases |ts|, 6
  {
    if At(ts, WhenTok) {
      Head(ts, WhenTok);
      SoundBinary(1, ts[1..]);
      var c := ParseBinary(1, ts[1..]);
      Head(c.rest, ThenTok);
      SoundBinary(1, c.rest[1..]);
      var t := ParseBinary(1, c.rest[1..]);
      SoundWhens(t.rest);
      var ws := ParseWhens(t.rest);
      assert ([WhenTree(c.tree, t.tree)] + ws.whens)[1..] == ws.whens;
    }
  }

  // ---------------------------------------------------------------- completeness

  // No token that would continue any operand.
  predicate Follow(k: seq<Token>) {
    k == [] || !(k[0] in [BetweenTok, InTok, NotTok, Dot, LParen])
  }

  lemma {:induction false} FollowEnds(t: Tree, k: seq<Token>)
    requires Follow(k)
    ensures Ends(t, k)
    decreases t
  {
    match t
    case UnaryTree(_, u) => FollowEnds(u, k);
    case BinaryTree(_, _, r) => FollowEnds(r, k);
    case BetweenTree(_, _, _, hi) => FollowEnds(hi, k);
    case NotLikeTree(_, p) => FollowEnds(p, k);
    case _ =>
  }

  lemma {:induction false} CompleteBinary(t: Tree, minPrec: nat, k: seq<Token>)
    requires Valid(t) && 1 <= minPrec <= Level(t) && Ends(t, k) && NextPrec(k) <= Tail(t) && NextPrec(k) <= Level(t)
    ensures ParseBinary(minPrec, Toks(t, k)) == BinaryLoop(minPrec, t, k)
    decreases t, 4
  {
    hide ParseBinary, BinaryLoop, ParseUnary;
    if t.BinaryTree? {
      var p := Precedence(t.bop);
      var k' := [OpTok(t.bop)] + Toks(t.right, k);
      assert k'[1..] == Toks(t.right, k);
      FollowEnds(t.left, k');
      CompleteBinary(t.left, minPrec, k');
      CompleteEnds(t.right, p + 1, k);
      LoopTakes(minPrec, t.bop, t.left, t.right, k', k);
    } else {
      CompleteUnary(t, k);
      LoopBegins(minPrec, Toks(t, k));
    }
  }

  lemma LoopBegins(minPrec: nat, ts: seq<Token>)
    requires ParseUnary(ts).Ok?
    ensures ParseBinary(minPrec, ts) == BinaryLoop(minPrec, ParseUnary(ts).tree, ParseUnary(ts).rest)
  {
  }

  // One round of the loop over operators.
  lemma LoopTakes(minPrec: nat, op: Op, left: Tree, right: Tree, ts: seq<Token>, k: seq<Token>)
    requires At(ts, OpTok(op)) && Precedence(op) >= minPrec && ParseBinary(Precedence(op) + 1, ts[1..]) == Ok(right, k)
    ensures BinaryLoop(minPrec, left, ts) == BinaryLoop(minPrec, BinaryTree(op, left, right), k)
  {
    hide ParseBinary, Precedence;
  }

  // An expression that nothing after it extends.
  lemma {:induction false} CompleteEnds(t: Tree, minPrec: nat, k: seq<Token>)
    requires Valid(t) && 1 <= minPrec <= Level(t) && Ends(t, k) && NextPrec(k) <= Tail(t) && NextPrec(k) < minPrec
    ensures ParseBinary(minPrec, Toks(t, k)) == Ok(t, k)
    decreases t, 5
  {
    CompleteBinary(t, minPrec, k);
  }

  lemma {:induction false} CompleteClosed(t: Tree, minPrec: nat, k: seq<Token>)
    requires Valid(t) && 1 <= minPrec <= Level(t) && Follow(k) && NextPrec(k) <= Tail(t) && NextPrec(k) < minPrec
    ensures ParseBinary(minPrec, Toks(t, k)) == Ok(t, k)
    decreases t, 6
  {
    FollowEnds(t, k);
    CompleteEnds(t, minPrec, k);
  }

  lemma {:induction false} CompleteUnary(t: Tree, k: seq<Token>)
    requires Valid(t) && !t.BinaryTree? && Ends(t, k) && NextPrec(k) <= Tail(t)
    ensures ParseUnary(Toks(t, k)) == Ok(t, k)
    decreases t, 3
  {
    hide ParseUnary;
    if t.UnaryTree? {
      CompleteUnary(t.operand, k);
      PrefixStep(t.uop, t.operand, Toks(t.operand, k), k);
    } else if t.BetweenTree? {
      CompleteBetween(t, k);
    } else if t.InTree? {
      CompleteIn(t, k);
    } else if t.NotLikeTree? {
      CompleteNotLike(t, k);
    } else {
      UnaryOfPrimary(t, k);
    }
  }

  lemma PrefixStep(op: UnaryOp, u: Tree, ts: seq<Token>, k: seq<Token>)
    requires ParseUnary(ts) == Ok(u, k)
    ensures ParseUnary([UnaryTok(op)] + ts) == Ok(UnaryTree(op, u), k)
  {
    assert ([UnaryTok(op)] + ts)[1..] == ts;
  }

  // A primary is read whole; what follows decides whether it becomes something larger.
  lemma {:induction false} UnaryOfPrimary(t: Tree, k: seq<Token>)
    requires Valid(t) && IsPrimary(t) && Apart(t, k)
    ensures ParseUnary(Toks(t, k)) == PostfixOf(t, k)
    decreases t, 2
  {
    hide PostfixOf;
    FirstStarts(t, k);
    assert UnaryOpOf(First(t)).None?;
    CompletePrimary(t, k);
    hide ParsePrimary;
  }

  lemma {:induction false} CompleteBetween(t: Tree, k: seq<Token>)
    requires Valid(t) && t.BetweenTree? && Ends(t, k) && NextPrec(k) <= Tail(t)
    ensures ParseUnary(Toks(t, k)) == Ok(t, k)
    decreases t, 2
  {
    var hiToks := [OpTok(And)] + Toks(t.high, k);
    var loToks := [BetweenTok] + Toks(t.low, hiToks);
    CompleteClosed(t.low, 3, hiToks);
    assert hiToks[1..] == Toks(t.high, k);
    CompleteEnds(t.high, 3, k);
    assert ParseBetween(t.tested, t.negated, Toks(t.low, hiToks)) == Ok(t, k);
    UnaryOfPrimary(t.tested, OptTok(t.negated, NotTok, loToks));
    hide ParseBetween, ParseUnary;
    PostfixBetween(t.tested, t.negated, Toks(t.low, hiToks));
  }

  lemma PostfixBetween(t: Tree, negated: bool, ts: seq<Token>)
    ensures PostfixOf(t, OptTok(negated, NotTok, [BetweenTok] + ts)) == ParseBetween(t, negated, ts)
  {
    hide ParseBetween;
    var after := OptTok(negated, NotTok, [BetweenTok] + ts);
    if negated {
      assert after == [NotTok, BetweenTok] + ts && after[2..] == ts;
    } else {
      assert after[1..] == ts;
    }
  }

  lemma {:induction false} CompleteIn(t: Tree, k: seq<Token>)
    requires Valid(t) && t.InTree?
    ensures ParseUnary(Toks(t, k)) == Ok(t, k)
    decreases t, 2
  {
    var items := ListToks(t.list, [RParen] + k);
    CompleteList(t.list, k);
    assert ([LParen] + items)[1..] == items;
    assert ParseIn(t.member, t.negated, [LParen] + items) == Ok(t, k);
    UnaryOfPrimary(t.member, OptTok(t.negated, NotTok, [InTok, LParen] + items));
    hide ParseIn, ParseUnary;
    PostfixIn(t.member, t.negated, items);
  }

  lemma PostfixIn(t: Tree, negated: bool, items: seq<Token>)
    ensures PostfixOf(t, OptTok(negated, NotTok, [InTok, LParen] + items)) == ParseIn(t, negated, [LParen] + items)
  {
    hide ParseIn;
    var after := OptTok(negated, NotTok, [InTok, LParen] + items);
    if negated {
      assert after == [NotTok, InTok, LParen] + items && after[2..] == [LParen] + items;
    } else {
      assert after[1..] == [LParen] + items;
    }
  }

  lemma {:induction false} CompleteNotLike(t: Tree, k: seq<Token>)
    requires Valid(t) && t.NotLikeTree? && Ends(t, k) && NextPrec(k) <= Tail(t)
    ensures ParseUnary(Toks(t, k)) == Ok(t, k)
    decreases t, 2
  {
    hide ParseUnary, ParseBinary;
    var after := [NotTok, OpTok(Like)] + Toks(t.pattern, k);
    CompleteEnds(t.pattern, 7, k);
    UnaryOfPrimary(t.text, after);
    assert after[2..] == Toks(t.pattern, k) && after[1..][0] == OpTok(Like);
    assert PostfixOf(t.text, after) == ParseNotLike(t.text, Toks(t.pattern, k));
  }

  lemma {:induction false} CompletePrimary(t: Tree, k: seq<Token>)
    requires Valid(t) && IsPrimary(t) && Apart(t, k)
    ensures ParsePrimary(Toks(t, k)) == Ok(t, k)
    decreases t, 1
  {
    match t
    case Leaf(tok) => assert Toks(t, k)[1..] == k;
    case QualifiedTree(_, _) => assert Toks(t, k)[1..][0] == Dot && Toks(t, k)[3..] == k;
    case CallTree(_, _, _) => CompleteCall(t, k);
    case Paren(u) =>
      assert Toks(t, k)[1..] == Toks(u, [RParen] + k);
      CompleteClosed(u, 1, [RParen] + k);
      assert ([RParen] + k)[1..] == k;
    case CaseTree(_, _, _) => CompleteCase(t, k);
  }

  lemma {:induction false} CompleteCall(t: Tree, k: seq<Token>)
    requires Valid(t) && t.CallTree?
    ensures ParsePrimary(Toks(t, k)) == Ok(t, k)
    decreases t, 0, 1
  {
    hide ParseCall, ListToks, Valid;
    var after := OptTok(t.distinct, DistinctTok, ListToks(t.args, [RParen] + k));
    CompleteArguments(t, k);
    assert Toks(t, k)[1..][0] == LParen && Toks(t, k)[2..] == after;
  }

  lemma {:induction false} CompleteArguments(t: Tree, k: seq<Token>)
    requires Valid(t) && t.CallTree?
    ensures ParseCall(t.name, OptTok(t.distinct, DistinctTok, ListToks(t.args, [RParen] + k))) == Ok(t, k)
    decreases t, 0, 0
  {
    hide ParseList, ListToks, First;
    var items := ListToks(t.args, [RParen] + k);
    ListStarts(t.args, k);
    CompleteList(t.args, k);
    assert t.distinct ==> ([DistinctTok] + items)[1..] == items;
  }

  lemma ListStarts(args: seq<Tree>, k: seq<Token>)
    requires ValidAll(args)
    ensures var ts := ListToks(args, [RParen] + k);
            ts != [] && ts[0] == if args == [] then RParen else First(args[0])
    ensures args != [] ==> Starts(First(args[0]))
  {
    if |args| == 1 {
      FirstStarts(args[0], [RParen] + k);
    } else if |args| > 1 {
      FirstStarts(args[0], [Comma] + ListToks(args[1..], [RParen] + k));
    }
  }

  lemma {:induction false} CompleteList(args: seq<Tree>, k: seq<Token>)
    requires ValidAll(args)
    ensures ParseList(ListToks(args, [RParen] + k)) == OkList(args, k)
    decreases args, 1
  {
    ListStarts(args, k);
    if args == [] {
      assert ([RParen] + k)[1..] == k;
    } else {
      CompleteItems(args, k);
    }
  }

  lemma {:induction false} CompleteItems(args: seq<Tree>, k: seq<Token>)
    requires ValidAll(args) && args != []
    ensures ParseItems(ListToks(args, [RParen] + k)) == OkList(args, k)
    decreases args, 0
  {
    if |args| == 1 {
      CompleteClosed(args[0], 1, [RParen] + k);
      assert ([RParen] + k)[1..] == k && [args[0]] == args;
    } else {
      var after := [Comma] + ListToks(args[1..], [RParen] + k);
      CompleteClosed(args[0], 1, after);
      assert after[1..] == ListToks(args[1..], [RParen] + k);
      CompleteItems(args[1..], k);
      assert [args[0]] + args[1..] == args;
    }
  }

  lemma {:induction false} CompleteCase(t: Tree, k: seq<Token>)
    requires Valid(t) && t.CaseTree?
    ensures ParsePrimary(Toks(t, k)) == Ok(t, k)
    decreases t, 0, 2
  {
    hide ParseCase, WhenToks, OptToks;
    CompleteSubject(t, k);
    assert Toks(t, k)[1..] == OptToks([], t.subject, WhenToks(t.whens, OptToks([ElseTok], t.else_, [EndTok] + k)));
  }

  lemma {:induction false} CompleteSubject(t: Tree, k: seq<Token>)
    requires Valid(t) && t.CaseTree?
    ensures ParseCase(OptToks([], t.subject, WhenToks(t.whens, OptToks([ElseTok], t.else_, [EndTok] + k)))) == Ok(t, k)
    decreases t, 0, 1
  {
    hide CaseBody, WhenToks, ParseBinary, ParseWhens, Toks;
    var elseToks := OptToks([ElseTok], t.else_, [EndTok] + k);
    var whenToks := WhenToks(t.whens, elseToks);
    CompleteBody(t, k);
    if t.subject.Some? {
      FirstStarts(t.subject.value, whenToks);
      assert OptToks([], t.subject, whenToks) == Toks(t.subject.value, whenToks);
      CompleteClosed(t.subject.value, 1, whenToks);
    } else {
      CompleteWhens(t.whens, elseToks);
    }
  }

  lemma {:induction false} CompleteBody(t: Tree, k: seq<Token>)
    requires Valid(t) && t.CaseTree?
    ensures var whenToks := WhenToks(t.whens, OptToks([ElseTok], t.else_, [EndTok] + k));
            CaseBody(t.subject, whenToks) == Ok(t, k) && whenToks != [] && whenToks[0] in [WhenTok, ElseTok, EndTok]
    decreases t, 0, 0
  {
    hide ParseWhens, ParseBinary, Toks, WhenToks;
    var endToks := [EndTok] + k;
    var elseToks := OptToks([ElseTok], t.else_, endToks);
    CompleteWhens(t.whens, elseToks);
    assert endToks[1..] == k;
    if t.else_.Some? {
      assert elseToks[1..] == Toks(t.else_.value, endToks);
      CompleteClosed(t.else_.value, 1, endToks);
    }
  }

  lemma {:induction false} CompleteWhens(ws: seq<WhenTree>, k: seq<Token>)
    requires ValidWhens(ws) && (k == [] || k[0] in [ElseTok, EndTok])
    ensures ParseWhens(WhenToks(ws, k)) == OkWhens(ws, k)
    ensures if ws == [] then WhenToks(ws, k) == k else At(WhenToks(ws, k), WhenTok)
    decreases ws, 1
  {
    hide OneWhenToks, ParseWhens, ParseBinary, Toks;
    if ws != [] {
      var after := WhenToks(ws[1..], k);
      CompleteWhens(ws[1..], k);
      CompleteWhen(ws[0], after);
      WhenTakes(ws[0], OneWhenToks(ws[0], after), after);
      assert [ws[0]] + ws[1..] == ws;
    } else {
      NoWhens(k);
    }
  }

  lemma NoWhens(ts: seq<Token>)
    requires !At(ts, WhenTok)
    ensures ParseWhens(ts) == OkWhens([], ts)
  {
  }

  // One round of the loop over WHEN clauses.
  lemma WhenTakes(w: WhenTree, ts: seq<Token>, k: seq<Token>)
    requires At(ts, WhenTok) && ParseWhens(k).OkWhens?
    requires var c := ParseBinary(1, ts[1..]);
             c.Ok? && c.tree == w.cond && At(c.rest, ThenTok) && ParseBinary(1, c.rest[1..]) == Ok(w.then_, k)
    ensures ParseWhens(ts) == OkWhens([w] + ParseWhens(k).whens, ParseWhens(k).rest)
  {
    hide ParseBinary;
  }

  lemma {:induction false} CompleteWhen(w: WhenTree, k: seq<Token>)
    requires ValidWhen(w) && (k == [] || k[0] in [WhenTok, ElseTok, EndTok])
    ensures At(OneWhenToks(w, k), WhenTok)
    ensures var c := ParseBinary(1, OneWhenToks(w, k)[1..]);
            c.Ok? && c.tree == w.cond && At(c.rest, ThenTok) && ParseBinary(1, c.rest[1..]) == Ok(w.then_, k)
    decreases w, 0
  {
    var thenToks := [ThenTok] + Toks(w.then_, k);
    assert OneWhenToks(w, k)[1..] == Toks(w.cond, thenToks) && thenToks[1..] == Toks(w.then_, k);
    CompleteClosed(w.cond, 1, thenToks);
    CompleteClosed(w.then_, 1, k);
  }

  // ---------------------------------------------------------------- main results

  // parseBinary reads t and stops before rest exactly when t is the precedence
  // tree of the tokens it consumed.
  lemma ParseExact(minPrec: nat, ts: seq<Token>, t: Tree, rest: seq<Token>)
    requires 1 <= minPrec <= 10
    ensures ParseBinary(minPrec, ts) == Ok(t, rest) <==>
            Reads(t, ts, rest) && Level(t) >= minPrec && NextPrec(rest) < minPrec
  {
    if ParseBinary(minPrec, ts) == Ok(t, rest) { SoundBinary(minPrec, ts); }
    if Reads(t, ts, rest) && Level(t) >= minPrec && NextPrec(rest) < minPrec { CompleteEnds(t, minPrec, rest); }
  }

  // A token string has at most one precedence tree.
  lemma TreeUnique(t: Tree, u: Tree)
    requires Valid(t) && Valid(u) && Toks(t, []) == Toks(u, [])
    ensures t == u
  {
    CompleteClosed(t, 1, []);
    CompleteClosed(u, 1, []);
  }

  // ---------------------------------------------------------------- what binds how

  // The table of precedences is the ladder.
  lemma LadderRung(op: Op)
    ensures 0 < Precedence(op) <= |LADDER| && op in LADDER[Precedence(op) - 1]
    ensures forall i :: 0 <= i < |LADDER| && op in LADDER[i] ==> i == Precedence(op) - 1
  {
  }

  lemma TighterIs(p: Op, q: Op)
    ensures Tighter(p, q) <==> Precedence(p) > Precedence(q)
  {
    hide Precedence;
    LadderRung(p);
    LadderRung(q);
    if Precedence(p) > Precedence(q) {
      var i, j := Precedence(q) - 1, Precedence(p) - 1;
      assert q in LADDER[i] && p in LADDER[j];
    }
  }

  ghost predicate Operand(t: Tree) {
    Valid(t) && IsPrimary(t)
  }

  // `a p b q c` is `(a p b) q c`, unless q stands on a later rung than p.
  lemma TwoOperators(a: Tree, b: Tree, c: Tree, p: Op, q: Op)
    requires Operand(a) && Operand(b) && Operand(c)
    ensures ParseBinary(1, Toks(a, [OpTok(p)] + Toks(b, [OpTok(q)] + Toks(c, [])))) ==
            Ok(if Tighter(q, p) then BinaryTree(p, a, BinaryTree(q, b, c)) else BinaryTree(q, BinaryTree(p, a, b), c),
               [])
  {
    hide Tighter, Precedence;
    TighterIs(q, p);
    if Tighter(q, p) {
      CompleteClosed(BinaryTree(p, a, BinaryTree(q, b, c)), 1, []);
    } else {
      CompleteClosed(BinaryTree(q, BinaryTree(p, a, b), c), 1, []);
    }
  }

  // A prefix operator takes one operand, whatever the next operator: NOT a = b is (NOT a) = b.
  lemma PrefixTakesOne(u: UnaryOp, a: Tree, b: Tree, p: Op)
    requires Operand(a) && Operand(b)
    ensures ParseBinary(1, [UnaryTok(u)] + Toks(a, [OpTok(p)] + Toks(b, []))) ==
            Ok(BinaryTree(p, UnaryTree(u, a), b), [])
  {
    hide Precedence;
    CompleteClosed(BinaryTree(p, UnaryTree(u, a), b), 1, []);
  }

  // The bounds of a BETWEEN take every operator that is tighter than AND; an AND or OR
  // after the second bound takes the whole BETWEEN.
  lemma BetweenTakes(x: Tree, a: Tree, b: Tree, c: Tree, d: Tree, p: Op)
    requires Operand(x) && Operand(a) && Operand(b) && Operand(c) && Operand(d)
    ensures Tighter(p, And) ==>
              ParseBinary(1, Toks(x, [BetweenTok] + Toks(a, [OpTok(p)] + Toks(b, [OpTok(And)] +
                Toks(c, [OpTok(p)] + Toks(d, [])))))) ==
              Ok(BetweenTree(x, false, BinaryTree(p, a, b), BinaryTree(p, c, d)), [])
    ensures !Tighter(p, And) ==>
              ParseBinary(1, Toks(x, [BetweenTok] + Toks(a, [OpTok(And)] + Toks(b, [OpTok(p)] + Toks(c, []))))) ==
              Ok(BinaryTree(p, BetweenTree(x, false, a, b), c), [])
  {
    hide Tighter, Precedence;
    TighterIs(p, And);
    AndIsSecond();
    if Tighter(p, And) {
      CompleteClosed(BetweenTree(x, false, BinaryTree(p, a, b), BinaryTree(p, c, d)), 1, []);
    } else {
      CompleteClosed(BinaryTree(p, BetweenTree(x, false, a, b), c), 1, []);
    }
  }

  lemma AndIsSecond()
    ensures Precedence(And) == 2 && Precedence(Like) == 6
  {
  }

  // The pattern of NOT LIKE takes every operator that is tighter than a comparison.
  lemma NotLikeTakes(x: Tree, a: Tree, b: Tree, p: Op)
    requires Operand(x) && Operand(a) && Operand(b)
    ensures ParseBinary(1, Toks(x, [NotTok, OpTok(Like)] + Toks(a, [OpTok(p)] + Toks(b, [])))) ==
            Ok(if Tighter(p, Like) then NotLikeTree(x, BinaryTree(p, a, b)) else BinaryTree(p, NotLikeTree(x, a), b),
               [])
  {
    hide Tighter, Precedence;
    TighterIs(p, Like);
    AndIsSecond();
    if Tighter(p, Like) {
      CompleteClosed(NotLikeTree(x, BinaryTree(p, a, b)), 1, []);
    } else {
      CompleteClosed(BinaryTree(p, NotLikeTree(x, a), b), 1, []);
    }
  }

  // ---------------------------------------------------------------- what is built

  // The parser's answer for a whole token string.
  function ParseAll(ts: seq<Token>): Option<Expr> {
    var r := ParseBinary(1, ts);
    if r.Ok? && r.rest == [] then Some(Ast(r.tree, 0).0) else None
  }

  lemma Reads1(t: Tree)
    requires Valid(t)
    ensures ParseAll(Toks(t, [])) == Some(Ast(t, 0).0)
  {
    CompleteClosed(t, 1, []);
  }

  // `x NOT BETWEEN a AND b` is the expression that `NOT x BETWEEN a AND b` is.
  lemma NotBetweenMeans(x: Tree, a: Tree, b: Tree)
    requires Operand(x) && Operand(a) && Operand(b)
    ensures var bounds := [BetweenTok] + Toks(a, [OpTok(And)] + Toks(b, []));
            && ParseAll(Toks(x, [NotTok] + bounds)) == ParseAll([NotTok] + Toks(x, bounds))
            && ParseAll(Toks(x, [NotTok] + bounds)).Some?
  {
    Reads1(BetweenTree(x, true, a, b));
    Reads1(UnaryTree(Not, BetweenTree(x, false, a, b)));
  }

  // So it is with IN ...
  lemma NotInMeans(x: Tree, items: seq<Tree>)
    requires Operand(x) && ValidAll(items)
    ensures var list := [InTok, LParen] + ListToks(items, [RParen]);
            && ParseAll(Toks(x, [NotTok] + list)) == ParseAll([NotTok] + Toks(x, list))
            && ParseAll(Toks(x, [NotTok] + list)).Some?
  {
    Reads1(InTree(x, true, items));
    Reads1(UnaryTree(Not, InTree(x, false, items)));
    assert [RParen] + [] == [RParen];
  }

  // ... and with LIKE, where NOT needs a parenthesis.
  lemma NotLikeMeans(x: Tree, a: Tree)
    requires Operand(x) && Operand(a)
    ensures ParseAll(Toks(x, [NotTok, OpTok(Like)] + Toks(a, []))) ==
            ParseAll([NotTok, LParen] + Toks(x, [OpTok(Like)] + Toks(a, [RParen])))
    ensures ParseAll(Toks(x, [NotTok, OpTok(Like)] + Toks(a, []))).Some?
  {
    var t, u := NotLikeTree(x, a), UnaryTree(Not, Paren(BinaryTree(Like, x, a)));
    LikeTrees(x, a);
    hide Toks, Valid, Ast, ParseAll;
    Reads1(t);
    Reads1(u);
  }

  lemma LikeTrees(x: Tree, a: Tree)
    requires Operand(x) && Operand(a)
    ensures var t, u := NotLikeTree(x, a), UnaryTree(Not, Paren(BinaryTree(Like, x, a)));
            && Valid(t) && Valid(u) && Ast(t, 0).0 == Ast(u, 0).0
            && Toks(t, []) == Toks(x, [NotTok, OpTok(Like)] + Toks(a, []))
            && Toks(u, []) == [NotTok, LParen] + Toks(x, [OpTok(Like)] + Toks(a, [RParen]))
  {
    var like := BinaryTree(Like, x, a);
    AndIsSecond();
    assert [RParen] + [] == [RParen];
    assert Toks(Paren(like), []) == [LParen] + Toks(like, [RParen]);
    assert [NotTok] + ([LParen] + Toks(like, [RParen])) == [NotTok, LParen] + Toks(like, [RParen]);
    LikeAst(x, a);
  }

  lemma LikeAst(x: Tree, a: Tree)
    ensures Ast(NotLikeTree(x, a), 0).0 == Ast(UnaryTree(Not, Paren(BinaryTree(Like, x, a))), 0).0
  {
    var like := BinaryTree(Like, x, a);
    assert Ast(Paren(like), 0) == Ast(like, 0);
  }

  function Numbers(vs: seq<nat>): (ts: seq<Tree>)
    ensures |ts| == |vs| && forall i :: 0 <= i < |ts| ==> ts[i] == Leaf(IntTok(vs[i]))
  {
    seq(|vs|, i requires 0 <= i < |vs| => Leaf(IntTok(vs[i])))
  }

  lemma {:induction false} NumbersBuilt(vs: seq<nat>, n: nat)
    ensures ValidAll(Numbers(vs)) && |ListAst(Numbers(vs), n).0| == |vs|
    ensures forall i :: 0 <= i < |vs| ==> ListAst(Numbers(vs), n).0[i] == Number(vs[i])
  {
    if vs != [] {
      NumbersBuilt(vs[1..], n);
      assert Numbers(vs)[1..] == Numbers(vs[1..]);
    }
  }

  // x IN (v1, v2, ...)
  lemma InMeans(x: string, vs: seq<nat>)
    ensures var r := ParseAll([IdentTok(x), InTok, LParen] + ListToks(Numbers(vs), [RParen]));
            && r.Some? && r.value.In? && r.value.member == Ident(x) && |r.value.list| == |vs|
            && forall i :: 0 <= i < |vs| ==> r.value.list[i] == Number(vs[i])
  {
    var t := InTree(Leaf(IdentTok(x)), false, Numbers(vs));
    NumbersBuilt(vs, 0);
    Reads1(t);
    assert [RParen] + [] == [RParen];
    assert Toks(t, []) == [IdentTok(x), InTok, LParen] + ListToks(Numbers(vs), [RParen]);
  }

  // t.c, and f(DISTINCT c) for an aggregate
  lemma NamesMean(t: string, c: string, f: string)
    requires IsAggregateName(f)
    ensures ParseAll([IdentTok(t), Dot, IdentTok(c)]) == Some(Qualified(t, c))
    ensures ParseAll([IdentTok(f), LParen, DistinctTok, IdentTok(c), RParen]) == Some(Agg(f, Some(Ident(c)), true))
  {
    var args := [Leaf(IdentTok(c))];
    var call := CallTree(f, true, args);
    Reads1(QualifiedTree(t, c));
    assert Toks(QualifiedTree(t, c), []) == [IdentTok(t), Dot, IdentTok(c)];
    assert args[1..] == [] && ListAst(args, 0).0 == [Ident(c)];
    assert ListToks(args, [RParen]) == [IdentTok(c), RParen];
    assert Toks(call, []) == [IdentTok(f), LParen, DistinctTok, IdentTok(c), RParen] by {
      assert [RParen] + [] == [RParen];
    }
    Reads1(call);
  }
}
