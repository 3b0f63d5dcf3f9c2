/** Printing an expression with the parentheses precedence demands and no others,
    and the theorem that parsing undoes it. */
module ViewPrinter {
  import opened Names
  import opened ViewGrammar

  /** Trees the grammar can produce. */
  predicate WellFormed(e: Expr) {
    match e
    case Unary(op, a) => IsUnaryOp(op) && WellFormed(a)
    case Binary(op, a, b) => Prec(op) > 0 && WellFormed(a) && WellFormed(b)
    case List(items) => forall i :: 0 <= i < |items| ==> WellFormed(items[i])
    case Call(f, args) => f != "true" && f != "false" && forall i :: 0 <= i < |args| ==> WellFormed(args[i])
    case _ => true
  }

  /** A token an expression can start with. */
  predicate Opens(t: Tok) { !(t.RParen? || t.RBracket? || t.Comma? || t.Eof?) }

  /** The level of a unary operand: above every binary operator. */
  const TIGHT := 6

  /** `e` where only operators of at least `level` may stand bare. */
  function Print(e: Expr, level: nat): (ts: seq<Tok>)
    ensures ts != [] && Opens(ts[0])
    decreases e, 1
  {
    match e
    case Num(n) => [NumTok(n)]
    case Str(s) => [StrTok(s)]
    case Bool(b) => [IdentTok(if b then "true" else "false")]
    case List(items) => [LBracket] + PrintItems(items) + [RBracket]
    case Call(f, args) => [IdentTok(f), LParen] + PrintItems(args) + [RParen]
    case Unary(op, a) => [OpTok(op)] + Print(a, TIGHT)
    case Binary(op, a, b) =>
      var bare := Print(a, Prec(op)) + [OpTok(op)] + Print(b, Prec(op) + 1);
      if Prec(op) < level then [LParen] + bare + [RParen] else bare
  }

  function PrintItems(es: seq<Expr>): (ts: seq<Tok>)
    ensures es != [] ==> ts != [] && Opens(ts[0])
    decreases es, 0
  {
    if es == [] then []
    else if |es| == 1 then Print(es[0], 1)
    else Print(es[0], 1) + [Comma] + PrintItems(es[1..])
  }

  /** No operator of at least `level` follows. */
  predicate Stops(ts: seq<Tok>, level: nat)
    requires ts != []
  {
    !(ts[0].OpTok? && Prec(ts[0].op) >= level && Prec(ts[0].op) > 0)
  }

  // ---------------------------------------- one step of each grammar rule

  lemma ReadGroup(body: seq<Tok>, e: Expr, rest: seq<Tok>)
    requires Closed(body) && Closed(rest) && ParseExpr(body, 1) == Ok(e, [RParen] + rest)
    ensures ParseUnary([LParen] + body) == Ok(e, rest)
  {
    CloseGroup(body, e, rest);
    assert ([LParen] + body)[1..] == body;
  }

  lemma CloseGroup(body: seq<Tok>, e: Expr, rest: seq<Tok>)
    requires Closed(body) && Closed(rest) && ParseExpr(body, 1) == Ok(e, [RParen] + rest)
    ensures ParseGroup(body) == Ok(e, rest)
  {
    assert ([RParen] + rest)[1..] == rest;
  }

  lemma ReadPrefix(op: Op, body: seq<Tok>, e: Expr, rest: seq<Tok>)
    requires IsUnaryOp(op) && Closed(body) && ParseUnary(body) == Ok(e, rest)
    ensures ParseUnary([OpTok(op)] + body) == Ok(Unary(op, e), rest)
  {
    assert ([OpTok(op)] + body)[1..] == body;
  }

  lemma ReadAtom(t: Tok, e: Expr, rest: seq<Tok>)
    requires Closed(rest)
    requires || (t.NumTok? && e == Num(t.num)) || (t.StrTok? && e == Str(t.str))
             || (t == IdentTok("true") && e == Bool(true)) || (t == IdentTok("false") && e == Bool(false))
    ensures ParseUnary([t] + rest) == Ok(e, rest)
  {
    assert ([t] + rest)[1..] == rest;
  }

  lemma ReadList(body: seq<Tok>, items: seq<Expr>, rest: seq<Tok>)
    requires Closed(body) && ParseUntil(body, RBracket) == Ok(items, rest)
    ensures ParseUnary([LBracket] + body) == Ok(List(items), rest)
  {
    assert ([LBracket] + body)[1..] == body;
  }

  lemma ReadCall(id: string, body: seq<Tok>, args: seq<Expr>, rest: seq<Tok>)
    requires id != "true" && id != "false" && Closed(body) && ParseUntil(body, RParen) == Ok(args, rest)
    ensures ParseUnary([IdentTok(id)] + ([LParen] + body)) == Ok(Call(id, args), rest)
  {
    var call := [LParen] + body;
    assert ([IdentTok(id)] + call)[1..] == call && call[1..] == body;
    assert ParseCall(id, call) == Ok(Call(id, args), rest);
  }

  lemma ReadOperator(lhs: Expr, op: Op, body: seq<Tok>, rhs: Expr, rest: seq<Tok>, minPrec: nat)
    requires Prec(op) > 0 && minPrec <= Prec(op) && Closed(body)
    requires ParseExpr(body, Prec(op) + 1) == Ok(rhs, rest)
    ensures Climb(lhs, [OpTok(op)] + body, minPrec) == Climb(Binary(op, lhs, rhs), rest, minPrec)
  {
    assert ([OpTok(op)] + body)[1..] == body;
  }

  lemma ReadLastItem(body: seq<Tok>, e: Expr, end: seq<Tok>)
    requires Closed(body) && Closed(end) && end[0] != Comma && ParseExpr(body, 1) == Ok(e, end)
    ensures ParseItems(body) == Ok([e], end)
  {
  }

  lemma ReadItem(body: seq<Tok>, e: Expr, more: seq<Tok>, es: seq<Expr>, end: seq<Tok>)
    requires Closed(body) && Closed(more) && ParseExpr(body, 1) == Ok(e, [Comma] + more)
    requires ParseItems(more) == Ok(es, end)
    ensures ParseItems(body) == Ok([e] + es, end)
  {
    assert ([Comma] + more)[1..] == more;
  }

  // ------------------------------------------------- shapes of printed trees

  lemma BareShape(e: Expr, level: nat, rest: seq<Tok>)
    requires e.Binary? && Prec(e.bop) >= level
    ensures Print(e, level) + rest ==
      Print(e.left, Prec(e.bop)) + ([OpTok(e.bop)] + (Print(e.right, Prec(e.bop) + 1) + rest))
  {
  }

  lemma BracketedShape(e: Expr, level: nat, rest: seq<Tok>)
    requires e.Binary? && Prec(e.bop) < level
    ensures Print(e, level) + rest ==
      [LParen] + (Print(e.left, Prec(e.bop)) + ([OpTok(e.bop)] + (Print(e.right, Prec(e.bop) + 1) + ([RParen] + rest))))
  {
  }

  lemma ListShape(e: Expr, level: nat, rest: seq<Tok>)
    requires e.List?
    ensures Print(e, level) + rest == [LBracket] + (PrintItems(e.items) + ([RBracket] + rest))
  {
  }

  lemma CallShape(e: Expr, level: nat, rest: seq<Tok>)
    requires e.Call?
    ensures Print(e, level) + rest == [IdentTok(e.func)] + ([LParen] + (PrintItems(e.args) + ([RParen] + rest)))
  {
  }

  lemma ItemsShape(es: seq<Expr>, end: seq<Tok>)
    requires |es| > 1
    ensures PrintItems(es) + end == Print(es[0], 1) + ([Comma] + (PrintItems(es[1..]) + end))
  {
    var first, others := Print(es[0], 1), PrintItems(es[1..]);
    assert PrintItems(es) == first + [Comma] + others;
    Regroup(first, [Comma], others, end);
  }

  lemma Regroup<T>(a: seq<T>, b: seq<T>, c: seq<T>, d: seq<T>)
    ensures a + b + c + d == a + (b + (c + d))
  {
  }

  // ------------------------------------------------------------- the theorem

  /** Neither operator nor prefix: `ParseUnary` reads exactly the tree. */
  lemma {:induction false} PrimaryUndoes(e: Expr, level: nat, rest: seq<Tok>)
    requires WellFormed(e) && Closed(rest) && !e.Binary? && !e.Unary?
    ensures ParseUnary(Print(e, level) + rest) == Ok(e, rest)
    decreases e, 0
  {
    match e {
      case Num(n) => ReadAtom(NumTok(n), e, rest);
      case Str(s) => ReadAtom(StrTok(s), e, rest);
      case Bool(b) => ReadAtom(IdentTok(if b then "true" else "false"), e, rest);
      case List(items) =>
        ListShape(e, level, rest);
        ItemsUndo(items, RBracket, rest);
        ReadList(PrintItems(items) + ([RBracket] + rest), items, rest);
      case Call(f, args) =>
        CallShape(e, level, rest);
        ItemsUndo(args, RParen, rest);
        ReadCall(f, PrintItems(args) + ([RParen] + rest), args, rest);
    }
  }

  /** A list of printed items up to its closing token. */
  lemma {:induction false} ItemsUndo(es: seq<Expr>, close: Tok, rest: seq<Tok>)
    requires forall i :: 0 <= i < |es| ==> WellFormed(es[i])
    requires Closed(rest) && (close == RBracket || close == RParen)
    ensures ParseUntil(PrintItems(es) + ([close] + rest), close) == Ok(es, rest)
    decreases es, 3
  {
    var end := [close] + rest;
    assert end[1..] == rest;
    if es == [] {
      assert PrintItems(es) + end == end;
    } else {
      ManyUndo(es, end);
    }
  }

  lemma {:induction false} ManyUndo(es: seq<Expr>, end: seq<Tok>)
    requires es != [] && forall i :: 0 <= i < |es| ==> WellFormed(es[i])
    requires Closed(end) && (end[0] == RBracket || end[0] == RParen)
    ensures ParseItems(PrintItems(es) + end) == Ok(es, end)
    decreases es, 2
  {
    var first, others := es[0], es[1..];
    assert es == [first] + others;
    if |es| == 1 {
      ExprUndoes(first, 1, end);
      ReadLastItem(Print(first, 1) + end, first, end);
      assert es == [first];
    } else {
      ManyUndo(others, end);
      var more := PrintItems(others) + end;
      ItemsShape(es, end);
      ExprUndoes(first, 1, [Comma] + more);
      ReadItem(Print(first, 1) + ([Comma] + more), first, more, others, end);
    }
  }

  lemma PrefixUndoes(e: Expr, level: nat, rest: seq<Tok>)
    requires e.Unary? && IsUnaryOp(e.uop) && Closed(rest)
    requires ParseUnary(Print(e.operand, TIGHT) + rest) == Ok(e.operand, rest)
    ensures ParseUnary(Print(e, level) + rest) == Ok(e, rest)
  {
    var body := Print(e.operand, TIGHT) + rest;
    ReadPrefix(e.uop, body, e.operand, rest);
    assert Print(e, level) + rest == [OpTok(e.uop)] + body;
  }

  lemma BracketsUndo(e: Expr, level: nat, rest: seq<Tok>)
    requires e.Binary? && Prec(e.bop) < level && Closed(rest)
    requires var end := [RParen] + rest;
      ParseExpr(Print(e.left, Prec(e.bop)) + ([OpTok(e.bop)] + (Print(e.right, Prec(e.bop) + 1) + end)), 1) == Climb(e, end, 1)
    ensures ParseUnary(Print(e, level) + rest) == Ok(e, rest)
  {
    var end := [RParen] + rest;
    BracketedShape(e, level, rest);
    ReadGroup(Print(e.left, Prec(e.bop)) + ([OpTok(e.bop)] + (Print(e.right, Prec(e.bop) + 1) + end)), e, rest);
  }

  /** Bracketed, prefixed or atomic. */
  lemma {:induction false} UnaryUndoes(e: Expr, level: nat, rest: seq<Tok>)
    requires WellFormed(e) && Closed(rest) && (e.Binary? ==> Prec(e.bop) < level)
    ensures ParseUnary(Print(e, level) + rest) == Ok(e, rest)
    decreases e, 1
  {
    if e.Unary? {
      UnaryUndoes(e.operand, TIGHT, rest);
      PrefixUndoes(e, level, rest);
    } else if e.Binary? {
      OperatorUndoes(e, 1, [RParen] + rest);
      BracketsUndo(e, level, rest);
    } else {
      PrimaryUndoes(e, level, rest);
    }
  }

  /** Left operand, operator, right operand: the parser ends up climbing with the
      whole expression in hand. */
  lemma {:induction false} OperatorUndoes(e: Expr, minPrec: nat, rest: seq<Tok>)
    requires WellFormed(e) && e.Binary? && Closed(rest) && minPrec <= Prec(e.bop) && Stops(rest, Prec(e.bop) + 1)
    ensures var p := Prec(e.bop);
      ParseExpr(Print(e.left, p) + ([OpTok(e.bop)] + (Print(e.right, p + 1) + rest)), minPrec) == Climb(e, rest, minPrec)
    decreases e, 0
  {
    var p := Prec(e.bop);
    var right := Print(e.right, p + 1) + rest;
    ClimbsFrom(e.left, p, minPrec, [OpTok(e.bop)] + right);
    ClimbsFrom(e.right, p + 1, p + 1, rest);
    ReadOperator(e.left, e.bop, right, e.right, rest, minPrec);
  }

  /** The heart of it: after the tokens of `e`, printed at `level`, the parser is
      climbing with `e` in hand, whatever minimum it was called with. */
  lemma {:induction false} ClimbsFrom(e: Expr, level: nat, minPrec: nat, rest: seq<Tok>)
    requires WellFormed(e) && Closed(rest) && minPrec <= level
    requires Stops(rest, level + 1)
    ensures ParseExpr(Print(e, level) + rest, minPrec) == Climb(e, rest, minPrec)
    decreases e, 2
  {
    if e.Binary? && Prec(e.bop) >= level {
      BareShape(e, level, rest);
      OperatorUndoes(e, minPrec, rest);
    } else {
      UnaryUndoes(e, level, rest);
    }
  }

  lemma {:induction false} ExprUndoes(e: Expr, level: nat, rest: seq<Tok>)
    requires WellFormed(e) && Closed(rest) && Stops(rest, level)
    ensures ParseExpr(Print(e, level) + rest, level) == Ok(e, rest)
    decreases e, 3
  {
    ClimbsFrom(e, level, level, rest);
  }

  /** Parsing undoes printing, on every tree the grammar knows: the same tree
      comes back and every token but the end marker is consumed. It is accepted
      exactly when it validates. */
  lemma ParseUndoesPrint(e: Expr, compiles: string -> bool)
    requires WellFormed(e)
    ensures Closed(Print(e, 1) + [Eof])
    ensures ParseExpr(Print(e, 1) + [Eof], 1) == Ok(e, [Eof])
    ensures Parse(Print(e, 1) + [Eof], compiles) == if Valid(e, compiles) then Some(e) else None
  {
    ExprUndoes(e, 1, [Eof]);
  }

  // ---------------------------------------- what the grammar can produce

  predicate AllWellFormed(es: seq<Expr>) { forall i :: 0 <= i < |es| ==> WellFormed(es[i]) }

  lemma {:induction false} ExprIsWellFormed(ts: seq<Tok>, minPrec: nat)
    requires Closed(ts)
    ensures var r := ParseExpr(ts, minPrec); r.Ok? ==> WellFormed(r.value)
    decreases |ts|, 3
  {
    UnaryIsWellFormed(ts);
    var u := ParseUnary(ts);
    if u.Ok? { ClimbIsWellFormed(u.value, u.rest, minPrec); }
  }

  lemma {:induction false} ClimbIsWellFormed(lhs: Expr, ts: seq<Tok>, minPrec: nat)
    requires Closed(ts) && WellFormed(lhs)
    ensures var r := Climb(lhs, ts, minPrec); r.Ok? ==> WellFormed(r.value)
    decreases |ts|, 0
  {
    if !Stops(ts, minPrec) {
      ExprIsWellFormed(ts[1..], Prec(ts[0].op) + 1);
      var r := ParseExpr(ts[1..], Prec(ts[0].op) + 1);
      if r.Ok? { ClimbIsWellFormed(Binary(ts[0].op, lhs, r.value), r.rest, minPrec); }
    }
  }

  lemma {:induction false} UnaryIsWellFormed(ts: seq<Tok>)
    requires Closed(ts)
    ensures var r := ParseUnary(ts); r.Ok? ==> WellFormed(r.value)
    decreases |ts|, 2
  {
    match ts[0] {
      case OpTok(op) => if IsUnaryOp(op) { UnaryIsWellFormed(ts[1..]); }
      case LParen =>
        assert ParseUnary(ts) == ParsePrimary(ts) == ParseGroup(ts[1..]);
        GroupIsWellFormed(ts[1..]);
      case LBracket => UntilIsWellFormed(ts[1..], RBracket);
      case IdentTok(id) =>
        if id != "true" && id != "false" {
          assert ParseUnary(ts) == ParsePrimary(ts) == ParseCall(id, ts[1..]);
          CallIsWellFormed(id, ts[1..]);
        }
      case _ =>
    }
  }

  lemma {:induction false} GroupIsWellFormed(ts: seq<Tok>)
    requires Closed(ts)
    ensures var r := ParseGroup(ts); r.Ok? ==> WellFormed(r.value)
    decreases |ts|, 6
  {
    ExprIsWellFormed(ts, 1);
  }

  lemma {:induction false} CallIsWellFormed(id: string, ts: seq<Tok>)
    requires Closed(ts) && id != "true" && id != "false"
    ensures var r := ParseCall(id, ts); r.Ok? ==> WellFormed(r.value)
    decreases |ts|, 6
  {
    if ts[0] == LParen { UntilIsWellFormed(ts[1..], RParen); }
  }

  lemma {:induction false} UntilIsWellFormed(ts: seq<Tok>, close: Tok)
    requires Closed(ts) && close != Eof
    ensures var r := ParseUntil(ts, close); r.Ok? ==> AllWellFormed(r.value)
    decreases |ts|, 5
  {
    if ts[0] != close {
      ItemsAreWellFormed(ts);
      assert ParseUntil(ts, close).Ok? ==> ParseUntil(ts, close).value == ParseItems(ts).value;
    }
  }

  lemma {:induction false} ItemsAreWellFormed(ts: seq<Tok>)
    requires Closed(ts)
    ensures var r := ParseItems(ts); r.Ok? ==> AllWellFormed(r.value)
    decreases |ts|, 4
  {
    ExprIsWellFormed(ts, 1);
    var r := ParseExpr(ts, 1);
    if r.Ok? && r.rest[0] == Comma {
      ItemsAreWellFormed(r.rest[1..]);
      var more := ParseItems(r.rest[1..]);
      if more.Ok? { assert ParseItems(ts).value == [r.value] + more.value; }
    }
  }

  /** Whatever tokens were accepted, printing the tree and parsing again gives the
      same tree: printed form is a normal form of accepted input. */
  lemma PrintNormalises(ts: seq<Tok>, compiles: string -> bool)
    requires Closed(ts) && Parse(ts, compiles).Some?
    ensures var e := Parse(ts, compiles).value;
      Closed(Print(e, 1) + [Eof]) && Parse(Print(e, 1) + [Eof], compiles) == Some(e)
  {
    ExprIsWellFormed(ts, 1);
    ParseUndoesPrint(Parse(ts, compiles).value, compiles);
  }
}
