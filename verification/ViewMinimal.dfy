/** The printed form uses the fewest grouping parentheses: no token list with fewer
    of them parses to the same tree. */
module ViewMinimal {
  import opened ViewGrammar
  import opened ViewPrinter

  predicate Callable(t: Tok) { t.IdentTok? && t.id != "true" && t.id != "false" }

  /** The opening parentheses that group, not those of a call. */
  function Groups(ts: seq<Tok>): nat {
    if ts == [] then 0
    else if ts[0] == LParen then 1 + Groups(ts[1..])
    else if Callable(ts[0]) && |ts| > 1 && ts[1] == LParen then Groups(ts[2..])
    else Groups(ts[1..])
  }

  /** The groups that printing a tree takes. */
  function Needed(e: Expr, level: nat): nat
    decreases e, 1
  {
    match e
    case List(items) => NeededAll(items)
    case Call(_, args) => NeededAll(args)
    case Unary(_, a) => Needed(a, TIGHT)
    case Binary(op, a, b) => Needed(a, Prec(op)) + Needed(b, Prec(op) + 1) + (if Prec(op) < level then 1 else 0)
    case _ => 0
  }

  function NeededAll(es: seq<Expr>): nat
    decreases es, 0
  {
    if es == [] then 0 else Needed(es[0], 1) + NeededAll(es[1..])
  }

  lemma NeededGrows(e: Expr, k: nat, level: nat)
    requires k <= level
    ensures Needed(e, k) <= Needed(e, level) <= Needed(e, k) + 1
  {
  }

  // -------------------------------------------------- what printing takes

  lemma SkipOne(t: Tok, rest: seq<Tok>)
    requires t != LParen && !Callable(t)
    ensures Groups([t] + rest) == Groups(rest)
  {
    assert ([t] + rest)[1..] == rest;
  }

  lemma CountGroup(rest: seq<Tok>)
    ensures Groups([LParen] + rest) == 1 + Groups(rest)
  {
    assert ([LParen] + rest)[1..] == rest;
  }

  lemma SkipCall(f: string, rest: seq<Tok>)
    requires Callable(IdentTok(f))
    ensures Groups([IdentTok(f)] + ([LParen] + rest)) == Groups(rest)
  {
    var ts := [IdentTok(f)] + ([LParen] + rest);
    assert ts[0] == IdentTok(f) && ts[1] == LParen && ts[2..] == rest;
  }

  lemma {:induction false} PrintTakes(e: Expr, level: nat, rest: seq<Tok>)
    requires WellFormed(e)
    ensures Groups(Print(e, level) + rest) == Needed(e, level) + Groups(rest)
    decreases e, 2
  {
    if e.Binary? {
      BinaryTakes(e, level, rest);
    } else if e.Unary? {
      var a := Print(e.operand, TIGHT) + rest;
      assert Print(e, level) + rest == [OpTok(e.uop)] + a;
      SkipOne(OpTok(e.uop), a);
      PrintTakes(e.operand, TIGHT, rest);
    } else if e.List? || e.Call? {
      BracketsTake(e, level, rest);
    } else {
      AtomTakes(e, level, rest);
    }
  }

  lemma AtomTakes(e: Expr, level: nat, rest: seq<Tok>)
    requires e.Num? || e.Str? || e.Bool?
    ensures Groups(Print(e, level) + rest) == Groups(rest)
  {
    SkipOne(Print(e, level)[0], rest);
  }

  lemma {:induction false} BracketsTake(e: Expr, level: nat, rest: seq<Tok>)
    requires WellFormed(e) && (e.List? || e.Call?)
    ensures Groups(Print(e, level) + rest) == Needed(e, level) + Groups(rest)
    decreases e, 1
  {
    if e.List? {
      var tail := [RBracket] + rest;
      ListShape(e, level, rest);
      SkipOne(LBracket, PrintItems(e.items) + tail);
      ItemsTake(e.items, tail);
      SkipOne(RBracket, rest);
    } else {
      var tail := [RParen] + rest;
      CallShape(e, level, rest);
      SkipCall(e.func, PrintItems(e.args) + tail);
      ItemsTake(e.args, tail);
      SkipOne(RParen, rest);
    }
  }

  /** An operator and its operands, whatever follows. */
  lemma {:induction false} OperatorTakes(e: Expr, tail: seq<Tok>)
    requires WellFormed(e) && e.Binary?
    ensures Groups(Print(e.left, Prec(e.bop)) + ([OpTok(e.bop)] + (Print(e.right, Prec(e.bop) + 1) + tail))) ==
      Needed(e.left, Prec(e.bop)) + Needed(e.right, Prec(e.bop) + 1) + Groups(tail)
    decreases e, 0
  {
    var right := Print(e.right, Prec(e.bop) + 1) + tail;
    PrintTakes(e.left, Prec(e.bop), [OpTok(e.bop)] + right);
    SkipOne(OpTok(e.bop), right);
    PrintTakes(e.right, Prec(e.bop) + 1, tail);
  }

  lemma {:induction false} BinaryTakes(e: Expr, level: nat, rest: seq<Tok>)
    requires WellFormed(e) && e.Binary?
    ensures Groups(Print(e, level) + rest) == Needed(e, level) + Groups(rest)
    decreases e, 1
  {
    if Prec(e.bop) < level {
      var tail := [RParen] + rest;
      BracketedShape(e, level, rest);
      CountGroup(Print(e.left, Prec(e.bop)) + ([OpTok(e.bop)] + (Print(e.right, Prec(e.bop) + 1) + tail)));
      OperatorTakes(e, tail);
      SkipOne(RParen, rest);
    } else {
      BareShape(e, level, rest);
      OperatorTakes(e, rest);
    }
  }

  lemma {:induction false} ItemsTake(es: seq<Expr>, rest: seq<Tok>)
    requires AllWellFormed(es)
    ensures Groups(PrintItems(es) + rest) == NeededAll(es) + Groups(rest)
    decreases es, 0
  {
    if es == [] {
      assert PrintItems(es) + rest == rest;
    } else if |es| == 1 {
      PrintTakes(es[0], 1, rest);
      assert es[1..] == [];
    } else {
      var more := PrintItems(es[1..]) + rest;
      PrintTakes(es[0], 1, [Comma] + more);
      SkipOne(Comma, more);
      ItemsTake(es[1..], rest);
      ItemsShape(es, rest);
    }
  }

  // -------------------------------------------------- what parsing must find

  /** Parsing stops where no operator of its level follows. */
  lemma {:induction false} ClimbStops(lhs: Expr, ts: seq<Tok>, m: nat)
    requires Closed(ts)
    ensures var r := Climb(lhs, ts, m); r.Ok? ==> Stops(r.rest, m)
    decreases |ts|
  {
    if !Stops(ts, m) {
      var r := ParseExpr(ts[1..], Prec(ts[0].op) + 1);
      if r.Ok? { ClimbStops(Binary(ts[0].op, lhs, r.value), r.rest, m); }
    }
  }

  /** The tightest level at which the expression read so far must stand. */
  function NextLevel(ts: seq<Tok>, m: nat): nat
    requires ts != []
  {
    if Stops(ts, m) then m else Prec(ts[0].op)
  }

  lemma {:induction false} ClimbFinds(lhs: Expr, ts: seq<Tok>, m: nat, acc: nat)
    requires Closed(ts) && m <= TIGHT && Needed(lhs, NextLevel(ts, m)) <= acc
    ensures var r := Climb(lhs, ts, m); r.Ok? ==> acc + Groups(ts) >= Groups(r.rest) + Needed(r.value, m)
    decreases |ts|, 0
  {
    if !Stops(ts, m) {
      var p := Prec(ts[0].op);
      var r := ParseExpr(ts[1..], p + 1);
      if r.Ok? {
        ExprFinds(ts[1..], p + 1);
        ExprStops(ts[1..], p + 1);
        var next := Binary(ts[0].op, lhs, r.value);
        assert NextLevel(r.rest, m) <= p;
        ClimbFinds(next, r.rest, m, acc + Needed(r.value, p + 1));
      }
    }
  }

  lemma ExprStops(ts: seq<Tok>, m: nat)
    requires Closed(ts)
    ensures var r := ParseExpr(ts, m); r.Ok? ==> Stops(r.rest, m)
  {
    var u := ParseUnary(ts);
    if u.Ok? { ClimbStops(u.value, u.rest, m); }
  }

  lemma {:induction false} ExprFinds(ts: seq<Tok>, m: nat)
    requires Closed(ts) && m <= TIGHT
    ensures var r := ParseExpr(ts, m); r.Ok? ==> Groups(ts) >= Groups(r.rest) + Needed(r.value, m)
    decreases |ts|, 3
  {
    UnaryFinds(ts);
    var u := ParseUnary(ts);
    if u.Ok? {
      NeededGrows(u.value, NextLevel(u.rest, m), TIGHT);
      ClimbFinds(u.value, u.rest, m, Needed(u.value, TIGHT));
    }
  }

  lemma {:induction false} UnaryFinds(ts: seq<Tok>)
    requires Closed(ts)
    ensures var r := ParseUnary(ts); r.Ok? ==> Groups(ts) >= Groups(r.rest) + Needed(r.value, TIGHT)
    decreases |ts|, 2
  {
    if ts[0].OpTok? && IsUnaryOp(ts[0].op) {
      if |ts| > 1 { UnaryFinds(ts[1..]); }
    } else {
      PrimaryFinds(ts);
    }
  }

  lemma {:induction false} PrimaryFinds(ts: seq<Tok>)
    requires Closed(ts)
    ensures var r := ParsePrimary(ts); r.Ok? ==> Groups(ts) >= Groups(r.rest) + Needed(r.value, TIGHT)
    decreases |ts|, 1
  {
    if ts[0] == LParen {
      GroupFinds(ts[1..]);
    } else if ts[0] == LBracket {
      UntilFinds(ts[1..], RBracket);
    } else if Callable(ts[0]) && ts[1] == LParen {
      UntilFinds(ts[2..], RParen);
      assert ts[1..][1..] == ts[2..];
    }
  }

  lemma {:induction false} GroupFinds(ts: seq<Tok>)
    requires Closed(ts)
    ensures var r := ParseGroup(ts); r.Ok? ==> 1 + Groups(ts) >= Groups(r.rest) + Needed(r.value, TIGHT)
    decreases |ts|, 6
  {
    ExprFinds(ts, 1);
    var r := ParseExpr(ts, 1);
    if r.Ok? { NeededGrows(r.value, 1, TIGHT); }
  }

  lemma {:induction false} UntilFinds(ts: seq<Tok>, close: Tok)
    requires Closed(ts) && (close == RBracket || close == RParen)
    ensures var r := ParseUntil(ts, close); r.Ok? ==> Groups(ts) >= Groups(r.rest) + NeededAll(r.value)
    decreases |ts|, 5
  {
    if ts[0] != close { ItemsFind(ts); }
  }

  lemma {:induction false} ItemsFind(ts: seq<Tok>)
    requires Closed(ts)
    ensures var r := ParseItems(ts); r.Ok? ==> Groups(ts) >= Groups(r.rest) + NeededAll(r.value)
    decreases |ts|, 4
  {
    ExprFinds(ts, 1);
    var r := ParseExpr(ts, 1);
    if r.Ok? && r.rest[0] == Comma {
      ItemsFind(r.rest[1..]);
      var more := ParseItems(r.rest[1..]);
      if more.Ok? { assert ([r.value] + more.value)[1..] == more.value; }
    } else if r.Ok? {
      assert [r.value][1..] == [];
    }
  }

  /** Every token list that parses to a tree has at least as many grouping
      parentheses as its printed form; so leaving any of them out gives another
      tree or an error. */
  lemma PrintIsMinimal(ts: seq<Tok>, compiles: string -> bool)
    requires Closed(ts) && Parse(ts, compiles).Some?
    ensures Groups(ts) >= Groups(Print(Parse(ts, compiles).value, 1) + [Eof])
  {
    var e := Parse(ts, compiles).value;
    ExprFinds(ts, 1);
    ExprIsWellFormed(ts, 1);
    PrintTakes(e, 1, [Eof]);
  }
}
