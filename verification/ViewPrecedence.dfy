/** Which operators bind tighter, and what is accepted, told by listing them. */
module ViewPrecedence {
  import opened Names
  import opened G = ViewGrammar

  /** The binary operators, the loosest first. */
  const LEVELS: seq<set<Op>> := [
    {Or}, {And}, {Eq, Ne, Lt, Gt, Le, Ge, In, Matches, Contains, StartsWith, EndsWith}, {Add, Sub}, {Mul, Div, Mod}]

  predicate OnLevel(op: Op, i: nat) { i < |LEVELS| && op in LEVELS[i] }

  /** `f` binds at least as tightly as `g`. */
  predicate AsTight(f: Op, g: Op) { exists i, j :: 0 <= j <= i < |LEVELS| && OnLevel(f, i) && OnLevel(g, j) }

  predicate Infix(op: Op) { exists i :: 0 <= i < |LEVELS| && OnLevel(op, i) }

  predicate Atom(t: Tok) { t.NumTok? || t.StrTok? || t.IdentTok? }

  /** A number, a string, a truth value, or the call of a function without arguments. */
  function Meaning(t: Tok): Expr
    requires Atom(t)
  {
    match t
    case NumTok(n) => Num(n)
    case StrTok(s) => Str(s)
    case IdentTok(id) => if id == "true" then Bool(true) else if id == "false" then Bool(false) else Call(id, [])
  }

  lemma LevelIs(op: Op, i: nat)
    requires OnLevel(op, i)
    ensures Prec(op) == i + 1
  {
  }

  lemma InfixIffLevel(op: Op)
    ensures Infix(op) <==> op != Not
    ensures Infix(op) ==> Prec(op) >= 1 && OnLevel(op, Prec(op) - 1)
  {
    if op != Not { assert OnLevel(op, Prec(op) - 1); }
  }

  lemma AsTightIff(f: Op, g: Op)
    requires Infix(f) && Infix(g)
    ensures AsTight(f, g) <==> Prec(f) >= Prec(g)
  {
    InfixIffLevel(f);
    InfixIffLevel(g);
    if AsTight(f, g) {
      var i, j :| 0 <= j <= i < |LEVELS| && OnLevel(f, i) && OnLevel(g, j);
      LevelIs(f, i);
      LevelIs(g, j);
    }
    if Prec(f) >= Prec(g) { assert OnLevel(f, Prec(f) - 1) && OnLevel(g, Prec(g) - 1); }
  }

  lemma AtomParses(ts: seq<Tok>)
    requires Closed(ts) && |ts| > 1 && Atom(ts[0]) && ts[1] != LParen
    ensures ParseUnary(ts) == Ok(Meaning(ts[0]), ts[1..])
  {
    var rest := ts[1..];
    assert rest[0] == ts[1];
    assert ParsePrimary(ts) == Ok(Meaning(ts[0]), rest);
  }

  /** Nothing after the operand extends it at this level. */
  lemma OperandParses(ts: seq<Tok>, m: nat)
    requires Closed(ts) && |ts| > 1 && Atom(ts[0]) && ts[1] != LParen && (ts[1].OpTok? ==> Prec(ts[1].op) < m)
    ensures ParseExpr(ts, m) == Ok(Meaning(ts[0]), ts[1..])
  {
    AtomParses(ts);
  }

  /** One operator with its right operand, to which nothing more belongs. */
  lemma OperatorParses(lhs: Expr, ts: seq<Tok>, m: nat)
    requires Closed(ts) && |ts| > 2 && ts[0].OpTok? && Infix(ts[0].op) && Prec(ts[0].op) >= m
    requires Atom(ts[1]) && ts[2] != LParen && (ts[2].OpTok? ==> Prec(ts[2].op) <= Prec(ts[0].op))
    ensures Climb(lhs, ts, m) == Climb(Binary(ts[0].op, lhs, Meaning(ts[1])), ts[2..], m)
  {
    InfixIffLevel(ts[0].op);
    assert ts[1..][1..] == ts[2..];
    OperandParses(ts[1..], Prec(ts[0].op) + 1);
  }

  /** What comes after an expression that is complete. */
  predicate Ends(t: Tok) { !t.OpTok? && t != LParen }

  /** One operator and the end. */
  lemma LastOperator(lhs: Expr, ts: seq<Tok>, m: nat)
    requires Closed(ts) && |ts| > 2 && ts[0].OpTok? && Infix(ts[0].op) && Prec(ts[0].op) >= m && Atom(ts[1]) && Ends(ts[2])
    ensures Climb(lhs, ts, m) == Ok(Binary(ts[0].op, lhs, Meaning(ts[1])), ts[2..])
  {
    OperatorParses(lhs, ts, m);
  }

  lemma FirstWins(lhs: Expr, ts: seq<Tok>, f: Op, b: Tok, g: Op, c: Tok)
    requires Closed(ts) && |ts| > 4 && ts[0] == OpTok(f) && ts[1] == b && ts[2] == OpTok(g) && ts[3] == c && Ends(ts[4])
    requires Atom(b) && Atom(c) && Infix(f) && Infix(g) && Prec(f) >= Prec(g)
    ensures Climb(lhs, ts, 1) == Ok(Binary(g, Binary(f, lhs, Meaning(b)), Meaning(c)), ts[4..])
  {
    InfixIffLevel(f);
    InfixIffLevel(g);
    OperatorParses(lhs, ts, 1);
    LastOperator(Binary(f, lhs, Meaning(b)), ts[2..], 1);
    assert ts[2..][2..] == ts[4..];
  }

  lemma SecondWins(lhs: Expr, ts: seq<Tok>, f: Op, b: Tok, g: Op, c: Tok)
    requires Closed(ts) && |ts| > 4 && ts[0] == OpTok(f) && ts[1] == b && ts[2] == OpTok(g) && ts[3] == c && Ends(ts[4])
    requires Atom(b) && Atom(c) && Infix(f) && Infix(g) && Prec(f) < Prec(g)
    ensures Climb(lhs, ts, 1) == Ok(Binary(f, lhs, Binary(g, Meaning(b), Meaning(c))), ts[4..])
  {
    InfixIffLevel(f);
    AtomParses(ts[1..]);
    assert ts[1..][1..] == ts[2..] && ts[2..][2..] == ts[4..];
    LastOperator(Meaning(b), ts[2..], Prec(f) + 1);
    assert ParseExpr(ts[1..], Prec(f) + 1) == Ok(Binary(g, Meaning(b), Meaning(c)), ts[4..]);
    assert ts[4..][0] == ts[4];
  }

  /** Two operators in a row: the first takes both its neighbours if it binds at least
      as tightly as the second, else the second does. Whatever ends the expression,
      the end marker or a closing token, is left. */
  lemma TwoOperators(ts: seq<Tok>, a: Tok, f: Op, b: Tok, g: Op, c: Tok)
    requires Closed(ts) && |ts| > 5 && ts[..5] == [a, OpTok(f), b, OpTok(g), c] && Ends(ts[5])
    requires Atom(a) && Atom(b) && Atom(c) && Infix(f) && Infix(g)
    ensures var x, y, z := Meaning(a), Meaning(b), Meaning(c);
      ParseExpr(ts, 1) == Ok(if AsTight(f, g) then Binary(g, Binary(f, x, y), z) else Binary(f, x, Binary(g, y, z)), ts[5..])
  {
    var first := ts[..5];
    assert ts[0] == first[0] && ts[1] == first[1] && ts[2] == first[2] && ts[3] == first[3] && ts[4] == first[4];
    AtomParses(ts);
    AsTightIff(f, g);
    assert ts[1..][4..] == ts[5..];
    if AsTight(f, g) {
      FirstWins(Meaning(a), ts[1..], f, b, g, c);
    } else {
      SecondWins(Meaning(a), ts[1..], f, b, g, c);
    }
  }

  /** A sign belongs to the operand after it, before any operator. */
  lemma SignBindsTightest(ts: seq<Tok>, u: Op, a: Tok, f: Op, b: Tok)
    requires Closed(ts) && |ts| > 4 && ts[..4] == [OpTok(u), a, OpTok(f), b] && Ends(ts[4])
    requires (u == Not || u == Sub) && Atom(a) && Atom(b) && Infix(f)
    ensures ParseExpr(ts, 1) == Ok(Binary(f, Unary(u, Meaning(a)), Meaning(b)), ts[4..])
  {
    var first := ts[..4];
    assert ts[0] == first[0] && ts[1] == first[1] && ts[2] == first[2] && ts[3] == first[3];
    InfixIffLevel(f);
    AtomParses(ts[1..]);
    assert ts[1..][1..] == ts[2..] && ts[2..][2..] == ts[4..];
    LastOperator(Unary(u, Meaning(a)), ts[2..], 1);
  }

  lemma OneOperator(ts: seq<Tok>, a: Tok, f: Op, b: Tok)
    requires Closed(ts) && |ts| > 3 && ts[0] == a && ts[1] == OpTok(f) && ts[2] == b && Ends(ts[3])
    requires Atom(a) && Atom(b) && Infix(f)
    ensures ParseExpr(ts, 1) == Ok(Binary(f, Meaning(a), Meaning(b)), ts[3..])
  {
    InfixIffLevel(f);
    AtomParses(ts);
    LastOperator(Meaning(a), ts[1..], 1);
    assert ts[1..][2..] == ts[3..];
  }

  /** Brackets win over both. */
  lemma GroupBindsFirst(ts: seq<Tok>, a: Tok, f: Op, b: Tok, g: Op, c: Tok)
    requires Closed(ts) && |ts| > 7 && ts[..7] == [LParen, a, OpTok(f), b, RParen, OpTok(g), c] && Ends(ts[7])
    requires Atom(a) && Atom(b) && Atom(c) && Infix(f) && Infix(g)
    ensures ParseExpr(ts, 1) == Ok(Binary(g, Binary(f, Meaning(a), Meaning(b)), Meaning(c)), ts[7..])
  {
    var first := ts[..7];
    assert ts[0] == first[0] && ts[1] == first[1] && ts[2] == first[2] && ts[3] == first[3];
    assert ts[4] == first[4] && ts[5] == first[5] && ts[6] == first[6];
    InfixIffLevel(g);
    OneOperator(ts[1..], a, f, b);
    assert ts[1..][3..] == ts[4..] && ts[4..][1..] == ts[5..] && ts[5..][2..] == ts[7..];
    var e := Binary(f, Meaning(a), Meaning(b));
    assert ParseGroup(ts[1..]) == Ok(e, ts[5..]);
    assert ParseUnary(ts) == ParsePrimary(ts) == Ok(e, ts[5..]);
    LastOperator(e, ts[5..], 1);
  }

  /** Two items and the token that closes them. */
  lemma TwoItems(ts: seq<Tok>, a: Tok, b: Tok, close: Tok)
    requires Closed(ts) && |ts| > 4 && ts[0] == a && ts[1] == Comma && ts[2] == b && ts[3] == close
    requires Atom(a) && Atom(b) && (close == RBracket || close == RParen)
    ensures ParseUntil(ts, close) == Ok([Meaning(a), Meaning(b)], ts[4..])
  {
    OperandParses(ts, 1);
    assert ts[1..][1..] == ts[2..] && ts[2..][1..] == ts[3..] && ts[3..][1..] == ts[4..];
    OperandParses(ts[2..], 1);
    assert ParseItems(ts[2..]) == Ok([Meaning(b)], ts[3..]);
    var items := [Meaning(a)] + [Meaning(b)];
    assert ParseItems(ts) == Ok(items, ts[3..]);
    assert items == [Meaning(a), Meaning(b)] && ts[3..][0] == close;
  }

  /** Items and arguments keep the order in which they are written. */
  lemma ListInOrder(ts: seq<Tok>, a: Tok, b: Tok)
    requires Closed(ts) && |ts| > 5 && ts[..5] == [LBracket, a, Comma, b, RBracket] && Atom(a) && Atom(b)
    ensures ParseUnary(ts) == Ok(List([Meaning(a), Meaning(b)]), ts[5..])
  {
    var first := ts[..5];
    assert ts[0] == first[0] && ts[1] == first[1] && ts[2] == first[2] && ts[3] == first[3] && ts[4] == first[4];
    TwoItems(ts[1..], a, b, RBracket);
    assert ts[1..][4..] == ts[5..];
    assert ParseUnary(ts) == ParsePrimary(ts);
  }

  lemma CallInOrder(ts: seq<Tok>, id: string, a: Tok, b: Tok)
    requires Closed(ts) && |ts| > 6 && ts[..6] == [IdentTok(id), LParen, a, Comma, b, RParen] && Atom(a) && Atom(b)
    requires id != "true" && id != "false"
    ensures ParseUnary(ts) == Ok(Call(id, [Meaning(a), Meaning(b)]), ts[6..])
  {
    var first := ts[..6];
    assert ts[0] == first[0] && ts[1] == first[1] && ts[2] == first[2];
    assert ts[3] == first[3] && ts[4] == first[4] && ts[5] == first[5];
    TwoItems(ts[2..], a, b, RParen);
    assert ts[1..][1..] == ts[2..] && ts[2..][4..] == ts[6..];
    assert ParseCall(id, ts[1..]) == Ok(Call(id, [Meaning(a), Meaning(b)]), ts[6..]);
    assert ParseUnary(ts) == ParsePrimary(ts);
  }

  /** The functions an expression may call. */
  predicate Known(id: string) {
    id in {"name", "type", "class", "proto", "size", "port", "id", "opcode", "do", "bufsize",
           "client_ip", "server_ip", "server_port", "metadata", "incidr"}
  }

  lemma KnownIffListed(id: string)
    ensures Known(id) <==> id in FUNCS
  {
    var fs := FUNCS;
    assert fs[0] == "name" && fs[1] == "type" && fs[2] == "class" && fs[3] == "proto" && fs[4] == "size";
    assert fs[5] == "port" && fs[6] == "id" && fs[7] == "opcode" && fs[8] == "do" && fs[9] == "bufsize";
    assert fs[10] == "client_ip" && fs[11] == "server_ip" && fs[12] == "server_port" && fs[13] == "metadata" && fs[14] == "incidr";
  }

  /** A word alone is accepted exactly if it is a truth value or names such a function. */
  lemma WordIsAccepted(id: string, compiles: string -> bool)
    ensures Parse([IdentTok(id), Eof], compiles) ==
      if id == "true" || id == "false" || Known(id) then Some(Meaning(IdentTok(id))) else None
  {
    var ts := [IdentTok(id), Eof];
    KnownIffListed(id);
    OperandParses(ts, 1);
  }

  /** The functions called anywhere in an expression. */
  ghost function CallsIn(e: Expr): set<string> {
    match e
    case Call(f, args) => {f} + (set i, g | 0 <= i < |args| && g in CallsIn(args[i]) :: g)
    case List(items) => set i, g | 0 <= i < |items| && g in CallsIn(items[i]) :: g
    case Unary(_, a) => CallsIn(a)
    case Binary(_, a, b) => CallsIn(a) + CallsIn(b)
    case _ => {}
  }

  /** The literal patterns matched anywhere in it. */
  ghost function PatternsIn(e: Expr): set<string> {
    match e
    case Call(_, args) => set i, p | 0 <= i < |args| && p in PatternsIn(args[i]) :: p
    case List(items) => set i, p | 0 <= i < |items| && p in PatternsIn(items[i]) :: p
    case Unary(_, a) => PatternsIn(a)
    case Binary(op, a, b) => PatternsIn(a) + PatternsIn(b) + (if op == Matches && b.Str? then {b.str} else {})
    case _ => {}
  }

  /** An expression is accepted exactly if every function called in it is known and
      every literal pattern in it compiles. */
  lemma {:induction false} ValidIff(e: Expr, compiles: string -> bool)
    ensures Valid(e, compiles) <==>
      (forall f :: f in CallsIn(e) ==> Known(f)) && (forall p :: p in PatternsIn(e) ==> compiles(p))
  {
    match e
    case Call(f, args) =>
      KnownIffListed(f);
      AllValidIff(args, compiles);
    case List(items) => AllValidIff(items, compiles);
    case Unary(_, a) => ValidIff(a, compiles);
    case Binary(_, a, b) =>
      ValidIff(a, compiles);
      ValidIff(b, compiles);
    case _ =>
  }

  lemma {:induction false} AllValidIff(es: seq<Expr>, compiles: string -> bool)
    ensures (forall i :: 0 <= i < |es| ==> Valid(es[i], compiles)) <==>
      && (forall i, f :: 0 <= i < |es| && f in CallsIn(es[i]) ==> Known(f))
      && (forall i, p :: 0 <= i < |es| && p in PatternsIn(es[i]) ==> compiles(p))
  {
    forall i | 0 <= i < |es| ensures Valid(es[i], compiles) <==>
      (forall f :: f in CallsIn(es[i]) ==> Known(f)) && (forall p :: p in PatternsIn(es[i]) ==> compiles(p))
    {
      ValidIff(es[i], compiles);
    }
  }

  /** `matches` with a literal pattern is accepted exactly if the pattern compiles. */
  lemma PatternIsChecked(pattern: string, compiles: string -> bool)
    ensures Parse([IdentTok("name"), OpTok(Matches), StrTok(pattern), Eof], compiles) ==
      if compiles(pattern) then Some(Binary(Matches, Call("name", []), Str(pattern))) else None
  {
    var ts := [IdentTok("name"), OpTok(Matches), StrTok(pattern), Eof];
    KnownIffListed("name");
    InfixIffLevel(Matches);
    OneOperator(ts, IdentTok("name"), Matches, StrTok(pattern));
    var subject := Meaning(IdentTok("name"));
    assert subject == Call("name", []) && Valid(subject, compiles);
    assert Valid(Binary(Matches, subject, Str(pattern)), compiles) <==> compiles(pattern);
  }

  /** A list that goes on after an expression is not accepted: here with a `!` where
      an operator should be. */
  lemma NotIsNoInfix(a: Tok, b: Tok, compiles: string -> bool)
    requires Atom(a) && Atom(b)
    ensures Parse([a, OpTok(Not), b, Eof], compiles) == None
  {
    OperandParses([a, OpTok(Not), b, Eof], 1);
  }
}
