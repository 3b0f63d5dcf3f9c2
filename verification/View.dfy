/** The expression language of the `view` plugin: a precedence-climbing parser
    over tokens, and the printer it undoes. */
module ViewGrammar {
  import opened Names

  /** The operators the lexer knows, by symbol or by word. */
  datatype Op =
    | Or | And
    | Eq | Ne | Lt | Gt | Le | Ge | In | Matches | Contains | StartsWith | EndsWith
    | Add | Sub | Mul | Div | Mod | Not

  datatype Tok =
    | NumTok(num: real) | StrTok(str: string) | IdentTok(id: string) | OpTok(op: Op)
    | LParen | RParen | LBracket | RBracket | Comma | Eof

  datatype Expr =
    | Num(num: real)
    | Str(str: string)
    | Bool(b: bool)
    | List(items: seq<Expr>)
    | Call(func: string, args: seq<Expr>)
    | Unary(uop: Op, operand: Expr)
    | Binary(bop: Op, left: Expr, right: Expr)

  function Prec(op: Op): (p: nat)
    ensures p <= 5
  {
    match op
    case Or => 1
    case And => 2
    case Eq | Ne | Lt | Gt | Le | Ge | In | Matches | Contains | StartsWith | EndsWith => 3
    case Add | Sub => 4
    case Mul | Div | Mod => 5
    case Not => 0
  }

  predicate IsUnaryOp(op: Op) { op == Not || op == Sub }

  // ------------------------------------------ the grammar, on token lists

  /** A token list as the lexer leaves it: the end marker closes it. */
  predicate Closed(ts: seq<Tok>) { ts != [] && ts[|ts| - 1] == Eof }

  /** And it stands nowhere else. */
  predicate Ended(ts: seq<Tok>) { Closed(ts) && forall i :: 0 <= i < |ts| - 1 ==> ts[i] != Eof }

  datatype Parsed<T> = Ok(value: T, rest: seq<Tok>) | Fail

  /** What a parser leaves is closed and strictly shorter than what it was given. */
  ghost predicate Leaves<T>(ts: seq<Tok>, r: Parsed<T>) {
    r.Ok? ==> Closed(r.rest) && |r.rest| < |ts|
  }

  function ParseExpr(ts: seq<Tok>, minPrec: nat): (r: Parsed<Expr>)
    requires Closed(ts)
    ensures Leaves(ts, r)
    decreases |ts|, 3
  {
    match ParseUnary(ts)
    case Ok(lhs, rest) => Climb(lhs, rest, minPrec)
    case Fail => Fail
  }

  /** Operators of at least `minPrec` extend `lhs`, to the left. */
  function Climb(lhs: Expr, ts: seq<Tok>, minPrec: nat): (r: Parsed<Expr>)
    requires Closed(ts)
    ensures r.Ok? ==> Closed(r.rest) && |r.rest| <= |ts|
    decreases |ts|, 0
  {
    if ts[0].OpTok? && Prec(ts[0].op) >= minPrec && Prec(ts[0].op) > 0 then
      match ParseExpr(ts[1..], Prec(ts[0].op) + 1)
      case Ok(rhs, rest) => Climb(Binary(ts[0].op, lhs, rhs), rest, minPrec)
      case Fail => Fail
    else Ok(lhs, ts)
  }

  function ParseUnary(ts: seq<Tok>): (r: Parsed<Expr>)
    requires Closed(ts)
    ensures Leaves(ts, r)
    decreases |ts|, 2
  {
    if ts[0].OpTok? && IsUnaryOp(ts[0].op) then
      match ParseUnary(ts[1..])
      case Ok(e, rest) => Ok(Unary(ts[0].op, e), rest)
      case Fail => Fail
    else ParsePrimary(ts)
  }

  function ParsePrimary(ts: seq<Tok>): (r: Parsed<Expr>)
    requires Closed(ts)
    ensures Leaves(ts, r)
    decreases |ts|, 1
  {
    match ts[0]
    case NumTok(n) => Ok(Num(n), ts[1..])
    case StrTok(s) => Ok(Str(s), ts[1..])
    case LParen => ParseGroup(ts[1..])
    case LBracket =>
      (match ParseUntil(ts[1..], RBracket)
       case Ok(items, rest) => Ok(List(items), rest)
       case Fail => Fail)
    case IdentTok(id) =>
      if id == "true" then Ok(Bool(true), ts[1..])
      else if id == "false" then Ok(Bool(false), ts[1..])
      else ParseCall(id, ts[1..])
    case _ => Fail
  }

  function ParseGroup(ts: seq<Tok>): (r: Parsed<Expr>)
    requires Closed(ts)
    ensures Leaves(ts, r)
    decreases |ts|, 6
  {
    match ParseExpr(ts, 1)
    case Ok(e, rest) => if rest[0] == RParen then Ok(e, rest[1..]) else Fail
    case Fail => Fail
  }

  function ParseCall(id: string, ts: seq<Tok>): (r: Parsed<Expr>)
    requires Closed(ts)
    ensures r.Ok? ==> Closed(r.rest) && |r.rest| <= |ts|
    decreases |ts|, 6
  {
    if ts[0] == LParen then
      match ParseUntil(ts[1..], RParen)
      case Ok(args, rest) => Ok(Call(id, args), rest)
      case Fail => Fail
    else Ok(Call(id, []), ts)
  }

  /** A possibly empty comma-separated list and its closing token. */
  function ParseUntil(ts: seq<Tok>, close: Tok): (r: Parsed<seq<Expr>>)
    requires Closed(ts) && close != Eof
    ensures Leaves(ts, r)
    decreases |ts|, 5
  {
    if ts[0] == close then Ok([], ts[1..])
    else match ParseItems(ts)
      case Ok(items, rest) => if rest[0] == close then Ok(items, rest[1..]) else Fail
      case Fail => Fail
  }

  function ParseItems(ts: seq<Tok>): (r: Parsed<seq<Expr>>)
    requires Closed(ts)
    ensures Leaves(ts, r)
    decreases |ts|, 4
  {
    match ParseExpr(ts, 1)
    case Ok(e, rest) =>
      if rest[0] == Comma then
        match ParseItems(rest[1..])
        case Ok(es, rest') => Ok([e] + es, rest')
        case Fail => Fail
      else Ok([e], rest)
    case Fail => Fail
  }

  // ---------------------------------------------------------- validation

  const FUNCS: seq<string> := [
    "name", "type", "class", "proto", "size", "port", "id", "opcode", "do", "bufsize",
    "client_ip", "server_ip", "server_port", "metadata", "incidr"]

  /** Known functions only, and every literal pattern of `matches` compiles. */
  predicate Valid(e: Expr, compiles: string -> bool) {
    match e
    case Call(f, args) => f in FUNCS && forall i :: 0 <= i < |args| ==> Valid(args[i], compiles)
    case Unary(_, a) => Valid(a, compiles)
    case Binary(op, a, b) => (op == Matches && b.Str? ==> compiles(b.str)) && Valid(a, compiles) && Valid(b, compiles)
    case List(items) => forall i :: 0 <= i < |items| ==> Valid(items[i], compiles)
    case _ => true
  }

  function Parse(ts: seq<Tok>, compiles: string -> bool): Option<Expr>
    requires Closed(ts)
  {
    Accepted(ParseExpr(ts, 1), compiles)
  }

  function Accepted(r: Parsed<Expr>, compiles: string -> bool): Option<Expr>
    requires r.Ok? ==> r.rest != []
  {
    if r.Ok? && r.rest[0] == Eof && Valid(r.value, compiles) then Some(r.value) else None
  }

  /** Items already read, then the rest of the list. */
  function ItemsFrom(done: seq<Expr>, ts: seq<Tok>): Parsed<seq<Expr>>
    requires Closed(ts)
  {
    match ParseItems(ts)
    case Ok(es, rest) => Ok(done + es, rest)
    case Fail => Fail
  }

  lemma ItemsFromNothing(ts: seq<Tok>)
    requires Closed(ts)
    ensures ItemsFrom([], ts) == ParseItems(ts)
  {
    match ParseItems(ts)
    case Ok(es, _) => assert [] + es == es;
    case Fail =>
  }

  lemma ItemsStep(done: seq<Expr>, ts: seq<Tok>)
    requires Closed(ts)
    ensures ItemsFrom(done, ts) == match ParseExpr(ts, 1)
      case Ok(e, rest) => if rest[0] == Comma then ItemsFrom(done + [e], rest[1..]) else Ok(done + [e], rest)
      case Fail => Fail
  {
    var r := ParseExpr(ts, 1);
    if r.Ok? && r.rest[0] == Comma {
      var more := ParseItems(r.rest[1..]);
      if more.Ok? { assert done + ([r.value] + more.value) == (done + [r.value]) + more.value; }
    }
  }

  // ------------------------------------------------- where parsing ends

  lemma EndedTail(ts: seq<Tok>)
    requires Ended(ts) && |ts| > 1
    ensures Ended(ts[1..]) && ts[0] != Eof
  {
  }

  lemma {:induction false} ExprEnds(ts: seq<Tok>, m: nat)
    requires Ended(ts)
    ensures var r := ParseExpr(ts, m); r.Ok? ==> Ended(r.rest)
    decreases |ts|, 3
  {
    UnaryEnds(ts);
    var u := ParseUnary(ts);
    if u.Ok? { ClimbEnds(u.value, u.rest, m); }
  }

  lemma {:induction false} ClimbEnds(lhs: Expr, ts: seq<Tok>, m: nat)
    requires Ended(ts)
    ensures var r := Climb(lhs, ts, m); r.Ok? ==> Ended(r.rest)
    decreases |ts|, 0
  {
    if ts[0].OpTok? && Prec(ts[0].op) >= m && Prec(ts[0].op) > 0 {
      EndedTail(ts);
      ExprEnds(ts[1..], Prec(ts[0].op) + 1);
      var r := ParseExpr(ts[1..], Prec(ts[0].op) + 1);
      if r.Ok? { ClimbEnds(Binary(ts[0].op, lhs, r.value), r.rest, m); }
    }
  }

  lemma {:induction false} UnaryEnds(ts: seq<Tok>)
    requires Ended(ts)
    ensures var r := ParseUnary(ts); r.Ok? ==> Ended(r.rest)
    decreases |ts|, 2
  {
    if ts[0].OpTok? && IsUnaryOp(ts[0].op) {
      EndedTail(ts);
      UnaryEnds(ts[1..]);
    } else {
      PrimaryEnds(ts);
    }
  }

  lemma {:induction false} PrimaryEnds(ts: seq<Tok>)
    requires Ended(ts)
    ensures var r := ParsePrimary(ts); r.Ok? ==> Ended(r.rest)
    decreases |ts|, 1
  {
    if ts[0] != Eof {
      EndedTail(ts);
      var rest := ts[1..];
      if ts[0] == LParen {
        ExprEnds(rest, 1);
        AfterToken(ParseExpr(rest, 1));
      } else if ts[0] == LBracket {
        UntilEnds(rest, RBracket);
      } else if ts[0].IdentTok? && rest[0] == LParen {
        EndedTail(rest);
        UntilEnds(rest[1..], RParen);
      }
    }
  }

  /** One more token taken off what a parser left. */
  lemma AfterToken<T>(r: Parsed<T>)
    requires r.Ok? ==> Ended(r.rest)
    ensures r.Ok? && r.rest[0] != Eof ==> Ended(r.rest[1..])
  {
  }

  lemma {:induction false} UntilEnds(ts: seq<Tok>, close: Tok)
    requires Ended(ts) && close != Eof
    ensures var r := ParseUntil(ts, close); r.Ok? ==> Ended(r.rest)
    decreases |ts|, 5
  {
    if ts[0] == close {
      EndedTail(ts);
    } else {
      ItemsEnd(ts);
      AfterToken(ParseItems(ts));
    }
  }

  lemma {:induction false} ItemsEnd(ts: seq<Tok>)
    requires Ended(ts)
    ensures var r := ParseItems(ts); r.Ok? ==> Ended(r.rest)
    decreases |ts|, 4
  {
    ExprEnds(ts, 1);
    var r := ParseExpr(ts, 1);
    AfterToken(r);
    if r.Ok? && r.rest[0] == Comma { ItemsEnd(r.rest[1..]); }
  }

  /** A list that is accepted is used up to its last token. */
  lemma AcceptedToTheEnd(ts: seq<Tok>, compiles: string -> bool)
    requires Ended(ts) && Parse(ts, compiles).Some?
    ensures ParseExpr(ts, 1) == Ok(Parse(ts, compiles).value, [Eof])
  {
    ExprEnds(ts, 1);
    var rest := ParseExpr(ts, 1).rest;
    assert rest == [Eof];
  }
}

/** The parser as written: a cursor that its methods advance. */
module ViewParser {
  import opened Names
  import opened G = ViewGrammar

  class Parser {
    const toks: seq<Tok>
    var pos: nat

    ghost predicate Inv()
      reads this
    {
      Closed(toks) && pos < |toks|
    }

    ghost function Left(): seq<Tok>
      requires Inv()
      reads this
    {
      toks[pos..]
    }

    constructor (toks: seq<Tok>)
      requires Closed(toks)
      ensures Inv() && Left() == toks && this.toks == toks
    {
      this.toks := toks;
      this.pos := 0;
    }

    method Next() returns (t: Tok)
      requires Inv()
      modifies this`pos
      ensures Inv() && t == old(Left())[0]
      ensures Left() == if |old(Left())| > 1 then old(Left())[1..] else old(Left())
    {
      t := toks[pos];
      if pos + 1 < |toks| {
        pos := pos + 1;
      }
    }

    /** The method has done what the grammar says from `before`. */
    ghost predicate Did<T(!new)>(before: seq<Tok>, r: Option<T>, spec: Parsed<T>)
      reads this
    {
      && Inv() && |Left()| <= |before|
      && (spec.Ok? <==> r.Some?)
      && (r.Some? ==> r.value == spec.value && Left() == spec.rest)
    }

    method ParseExpr(minPrec: nat) returns (r: Option<Expr>)
      requires Inv()
      modifies this`pos
      ensures Did(old(Left()), r, G.ParseExpr(old(Left()), minPrec))
      decreases |toks| - pos, 3
    {
      ghost var before := Left();
      r := ParseUnary();
      if r.None? {
        return;
      }
      r := Extend(r.value, minPrec);
    }

    /** The loop of `parse_expr`: operators extend the expression in place. */
    method Extend(first: Expr, minPrec: nat) returns (r: Option<Expr>)
      requires Inv()
      modifies this`pos
      ensures Did(old(Left()), r, Climb(first, old(Left()), minPrec))
      decreases |toks| - pos, 0
    {
      ghost var before := Left();
      var lhs := first;
      while true
        invariant Inv() && |Left()| <= |before|
        invariant Climb(first, before, minPrec) == Climb(lhs, Left(), minPrec)
        decreases |toks| - pos
      {
        var t := toks[pos];
        if !(t.OpTok? && Prec(t.op) >= minPrec && Prec(t.op) > 0) {
          break;
        }
        var _ := Next();
        var rhs := ParseExpr(Prec(t.op) + 1);
        if rhs.None? {
          return None;
        }
        lhs := Binary(t.op, lhs, rhs.value);
      }
      r := Some(lhs);
    }

    method ParseUnary() returns (r: Option<Expr>)
      requires Inv()
      modifies this`pos
      ensures Did(old(Left()), r, G.ParseUnary(old(Left())))
      decreases |toks| - pos, 2
    {
      var t := toks[pos];
      if t.OpTok? && IsUnaryOp(t.op) {
        var _ := Next();
        r := ParseUnary();
        if r.Some? {
          r := Some(Unary(t.op, r.value));
        }
      } else {
        r := ParsePrimary();
      }
    }

    method ParsePrimary() returns (r: Option<Expr>)
      requires Inv()
      modifies this`pos
      ensures Did(old(Left()), r, G.ParsePrimary(old(Left())))
      decreases |toks| - pos, 1
    {
      var t := toks[pos];
      var _ := Next();
      match t {
        case NumTok(n) => r := Some(Num(n));
        case StrTok(s) => r := Some(Str(s));
        case LParen => r := ParseGroup();
        case LBracket =>
          var items := ParseUntil(RBracket);
          r := if items.Some? then Some(List(items.value)) else None;
        case IdentTok(id) => r := ParseIdent(id);
        case _ => r := None;
      }
    }

    method ParseIdent(id: string) returns (r: Option<Expr>)
      requires Inv()
      modifies this`pos
      ensures Did(old(Left()), r,
        if id == "true" then Ok(Bool(true), old(Left()))
        else if id == "false" then Ok(Bool(false), old(Left()))
        else G.ParseCall(id, old(Left())))
      decreases |toks| - pos, 7
    {
      if id == "true" {
        return Some(Bool(true));
      }
      if id == "false" {
        return Some(Bool(false));
      }
      r := ParseCall(id);
    }

    /** The rest of a parenthesised expression. */
    method ParseGroup() returns (r: Option<Expr>)
      requires Inv()
      modifies this`pos
      ensures Did(old(Left()), r, G.ParseGroup(old(Left())))
      decreases |toks| - pos, 6
    {
      r := ParseExpr(1);
      if r.Some? {
        var c := Next();
        if c != RParen {
          r := None;
        }
      }
    }

    /** The arguments of a call; a bare identifier is a call without any. */
    method ParseCall(id: string) returns (r: Option<Expr>)
      requires Inv()
      modifies this`pos
      ensures Did(old(Left()), r, G.ParseCall(id, old(Left())))
      decreases |toks| - pos, 6
    {
      if toks[pos] == LParen {
        var _ := Next();
        var args := ParseUntil(RParen);
        r := if args.Some? then Some(Call(id, args.value)) else None;
      } else {
        r := Some(Call(id, []));
      }
    }

    method ParseUntil(close: Tok) returns (r: Option<seq<Expr>>)
      requires Inv() && close != Eof
      modifies this`pos
      ensures Did(old(Left()), r, G.ParseUntil(old(Left()), close))
      decreases |toks| - pos, 5
    {
      r := Some([]);
      if toks[pos] != close {
        r := ParseItems();
        if r.None? {
          return;
        }
      }
      var c := Next();
      if c != close {
        r := None;
      }
    }

    method ParseItems() returns (r: Option<seq<Expr>>)
      requires Inv()
      modifies this`pos
      ensures Did(old(Left()), r, G.ParseItems(old(Left())))
      decreases |toks| - pos, 4
    {
      ghost var before := Left();
      var items: seq<Expr> := [];
      assert ItemsFrom([], before) == G.ParseItems(before) by { ItemsFromNothing(before); }
      while true
        invariant Inv() && |Left()| <= |before|
        invariant ItemsFrom(items, Left()) == G.ParseItems(before)
        decreases |toks| - pos
      {
        ItemsStep(items, Left());
        var e := ParseExpr(1);
        if e.None? {
          return None;
        }
        items := items + [e.value];
        if toks[pos] != Comma {
          break;
        }
        var _ := Next();
      }
      r := Some(items);
    }
  }

  /** `parse`: the whole token list, then validation. */
  method ParseTokens(toks: seq<Tok>, compiles: string -> bool) returns (r: Option<Expr>)
    requires Closed(toks)
    ensures r == Parse(toks, compiles)
    ensures r.Some? && Ended(toks) ==> G.ParseExpr(toks, 1) == Ok(r.value, [Eof])
  {
    if Ended(toks) && Parse(toks, compiles).Some? { AcceptedToTheEnd(toks, compiles); }
    var p := new Parser(toks);
    var e := p.ParseExpr(1);
    assert p.Left()[0] == p.toks[p.pos];
    r := if e.Some? && p.toks[p.pos] == Eof && Valid(e.value, compiles) then e else None;
  }
}
