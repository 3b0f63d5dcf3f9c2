/** The cursor that plugins read their configuration with. */
module Dispensers {
  import opened Names
  import opened Corefile
  import opened Directives

  function Texts(ts: Tokens): (r: seq<string>)
    ensures |r| == |ts| && forall i :: 0 <= i < |ts| ==> r[i] == ts[i].text
  {
    seq(|ts|, i requires 0 <= i < |ts| => ts[i].text)
  }

  lemma TextsPush(ts: Tokens, a: nat, b: nat)
    requires a <= b < |ts|
    ensures Texts(ts[a..b]) + [ts[b].text] == Texts(ts[a..b + 1])
  {
  }

  // ----------------------------------------------------------- reading lines

  /** The token whose line counts for a cursor at `c`; before the start, -1, that
      is the first. */
  function Anchor(c: int): int { if c < 0 then 0 else c }

  /** The token reads as an opening brace, quoted or not. */
  predicate SaysOpen(t: Token) { t.text == "{" }

  /** The tokens after `c` up to `e` are on one line; with `braces`, none of them
      is an opening brace. Quoting plays no part here. */
  ghost predicate InRun(ts: Tokens, c: int, e: int, braces: bool) {
    && -1 <= c <= e < |ts|
    && forall j :: c < j <= e ==> ts[j].line == ts[Anchor(c)].line && (braces ==> !SaysOpen(ts[j]))
  }

  /** `e` is the last of them. */
  ghost predicate IsRun(ts: Tokens, c: int, e: int, braces: bool) {
    && InRun(ts, c, e, braces)
    && (e + 1 < |ts| ==> (e >= 0 && ts[e + 1].line != ts[Anchor(c)].line) || (braces && SaysOpen(ts[e + 1])))
  }

  /** There is nothing to read: no tokens, or the cursor is parked past them. */
  predicate Exhausted(ts: Tokens, c: int) { ts == [] || c >= |ts| }

  /** Reading the line of `c` ends at `e` and gives `out`. */
  ghost predicate ReadLine(ts: Tokens, c: int, e: int, braces: bool, out: seq<string>) {
    if Exhausted(ts, c) then out == [] else IsRun(ts, c, e, braces) && out == Texts(ts[c + 1..e + 1])
  }

  /** The tokens after `c` up to `e` have been read into `out`. */
  ghost predicate Reading(ts: Tokens, c: int, e: int, braces: bool, out: seq<string>) {
    InRun(ts, c, e, braces) && out == Texts(ts[c + 1..e + 1])
  }

  lemma ReadingStart(ts: Tokens, c: int, braces: bool)
    requires -1 <= c < |ts|
    ensures Reading(ts, c, c, braces, [])
  {
  }

  /** The token after `e` is an argument on its line. */
  predicate Goes(ts: Tokens, e: int, braces: bool)
    requires -1 <= e < |ts|
  {
    e + 1 < |ts| && (e < 0 || ts[e + 1].line == ts[e].line) && (braces ==> !SaysOpen(ts[e + 1]))
  }

  lemma ReadingNext(ts: Tokens, c: int, e: int, braces: bool, out: seq<string>)
    requires Reading(ts, c, e, braces, out) && Goes(ts, e, braces)
    ensures Reading(ts, c, e + 1, braces, out + [ts[e + 1].text])
  {
    RunGrows(ts, c, e, braces);
    TextsRead(ts, c, e, out);
  }

  lemma TextsRead(ts: Tokens, c: int, e: int, out: seq<string>)
    requires -1 <= c <= e && e + 1 < |ts| && out == Texts(ts[c + 1..e + 1])
    ensures out + [ts[e + 1].text] == Texts(ts[c + 1..e + 1 + 1])
  {
    TextsPush(ts, c + 1, e + 1);
  }

  lemma RunGrows(ts: Tokens, c: int, e: int, braces: bool)
    requires InRun(ts, c, e, braces) && Goes(ts, e, braces)
    ensures InRun(ts, c, e + 1, braces)
  {
    assert e > c ==> ts[e].line == ts[Anchor(c)].line;
  }

  lemma ReadingDone(ts: Tokens, c: int, e: int, braces: bool, out: seq<string>)
    requires ts != [] && Reading(ts, c, e, braces, out) && !Goes(ts, e, braces)
    ensures ReadLine(ts, c, e, braces, out)
  {
    assert e >= 0 ==> ts[e].line == ts[Anchor(c)].line;
  }

  lemma RunNotLonger(ts: Tokens, c: int, e: int, f: int, braces: bool)
    requires IsRun(ts, c, e, braces) && InRun(ts, c, f, braces)
    ensures f <= e
  {
    var next := e + 1;
    assert next < |ts| ==> (e >= 0 && ts[next].line != ts[Anchor(c)].line) || (braces && SaysOpen(ts[next]));
  }

  lemma RunIsUnique(ts: Tokens, c: int, e: int, f: int, braces: bool)
    requires IsRun(ts, c, e, braces) && IsRun(ts, c, f, braces)
    ensures e == f
  {
    RunNotLonger(ts, c, e, f, braces);
    RunNotLonger(ts, c, f, e, braces);
  }

  /** Half way through a line read from `c`, the cursor then at `start`: if there is
      more, the token at the cursor is the next to keep. */
  ghost predicate Mid(ts: Tokens, c: int, start: int, cursor: int, more: bool, braces: bool, out: seq<string>) {
    if Exhausted(ts, c) then !more && out == [] && cursor == start
    else
      && c <= cursor < |ts| && (more ==> c < cursor)
      && Reading(ts, c, if more then cursor - 1 else cursor, braces, out)
      && Goes(ts, if more then cursor - 1 else cursor, braces) == more
  }

  lemma MidStart(ts: Tokens, c: int, start: int, cursor: int, more: bool, braces: bool)
    requires -1 <= c && (more <==> !Exhausted(ts, c) && Goes(ts, c, braces))
    requires cursor == (if more then c + 1 else start) && start == Anchor(c)
    requires !Exhausted(ts, c) && !more ==> c >= 0
    ensures Mid(ts, c, start, cursor, more, braces, [])
  {
    if !Exhausted(ts, c) { ReadingStart(ts, c, braces); }
  }

  /** The token at the cursor is kept and the next one looked at. */
  lemma MidNext(ts: Tokens, c: int, start: int, cursor: int, braces: bool, out: seq<string>)
    requires Mid(ts, c, start, cursor, true, braces, out)
    ensures 0 <= cursor < |ts|
    ensures var kept := out + [ts[cursor].text];
      if Goes(ts, cursor, braces) then Mid(ts, c, start, cursor + 1, true, braces, kept) else Mid(ts, c, start, cursor, false, braces, kept)
  {
    ReadingNext(ts, c, cursor - 1, braces, out);
  }

  lemma MidDone(ts: Tokens, c: int, start: int, cursor: int, braces: bool, out: seq<string>)
    requires Mid(ts, c, start, cursor, false, braces, out)
    ensures ReadLine(ts, c, cursor, braces, out) && (Exhausted(ts, c) ==> cursor == start)
  {
    if !Exhausted(ts, c) { ReadingDone(ts, c, cursor, braces, out); }
  }

  /** Either one more token is read, or the line is at its end. */
  lemma ArgsStep(ts: Tokens, c: int, e: int, out: seq<string>)
    requires ts != [] && Reading(ts, c, e, false, out)
    ensures if Goes(ts, e, false) then Reading(ts, c, e + 1, false, out + [ts[e + 1].text])
      else forall f :: IsRun(ts, c, f, false) ==> f == e
  {
    if Goes(ts, e, false) {
      ReadingNext(ts, c, e, false, out);
    } else {
      ReadingDone(ts, c, e, false, out);
      forall f | IsRun(ts, c, f, false) ensures f == e { RunIsUnique(ts, c, e, f, false); }
    }
  }

  lemma ArgsDone(ts: Tokens, c: int, e: int, out: seq<string>)
    requires Reading(ts, c, e, false, out)
    ensures forall f :: IsRun(ts, c, f, false) ==> e <= f
  {
    forall f | IsRun(ts, c, f, false) ensures e <= f { RunNotLonger(ts, c, f, e, false); }
  }

  // ------------------------------------------------------- stepping in blocks

  /** Where the cursor stands (-1 before the start) and how deep in blocks. */
  datatype Place = Place(at: int, nesting: nat)

  function TextAt(ts: Tokens, i: int): string { if 0 <= i < |ts| then ts[i].text else "" }

  /** A brace opens a block right after the cursor, on its line. */
  predicate OpensNext(ts: Tokens, at: int)
    requires -1 <= at
  {
    at + 1 < |ts| && (at < 0 || ts[at + 1].line == ts[at].line) && ts[at + 1].text == "{"
  }

  function Clip(ts: Tokens, i: int): int { if i < |ts| then i else |ts| }

  /** One call of `NextBlock`: the new place and the answer. */
  function Stepped(ts: Tokens, p: Place): (Place, bool)
    requires -1 <= p.at
  {
    if p.nesting > 0 then
      var at := Clip(ts, p.at + 1);
      var more := TextAt(ts, at) != "}";
      (Place(at, if more then p.nesting else p.nesting - 1), more)
    else if !OpensNext(ts, p.at) then (Place(Anchor(p.at), 0), false)
    else
      var at := Clip(ts, p.at + 2);
      var more := TextAt(ts, at) != "}";
      (Place(at, if more then 1 else 0), more)
  }

  /** The call after `n` others answers no. */
  predicate SaysNo(ts: Tokens, p: Place, n: nat)
    requires -1 <= p.at
    decreases n
  {
    if n == 0 then !Stepped(ts, p).1 else SaysNo(ts, Stepped(ts, p).0, n - 1)
  }

  /** Stepping through the block comes to an end: some call answers no. */
  ghost predicate StepsEnd(ts: Tokens, p: Place)
    requires -1 <= p.at
  {
    exists n: nat :: SaysNo(ts, p, n)
  }

  /** A closing brace comes after the cursor, quoted or not. */
  predicate ClosesLater(ts: Tokens, at: int) { exists j :: at < j < |ts| && 0 <= j && ts[j].text == "}" }

  /** No token after `at` and before `e` reads as a closing brace. */
  ghost predicate NoneCloses(ts: Tokens, at: int, e: int) { forall j :: at < j < e && 0 <= j < |ts| ==> ts[j].text != "}" }

  /** The first token after `at` that does is at `e`. */
  ghost predicate FirstClosing(ts: Tokens, at: int, e: int) {
    at < e && 0 <= e < |ts| && ts[e].text == "}" && NoneCloses(ts, at, e)
  }

  /** Stepping from `p` has come to its end at `e`: nowhere if no block is entered. */
  ghost predicate Skipped(ts: Tokens, p: Place, e: int)
    requires -1 <= p.at
  {
    if p.nesting == 0 && !OpensNext(ts, p.at) then e == Anchor(p.at) else FirstClosing(ts, p.at, e)
  }

  lemma {:induction false} InsideGoesOn(ts: Tokens, p: Place, n: nat)
    requires 0 <= p.at <= |ts| && p.nesting == 1 && !ClosesLater(ts, p.at)
    ensures !SaysNo(ts, p, n)
    decreases n
  {
    var at := Clip(ts, p.at + 1);
    assert at < |ts| ==> p.at < at;
    assert TextAt(ts, at) != "}";
    assert Stepped(ts, p) == (Place(at, 1), true);
    if n > 0 { InsideGoesOn(ts, Place(at, 1), n - 1); }
  }

  lemma {:induction false} InsideEndsAt(ts: Tokens, p: Place, j: int)
    requires 0 <= p.at < j < |ts| && p.nesting == 1 && ts[j].text == "}"
    ensures StepsEnd(ts, p)
    decreases j - p.at
  {
    var at := p.at + 1;
    if ts[at].text == "}" {
      assert SaysNo(ts, p, 0);
    } else {
      assert Stepped(ts, p) == (Place(at, 1), true);
      InsideEndsAt(ts, Place(at, 1), j);
      LaterEnds(ts, p);
    }
  }

  lemma LaterEnds(ts: Tokens, p: Place)
    requires -1 <= p.at && StepsEnd(ts, Stepped(ts, p).0)
    ensures StepsEnd(ts, p)
  {
    var n: nat :| SaysNo(ts, Stepped(ts, p).0, n);
    assert SaysNo(ts, p, n + 1);
  }

  lemma EndsLater(ts: Tokens, p: Place)
    requires -1 <= p.at && Stepped(ts, p).1 && StepsEnd(ts, p)
    ensures StepsEnd(ts, Stepped(ts, p).0)
  {
    var n: nat :| SaysNo(ts, p, n);
    assert SaysNo(ts, Stepped(ts, p).0, n - 1);
  }

  /** Inside a block. */
  lemma InsideEndsIff(ts: Tokens, p: Place)
    requires 0 <= p.at <= |ts| && p.nesting == 1
    ensures StepsEnd(ts, p) <==> ClosesLater(ts, p.at)
  {
    if ClosesLater(ts, p.at) {
      var j :| p.at < j < |ts| && 0 <= j && ts[j].text == "}";
      InsideEndsAt(ts, p, j);
    } else {
      forall n: nat ensures !SaysNo(ts, p, n) { InsideGoesOn(ts, p, n); }
    }
  }

  /** Stepping ends if and only if no block is entered, or a closing brace, quoted
      or not, comes after the cursor. */
  lemma StepsEndIff(ts: Tokens, p: Place)
    requires -1 <= p.at <= |ts| && p.nesting <= 1 && (p.nesting == 1 ==> p.at >= 0)
    ensures StepsEnd(ts, p) <==> (p.nesting == 0 && !OpensNext(ts, p.at)) || ClosesLater(ts, p.at)
  {
    if p.nesting == 1 {
      InsideEndsIff(ts, p);
    } else if !Stepped(ts, p).1 {
      assert SaysNo(ts, p, 0);
      if OpensNext(ts, p.at) { assert ts[p.at + 2].text == "}"; }
    } else {
      EnteredEndsIff(ts, p);
    }
  }

  /** A block is entered and is not empty. */
  lemma EnteredEndsIff(ts: Tokens, p: Place)
    requires -1 <= p.at <= |ts| && p.nesting == 0 && Stepped(ts, p).1
    ensures StepsEnd(ts, p) <==> ClosesLater(ts, p.at)
  {
    var q := Stepped(ts, p).0;
    InsideEndsIff(ts, q);
    if StepsEnd(ts, p) { EndsLater(ts, p); }
    if ClosesLater(ts, p.at) {
      var j :| p.at < j < |ts| && 0 <= j && ts[j].text == "}";
      assert j != p.at + 1 && j != p.at + 2;
      assert q.at < j;
      LaterEnds(ts, p);
    }
  }

  /** A directive with a block never holds the cursor up: wherever it stands before
      the last token, whatever follows, the closing brace is still to come. */
  lemma BlockDirectiveEnds(d: Tokens, k: int, rest: Tokens, p: Place)
    requires BlockAt(d, k) && -1 <= p.at < |d| - 1 && p.nesting <= 1 && (p.nesting == 1 ==> p.at >= 0)
    ensures StepsEnd(d + rest, p)
  {
    var b := d[k..];
    var last := |b| - 1;
    assert b[..last + 1] == b && b[..last + 1][..last] == b[..last];
    assert last > 0 by { assert b[..1] == [b[0]] && Depth(b[..0]) == 0; }
    assert b[last].Closes();
    assert (d + rest)[|d| - 1] == b[last];
    StepsEndIff(d + rest, p);
  }

  /** A directive on one line, whatever follows it, holds it up exactly where a quoted
      opening brace comes next and nothing reading as a closing one follows; after
      its last token, where the next directive starts on that line with such a brace. */
  lemma LineDirectiveEndsIff(d: Tokens, rest: Tokens, c: int)
    requires IsLine(d, |d|) && 0 <= c < |d|
    ensures var opens :=
        if c + 1 < |d| then d[c + 1].quoted && SaysOpen(d[c + 1])
        else rest != [] && rest[0].line == d[0].line && SaysOpen(rest[0]);
      StepsEnd(d + rest, Place(c, 0)) <==> !opens || ClosesLater(d + rest, c)
  {
    var ts := d + rest;
    StepsEndIff(ts, Place(c, 0));
    assert ts[c].line == d[0].line;
    if c + 1 < |d| {
      assert ts[c + 1] == d[c + 1] && !d[c + 1].Brace();
    } else if rest != [] {
      assert ts[c + 1] == rest[0];
    }
  }

  /** The parser does hand such a directive over: `foo "{"` is whole and its
      unquoted braces balance, yet stepping into its block never ends. */
  lemma QuotedBraceNeverEnds(file: string, line: nat)
    ensures var d := [Token(file, line, "foo", false), Token(file, line, "{", true)];
      Split(d) == Some([d]) && Balanced(d) && !StepsEnd(d, Place(0, 0))
  {
    var d := [Token(file, line, "foo", false), Token(file, line, "{", true)];
    assert IsLine(d, |d|);
    var ds := [d];
    assert ds[1..] == [];
    assert Flatten(ds) == d;
    SplitIff(d, ds);
    DirectiveBalances(d);
    LineDirectiveEndsIff(d, [], 0);
    assert d + [] == d;
  }

  // ------------------------------------------------------------- the cursor

  class Dispenser {
    const tokens: Tokens
    var cursor: nat
    var nesting: nat
    var started: bool

    constructor (ts: Tokens)
      ensures tokens == ts && cursor == 0 && nesting == 0 && !started
    {
      tokens, cursor, nesting, started := ts, 0, 0, false;
    }

    /** Before the first step nothing has moved. */
    ghost predicate Valid()
      reads this
    {
      !started ==> cursor == 0 && nesting == 0
    }

    ghost function Here(): int
      reads this
    {
      if started then cursor else -1
    }

    function Val(): string
      reads this
    {
      if !started || cursor >= |tokens| then "" else tokens[cursor].text
    }

    /** Past the last token the cursor parks at the end. */
    method Next() returns (more: bool)
      requires Valid()
      modifies this`cursor, this`started
      ensures started && more == (old(Here()) + 1 < |tokens|)
      ensures cursor == if more then old(Here()) + 1 else |tokens|
    {
      if !started {
        started := true;
        return tokens != [];
      }
      if cursor + 1 < |tokens| {
        cursor := cursor + 1;
        return true;
      }
      cursor := |tokens|;
      more := false;
    }

    method NextArg() returns (more: bool)
      requires Valid()
      modifies this`cursor, this`started
      ensures started && cursor == (if more then old(Here()) + 1 else old(cursor))
      ensures more <==> !Exhausted(tokens, old(Here())) && Goes(tokens, old(Here()), false)
    {
      if !started {
        more := Next();
        return;
      }
      if cursor >= |tokens| {
        return false;
      }
      if cursor + 1 < |tokens| && tokens[cursor + 1].line == tokens[cursor].line {
        cursor := cursor + 1;
        return true;
      }
      more := false;
    }

    /** Enters a block opened on this line, or goes on inside one. Stepping back over
        a first token that opens no block would underflow. */
    method NextBlock() returns (more: bool)
      requires Valid() && (started || tokens == [] || tokens[0].text == "{")
      modifies this
      ensures Valid() && started
      ensures (Place(cursor, nesting), more) == Stepped(tokens, Place(old(Here()), old(nesting)))
    {
      if nesting > 0 {
        var _ := Next();
        if Val() == "}" {
          nesting := nesting - 1;
          return false;
        }
        return true;
      }
      var arg := NextArg();
      if !arg {
        return false;
      }
      if Val() != "{" {
        cursor := cursor - 1;
        return false;
      }
      var _ := Next();
      if Val() == "}" {
        return false;
      }
      nesting := nesting + 1;
      more := true;
    }

    /** Steps to the end of the block, where stepping ends at all: to the first token
        after the cursor that reads as a closing brace, or nowhere if no block is
        entered. */
    method SkipBlock()
      requires Valid() && nesting <= 1 && (started || tokens == [] || tokens[0].text == "{")
      requires (nesting == 0 && !OpensNext(tokens, Here())) || ClosesLater(tokens, Here())
      modifies this
      ensures Valid() && started && nesting == 0
      ensures Skipped(tokens, Place(old(Here()), old(nesting)), cursor)
    {
      ghost var here := Here();
      var more := NextBlock();
      while more
        invariant Valid() && started && -1 <= here
        invariant more ==> nesting == 1 && ClosesLater(tokens, cursor) && NoneCloses(tokens, here, cursor + 1)
        invariant more ==> old(nesting) == 1 || OpensNext(tokens, here)
        invariant !more ==> nesting == 0 && Skipped(tokens, Place(here, old(nesting)), cursor)
        decreases more, |tokens| - cursor
      {
        more := NextBlock();
      }
    }

    /** The next `n` arguments if the line has that many, or nothing, the cursor
        then back where it was. */
    method Args(n: nat) returns (out: Option<seq<string>>)
      requires Valid()
      modifies this`cursor, this`started
      ensures Valid() && (out.None? ==> Here() == old(Here())) && (out.Some? ==> Here() == old(Here()) + n)
      ensures Exhausted(tokens, old(Here())) ==> (out.Some? <==> n == 0)
      ensures out.Some? && n > 0 ==> Here() < |tokens| && out.value == Texts(tokens[old(Here()) + 1..Here() + 1])
      ensures forall e :: tokens != [] && IsRun(tokens, old(Here()), e, false) ==> (out.Some? <==> old(Here()) + n <= e)
    {
      var save := (cursor, started);
      ghost var c := Here();
      var got: seq<string> := [];
      if !Exhausted(tokens, c) { ReadingStart(tokens, c, false); }
      for i := 0 to n
        invariant Valid() && Here() == c + i && nesting == old(nesting) && (i > 0 ==> started)
        invariant if Exhausted(tokens, c) then i == 0 && got == [] else Reading(tokens, c, c + i, false, got)
      {
        if !Exhausted(tokens, c) { ArgsStep(tokens, c, c + i, got); }
        var more := NextArg();
        if !more {
          cursor, started := save.0, save.1;
          return None;
        }
        got := got + [Val()];
      }
      if !Exhausted(tokens, c) { ArgsDone(tokens, c, c + n, got); }
      out := Some(got);
    }

    /** All further tokens of the line; before the start, of the first line. */
    method RemainingArgs() returns (out: seq<string>)
      requires Valid()
      modifies this`cursor, this`started
      ensures started && ReadLine(tokens, old(Here()), cursor, false, out)
      ensures Exhausted(tokens, old(Here())) ==> cursor == old(cursor)
    {
      out := [];
      ghost var c := Here();
      var more := NextArg();
      MidStart(tokens, c, old(cursor), cursor, more, false);
      while more
        invariant started && Mid(tokens, c, old(cursor), cursor, more, false, out)
        decreases more, |tokens| - cursor
      {
        more, out := Keep(c, old(cursor), false, out);
      }
      MidDone(tokens, c, old(cursor), cursor, false, out);
    }

    /** Those before an opening brace, which is left for `NextBlock`. Stepping back
        over a first token that is a brace would underflow. */
    method RemainingArgsUntilBrace() returns (out: seq<string>)
      requires Valid() && (started || tokens == [] || !SaysOpen(tokens[0]))
      modifies this`cursor, this`started
      ensures started && ReadLine(tokens, old(Here()), cursor, true, out)
      ensures Exhausted(tokens, old(Here())) ==> cursor == old(cursor)
    {
      out := [];
      ghost var c := Here();
      var more := NextPlainArg();
      MidStart(tokens, c, old(cursor), cursor, more, true);
      while more
        invariant started && Mid(tokens, c, old(cursor), cursor, more, true, out)
        decreases more, |tokens| - cursor
      {
        more, out := Keep(c, old(cursor), true, out);
      }
      MidDone(tokens, c, old(cursor), cursor, true, out);
    }

    /** Keeps the token at the cursor and looks at the next. */
    method Keep(ghost c: int, ghost start: int, braces: bool, out: seq<string>) returns (more: bool, out': seq<string>)
      requires started && Mid(tokens, c, start, cursor, true, braces, out)
      modifies this`cursor, this`started
      ensures started && Mid(tokens, c, start, cursor, more, braces, out')
      ensures more ==> old(cursor) < cursor <= |tokens|
    {
      MidNext(tokens, c, start, cursor, braces, out);
      out' := out + [Val()];
      if braces {
        more := NextPlainArg();
      } else {
        more := NextArg();
      }
    }

    /** Advances unless an opening brace comes next on the line. */
    method NextPlainArg() returns (more: bool)
      requires Valid() && (started || tokens == [] || !SaysOpen(tokens[0]))
      modifies this`cursor, this`started
      ensures started && cursor == (if more then old(Here()) + 1 else old(cursor))
      ensures more <==> !Exhausted(tokens, old(Here())) && Goes(tokens, old(Here()), true)
    {
      more := NextArg();
      if more && Val() == "{" {
        cursor := cursor - 1;
        more := false;
      }
    }
  }

  // ----------------------------------------------------- the standard walk

  datatype Block = Block(open: Token, lines: seq<Tokens>, close: Token)

  /** One occurrence of a directive: name and arguments, perhaps with a flat block. */
  datatype Occurrence = Occurrence(name: Token, args: Tokens, block: Option<Block>)

  function Written(o: Occurrence): (ts: Tokens)
    ensures ts != [] && ts[0] == o.name
  {
    [o.name] + o.args + (if o.block.None? then [] else WrittenBlock(o.block.value))
  }

  function WrittenBlock(b: Block): Tokens { [b.open] + (Flatten(b.lines) + [b.close]) }

  function WrittenAll(os: seq<Occurrence>): Tokens {
    if os == [] then [] else Written(os[0]) + WrittenAll(os[1..])
  }

  /** All tokens on one line, which does not look like the end of the block. */
  predicate LineFine(l: Tokens) { l != [] && l[0].text != "}" && forall i :: 0 <= i < |l| ==> l[i].line == l[0].line }

  /** Each property on its own line, and the closing brace too. */
  predicate LinesFine(ls: seq<Tokens>, close: Token) {
    && close.text == "}"
    && (forall i :: 0 <= i < |ls| ==> LineFine(ls[i]))
    && (forall i :: 0 <= i < |ls| ==> (if i + 1 < |ls| then ls[i + 1][0] else close).line != ls[i][0].line)
  }

  /** The block opens on the line of the name. */
  predicate BlockFine(name: Token, b: Block) {
    b.open.text == "{" && b.open.line == name.line && LinesFine(b.lines, b.close)
  }

  predicate Fine(o: Occurrence) {
    && (forall i :: 0 <= i < |o.args| ==> o.args[i].line == o.name.line && o.args[i].text != "{")
    && (o.block.Some? ==> BlockFine(o.name, o.block.value))
  }

  /** Occurrences without a block are ended by the line. */
  predicate AllFine(os: seq<Occurrence>) {
    && (forall i :: 0 <= i < |os| ==> Fine(os[i]))
    && (forall i :: 0 <= i < |os| - 1 && os[i].block.None? ==> os[i + 1].name.line != os[i].name.line)
  }

  /** What a plugin gets to see of an occurrence. */
  datatype Seen = Seen(name: string, args: seq<string>, properties: seq<seq<string>>)

  function TextsOfLines(ls: seq<Tokens>): (r: seq<seq<string>>)
    ensures |r| == |ls| && forall i :: 0 <= i < |ls| ==> r[i] == Texts(ls[i])
  {
    seq(|ls|, i requires 0 <= i < |ls| => Texts(ls[i]))
  }

  function SeenOf(o: Occurrence): Seen {
    Seen(o.name.text, Texts(o.args), if o.block.None? then [] else TextsOfLines(o.block.value.lines))
  }

  function AllSeen(os: seq<Occurrence>): (r: seq<Seen>)
    ensures |r| == |os| && forall i :: 0 <= i < |os| ==> r[i] == SeenOf(os[i])
  {
    seq(|os|, i requires 0 <= i < |os| => SeenOf(os[i]))
  }

  lemma LineRun(ts: Tokens, before: Tokens, l: Tokens, after: Tokens)
    requires ts == before + (l + after) && LineFine(l) && after != [] && after[0].line != l[0].line
    ensures IsRun(ts, |before|, |before| + |l| - 1, false) && ts[|before| + 1..|before| + |l|] == l[1..] && ts[|before|] == l[0]
  {
    forall i | 0 <= i < |l| ensures ts[|before| + i] == l[i] {
    }
    assert ts[|before| + |l|] == after[0];
    forall j | |before| < j <= |before| + |l| - 1 ensures ts[j].line == ts[|before|].line {
      assert ts[j] == l[j - |before|];
    }
  }

  lemma HeadTexts(l: Tokens)
    requires l != []
    ensures [l[0].text] + Texts(l[1..]) == Texts(l)
  {
  }

  /** In `ts`, the lines of the block from the `k`th on come right after `done`. */
  ghost predicate LinesAt(ts: Tokens, done: Tokens, b: Block, k: nat, after: Tokens) {
    k <= |b.lines| && ts == done + ((Flatten(b.lines[k..]) + [b.close]) + after)
  }

  function NextHead(b: Block, k: nat): Token
    requires LinesFine(b.lines, b.close)
  {
    if k < |b.lines| then b.lines[k][0] else b.close
  }

  /** One property: its name, then the rest of the line. */
  method WalkLine(d: Dispenser, ghost done: Tokens, ghost b: Block, ghost k: nat, ghost after: Tokens)
    returns (out: seq<string>)
    requires d.started && d.cursor == |done| && LinesAt(d.tokens, done, b, k, after)
    requires LinesFine(b.lines, b.close) && k < |b.lines|
    modifies d`cursor, d`started
    ensures out == Texts(b.lines[k]) && d.started && d.cursor == |done| + |b.lines[k]| - 1
    ensures LinesAt(d.tokens, done + b.lines[k], b, k + 1, after)
    ensures d.cursor + 1 < |d.tokens| && d.tokens[d.cursor + 1] == NextHead(b, k + 1)
    ensures |Flatten(b.lines[k..])| == |b.lines[k]| + |Flatten(b.lines[k + 1..])|
  {
    BlockGoesOn(d.tokens, done, b, k, after);
    var head := d.Val();
    var rest := d.RemainingArgs();
    RunIsUnique(d.tokens, |done|, d.cursor, |done| + |b.lines[k]| - 1, false);
    HeadTexts(b.lines[k]);
    out := [head] + rest;
  }

  lemma LinesPush(ls: seq<Tokens>, k: nat)
    requires k < |ls|
    ensures TextsOfLines(ls[..k]) + [Texts(ls[k])] == TextsOfLines(ls[..k + 1])
  {
  }

  /** The properties of a block just entered, line by line. */
  method WalkBlock(d: Dispenser, ghost start: Tokens, ghost b: Block, ghost after: Tokens) returns (out: seq<seq<string>>)
    requires d.started && d.nesting == 1 && d.cursor == |start| && b.lines != []
    requires LinesAt(d.tokens, start, b, 0, after) && LinesFine(b.lines, b.close)
    modifies d
    ensures d.started && d.nesting == 0 && d.cursor == |start| + |Flatten(b.lines)|
    ensures out == TextsOfLines(b.lines)
  {
    out := [];
    ghost var k: nat, done := 0, start;
    assert b.lines[0..] == b.lines;
    var more := true;
    while more
      invariant LinesAt(d.tokens, done, b, k, after) && d.started && out == TextsOfLines(b.lines[..k])
      invariant |done| + |Flatten(b.lines[k..])| == |start| + |Flatten(b.lines)|
      invariant d.cursor == |done| && more == (k < |b.lines|) && d.nesting == (if more then 1 else 0)
      decreases |b.lines| - k
    {
      var property := WalkLine(d, done, b, k, after);
      LinesPush(b.lines, k);
      out := out + [property];
      done, k := done + b.lines[k], k + 1;
      more := d.NextBlock();
    }
    assert b.lines[..k] == b.lines && b.lines[k..] == [];
  }

  lemma BlockStarts(ts: Tokens, before: Tokens, b: Block, after: Tokens)
    requires ts == before + (WrittenBlock(b) + after) && LinesFine(b.lines, b.close)
    ensures LinesAt(ts, before + [b.open], b, 0, after)
    ensures |ts| > |before| + 1 && ts[|before|] == b.open
    ensures before != [] ==> ts[|before| - 1] == before[|before| - 1]
    ensures ts[|before| + 1] == NextHead(b, 0)
    ensures b.lines[0..] == b.lines && |WrittenBlock(b)| == |Flatten(b.lines)| + 2
  {
    assert b.lines[0..] == b.lines;
  }

  lemma BlockGoesOn(ts: Tokens, done: Tokens, b: Block, k: nat, after: Tokens)
    requires k < |b.lines| && LinesFine(b.lines, b.close) && LinesAt(ts, done, b, k, after)
    ensures var l := b.lines[k]; var e := |done| + |l| - 1;
      && IsRun(ts, |done|, e, false) && ts[|done| + 1..e + 1] == l[1..] && ts[|done|] == l[0]
      && LinesAt(ts, done + l, b, k + 1, after)
      && |Flatten(b.lines[k..])| == |l| + |Flatten(b.lines[k + 1..])|
      && e + 1 < |ts| && ts[e + 1] == NextHead(b, k + 1)
  {
    var l, rest := b.lines[k], b.lines[k + 1..];
    assert b.lines[k..] == [l] + rest;
    var tail := (Flatten(rest) + [b.close]) + after;
    assert Flatten(b.lines[k..]) == l + Flatten(rest);
    assert ts == done + (l + tail);
    TailHead(b, k, after);
    LineRun(ts, done, l, tail);
    assert ts[|done| + |l|] == tail[0];
  }

  lemma TailHead(b: Block, k: nat, after: Tokens)
    requires k < |b.lines| && LinesFine(b.lines, b.close)
    ensures var tail := (Flatten(b.lines[k + 1..]) + [b.close]) + after;
      tail != [] && tail[0] == NextHead(b, k + 1) && tail[0].line != b.lines[k][0].line
  {
    var rest := b.lines[k + 1..];
    if rest != [] {
      assert rest[0] == b.lines[k + 1] && LineFine(b.lines[k + 1]);
      assert Flatten(rest)[0] == rest[0][0];
    }
    assert (if k + 1 < |b.lines| then b.lines[k + 1][0] else b.close).line != b.lines[k][0].line;
  }

  function BlockTokens(ob: Option<Block>): Tokens { if ob.None? then [] else WrittenBlock(ob.value) }

  function Properties(ob: Option<Block>): seq<seq<string>> { if ob.None? then [] else TextsOfLines(ob.value.lines) }

  /** The block after `start`, if there is one. */
  method WalkProperties(d: Dispenser, ghost start: Tokens, ghost ob: Option<Block>, ghost after: Tokens)
    returns (out: seq<seq<string>>)
    requires d.started && d.nesting == 0 && start != [] && d.cursor == |start| - 1
    requires d.tokens == start + (BlockTokens(ob) + after)
    requires ob.Some? ==> BlockFine(start[|start| - 1], ob.value)
    requires ob.None? && after != [] ==> after[0].line != start[|start| - 1].line
    modifies d
    ensures d.started && d.nesting == 0 && d.cursor == |start| + |BlockTokens(ob)| - 1
    ensures out == Properties(ob)
  {
    out := [];
    if ob.Some? {
      BlockStarts(d.tokens, start, ob.value, after);
    } else {
      NothingOpens(d.tokens, start, after);
    }
    var more := d.NextBlock();
    if more {
      out := WalkBlock(d, start + [ob.value.open], ob.value, after);
    }
  }

  lemma NothingOpens(ts: Tokens, start: Tokens, after: Tokens)
    requires start != [] && ts == start + ([] + after) && (after != [] ==> after[0].line != start[|start| - 1].line)
    ensures |ts| == |start| || ts[|start|].line != ts[|start| - 1].line
  {
  }

  lemma ArgsRun(ts: Tokens, before: Tokens, name: Token, args: Tokens, tail: Tokens)
    requires ts == before + (([name] + args) + tail)
    requires forall i :: 0 <= i < |args| ==> args[i].line == name.line && args[i].text != "{"
    requires tail != [] ==> tail[0].line != name.line || tail[0].text == "{"
    ensures var e := |before| + |args|;
      ts[|before|] == name && IsRun(ts, |before|, e, true) && ts[|before| + 1..e + 1] == args && ts[e].line == name.line
  {
    var e := |before| + |args|;
    assert ts[|before|] == name;
    forall j | |before| < j <= e ensures ts[j].line == name.line && ts[j].text != "{" {
      assert ts[j] == args[j - |before| - 1];
    }
    assert tail != [] ==> ts[e + 1] == tail[0];
  }

  lemma OccurrenceSplits(before: Tokens, o: Occurrence, after: Tokens)
    ensures var head, tail := [o.name] + o.args, BlockTokens(o.block) + after;
      && before + (Written(o) + after) == before + (head + tail)
      && before + (Written(o) + after) == (before + head) + tail
      && |Written(o)| == |head| + |BlockTokens(o.block)|
  {
  }

  /** One occurrence, from its name to its last token. */
  method WalkOne(d: Dispenser, ghost before: Tokens, ghost o: Occurrence, ghost after: Tokens) returns (seen: Seen)
    requires d.started && d.nesting == 0 && d.cursor == |before|
    requires d.tokens == before + (Written(o) + after) && Fine(o)
    requires o.block.None? && after != [] ==> after[0].line != o.name.line
    modifies d
    ensures d.started && d.nesting == 0 && d.cursor == |before| + |Written(o)| - 1
    ensures seen == SeenOf(o)
  {
    ghost var head, tail := [o.name] + o.args, BlockTokens(o.block) + after;
    OccurrenceSplits(before, o, after);
    ArgsRun(d.tokens, before, o.name, o.args, tail);
    var name := d.Val();
    var args := d.RemainingArgsUntilBrace();
    RunIsUnique(d.tokens, |before|, d.cursor, |before| + |o.args|, true);
    assert (before + head)[|before| + |o.args|].line == o.name.line;
    var properties := WalkProperties(d, before + head, o.block, after);
    seen := Seen(name, args, properties);
  }

  /** The walk every plugin makes: it sees exactly the occurrences that were
      written, in order, each token once, and comes out of every block. */
  method Walk(d: Dispenser, ghost os: seq<Occurrence>) returns (seen: seq<Seen>)
    requires !d.started && d.cursor == 0 && d.nesting == 0
    requires d.tokens == WrittenAll(os) && AllFine(os)
    modifies d
    ensures seen == AllSeen(os) && d.nesting == 0 && (os != [] ==> d.cursor == |d.tokens|)
  {
    seen := [];
    ghost var k: nat, before: Tokens := 0, [];
    assert os[0..] == os && os[..0] == [];
    var more := d.Next();
    while more
      invariant WalkedTo(os, k, d.tokens, before) && d.started && d.nesting == 0 && seen == AllSeen(os[..k])
      invariant more == (k < |os|) && d.cursor == |before|
      decreases |os| - k
    {
      WrittenStep(os, k, d.tokens, before);
      var one := WalkOne(d, before, os[k], WrittenAll(os[k + 1..]));
      SeenPush(os, k);
      seen := seen + [one];
      before, k := before + Written(os[k]), k + 1;
      more := d.Next();
    }
    assert os[..k] == os && os[k..] == [];
  }

  /** The first `k` occurrences are written as `before`. */
  ghost predicate WalkedTo(os: seq<Occurrence>, k: nat, ts: Tokens, before: Tokens) {
    k <= |os| && ts == before + WrittenAll(os[k..])
  }

  lemma WrittenStep(os: seq<Occurrence>, k: nat, ts: Tokens, before: Tokens)
    requires k < |os| && AllFine(os) && WalkedTo(os, k, ts, before)
    ensures ts == before + (Written(os[k]) + WrittenAll(os[k + 1..]))
    ensures WalkedTo(os, k + 1, ts, before + Written(os[k]))
    ensures (|before| + |Written(os[k])| == |ts|) == (k + 1 == |os|) && |before| + |Written(os[k])| <= |ts|
    ensures os[k].block.None? && WrittenAll(os[k + 1..]) != [] ==> WrittenAll(os[k + 1..])[0].line != os[k].name.line
  {
    var rest := os[k + 1..];
    assert os[k..][1..] == rest;
    assert rest != [] ==> rest[0] == os[k + 1] && WrittenAll(rest)[0] == os[k + 1].name;
  }

  lemma SeenPush(os: seq<Occurrence>, k: nat)
    requires k < |os|
    ensures AllSeen(os[..k]) + [SeenOf(os[k])] == AllSeen(os[..k + 1])
  {
  }
}
