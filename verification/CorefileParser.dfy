/** The parser object: a cursor over the tokens, and the import depth. */
module CorefileParser {
  import opened Names
  import opened Corefile
  import opened Directives

  class Parser {
    const tokens: Tokens
    const sources: Sources
    var pos: nat
    var importDepth: nat

    ghost predicate Valid()
      reads this
    {
      pos <= |tokens| && importDepth <= MAX_IMPORT_DEPTH
    }

    constructor (ts: Tokens, src: Sources)
      ensures Valid() && tokens == ts && sources == src && pos == 0 && importDepth == 0
    {
      tokens, sources, pos, importDepth := ts, src, 0, 0;
    }

    /** The tokens up to the brace that closes the block already entered; none if
        the file ends first. */
    method CollectBody() returns (body: Option<Tokens>)
      requires Valid()
      modifies this`pos
      ensures Valid()
      ensures body.Some? ==> IsBody(tokens[old(pos)..], body.value) && pos == old(pos) + |body.value| + 1
      ensures body.None? ==> NoneUnmatched(tokens[old(pos)..]) && pos == |tokens|
    {
      var depth: nat := 1;
      var got: Tokens := [];
      ghost var start := pos;
      CollectStart(tokens, start);
      while pos < |tokens|
        invariant Collecting(tokens, start, pos, got, depth) && pos <= |tokens|
        decreases |tokens| - pos
      {
        var t := tokens[pos];
        CollectNext(tokens, start, pos, got, depth);
        pos := pos + 1;
        if t.Opens() {
          depth := depth + 1;
        } else if t.Closes() {
          depth := depth - 1;
          if depth == 0 {
            return Some(got);
          }
        }
        got := got + [t];
      }
      CollectEnd(tokens, start, got, depth);
      body := None;
    }

    /** The keys on the line; none where a block cannot start. */
    method KeyLine() returns (keys: Option<Tokens>)
      requires Valid()
      modifies this`pos
      ensures Valid()
      ensures var rest := tokens[old(pos)..];
        if keys.Some? then KeysEnd(rest, |keys.value|) && rest[..|keys.value|] == keys.value && pos == old(pos) + |keys.value|
        else rest == [] || rest[0].Opens()
    {
      if pos == |tokens| {
        return None;
      }
      ghost var start, rest := pos, tokens[pos..];
      var head := tokens[pos];
      pos := pos + 1;
      if head.Opens() {
        return None;
      }
      var got := [head];
      while pos < |tokens| && tokens[pos].line == head.line && !tokens[pos].Brace()
        invariant start < pos <= |tokens| && got == tokens[start..pos] && IsKeyLine(got) && got[0] == head
        decreases |tokens| - pos
      {
        SliceGrows(tokens, start, pos);
        got := got + [tokens[pos]];
        pos := pos + 1;
      }
      assert rest[..|got|] == got && rest[0] == head;
      assert pos < |tokens| ==> rest[|got|] == tokens[pos];
      keys := Some(got);
    }

    /** A key line and a body; none exactly when no server block starts here. */
    method ServerBlock(first: bool) returns (r: Option<(Tokens, Tokens)>)
      requires Valid()
      modifies this`pos
      ensures Valid()
      ensures var rest := tokens[old(pos)..];
        if r.Some? then IsServerBlock(rest, first, pos - old(pos), r.value.0, r.value.1) else NoServerBlock(rest, first)
    {
      ghost var rest := tokens[pos..];
      var line := KeyLine();
      if line.None? {
        BadStart(rest, first);
        return None;
      }
      var keys := line.value;
      ghost var k := |keys|;
      if pos < |tokens| && tokens[pos].line == keys[0].line {
        assert rest[k] == tokens[pos];
        if tokens[pos].Closes() {
          BadEnd(rest, first, k);
          return None;
        }
        pos := pos + 1;
        assert tokens[pos..] == rest[k + 1..];
        var body := CollectBody();
        if body.None? {
          BadEnd(rest, first, k);
          return None;
        }
        return Some((keys, body.value));
      }
      assert pos < |tokens| ==> rest[k] == tokens[pos];
      if !first {
        BadEnd(rest, first, k);
        return None;
      }
      var body := tokens[pos..];
      pos := |tokens|;
      assert body == rest[k..];
      r := Some((keys, body));
    }

    /** The directives of a block body, imports resolved in place. */
    method ParseDirectives(ts: Tokens) returns (r: Option<seq<Directive>>)
      requires Valid()
      modifies this`importDepth
      ensures importDepth == old(importDepth)
      ensures r == Parse(sources, ts, importDepth)
      decreases MAX_IMPORT_DEPTH - importDepth, 1, 0
    {
      var out: seq<Directive> := [];
      var i: nat := 0;
      ghost var done: seq<Tokens> := [];
      Started(sources, ts, importDepth);
      while i < |ts|
        invariant importDepth == old(importDepth) && i <= |ts|
        invariant Parsed(sources, ts, ts[i..], done, out, importDepth)
      {
        var rest := ts[i..];
        var n := ReadDirective(rest);
        if n.None? {
          Unsplittable(sources, ts, rest, done, out, importDepth);
          return None;
        }
        var d := rest[..n.value];
        var more := ExpandDirective(d);
        ParsedNext(sources, ts, rest, n.value, done, out, importDepth);
        if more.None? {
          return None;
        }
        assert ts[i + n.value..] == rest[n.value..];
        out, done, i := out + more.value, done + [d], i + n.value;
      }
      assert ts[i..] == [];
      Ended(sources, ts, done, out, importDepth);
      r := Some(out);
    }

    /** The length of the directive at the head of the tokens. */
    method ReadDirective(ts: Tokens) returns (n: Option<nat>)
      requires ts != []
      ensures n == Take(ts)
    {
      var name := ts[0];
      if name.Brace() {
        return None;
      }
      var i := 1;
      while i < |ts| && ts[i].line == name.line && !ts[i].Opens()
        invariant 1 <= i <= |ts| && ArgsEnd(ts, 1) == ArgsEnd(ts, i)
      {
        if ts[i].Closes() {
          return None;
        }
        i := i + 1;
      }
      if i < |ts| && ts[i].line == name.line && ts[i].Opens() {
        var depth := 0;
        ghost var start := i;
        while i < |ts|
          invariant start <= i <= |ts| && BlockEnd(ts, start, 0) == BlockEnd(ts, i, depth)
        {
          if ts[i].Opens() {
            depth := depth + 1;
          } else if ts[i].Closes() {
            depth := depth - 1;
          }
          i := i + 1;
          if depth == 0 {
            return Some(i);
          }
        }
        return None;
      }
      n := Some(i);
    }

    method ExpandDirective(d: Tokens) returns (r: Option<seq<Directive>>)
      requires Valid() && d != []
      modifies this`importDepth
      ensures importDepth == old(importDepth)
      ensures r == ExpandOne(sources, d, importDepth)
      decreases MAX_IMPORT_DEPTH - importDepth, 0, 1
    {
      if IsImport(d) {
        r := DoImport(d);
      } else {
        r := Some([Directive(d[0].text, d)]);
      }
    }

    method DoImport(d: Tokens) returns (r: Option<seq<Directive>>)
      requires Valid() && IsImport(d)
      modifies this`importDepth
      ensures importDepth == old(importDepth)
      ensures r == ExpandOne(sources, d, importDepth)
      decreases MAX_IMPORT_DEPTH - importDepth, 0, 0
    {
      if |d| != 2 {
        return None;
      }
      if importDepth >= MAX_IMPORT_DEPTH {
        return None;
      }
      var ts := sources.Resolve(d[1].text);
      if ts.None? {
        return None;
      }
      importDepth := importDepth + 1;
      r := ParseDirectives(ts.value);
      importDepth := importDepth - 1;
    }
  }

  /** The tokens since `start` are in `got`, with `depth` blocks still open. */
  ghost predicate Collecting(ts: Tokens, start: nat, pos: nat, got: Tokens, depth: nat) {
    start <= pos <= |ts| && got == ts[start..pos] && NoneUnmatched(got) && depth == 1 + Depth(got) && depth > 0
  }

  lemma CollectStart(ts: Tokens, start: nat)
    requires start <= |ts|
    ensures Collecting(ts, start, start, [], 1)
  {
    assert ts[start..start] == [];
  }

  lemma CollectEnd(ts: Tokens, start: nat, got: Tokens, depth: nat)
    requires Collecting(ts, start, |ts|, got, depth)
    ensures NoneUnmatched(ts[start..])
  {
    assert ts[start..|ts|] == ts[start..];
  }

  lemma CollectNext(ts: Tokens, start: nat, pos: nat, got: Tokens, depth: nat)
    requires Collecting(ts, start, pos, got, depth) && pos < |ts|
    ensures if depth + ts[pos].Delta() == 0 then IsBody(ts[start..], got) && |got| == pos - start
      else Collecting(ts, start, pos + 1, got + [ts[pos]], depth + ts[pos].Delta())
  {
    if depth + ts[pos].Delta() == 0 {
      BodyFound(ts, start, pos);
    } else {
      DepthPush(got, ts[pos]);
      SliceGrows(ts, start, pos);
    }
  }

  /** `ts` is the directives `done`, which expand to `out`, and then `rest`. */
  ghost predicate Parsed(src: Sources, ts: Tokens, rest: Tokens, done: seq<Tokens>, out: seq<Directive>, depth: nat)
    requires depth <= MAX_IMPORT_DEPTH
  {
    Split(ts) == Both(Some(done), Split(rest)) && Expand(src, done, depth) == Some(out)
  }

  lemma Started(src: Sources, ts: Tokens, depth: nat)
    requires depth <= MAX_IMPORT_DEPTH
    ensures ts[0..] == ts && Parsed(src, ts, ts, [], [], depth)
  {
    BothNothing(Split(ts));
  }

  lemma BothNothing<T>(a: Option<seq<T>>)
    ensures Both(Some([]), a) == a && Both(a, Some([])) == a
  {
    if a.Some? { assert [] + a.value == a.value && a.value + [] == a.value; }
  }

  lemma Unsplittable(src: Sources, ts: Tokens, rest: Tokens, done: seq<Tokens>, out: seq<Directive>, depth: nat)
    requires depth <= MAX_IMPORT_DEPTH && Parsed(src, ts, rest, done, out, depth) && rest != [] && Take(rest).None?
    ensures Parse(src, ts, depth).None?
  {
    assert Split(rest).None?;
  }

  lemma Ended(src: Sources, ts: Tokens, done: seq<Tokens>, out: seq<Directive>, depth: nat)
    requires depth <= MAX_IMPORT_DEPTH && Parsed(src, ts, [], done, out, depth)
    ensures Parse(src, ts, depth) == Some(out)
  {
    BothNothing(Some(done));
  }

  lemma SplitMore(ts: Tokens, rest: Tokens, n: nat, done: seq<Tokens>)
    requires rest != [] && Take(rest) == Some(n) && Split(ts) == Both(Some(done), Split(rest))
    ensures Split(ts) == Both(Some(done + [rest[..n]]), Split(rest[n..]))
  {
    assert Split(rest) == Both(Some([rest[..n]]), Split(rest[n..]));
    BothAssociates(Some(done), Some([rest[..n]]), Split(rest[n..]));
  }

  lemma ExpandPush(src: Sources, done: seq<Tokens>, d: Tokens, depth: nat)
    requires depth <= MAX_IMPORT_DEPTH
    ensures Expand(src, done + [d], depth) == Both(Expand(src, done, depth), ExpandOne(src, d, depth))
  {
    ExpandConcat(src, done, [d], depth);
    ExpandSingle(src, d, depth);
  }

  lemma ParsedNext(src: Sources, ts: Tokens, rest: Tokens, n: nat, done: seq<Tokens>, out: seq<Directive>, depth: nat)
    requires depth <= MAX_IMPORT_DEPTH && Parsed(src, ts, rest, done, out, depth) && rest != [] && Take(rest) == Some(n)
    ensures var more := ExpandOne(src, rest[..n], depth);
      if more.None? then Parse(src, ts, depth).None?
      else Parsed(src, ts, rest[n..], done + [rest[..n]], out + more.value, depth)
  {
    SplitMore(ts, rest, n, done);
    NextExpands(src, ts, rest[n..], done, rest[..n], out, depth);
  }

  lemma NextExpands(src: Sources, ts: Tokens, next: Tokens, done: seq<Tokens>, d: Tokens, out: seq<Directive>, depth: nat)
    requires depth <= MAX_IMPORT_DEPTH && Expand(src, done, depth) == Some(out)
    requires Split(ts) == Both(Some(done + [d]), Split(next))
    ensures var more := ExpandOne(src, d, depth);
      if more.None? then Parse(src, ts, depth).None? else Parsed(src, ts, next, done + [d], out + more.value, depth)
  {
    ExpandPush(src, done, d, depth);
    if ExpandOne(src, d, depth).None? {
      ExpandPrefixFails(src, ts, done + [d], next, depth);
    }
  }

  lemma {:induction false} ExpandConcat(src: Sources, a: seq<Tokens>, b: seq<Tokens>, depth: nat)
    requires depth <= MAX_IMPORT_DEPTH
    ensures Expand(src, a + b, depth) == Both(Expand(src, a, depth), Expand(src, b, depth))
  {
    if a == [] {
      assert a + b == b;
      if Expand(src, b, depth).Some? { assert [] + Expand(src, b, depth).value == Expand(src, b, depth).value; }
    } else {
      ExpandConcat(src, a[1..], b, depth);
      assert (a + b)[1..] == a[1..] + b;
      BothAssociates(ExpandOne(src, a[0], depth), Expand(src, a[1..], depth), Expand(src, b, depth));
    }
  }

  lemma BothAssociates<T>(a: Option<seq<T>>, b: Option<seq<T>>, c: Option<seq<T>>)
    ensures Both(a, Both(b, c)) == Both(Both(a, b), c)
  {
    if a.Some? && b.Some? && c.Some? {
      assert a.value + (b.value + c.value) == a.value + b.value + c.value;
    }
  }

  lemma ExpandSingle(src: Sources, d: Tokens, depth: nat)
    requires depth <= MAX_IMPORT_DEPTH
    ensures Expand(src, [d], depth) == ExpandOne(src, d, depth)
  {
    var one := ExpandOne(src, d, depth);
    assert [d][1..] == [];
    if one.Some? { assert one.value + [] == one.value; }
  }

  lemma ExpandPrefixFails(src: Sources, ts: Tokens, done: seq<Tokens>, rest: Tokens, depth: nat)
    requires depth <= MAX_IMPORT_DEPTH
    requires Split(ts) == Both(Some(done), Split(rest)) && Expand(src, done, depth).None?
    ensures Parse(src, ts, depth).None?
  {
    if Split(rest).Some? { ExpandConcat(src, done, Split(rest).value, depth); }
  }
}
