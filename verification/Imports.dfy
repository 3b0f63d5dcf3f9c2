/** What parsing directives guarantees, with and without imports. */
module Imports {
  import opened Names
  import opened Corefile
  import opened Directives
  import opened CorefileParser

  function TokensOf(out: seq<Directive>): Tokens {
    if out == [] then [] else out[0].tokens + TokensOf(out[1..])
  }

  function Plain(ds: seq<Tokens>): (out: seq<Directive>)
    ensures |out| == |ds| && forall i :: 0 <= i < |ds| ==> out[i].tokens == ds[i]
  {
    seq(|ds|, i requires 0 <= i < |ds| => Directive(if ds[i] == [] then "" else ds[i][0].text, ds[i]))
  }

  lemma {:induction false} PlainExpands(src: Sources, ds: seq<Tokens>, depth: nat)
    requires depth <= MAX_IMPORT_DEPTH && forall i :: 0 <= i < |ds| ==> !IsImport(ds[i])
    ensures Expand(src, ds, depth) == Some(Plain(ds))
  {
    if ds != [] {
      PlainExpands(src, ds[1..], depth);
      assert Plain(ds) == [Plain(ds)[0]] + Plain(ds[1..]);
    }
  }

  lemma {:induction false} PlainTokens(ds: seq<Tokens>)
    ensures TokensOf(Plain(ds)) == Flatten(ds)
  {
    if ds != [] {
      PlainTokens(ds[1..]);
      assert Plain(ds)[1..] == Plain(ds[1..]);
    }
  }

  /** Without imports nothing is lost: the directives' tokens, one after another,
      are the body, and each directive's braces balance. */
  lemma BodyIsKept(src: Sources, ts: Tokens, depth: nat)
    requires depth <= MAX_IMPORT_DEPTH && Split(ts).Some?
    requires forall i :: 0 <= i < |Split(ts).value| ==> !IsImport(Split(ts).value[i])
    ensures Parse(src, ts, depth).Some?
    ensures var out := Parse(src, ts, depth).value;
      TokensOf(out) == ts && forall i :: 0 <= i < |out| ==> Balanced(out[i].tokens)
  {
    var ds := Split(ts).value;
    PlainExpands(src, ds, depth);
    PlainTokens(ds);
    SplitIff(ts, ds);
    forall i | 0 <= i < |ds| ensures Balanced(Plain(ds)[i].tokens) {
      DirectiveBalances(ds[i]);
    }
  }

  /** A finished directive: it balances and is no import. */
  ghost predicate Resolved(d: Directive) {
    IsDirective(d.tokens) && Balanced(d.tokens) && !IsImport(d.tokens) && d.tokens != [] && d.name == d.tokens[0].text
  }

  /** Every directive that comes out, however deep its import, is a whole one, and
      no import is left. */
  lemma {:induction false} OutputIsResolved(src: Sources, ts: Tokens, depth: nat)
    requires depth <= MAX_IMPORT_DEPTH && Parse(src, ts, depth).Some?
    ensures forall d :: d in Parse(src, ts, depth).value ==> Resolved(d)
    decreases MAX_IMPORT_DEPTH - depth, 1, 0
  {
    var ds := Split(ts).value;
    SplitIff(ts, ds);
    ExpandedIsResolved(src, ds, depth);
  }

  lemma {:induction false} ExpandedIsResolved(src: Sources, ds: seq<Tokens>, depth: nat)
    requires depth <= MAX_IMPORT_DEPTH && Expand(src, ds, depth).Some?
    requires forall i :: 0 <= i < |ds| ==> IsDirective(ds[i])
    ensures forall d :: d in Expand(src, ds, depth).value ==> Resolved(d)
    decreases MAX_IMPORT_DEPTH - depth, 0, |ds|
  {
    if ds != [] {
      ExpandedIsResolved(src, ds[1..], depth);
      if IsImport(ds[0]) {
        OutputIsResolved(src, src.Resolve(ds[0][1].text).value, depth + 1);
      } else {
        DirectiveBalances(ds[0]);
      }
    }
  }

  // ------------------------------------------------------------- splicing

  /** What parses at one depth parses the same nearer the top. */
  lemma {:induction false} ShallowerParses(src: Sources, ts: Tokens, depth: nat)
    requires depth < MAX_IMPORT_DEPTH && Parse(src, ts, depth + 1).Some?
    ensures Parse(src, ts, depth) == Parse(src, ts, depth + 1)
    decreases MAX_IMPORT_DEPTH - depth, 1, 0
  {
    ShallowerExpands(src, Split(ts).value, depth);
  }

  lemma {:induction false} ShallowerExpands(src: Sources, ds: seq<Tokens>, depth: nat)
    requires depth < MAX_IMPORT_DEPTH && Expand(src, ds, depth + 1).Some?
    ensures Expand(src, ds, depth) == Expand(src, ds, depth + 1)
    decreases MAX_IMPORT_DEPTH - depth, 0, |ds|
  {
    if ds != [] {
      ShallowerExpands(src, ds[1..], depth);
      if IsImport(ds[0]) {
        ShallowerParses(src, src.Resolve(ds[0][1].text).value, depth + 1);
      }
    }
  }

  /** The last directive of `ds` cannot run on into `rest`. */
  ghost predicate Separate(ds: seq<Tokens>, rest: Tokens) { ds == [] || Ends(ds[|ds| - 1], rest) }

  lemma {:induction false} FlattenConcat(a: seq<Tokens>, b: seq<Tokens>)
    ensures Flatten(a + b) == Flatten(a) + Flatten(b)
  {
    if a == [] {
      assert a + b == b;
    } else {
      var rest := a[1..];
      FlattenConcat(rest, b);
      assert (a + b)[0] == a[0] && (a + b)[1..] == rest + b;
      Associates(a[0], Flatten(rest), Flatten(b));
    }
  }

  lemma Associates<T>(a: seq<T>, b: seq<T>, c: seq<T>)
    ensures a + (b + c) == a + b + c
  {
  }

  lemma SplitsConcat(a: Tokens, da: seq<Tokens>, b: Tokens, db: seq<Tokens>)
    requires Splits(a, da) && Splits(b, db) && Separate(da, b)
    ensures Splits(a + b, da + db)
  {
    var all := da + db;
    FlattenConcat(da, db);
    if db != [] { FlattenStarts(db); }
    forall i | 0 <= i < |all| - 1 ensures Ends(all[i], all[i + 1]) {
      if i < |da| - 1 {
        assert Ends(da[i], da[i + 1]);
      } else if i >= |da| {
        assert Ends(db[i - |da|], db[i - |da| + 1]);
      }
    }
  }

  /** An import means what writing its tokens in its place means, as long as no
      line of one text runs on into a line of the other. */
  lemma ImportIsSplice(src: Sources, a: Tokens, name: Token, arg: Token, body: Tokens, b: Tokens, depth: nat)
    requires depth < MAX_IMPORT_DEPTH && IsImport([name]) && !arg.Brace() && arg.line == name.line
    requires src.Resolve(arg.text) == Some(body)
    requires Split(a).Some? && Split(body).Some? && Split(b).Some?
    requires Separate(Split(a).value, [name, arg] + b) && Ends([name, arg], b)
    requires Separate(Split(a).value, body + b) && Separate(Split(body).value, b)
    requires Parse(src, a + ([name, arg] + b), depth).Some?
    ensures Parse(src, a + (body + b), depth) == Parse(src, a + ([name, arg] + b), depth)
  {
    var da, dbody, db, imp := Split(a).value, Split(body).value, Split(b).value, [name, arg];
    SplitIff(a, da);
    SplitIff(body, dbody);
    SplitIff(b, db);
    ImportSplits(name, arg);
    SplitsConcat(imp, [imp], b, db);
    SplitsConcat(a, da, imp + b, [imp] + db);
    SplitIff(a + (imp + b), da + ([imp] + db));
    SplitsConcat(body, dbody, b, db);
    SplitsConcat(a, da, body + b, dbody + db);
    SplitIff(a + (body + b), da + (dbody + db));
    ExpandThree(src, da, [imp], db, depth);
    ExpandThree(src, da, dbody, db, depth);
    ExpandSingle(src, imp, depth);
    ShallowerParses(src, body, depth);
  }

  lemma ImportSplits(name: Token, arg: Token)
    requires IsImport([name]) && !arg.Brace() && arg.line == name.line
    ensures Splits([name, arg], [[name, arg]])
  {
    var d: Tokens := [name, arg];
    var ds := [d];
    assert IsLine(d, |d|);
    assert d[..2] == d && d[2..] == [];
    assert ds[1..] == [];
  }

  lemma ExpandThree(src: Sources, a: seq<Tokens>, m: seq<Tokens>, b: seq<Tokens>, depth: nat)
    requires depth <= MAX_IMPORT_DEPTH
    ensures Expand(src, a + (m + b), depth) == Both(Expand(src, a, depth), Both(Expand(src, m, depth), Expand(src, b, depth)))
  {
    ExpandConcat(src, a, m + b, depth);
    ExpandConcat(src, m, b, depth);
  }

  // ----------------------------------------------------- what is imported

  /** An import stands for the snippet of that name or, without one, for the file of
      that name; nested twenty deep it is refused, and so is one of nothing. */
  lemma ImportResolves(src: Sources, name: Token, arg: Token, depth: nat)
    requires depth <= 20 && name.text == "import" && !name.quoted && !arg.Brace() && arg.line == name.line
    ensures Parse(src, [name, arg], depth) ==
      if depth == 20 then None
      else if arg.text in src.snippets then Parse(src, src.snippets[arg.text], depth + 1)
      else match src.files(arg.text) { case Some(ts) => Parse(src, ts, depth + 1) case None => None }
  {
    var d := [name, arg];
    ImportSplits(name, arg);
    SplitIff(d, [d]);
    ExpandSingle(src, d, depth);
  }

  /** An import takes one argument. */
  lemma ImportTakesOneArgument(src: Sources, d: Tokens, depth: nat)
    requires depth <= 20 && IsDirective(d) && IsImport(d) && |d| != 2
    ensures Parse(src, d, depth).None?
  {
    var ds := [d];
    assert ds[1..] == [];
    assert Flatten(ds) == d;
    SplitIff(d, ds);
    OneFailureFails(src, ds, 0, depth);
  }

  /** Each text of the chain is an import of the next; the last imports nothing. */
  ghost predicate ImportChain(src: Sources, chain: seq<Tokens>) {
    && chain != [] && ImportsNothing(chain[|chain| - 1])
    && (forall i :: 0 <= i < |chain| - 1 ==> Leads(src, chain[i], chain[i + 1]))
  }

  ghost predicate ImportsNothing(ts: Tokens) {
    Split(ts).Some? && var ds := Split(ts).value; forall i :: 0 <= i < |ds| ==> !IsImport(ds[i])
  }

  predicate Leads(src: Sources, ts: Tokens, body: Tokens) {
    |ts| == 2 && IsImport(ts[..1]) && !ts[1].Brace() && ts[1].line == ts[0].line && src.Resolve(ts[1].text) == Some(body)
  }

  /** Imports may be nested to a depth of exactly twenty. */
  lemma {:induction false} TwentyDeep(src: Sources, chain: seq<Tokens>, depth: nat)
    requires ImportChain(src, chain) && depth <= 20
    ensures Parse(src, chain[0], depth).Some? <==> depth + |chain| - 1 <= 20
    decreases |chain|
  {
    if |chain| == 1 {
      BodyIsKept(src, chain[0], depth);
    } else {
      var ts := chain[0];
      assert Leads(src, chain[0], chain[1]);
      assert ts == [ts[0], ts[1]] && ts[..1] == [ts[0]];
      ImportResolves(src, ts[0], ts[1], depth);
      if depth < 20 {
        var rest := chain[1..];
        forall i | 0 <= i < |rest| - 1 ensures Leads(src, rest[i], rest[i + 1]) { assert Leads(src, chain[i + 1], chain[i + 2]); }
        TwentyDeep(src, rest, depth + 1);
      }
    }
  }

  // --------------------------------------------------------------- cycles

  ghost predicate ImportsOneOf(src: Sources, names: set<string>, ts: Tokens) {
    Split(ts).Some? ==> exists d: Tokens :: d in Split(ts).value && IsImport(d) && (|d| == 2 ==> d[1].text in names)
  }

  /** Imports that lead back to each other are always refused, at whatever depth
      they start, and the refusal is reached: the recursion ends. */
  lemma {:induction false} CyclicImportsFail(src: Sources, names: set<string>, ts: Tokens, depth: nat)
    requires depth <= MAX_IMPORT_DEPTH && ImportsOneOf(src, names, ts)
    requires forall n :: n in names && src.Resolve(n).Some? ==> ImportsOneOf(src, names, src.Resolve(n).value)
    ensures Parse(src, ts, depth).None?
    decreases MAX_IMPORT_DEPTH - depth, 1
  {
    if Split(ts).Some? {
      var ds := Split(ts).value;
      var d: Tokens :| d in ds && IsImport(d) && (|d| == 2 ==> d[1].text in names);
      CyclicImportFails(src, names, d, depth);
      var i :| 0 <= i < |ds| && ds[i] == d;
      OneFailureFails(src, ds, i, depth);
    }
  }

  lemma {:induction false} CyclicImportFails(src: Sources, names: set<string>, d: Tokens, depth: nat)
    requires depth <= MAX_IMPORT_DEPTH && IsImport(d) && (|d| == 2 ==> d[1].text in names)
    requires forall n :: n in names && src.Resolve(n).Some? ==> ImportsOneOf(src, names, src.Resolve(n).value)
    ensures ExpandOne(src, d, depth).None?
    decreases MAX_IMPORT_DEPTH - depth, 0
  {
    if |d| == 2 && depth < MAX_IMPORT_DEPTH && src.Resolve(d[1].text).Some? {
      CyclicImportsFail(src, names, src.Resolve(d[1].text).value, depth + 1);
    }
  }

  lemma {:induction false} OneFailureFails(src: Sources, ds: seq<Tokens>, i: nat, depth: nat)
    requires depth <= MAX_IMPORT_DEPTH && i < |ds| && ExpandOne(src, ds[i], depth).None?
    ensures Expand(src, ds, depth).None?
  {
    if i > 0 { OneFailureFails(src, ds[1..], i - 1, depth); }
  }
}
