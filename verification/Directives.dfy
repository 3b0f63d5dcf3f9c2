/** Splitting a block body into directives, and imports. */
module Directives {
  import opened Names
  import opened Corefile

  // ---------------------------------------------------- what a directive is

  /** The first `k` tokens are a name and arguments on its line. */
  ghost predicate IsLine(d: Tokens, k: int) {
    && 0 < k <= |d| && !d[0].Brace()
    && forall j :: 0 < j < k ==> d[j].line == d[0].line && !d[j].Brace()
  }

  /** An opening brace, and everything up to the one that closes it. */
  ghost predicate IsBlock(b: Tokens) {
    b != [] && b[0].Opens() && Depth(b) == 0 && forall k :: 0 < k < |b| ==> Depth(b[..k]) > 0
  }

  ghost predicate BlockAt(d: Tokens, k: int) {
    0 < k < |d| && IsLine(d, k) && d[k].line == d[0].line && IsBlock(d[k..])
  }

  ghost predicate IsDirective(d: Tokens) { IsLine(d, |d|) || exists k :: BlockAt(d, k) }

  function Flatten(ds: seq<Tokens>): Tokens {
    if ds == [] then [] else ds[0] + Flatten(ds[1..])
  }

  /** `d` cannot go on into `rest`: it ends with a block, or the line ends. */
  ghost predicate Ends(d: Tokens, rest: Tokens) {
    (exists k :: BlockAt(d, k)) || rest == [] || (d != [] && rest[0].line != d[0].line)
  }

  /** `ds` are the directives of `ts`: nothing lost, nothing added, nothing moved,
      and none could go on into the next. */
  ghost predicate Splits(ts: Tokens, ds: seq<Tokens>) {
    && Flatten(ds) == ts && (forall i :: 0 <= i < |ds| ==> IsDirective(ds[i]))
    && (forall i :: 0 <= i < |ds| - 1 ==> Ends(ds[i], ds[i + 1]))
  }

  lemma FlattenStarts(ds: seq<Tokens>)
    requires ds != [] && IsDirective(ds[0])
    ensures ds[0] != [] && Flatten(ds) != [] && Flatten(ds)[0] == ds[0][0]
  {
  }

  lemma SplitsTail(ts: Tokens, ds: seq<Tokens>)
    requires ds != [] && Splits(ts, ds)
    ensures var d := ds[0]; 0 < |d| <= |ts| && ts[..|d|] == d && Splits(ts[|d|..], ds[1..]) && Ends(d, ts[|d|..])
  {
    var d, rest := ds[0], ds[1..];
    FlattenStarts(ds);
    assert ts[..|d|] == d && ts[|d|..] == Flatten(rest);
    assert forall i :: 0 <= i < |rest| ==> rest[i] == ds[i + 1];
    if rest != [] {
      assert IsDirective(ds[1]) && Ends(ds[0], ds[1]);
      FlattenStarts(rest);
    }
  }

  lemma SplitsCons(d: Tokens, ts: Tokens, ds: seq<Tokens>)
    requires IsDirective(d) && Ends(d, ts) && Splits(ts, ds)
    ensures Splits(d + ts, [d] + ds)
  {
    var all := [d] + ds;
    assert all[1..] == ds;
    if ds != [] { FlattenStarts(ds); }
    forall i | 0 <= i < |all| - 1 ensures Ends(all[i], all[i + 1]) {
      if i > 0 { assert Ends(ds[i - 1], ds[i]); }
    }
  }

  // --------------------------------------------------------- the splitting

  predicate ArgAt(ts: Tokens, i: nat)
    requires ts != [] && i < |ts|
  {
    ts[i].line == ts[0].line && !ts[i].Brace()
  }

  function ArgsEnd(ts: Tokens, i: nat): (e: nat)
    requires ts != [] && i <= |ts|
    ensures i <= e <= |ts| && (e < |ts| ==> !ArgAt(ts, e)) && forall j :: i <= j < e ==> ArgAt(ts, j)
    decreases |ts| - i
  {
    if i < |ts| && ArgAt(ts, i) then ArgsEnd(ts, i + 1) else i
  }

  /** One past the brace that brings the depth to 0. */
  function BlockEnd(ts: Tokens, i: nat, depth: int): (e: Option<nat>)
    requires i <= |ts|
    ensures e.Some? ==> i < e.value <= |ts|
    decreases |ts| - i
  {
    if i == |ts| then None
    else if depth + ts[i].Delta() == 0 then Some(i + 1)
    else BlockEnd(ts, i + 1, depth + ts[i].Delta())
  }

  /** The length of the first directive. */
  function Take(ts: Tokens): (n: Option<nat>)
    requires ts != []
    ensures n.Some? ==> 0 < n.value <= |ts|
  {
    if ts[0].Brace() then None
    else
      var e := ArgsEnd(ts, 1);
      if e == |ts| || ts[e].line != ts[0].line then Some(e)
      else if ts[e].Closes() then None
      else BlockEnd(ts, e, 0)
  }

  function Split(ts: Tokens): Option<seq<Tokens>>
    decreases |ts|
  {
    if ts == [] then Some([])
    else
      match Take(ts)
      case None => None
      case Some(n) =>
        match Split(ts[n..])
        case None => None
        case Some(ds) => Some([ts[..n]] + ds)
  }

  // ------------------------------------------------------ sound, complete

  /** Between `k` and `e` the depth stays positive and ends at 0. */
  lemma {:induction false} BlockEndSound(ts: Tokens, k: nat, i: nat)
    requires k < |ts| && ts[k].Opens() && k < i <= |ts|
    requires forall j :: k < j <= i ==> Depth(ts[k..j]) > 0
    ensures var e := BlockEnd(ts, i, Depth(ts[k..i]));
      e.Some? ==> Depth(ts[k..e.value]) == 0 && forall j :: k < j < e.value ==> Depth(ts[k..j]) > 0
    decreases |ts| - i
  {
    if i < |ts| {
      DepthNext(ts, k, i);
      if Depth(ts[k..i + 1]) != 0 { BlockEndSound(ts, k, i + 1); }
    }
  }

  lemma {:induction false} BlockEndComplete(ts: Tokens, k: nat, e: nat, i: nat)
    requires k <= i < e <= |ts| && Depth(ts[k..e]) == 0
    requires forall j :: k < j < e ==> Depth(ts[k..j]) > 0
    ensures BlockEnd(ts, i, Depth(ts[k..i])) == Some(e)
    decreases e - i
  {
    DepthNext(ts, k, i);
    if i + 1 < e { BlockEndComplete(ts, k, e, i + 1); }
  }

  lemma BlockIn(ts: Tokens, k: nat, e: nat)
    requires k < e <= |ts|
    ensures IsBlock(ts[k..e]) <==> ts[k].Opens() && Depth(ts[k..e]) == 0 && forall j :: k < j < e ==> Depth(ts[k..j]) > 0
  {
    var b := ts[k..e];
    assert forall j :: k < j < e ==> b[..j - k] == ts[k..j];
    if IsBlock(b) {
      forall j | k < j < e ensures Depth(ts[k..j]) > 0 {
        assert Depth(b[..j - k]) > 0;
      }
    }
    if forall j :: k < j < e ==> Depth(ts[k..j]) > 0 {
      forall x | 0 < x < |b| ensures Depth(b[..x]) > 0 {
        assert b[..x] == ts[k..k + x];
      }
    }
  }

  lemma TakeSound(ts: Tokens)
    requires ts != [] && Take(ts).Some?
    ensures var n := Take(ts).value; IsDirective(ts[..n]) && Ends(ts[..n], ts[n..])
  {
    var n, e := Take(ts).value, ArgsEnd(ts, 1);
    var d := ts[..n];
    forall j | 0 < j < e ensures ts[j].line == ts[0].line && !ts[j].Brace() {
      assert ArgAt(ts, j);
    }
    if e < |ts| && ts[e].line == ts[0].line {
      DepthNext(ts, e, e);
      assert ts[e..e] == [];
      BlockEndSound(ts, e, e + 1);
      BlockIn(ts, e, n);
      assert d[e..] == ts[e..n];
      assert BlockAt(d, e);
    } else {
      assert IsLine(d, |d|);
    }
  }

  lemma TakeBlock(ts: Tokens, n: nat, k: nat)
    requires 0 < n <= |ts| && BlockAt(ts[..n], k)
    ensures Take(ts) == Some(n)
  {
    var d := ts[..n];
    assert d[k..][0] == ts[k] && d[0] == ts[0];
    assert ts[k].Opens() && ts[k].line == ts[0].line;
    assert IsLine(ts[..k], k) by {
      assert forall j :: 0 <= j < k ==> ts[..k][j] == d[j];
    }
    ArgsEndIs(ts, k);
    assert d[k..] == ts[k..n];
    BlockIn(ts, k, n);
    assert ts[k..k] == [];
    BlockEndComplete(ts, k, n, k);
  }

  lemma TakeLine(ts: Tokens, n: nat)
    requires 0 < n <= |ts| && IsLine(ts[..n], n) && (n < |ts| ==> ts[n].line != ts[0].line)
    ensures Take(ts) == Some(n)
  {
    ArgsEndIs(ts, n);
    assert ts[..n][0] == ts[0];
  }

  lemma TakeComplete(ts: Tokens, n: nat)
    requires 0 < n <= |ts| && IsDirective(ts[..n]) && Ends(ts[..n], ts[n..])
    ensures Take(ts) == Some(n)
  {
    var d := ts[..n];
    if k :| BlockAt(d, k) {
      TakeBlock(ts, n, k);
    } else {
      assert n < |ts| ==> ts[n..][0] == ts[n] && d[0] == ts[0];
      TakeLine(ts, n);
    }
  }

  lemma ArgsEndIs(ts: Tokens, k: nat)
    requires 0 < k <= |ts| && IsLine(ts[..k], k) && (k < |ts| ==> !ArgAt(ts, k))
    ensures ArgsEnd(ts, 1) == k
  {
    var e := ArgsEnd(ts, 1);
    assert forall j :: 0 < j < k ==> ts[..k][j] == ts[j];
  }

  lemma SplitsAfterTake(ts: Tokens, ds: seq<Tokens>)
    requires ts != [] && Take(ts).Some? && Splits(ts[Take(ts).value..], ds)
    ensures Splits(ts, [ts[..Take(ts).value]] + ds)
  {
    var n := Take(ts).value;
    TakeSound(ts);
    SplitsCons(ts[..n], ts[n..], ds);
    assert ts == ts[..n] + ts[n..];
  }

  lemma {:induction false} SplitSound(ts: Tokens)
    requires Split(ts).Some?
    ensures Splits(ts, Split(ts).value)
    decreases |ts|
  {
    if ts != [] {
      var rest := ts[Take(ts).value..];
      SplitSound(rest);
      SplitsAfterTake(ts, Split(rest).value);
    }
  }

  lemma {:induction false} SplitComplete(ts: Tokens, ds: seq<Tokens>)
    requires Splits(ts, ds)
    ensures Split(ts) == Some(ds)
    decreases |ds|
  {
    if ds != [] {
      SplitsTail(ts, ds);
      var n := |ds[0]|;
      TakeComplete(ts, n);
      SplitComplete(ts[n..], ds[1..]);
      assert ds == [ds[0]] + ds[1..];
    }
  }

  /** The split is sound, complete and unique: a body splits into `ds` exactly when
      `ds` are its directives in order, every token kept. */
  lemma SplitIff(ts: Tokens, ds: seq<Tokens>)
    ensures Split(ts) == Some(ds) <==> Splits(ts, ds)
  {
    if Split(ts) == Some(ds) { SplitSound(ts); }
    if Splits(ts, ds) { SplitComplete(ts, ds); }
  }

  // ------------------------------------------------- conservation, balance

  lemma {:induction false} LineIsFlat(d: Tokens, k: nat)
    requires IsLine(d, |d|) && k <= |d|
    ensures Depth(d[..k]) == 0
  {
    if k > 0 {
      LineIsFlat(d, k - 1);
      assert d[..k][..k - 1] == d[..k - 1];
    }
  }

  /** The braces of every directive balance. */
  lemma DirectiveBalances(d: Tokens)
    requires IsDirective(d)
    ensures Balanced(d)
  {
    if IsLine(d, |d|) {
      forall k | 0 <= k <= |d| ensures Depth(d[..k]) == 0 { LineIsFlat(d, k); }
      assert d[..|d|] == d;
    } else {
      var k :| BlockAt(d, k);
      BlockBalances(d, k);
    }
  }

  lemma BlockBalances(d: Tokens, k: nat)
    requires BlockAt(d, k)
    ensures Balanced(d)
  {
    var line, b := d[..k], d[k..];
    assert d == line + b;
    assert IsLine(line, |line|);
    LineIsFlat(line, k);
    assert line[..k] == line;
    DepthConcat(line, b);
    forall j | 0 <= j <= |d| ensures Depth(d[..j]) >= 0 {
      if j <= k {
        LineIsFlat(line, j);
        assert d[..j] == line[..j];
      } else {
        assert d[..j] == line + b[..j - k];
        DepthConcat(line, b[..j - k]);
        if j == |d| { assert b[..j - k] == b; }
      }
    }
  }

  // -------------------------------------------------------------- imports

  const MAX_IMPORT_DEPTH := 20

  datatype Directive = Directive(name: string, tokens: Tokens)

  /** What imports may name: snippets first, then files (`None` if none is found). */
  datatype Sources = Sources(snippets: map<string, Tokens>, files: string -> Option<Tokens>) {
    function Resolve(arg: string): Option<Tokens> {
      if arg in snippets then Some(snippets[arg]) else files(arg)
    }
  }

  predicate IsImport(d: Tokens) { d != [] && d[0].text == "import" && !d[0].quoted }

  function Both<T>(a: Option<seq<T>>, b: Option<seq<T>>): Option<seq<T>> {
    if a.Some? && b.Some? then Some(a.value + b.value) else None
  }

  function Parse(src: Sources, ts: Tokens, depth: nat): Option<seq<Directive>>
    requires depth <= MAX_IMPORT_DEPTH
    decreases MAX_IMPORT_DEPTH - depth, 1, 0
  {
    match Split(ts)
    case None => None
    case Some(ds) => Expand(src, ds, depth)
  }

  function Expand(src: Sources, ds: seq<Tokens>, depth: nat): Option<seq<Directive>>
    requires depth <= MAX_IMPORT_DEPTH
    decreases MAX_IMPORT_DEPTH - depth, 0, |ds|
  {
    if ds == [] then Some([]) else Both(ExpandOne(src, ds[0], depth), Expand(src, ds[1..], depth))
  }

  /** An import is replaced by the directives it names, one level deeper. */
  function ExpandOne(src: Sources, d: Tokens, depth: nat): Option<seq<Directive>>
    requires depth <= MAX_IMPORT_DEPTH
    decreases MAX_IMPORT_DEPTH - depth, 0, 0
  {
    if !IsImport(d) then Some([Directive(if d == [] then "" else d[0].text, d)])
    else if |d| != 2 || depth >= MAX_IMPORT_DEPTH then None
    else
      match src.Resolve(d[1].text)
      case None => None
      case Some(ts) => Parse(src, ts, depth + 1)
  }
}
