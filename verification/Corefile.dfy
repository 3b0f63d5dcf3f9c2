/** The configuration file's token parser: server blocks, directives, imports. */
module Corefile {

  datatype Token = Token(file: string, line: nat, text: string, quoted: bool) {
    predicate Opens() { !quoted && text == "{" }
    predicate Closes() { !quoted && text == "}" }
    predicate Brace() { Opens() || Closes() }
    function Delta(): int { if Opens() then 1 else if Closes() then -1 else 0 }
  }

  type Tokens = seq<Token>

  function Depth(ts: Tokens): int {
    if ts == [] then 0 else Depth(ts[..|ts| - 1]) + ts[|ts| - 1].Delta()
  }

  lemma {:induction false} DepthConcat(a: Tokens, b: Tokens)
    ensures Depth(a + b) == Depth(a) + Depth(b)
  {
    if b == [] {
      assert a + b == a;
    } else {
      DepthConcat(a, b[..|b| - 1]);
      assert (a + b)[..|a + b| - 1] == a + b[..|b| - 1];
    }
  }

  lemma DepthNext(ts: Tokens, i: nat, j: nat)
    requires i <= j < |ts|
    ensures Depth(ts[i..j + 1]) == Depth(ts[i..j]) + ts[j].Delta()
  {
    assert ts[i..j + 1][..j - i] == ts[i..j];
  }

  /** Every closing brace closes one before it. */
  ghost predicate NoneUnmatched(ts: Tokens) { forall k :: 0 <= k <= |ts| ==> Depth(ts[..k]) >= 0 }

  /** And all are closed. */
  ghost predicate Balanced(ts: Tokens) { Depth(ts) == 0 && NoneUnmatched(ts) }

  lemma DepthPush(ts: Tokens, t: Token)
    ensures Depth(ts + [t]) == Depth(ts) + t.Delta()
    ensures NoneUnmatched(ts) && Depth(ts) + t.Delta() >= 0 ==> NoneUnmatched(ts + [t])
  {
    var next := ts + [t];
    assert next[..|ts|] == ts;
    assert forall k :: 0 <= k <= |ts| ==> next[..k] == ts[..k];
    assert next[..|next|] == next;
  }

  // -------------------------------------------------------- server blocks

  /** `body` and a closing brace begin `rest`, and that brace is the unmatched one. */
  ghost predicate IsBody(rest: Tokens, body: Tokens) {
    |body| < |rest| && rest[..|body|] == body && rest[|body|].Closes() && Balanced(body)
  }

  lemma BodyFound(ts: Tokens, start: nat, end: nat)
    requires start <= end < |ts| && Balanced(ts[start..end]) && ts[end].Closes()
    ensures IsBody(ts[start..], ts[start..end])
  {
    assert ts[start..][..end - start] == ts[start..end] && ts[start..][end - start] == ts[end];
  }

  lemma SliceGrows(ts: Tokens, i: nat, j: nat)
    requires i <= j < |ts|
    ensures ts[i..j + 1] == ts[i..j] + [ts[j]]
  {
  }

  /** There is only one such body. */
  lemma BodyIsUnique(rest: Tokens, a: Tokens, b: Tokens)
    requires IsBody(rest, a) && IsBody(rest, b)
    ensures a == b
  {
    if |a| < |b| {
      BodyNotLonger(rest, a, b);
    } else if |b| < |a| {
      BodyNotLonger(rest, b, a);
    }
  }

  lemma BodyNotLonger(rest: Tokens, a: Tokens, b: Tokens)
    requires IsBody(rest, a) && IsBody(rest, b)
    ensures |a| >= |b|
  {
    assert |a| < |b| ==> b[..|a|] == a;
    if |a| < |b| { ClosedInside(b, |a|); }
  }

  lemma ClosedInside(ts: Tokens, k: nat)
    requires k < |ts| && ts[k].Closes() && Depth(ts[..k]) == 0
    ensures !NoneUnmatched(ts)
  {
    assert ts[..k + 1][..k] == ts[..k];
    assert Depth(ts[..k + 1]) == -1;
  }

  ghost predicate IsKeyLine(keys: Tokens) {
    keys != [] && !keys[0].Opens() && forall i :: 0 < i < |keys| ==> keys[i].line == keys[0].line && !keys[i].Brace()
  }

  /** The key line is the first `k` tokens and goes no further. */
  ghost predicate KeysEnd(rest: Tokens, k: int) {
    0 < k <= |rest| && IsKeyLine(rest[..k]) && (k < |rest| ==> rest[k].line != rest[0].line || rest[k].Brace())
  }

  /** `used` tokens of `rest` are a server block: all the keys of the line, then
      either a brace on it and the body that opens, or, in the first block only and
      with nothing more on the line, all the rest. */
  ghost predicate IsServerBlock(rest: Tokens, first: bool, used: int, keys: Tokens, body: Tokens) {
    && |keys| <= |rest| && rest[..|keys|] == keys && KeysEnd(rest, |keys|)
    && (if |keys| < |rest| && rest[|keys|].line == rest[0].line
        then rest[|keys|].Opens() && IsBody(rest[|keys| + 1..], body) && used == |keys| + |body| + 2
        else first && body == rest[|keys|..] && used == |rest|)
  }

  lemma KeysEndNotLonger(rest: Tokens, j: int, k: int)
    requires KeysEnd(rest, j) && KeysEnd(rest, k)
    ensures k <= j
  {
  }

  /** There is only one way to read a server block. */
  lemma ServerBlockIsUnique(rest: Tokens, first: bool, m: int, ks: Tokens, b: Tokens, n: int, ls: Tokens, c: Tokens)
    requires IsServerBlock(rest, first, m, ks, b) && IsServerBlock(rest, first, n, ls, c)
    ensures m == n && ks == ls && b == c
  {
    KeysEndNotLonger(rest, |ks|, |ls|);
    KeysEndNotLonger(rest, |ls|, |ks|);
    if |ks| < |rest| && rest[|ks|].line == rest[0].line {
      BodyIsUnique(rest[|ks| + 1..], b, c);
    }
  }

  /** Without an unmatched closing brace there is no body. */
  lemma NoBody(rest: Tokens, body: Tokens)
    requires NoneUnmatched(rest)
    ensures !IsBody(rest, body)
  {
    if IsBody(rest, body) { ClosedInside(rest, |body|); }
  }

  /** When `rest` begins with no server block at all. */
  ghost predicate NoServerBlock(rest: Tokens, first: bool) {
    forall used, keys, body :: !IsServerBlock(rest, first, used, keys, body)
  }

  lemma BadStart(rest: Tokens, first: bool)
    requires rest == [] || rest[0].Opens()
    ensures NoServerBlock(rest, first)
  {
  }

  lemma BadEnd(rest: Tokens, first: bool, k: nat)
    requires KeysEnd(rest, k)
    requires if k < |rest| && rest[k].line == rest[0].line then rest[k].Closes() || NoneUnmatched(rest[k + 1..]) else !first
    ensures NoServerBlock(rest, first)
  {
    forall used, keys, body ensures !IsServerBlock(rest, first, used, keys, body) {
      if KeysEnd(rest, |keys|) {
        KeysEndNotLonger(rest, k, |keys|);
        KeysEndNotLonger(rest, |keys|, k);
        if k < |rest| && NoneUnmatched(rest[k + 1..]) { NoBody(rest[k + 1..], body); }
      }
    }
  }
}
