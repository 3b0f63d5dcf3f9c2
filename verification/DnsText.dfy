/** Names as the server's strings, with a dot after every label, and the string
    operations on them; the label operations are what they compute. */
module DnsText {
  import opened Names

  /** The labels, each followed by a dot. */
  function Flat(n: Name): string {
    if n == [] then "" else n[0] + "." + Flat(n[1..])
  }

  function Text(n: Name): string { if n == [] then "." else Flat(n) }

  /** A label that can be written without an escape. */
  predicate PlainLabel(l: Label) { l != "" && forall i :: 0 <= i < |l| ==> l[i] != '.' }

  predicate Plain(n: Name) { forall i :: 0 <= i < |n| ==> PlainLabel(n[i]) }

  // ------------------------------------------------- the string operations

  predicate EndsWith(s: string, suffix: string) { |suffix| <= |s| && s[|s| - |suffix|..] == suffix }

  /** At or below, ending on a label boundary. */
  predicate IsSubdomainText(zone0: string, name0: string) {
    var zone, name := Lower(zone0), Lower(name0);
    if zone == "." then true
    else if name == zone then true
    else if |name| > |zone| && EndsWith(name, zone) then name[|name| - |zone| - 1] == '.'
    else false
  }

  /** Without the dots at its end. */
  function TrimDots(s: string): string {
    if s != "" && s[|s| - 1] == '.' then TrimDots(s[..|s| - 1]) else s
  }

  function TrimZone(name: string, zone: string): Option<string> {
    if !IsSubdomainText(zone, name) then None
    else if zone == "." then Some(TrimDots(name))
    else if Lower(name) == Lower(zone) then Some("")
    else if |zone| < |name| then Some(Lower(name)[..|name| - |zone| - 1])
    else Some("")
  }

  function FindDot(s: string): (i: nat)
    ensures i <= |s| && (i < |s| ==> s[i] == '.') && forall j :: 0 <= j < i ==> s[j] != '.'
  {
    if s == "" then 0 else if s[0] == '.' then 0 else 1 + FindDot(s[1..])
  }

  function ParentText(name: string): string {
    var i := FindDot(name);
    if i + 1 < |name| then name[i + 1..] else "."
  }

  function WildcardText(name: string): string { if name == "." then "*." else "*." + name }

  // ------------------------------------------------------- text and labels

  lemma {:induction false} FlatConcat(a: Name, b: Name)
    ensures Flat(a + b) == Flat(a) + Flat(b)
  {
    if a == [] {
      assert a + b == b;
    } else {
      FlatConcat(a[1..], b);
      assert (a + b)[1..] == a[1..] + b;
    }
  }

  lemma {:induction false} FlatEndsInDot(n: Name)
    requires n != []
    ensures Flat(n) != "" && Flat(n)[|Flat(n)| - 1] == '.'
  {
    if n[1..] != [] {
      FlatEndsInDot(n[1..]);
    } else {
      assert Flat(n) == n[0] + ".";
    }
  }

  /** The first dot is where the first label ends. */
  lemma FlatStarts(n: Name)
    requires n != [] && PlainLabel(n[0])
    ensures |Flat(n)| > |n[0]| + 0 && Flat(n)[..|n[0]|] == n[0] && Flat(n)[|n[0]|] == '.' && Flat(n)[|n[0]| + 1..] == Flat(n[1..])
    ensures forall j :: 0 <= j < |n[0]| ==> Flat(n)[j] != '.'
  {
  }

  lemma {:induction false} FlatInjective(a: Name, b: Name)
    requires Plain(a) && Plain(b) && Flat(a) == Flat(b)
    ensures a == b
  {
    if a != [] && b != [] {
      FlatStarts(a);
      FlatStarts(b);
      assert |a[0]| == |b[0]|;
      FlatInjective(a[1..], b[1..]);
      assert a == [a[0]] + a[1..] && b == [b[0]] + b[1..];
    } else if a != [] {
      FlatEndsInDot(a);
    } else if b != [] {
      FlatEndsInDot(b);
    }
  }

  /** Cutting a text after a dot cuts the name between two labels. */
  lemma {:induction false} CutAtDot(n: Name, pre: string, rest: string) returns (k: nat)
    requires Plain(n) && Flat(n) == pre + rest && (pre == "" || pre[|pre| - 1] == '.')
    ensures k <= |n| && rest == Flat(n[k..])
  {
    if pre == "" {
      k := 0;
      assert n[0..] == n && pre + rest == rest;
    } else {
      FlatStarts(n);
      var m := |n[0]| + 1;
      assert Flat(n)[|pre| - 1] == pre[|pre| - 1] == '.';
      assert m <= |pre|;
      var pre' := pre[m..];
      assert Flat(n)[m..] == pre' + rest;
      k := CutAtDot(n[1..], pre', rest);
      assert n[1..][k..] == n[k + 1..];
      k := k + 1;
    }
  }

  lemma {:induction false} LowerFlat(n: Name)
    ensures Lower(Flat(n)) == Flat(LowerAll(n))
  {
    if n != [] {
      LowerFlat(n[1..]);
      assert LowerAll(n)[1..] == LowerAll(n[1..]);
      LowerConcat(n[0] + ".", Flat(n[1..]));
      LowerConcat(n[0], ".");
      assert Lower(".") == ".";
    }
  }

  lemma LowerConcat(a: string, b: string)
    ensures Lower(a + b) == Lower(a) + Lower(b)
  {
  }

  lemma LowerText(n: Name)
    ensures Lower(Text(n)) == Text(LowerAll(n))
  {
    LowerFlat(n);
    assert Lower(".") == ".";
  }

  lemma LowerPlain(n: Name)
    requires Plain(n)
    ensures Plain(LowerAll(n))
  {
    forall i | 0 <= i < |n| ensures PlainLabel(LowerAll(n)[i]) {
      assert PlainLabel(n[i]);
      assert forall j :: 0 <= j < |n[i]| ==> Lower(n[i])[j] == LowerChar(n[i][j]);
    }
  }

  /** A plain name's text is no single dot, so it is not taken for the root. */
  lemma TextNotRoot(n: Name)
    requires Plain(n) && n != []
    ensures Text(n) == Flat(n) && |Text(n)| >= 2
  {
    assert PlainLabel(n[0]);
  }

  lemma TextInjective(a: Name, b: Name)
    requires Plain(a) && Plain(b) && Text(a) == Text(b)
    ensures a == b
  {
    if a != [] { TextNotRoot(a); }
    if b != [] { TextNotRoot(b); }
    if a != [] && b != [] { FlatInjective(a, b); }
  }

  lemma SuffixText(zone: Name, name: Name)
    requires Plain(zone) && Plain(name) && zone != [] && IsSubdomain(zone, name)
    ensures var pre := name[..|name| - |zone|];
      Text(name) == Flat(pre) + Text(zone) && (pre != [] ==> Flat(pre) != "" && Flat(pre)[|Flat(pre)| - 1] == '.')
  {
    var pre := name[..|name| - |zone|];
    assert name == pre + zone;
    FlatConcat(pre, zone);
    if pre != [] { FlatEndsInDot(pre); }
  }

  lemma TextSuffix(zone: Name, name: Name, pre: string)
    requires Plain(zone) && Plain(name) && zone != []
    requires Text(name) == pre + Text(zone) && (pre == "" || pre[|pre| - 1] == '.')
    ensures IsSubdomain(zone, name)
  {
    TextNotRoot(zone);
    if name != [] {
      var k := CutAtDot(name, pre, Text(zone));
      assert Plain(name[k..]);
      FlatInjective(zone, name[k..]);
      assert Suffix(name, |zone|) == zone;
    }
  }

  /** The comparison of strings is the comparison of labels, case aside. */
  lemma SubdomainText(zone: Name, name: Name)
    requires Plain(zone) && Plain(name)
    ensures IsSubdomainText(Text(zone), Text(name)) <==> IsSubdomain(LowerAll(zone), LowerAll(name))
  {
    LowerText(zone);
    LowerText(name);
    LowerPlain(zone);
    LowerPlain(name);
    LowerSubdomainText(LowerAll(zone), LowerAll(name));
  }

  predicate Below(zone: string, name: string) {
    zone == "." || name == zone || (|name| > |zone| && EndsWith(name, zone) && name[|name| - |zone| - 1] == '.')
  }

  lemma LowerSubdomainText(zone: Name, name: Name)
    requires Plain(zone) && Plain(name)
    ensures Below(Text(zone), Text(name)) <==> IsSubdomain(zone, name)
  {
    var z, n := Text(zone), Text(name);
    if zone != [] {
      TextNotRoot(zone);
      if IsSubdomain(zone, name) {
        SuffixText(zone, name);
        var pre := Flat(name[..|name| - |zone|]);
        assert n[|pre|..] == z;
      }
      if Below(z, n) {
        var pre := n[..|n| - |z|];
        assert n == pre + z;
        TextSuffix(zone, name, pre);
      }
    }
  }

  // ------------------------------------------------------ parent, wildcard

  /** The string operations used to walk the tree are the label ones. */
  lemma ParentIsParent(n: Name)
    requires Plain(n)
    ensures ParentText(Text(n)) == Text(Parent(n))
  {
    if n != [] {
      FlatStarts(n);
      var s := Flat(n);
      assert FindDot(s) == |n[0]|;
      if n[1..] != [] { FlatEndsInDot(n[1..]); }
    } else {
      assert FindDot(".") == 0;
    }
  }

  lemma WildcardIsWildcard(n: Name)
    requires Plain(n)
    ensures WildcardText(Text(n)) == Text(WildcardOf(n))
  {
    assert WildcardOf(n)[0] == "*" && WildcardOf(n)[1..] == n;
    assert Text(WildcardOf(n)) == "*" + "." + Flat(n);
    if n != [] {
      TextNotRoot(n);
      assert "*" + "." + Flat(n) == "*." + Flat(n);
    } else {
      assert "*" + "." + "" == "*.";
    }
  }

  // ------------------------------------------------------------------ join

  /** Joining skips empty labels. */
  function NonEmpty(labels: seq<string>): seq<string> {
    if labels == [] then [] else NonEmpty(labels[..|labels| - 1]) + (if labels[|labels| - 1] == "" then [] else [labels[|labels| - 1]])
  }

  lemma NonEmptyPush(labels: seq<string>, i: nat)
    requires i < |labels|
    ensures NonEmpty(labels[..i + 1]) == if labels[i] == "" then NonEmpty(labels[..i]) else NonEmpty(labels[..i]) + [labels[i]]
  {
    assert labels[..i + 1][..i] == labels[..i];
  }

  lemma FlatPush(n: Name, l: Label)
    ensures Flat(n + [l]) == Flat(n) + l + "."
  {
    FlatConcat(n, [l]);
    var one: Name := [l];
    assert one[1..] == [];
    assert Flat(one) == l + "." + "" == l + ".";
    assert Flat(n) + (l + ".") == Flat(n) + l + ".";
  }

  lemma {:induction false} AllNonEmpty(labels: seq<string>)
    requires forall i :: 0 <= i < |labels| ==> labels[i] != ""
    ensures NonEmpty(labels) == labels
  {
    if labels != [] { AllNonEmpty(labels[..|labels| - 1]); }
  }

  /** Labels put in front of a zone. */
  method Join(labels: seq<string>, ghost zone: Name, zoneText: string) returns (s: string)
    requires Plain(zone) && zoneText == Text(zone)
    ensures s == Text(NonEmpty(labels) + zone)
  {
    s := "";
    for i := 0 to |labels|
      invariant s == Flat(NonEmpty(labels[..i]))
    {
      NonEmptyPush(labels, i);
      if labels[i] == "" {
        continue;
      }
      FlatPush(NonEmpty(labels[..i]), labels[i]);
      s := s + labels[i];
      s := s + ".";
    }
    assert labels[..|labels|] == labels;
    ghost var front := NonEmpty(labels);
    FlatConcat(front, zone);
    if zone != [] {
      TextNotRoot(zone);
      FlatEndsInDot(zone);
    }
    if front != [] {
      FlatEndsInDot(front);
    }
    if zoneText == "." {
      if s == "" {
        return ".";
      }
      assert front + zone == front;
      return s;
    }
    s := s + zoneText;
    if s == "" || s[|s| - 1] != '.' {
      s := s + ".";
    }
  }

  /** The labels with dots between them only. */
  function Dotted(n: Name): string { if n == [] then "" else Flat(n)[..|Flat(n)| - 1] }

  /** Taking the zone off again gives the labels in front of it: trimming undoes
      joining, up to case (and under the root exactly). */
  lemma TrimUndoesJoin(labels: Name, zone: Name)
    requires Plain(labels) && Plain(zone)
    ensures TrimZone(Text(labels + zone), Text(zone)) == Some(Dotted(if zone == [] then labels else LowerAll(labels)))
  {
    if zone == [] {
      assert labels + zone == labels;
      assert Lower(".") == ".";
      TrimRoot(labels);
    } else {
      var l := LowerAll(labels);
      JoinedIsBelow(labels, zone);
      JoinedLower(labels, zone);
      TextNotRoot(zone);
      if labels != [] { FlatEndsInDot(l); }
      TrimText(Text(labels + zone), Text(zone), Flat(l));
    }
  }

  lemma TrimRoot(n: Name)
    requires Plain(n)
    ensures TrimDots(Text(n)) == Dotted(n)
  {
    if n == [] {
      assert "."[..0] == "";
    } else {
      FlatEndsInDot(n);
      NoDotBefore(n);
    }
  }

  /** Only one dot ends the text of a name. */
  lemma {:induction false} NoDotBefore(n: Name)
    requires Plain(n) && n != []
    ensures |Flat(n)| >= 2 && Flat(n)[|Flat(n)| - 2] != '.'
  {
    assert PlainLabel(n[0]);
    if n[1..] == [] {
      assert Flat(n) == n[0] + ".";
    } else {
      assert Plain(n[1..]);
      NoDotBefore(n[1..]);
    }
  }

  lemma JoinedIsBelow(labels: Name, zone: Name)
    requires Plain(labels) && Plain(zone)
    ensures IsSubdomainText(Text(zone), Text(labels + zone))
  {
    LowerJoined(labels, zone);
    SubdomainText(zone, labels + zone);
  }

  lemma JoinedLower(labels: Name, zone: Name)
    requires zone != []
    ensures Lower(Text(labels + zone)) == Flat(LowerAll(labels)) + Lower(Text(zone))
  {
    LowerJoined(labels, zone);
    LowerText(labels + zone);
    LowerText(zone);
    FlatConcat(LowerAll(labels), LowerAll(zone));
  }

  lemma TrimText(name: string, zone: string, pre: string)
    requires IsSubdomainText(zone, name) && zone != "." && Lower(name) == pre + Lower(zone)
    ensures TrimZone(name, zone) == Some(if pre == "" then "" else pre[..|pre| - 1])
  {
    if pre == "" {
      assert pre + Lower(zone) == Lower(zone);
    } else {
      assert |Lower(name)| != |Lower(zone)|;
      assert (pre + Lower(zone))[..|pre| - 1] == pre[..|pre| - 1];
    }
  }

  lemma LowerJoined(labels: Name, zone: Name)
    ensures LowerAll(labels + zone) == LowerAll(labels) + LowerAll(zone)
    ensures IsSubdomain(LowerAll(zone), LowerAll(labels + zone))
  {
  }
}
