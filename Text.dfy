/** `Array.prototype.join` with a one-character separator, and the facts that
    make a joined string decodable again. */
module Text {

  /** `parts.join(sep)`. */
  function Join(parts: seq<string>, sep: char): (r: string)
    ensures |parts| == 1 ==> r == parts[0]
    decreases |parts|
  {
    if parts == [] then ""
    else if |parts| == 1 then parts[0]
    else parts[0] + [sep] + Join(parts[1..], sep)
  }

  /** No part contains `x`. */
  predicate Free(parts: seq<string>, x: char) {
    forall i :: 0 <= i < |parts| ==> x !in parts[i]
  }

  /** A character found in no part and distinct from the separator is not in
      the joined string. */
  lemma {:induction false} JoinAvoids(parts: seq<string>, sep: char, x: char)
    requires Free(parts, x) && x != sep
    ensures x !in Join(parts, sep)
    decreases |parts|
  {
    if |parts| > 1 {
      JoinAvoids(parts[1..], sep, x);
    }
  }

  /** Two strings that each have exactly one leading `x`-free prefix before an
      `x` split the same way at their first `x`. */
  lemma SplitAtFirst(a: string, b: string, c: string, d: string, x: char)
    requires x !in a && x !in c
    requires a + [x] + b == c + [x] + d
    ensures a == c && b == d
  {
    var s := a + [x] + b;
    assert s[|a|] == x && s[|c|] == x;
    assert forall i :: 0 <= i < |a| ==> s[i] == a[i];
    assert forall i :: 0 <= i < |c| ==> s[i] == c[i];
    if |a| == |c| {
      assert a == s[..|a|] == c;
      assert b == s[|a| + 1..] == d;
    }
  }

  /** Joining non-empty lists of separator-free parts is injective. */
  lemma {:induction false} JoinInjective(ps: seq<string>, qs: seq<string>, sep: char)
    requires |ps| > 0 && |qs| > 0
    requires Free(ps, sep) && Free(qs, sep)
    requires Join(ps, sep) == Join(qs, sep)
    ensures ps == qs
    decreases |ps|
  {
    assert |qs| > 1 ==> Join(qs, sep)[|qs[0]|] == sep;
    assert |ps| > 1 ==> Join(ps, sep)[|ps[0]|] == sep;
    if |ps| > 1 && |qs| > 1 {
      assert Free(ps[1..], sep) && Free(qs[1..], sep);
      SplitAtFirst(ps[0], Join(ps[1..], sep), qs[0], Join(qs[1..], sep), sep);
      JoinInjective(ps[1..], qs[1..], sep);
    }
  }
}
