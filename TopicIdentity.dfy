/** The two pure helpers of the React `useTopic` hook: whether a topic and its
    parameters are complete enough to subscribe, and the string key that
    identifies a (topic, parameters) pair across renders. A topic segment or
    a parameter value may be `undefined` (`None`). `Object.keys(params)` is
    given as `keys`: its order is the object's insertion order, which the
    caller does not control, and `Enumerates` says it lists every key once. */
module TopicIdentity {
  import opened Wrappers
  import Text
  import U = UriComponent

  type Params = map<string, Option<string>>

  /** `keys` is a possible result of `Object.keys(params)`. */
  ghost predicate Enumerates(keys: seq<string>, params: Params) {
    && (forall k :: k in keys <==> k in params)
    && (forall i, j :: 0 <= i < j < |keys| ==> keys[i] != keys[j])
  }

  // ---------------------------------------------------------------------
  // subscriptionReady
  // ---------------------------------------------------------------------

  /** `topic.every((p) => typeof p !== "undefined")`. */
  function SegmentsDefined(topic: seq<Option<string>>): bool
    decreases |topic|
  {
    |topic| == 0 || (topic[0].Some? && SegmentsDefined(topic[1..]))
  }

  /** `Object.keys(params).every((k) => typeof params[k] !== "undefined")`. */
  function ValuesDefined(keys: seq<string>, params: Params): bool
    requires forall k :: k in keys ==> k in params
    decreases |keys|
  {
    |keys| == 0 || (params[keys[0]].Some? && ValuesDefined(keys[1..], params))
  }

  function SubscriptionReady(topic: seq<Option<string>>, keys: seq<string>, params: Params): bool
    requires forall k :: k in keys ==> k in params
  {
    SegmentsDefined(topic) && ValuesDefined(keys, params)
  }

  lemma {:induction false} SegmentsDefinedMeans(topic: seq<Option<string>>)
    ensures SegmentsDefined(topic) <==> forall i :: 0 <= i < |topic| ==> topic[i].Some?
    decreases |topic|
  {
    if |topic| > 0 {
      SegmentsDefinedMeans(topic[1..]);
      assert forall i :: 1 <= i < |topic| ==> topic[i] == topic[1..][i - 1];
    }
  }

  lemma {:induction false} ValuesDefinedMeans(keys: seq<string>, params: Params)
    requires forall k :: k in keys ==> k in params
    ensures ValuesDefined(keys, params) <==> forall k :: k in keys ==> params[k].Some?
    decreases |keys|
  {
    if |keys| > 0 {
      ValuesDefinedMeans(keys[1..], params);
      assert forall k :: k in keys <==> k == keys[0] || k in keys[1..];
    }
  }

  /** Ready exactly when every segment and every parameter value is defined;
      in particular the order `Object.keys` happens to use does not matter. */
  lemma SubscriptionReadyMeans(topic: seq<Option<string>>, keys: seq<string>, params: Params)
    requires Enumerates(keys, params)
    ensures SubscriptionReady(topic, keys, params) <==>
      && (forall i :: 0 <= i < |topic| ==> topic[i].Some?)
      && (forall k :: k in params ==> params[k].Some?)
  {
    SegmentsDefinedMeans(topic);
    ValuesDefinedMeans(keys, params);
  }

  // ---------------------------------------------------------------------
  // Sorting (`Array.prototype.sort` with the default comparison)
  // ---------------------------------------------------------------------

  /** The default sort order: compare character by character; a proper
      prefix comes first. */
  predicate Below(a: string, b: string)
    decreases |a|
  {
    |a| == 0 || (|b| > 0 && (a[0] < b[0] || (a[0] == b[0] && Below(a[1..], b[1..]))))
  }

  lemma {:induction false} BelowReflexive(a: string)
    ensures Below(a, a)
    decreases |a|
  {
    if |a| > 0 {
      BelowReflexive(a[1..]);
    }
  }

  lemma {:induction false} BelowAntisymmetric(a: string, b: string)
    requires Below(a, b) && Below(b, a)
    ensures a == b
    decreases |a|
  {
    if |a| > 0 {
      BelowAntisymmetric(a[1..], b[1..]);
      assert a == [a[0]] + a[1..] && b == [b[0]] + b[1..];
    }
  }

  lemma {:induction false} BelowTransitive(a: string, b: string, c: string)
    requires Below(a, b) && Below(b, c)
    ensures Below(a, c)
    decreases |a|
  {
    if |a| > 0 && a[0] == b[0] && b[0] == c[0] {
      BelowTransitive(a[1..], b[1..], c[1..]);
    }
  }

  lemma {:induction false} BelowTotal(a: string, b: string)
    ensures Below(a, b) || Below(b, a)
    decreases |a|
  {
    if |a| > 0 && |b| > 0 && a[0] == b[0] {
      BelowTotal(a[1..], b[1..]);
    }
  }

  ghost predicate Sorted(s: seq<string>) {
    forall i, j :: 0 <= i < j < |s| ==> Below(s[i], s[j])
  }

  function Insert(x: string, s: seq<string>): (r: seq<string>)
    decreases |s|
  {
    if s == [] then [x]
    else if Below(x, s[0]) then [x] + s
    else [s[0]] + Insert(x, s[1..])
  }

  /** `keys.sort()`, as an insertion sort; `SortedUnique` shows any correct
      sort gives the same result. */
  function Sort(s: seq<string>): (r: seq<string>)
    decreases |s|
  {
    if s == [] then [] else Insert(s[0], Sort(s[1..]))
  }

  lemma {:induction false} InsertMultiset(x: string, s: seq<string>)
    ensures multiset(Insert(x, s)) == multiset(s) + multiset{x}
    decreases |s|
  {
    if s != [] && !Below(x, s[0]) {
      InsertMultiset(x, s[1..]);
      assert s == [s[0]] + s[1..];
    }
  }

  /** A sorted sequence stays sorted under a new head below all of it. */
  lemma ConsSorted(h: string, t: seq<string>)
    requires Sorted(t) && forall y :: y in t ==> Below(h, y)
    ensures Sorted([h] + t)
  {
    var r := [h] + t;
    forall i, j | 0 <= i < j < |r| ensures Below(r[i], r[j]) {
      assert r[j] == t[j - 1];
      if i > 0 {
        assert r[i] == t[i - 1];
      }
    }
  }

  lemma {:induction false} InsertSorted(x: string, s: seq<string>)
    requires Sorted(s)
    ensures Sorted(Insert(x, s))
    decreases |s|
  {
    if s == [] {
    } else if Below(x, s[0]) {
      forall y | y in s ensures Below(x, y) {
        var j :| 0 <= j < |s| && s[j] == y;
        if j > 0 {
          BelowTransitive(x, s[0], y);
        }
      }
      ConsSorted(x, s);
    } else {
      BelowTotal(x, s[0]);
      InsertSorted(x, s[1..]);
      InsertMultiset(x, s[1..]);
      var t := Insert(x, s[1..]);
      forall y | y in t ensures Below(s[0], y) {
        assert y in multiset(s[1..]) + multiset{x};
        if y != x {
          var k :| 0 <= k < |s[1..]| && s[1..][k] == y;
          assert s[k + 1] == y;
        }
      }
      ConsSorted(s[0], t);
    }
  }

  lemma {:induction false} SortSorts(s: seq<string>)
    ensures Sorted(Sort(s)) && multiset(Sort(s)) == multiset(s)
    decreases |s|
  {
    if s != [] {
      SortSorts(s[1..]);
      InsertSorted(s[0], Sort(s[1..]));
      InsertMultiset(s[0], Sort(s[1..]));
      assert s == [s[0]] + s[1..];
    }
  }

  lemma SortedHead(a: seq<string>)
    requires Sorted(a) && |a| > 0
    ensures forall y :: y in a ==> Below(a[0], y)
  {
    BelowReflexive(a[0]);
  }

  lemma SortedTail(a: seq<string>)
    requires Sorted(a) && |a| > 0
    ensures Sorted(a[1..])
  {
    forall i, j | 0 <= i < j < |a| - 1 ensures Below(a[1..][i], a[1..][j]) {
      assert a[1..][i] == a[i + 1] && a[1..][j] == a[j + 1];
    }
  }

  lemma TailMultiset(a: seq<string>, b: seq<string>)
    requires |a| > 0 && |b| > 0 && a[0] == b[0] && multiset(a) == multiset(b)
    ensures multiset(a[1..]) == multiset(b[1..])
  {
    assert a == [a[0]] + a[1..] && b == [b[0]] + b[1..];
    assert multiset(a) == multiset{a[0]} + multiset(a[1..]);
    assert multiset(b) == multiset{a[0]} + multiset(b[1..]);
    forall x ensures multiset(a[1..])[x] == multiset(b[1..])[x] {
      assert multiset(a)[x] == multiset{a[0]}[x] + multiset(a[1..])[x];
      assert multiset(b)[x] == multiset{a[0]}[x] + multiset(b[1..])[x];
    }
  }

  /** Two sorted sequences holding the same elements are equal. */
  lemma {:induction false} SortedUnique(a: seq<string>, b: seq<string>)
    requires Sorted(a) && Sorted(b) && multiset(a) == multiset(b)
    ensures a == b
    decreases |a|
  {
    assert |a| == |multiset(a)| == |multiset(b)| == |b|;
    if a != [] {
      SortedHead(a);
      SortedHead(b);
      assert a[0] in multiset(b) && b[0] in multiset(a);
      BelowAntisymmetric(a[0], b[0]);
      TailMultiset(a, b);
      SortedTail(a);
      SortedTail(b);
      SortedUnique(a[1..], b[1..]);
      assert a == [a[0]] + a[1..] && b == [b[0]] + b[1..];
    }
  }

  lemma {:induction false} DistinctMultiset(s: seq<string>, x: string)
    requires forall i, j :: 0 <= i < j < |s| ==> s[i] != s[j]
    ensures multiset(s)[x] == if x in s then 1 else 0
    decreases |s|
  {
    if s != [] {
      DistinctMultiset(s[1..], x);
      assert s == [s[0]] + s[1..];
      assert s[0] !in s[1..];
    }
  }

  // ---------------------------------------------------------------------
  // identityKey
  // ---------------------------------------------------------------------

  /** `p ?? ""`. */
  function OrEmpty(p: Option<string>): string {
    if p.Some? then p.value else ""
  }

  /** `topic.map((p) => encodeURIComponent(p ?? ""))`. */
  function EncodedSegments(topic: seq<Option<string>>): (r: seq<string>)
    ensures |r| == |topic|
  {
    seq(|topic|, i requires 0 <= i < |topic| => U.Encode(OrEmpty(topic[i])))
  }

  /** `${encodeURIComponent(k)}=${encodeURIComponent(params[k] ?? "")}`. */
  function Pair(k: string, params: Params): string
    requires k in params
  {
    U.Encode(k) + "=" + U.Encode(OrEmpty(params[k]))
  }

  function Pairs(ks: seq<string>, params: Params): (r: seq<string>)
    requires forall k :: k in ks ==> k in params
    ensures |r| == |ks|
  {
    seq(|ks|, i requires 0 <= i < |ks| => Pair(ks[i], params))
  }

  lemma SortKeeps(s: seq<string>, x: string)
    ensures x in Sort(s) <==> x in s
  {
    SortSorts(s);
    assert x in multiset(Sort(s)) <==> x in multiset(s);
  }

  function TopicPart(topic: seq<Option<string>>): string {
    Text.Join(EncodedSegments(topic), '/')
  }

  function ParamsPart(keys: seq<string>, params: Params): string
    requires forall k :: k in keys ==> k in params
  {
    var sorted := Sort(keys);
    assert forall k :: k in sorted ==> k in params by {
      forall k | k in sorted ensures k in params { SortKeeps(keys, k); }
    }
    Text.Join(Pairs(sorted, params), '&')
  }

  /** `identityKey(topic, params)`: the encoded segments joined by `/`, a
      `?`, then the `k=v` pairs in sorted key order joined by `&`. */
  function IdentityKey(topic: seq<Option<string>>, keys: seq<string>, params: Params): string
    requires forall k :: k in keys ==> k in params
  {
    TopicPart(topic) + "?" + ParamsPart(keys, params)
  }

  /** The key does not depend on the order in which the parameters were
      inserted. */
  lemma OrderIndependent(topic: seq<Option<string>>, keys1: seq<string>, keys2: seq<string>, params: Params)
    requires Enumerates(keys1, params) && Enumerates(keys2, params)
    ensures IdentityKey(topic, keys1, params) == IdentityKey(topic, keys2, params)
  {
    forall x ensures multiset(keys1)[x] == multiset(keys2)[x] {
      DistinctMultiset(keys1, x);
      DistinctMultiset(keys2, x);
    }
    assert multiset(keys1) == multiset(keys2);
    SortSorts(keys1);
    SortSorts(keys2);
    SortedUnique(Sort(keys1), Sort(keys2));
  }

  /** An undefined segment gives the same key as an empty one. */
  lemma UndefinedSegmentIsEmpty(topic: seq<Option<string>>, i: nat, keys: seq<string>, params: Params)
    requires i < |topic| && forall k :: k in keys ==> k in params
    ensures IdentityKey(topic[i := None], keys, params) == IdentityKey(topic[i := Some("")], keys, params)
  {
    assert EncodedSegments(topic[i := None]) == EncodedSegments(topic[i := Some("")]);
  }

  /** An undefined parameter value gives the same key as an empty one. */
  lemma UndefinedValueIsEmpty(topic: seq<Option<string>>, keys: seq<string>, params: Params, k: string)
    requires forall x :: x in keys ==> x in params
    requires k in params
    ensures IdentityKey(topic, keys, params[k := None]) == IdentityKey(topic, keys, params[k := Some("")])
  {
    var sorted := Sort(keys);
    forall x | x in sorted ensures x in params { SortKeeps(keys, x); }
    assert Pairs(sorted, params[k := None]) == Pairs(sorted, params[k := Some("")]);
  }

  /** Without parameters the key is the topic part followed by `?`. */
  lemma NoParamsEndsInQuestionMark(topic: seq<Option<string>>, keys: seq<string>, params: Params)
    requires Enumerates(keys, params) && keys == []
    ensures IdentityKey(topic, keys, params) == TopicPart(topic) + "?"
    ensures var key := IdentityKey(topic, keys, params); key[|key| - 1] == '?'
  {
    assert params == map[];
  }

  /** The empty topic and the topic of one empty segment share a key. */
  lemma EmptyTopicCollides()
    ensures IdentityKey([], [], map[]) == IdentityKey([Some("")], [], map[]) == "?"
  {
    assert EncodedSegments([Some("")]) == [""];
  }

  lemma JoinedFree(parts: seq<string>, sep: char, x: char)
    requires Text.Free(parts, x) && x != sep
    ensures x !in Text.Join(parts, sep)
  {
    Text.JoinAvoids(parts, sep, x);
  }

  lemma EncodedFree(topic: seq<Option<string>>, x: char)
    requires x == '/' || x == '?' || x == '&' || x == '='
    ensures Text.Free(EncodedSegments(topic), x)
  {
    forall i | 0 <= i < |topic| ensures x !in EncodedSegments(topic)[i] {
      if x in U.Encode(OrEmpty(topic[i])) {
        U.EncodeAlphabet(OrEmpty(topic[i]), x);
      }
    }
  }

  lemma PairsFree(ks: seq<string>, params: Params)
    requires forall k :: k in ks ==> k in params
    ensures Text.Free(Pairs(ks, params), '&')
  {
    forall i | 0 <= i < |ks| ensures '&' !in Pairs(ks, params)[i] {
      var k := ks[i];
      if '&' in U.Encode(k) {
        U.EncodeAlphabet(k, '&');
      }
      if '&' in U.Encode(OrEmpty(params[k])) {
        U.EncodeAlphabet(OrEmpty(params[k]), '&');
      }
    }
  }

  lemma PairSplits(k1: string, p1: Params, k2: string, p2: Params)
    requires k1 in p1 && k2 in p2 && Pair(k1, p1) == Pair(k2, p2)
    ensures k1 == k2 && OrEmpty(p1[k1]) == OrEmpty(p2[k2])
  {
    if '=' in U.Encode(k1) {
      U.EncodeAlphabet(k1, '=');
    }
    if '=' in U.Encode(k2) {
      U.EncodeAlphabet(k2, '=');
    }
    Text.SplitAtFirst(U.Encode(k1), U.Encode(OrEmpty(p1[k1])), U.Encode(k2), U.Encode(OrEmpty(p2[k2])), '=');
    U.EncodeInjective(k1, k2);
    U.EncodeInjective(OrEmpty(p1[k1]), OrEmpty(p2[k2]));
  }

  lemma JoinNonEmpty(parts: seq<string>, sep: char)
    requires |parts| > 0 && |parts[0]| > 0
    ensures |Text.Join(parts, sep)| > 0
  {
  }

  /** With a non-empty topic and every segment and value defined, distinct
      (topic, parameters) pairs have distinct keys. */
  lemma IdentityKeyInjective(topic1: seq<Option<string>>, keys1: seq<string>, params1: Params,
                             topic2: seq<Option<string>>, keys2: seq<string>, params2: Params)
    requires Enumerates(keys1, params1) && Enumerates(keys2, params2)
    requires |topic1| > 0 && |topic2| > 0
    requires forall i :: 0 <= i < |topic1| ==> topic1[i].Some?
    requires forall i :: 0 <= i < |topic2| ==> topic2[i].Some?
    requires forall k :: k in params1 ==> params1[k].Some?
    requires forall k :: k in params2 ==> params2[k].Some?
    requires IdentityKey(topic1, keys1, params1) == IdentityKey(topic2, keys2, params2)
    ensures topic1 == topic2 && params1 == params2
  {
    // The topic part has no `?`, so the key splits at its first `?`.
    EncodedFree(topic1, '?');
    EncodedFree(topic2, '?');
    JoinedFree(EncodedSegments(topic1), '/', '?');
    JoinedFree(EncodedSegments(topic2), '/', '?');
    Text.SplitAtFirst(TopicPart(topic1), ParamsPart(keys1, params1), TopicPart(topic2), ParamsPart(keys2, params2), '?');

    // Topics.
    EncodedFree(topic1, '/');
    EncodedFree(topic2, '/');
    Text.JoinInjective(EncodedSegments(topic1), EncodedSegments(topic2), '/');
    forall i | 0 <= i < |topic1| ensures topic1[i] == topic2[i] {
      assert EncodedSegments(topic1)[i] == EncodedSegments(topic2)[i];
      U.EncodeInjective(OrEmpty(topic1[i]), OrEmpty(topic2[i]));
    }

    // Parameters.
    var s1, s2 := Sort(keys1), Sort(keys2);
    forall k ensures k in s1 <==> k in params1 { SortKeeps(keys1, k); }
    forall k ensures k in s2 <==> k in params2 { SortKeeps(keys2, k); }
    var ps1, ps2 := Pairs(s1, params1), Pairs(s2, params2);
    assert Text.Join(ps1, '&') == Text.Join(ps2, '&');
    if |s1| > 0 && |s2| > 0 {
      PairsFree(s1, params1);
      PairsFree(s2, params2);
      Text.JoinInjective(ps1, ps2, '&');
      forall i | 0 <= i < |s1| ensures s1[i] == s2[i] && params1[s1[i]] == params2[s2[i]] {
        assert ps1[i] == ps2[i];
        PairSplits(s1[i], params1, s2[i], params2);
      }
      assert s1 == s2;
    } else if |s1| > 0 {
      JoinNonEmpty(ps1, '&');
    } else if |s2| > 0 {
      JoinNonEmpty(ps2, '&');
    }
    assert params1.Keys == params2.Keys;
    forall k | k in params1 ensures params1[k] == params2[k] {
      var i :| 0 <= i < |s1| && s1[i] == k;
    }
  }
}
