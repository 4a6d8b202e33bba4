/** The older copy of the patch engine kept in the todo example
    (examples/todo/src/topical/updates.ts). Its `updateIn` is the same code
    as the client library's and is `Patch.UpdateIn`; its `applyUpdate`
    differs only in Splice, which has no array check and no "end" sentinel. */
module TodoPatch {
  import opened Wrappers
  import opened Json
  import P = Patch

  /** The callback of Splice in the todo copy. */
  function SpliceAt(at: Option<int>, values: seq<Json>): P.Callback {
    (list: Json) => SpliceInto(at, values, list)
  }

  /** `[...list.slice(0, index), ...values, ...list.slice(index)]` with no array
      check. A JSON `null` index is converted to 0 by `slice`, so it inserts at
      the front; a string is spread into its characters; anything without
      `slice` throws. */
  function SpliceInto(at: Option<int>, values: seq<Json>, list: Json): (r: Result<Json, P.Error>)
    ensures list.Arr? && at.Some? && 0 <= at.value <= |list.elems| ==>
      r == Success(Arr(list.elems[..at.value] + values + list.elems[at.value..]))
    ensures list.Arr? && at.None? ==> r == Success(Arr(values + list.elems))
    ensures list.Str? && at.Some? && 0 <= at.value <= |list.s| ==>
      r == Success(Arr(Chars(list.s)[..at.value] + values + Chars(list.s)[at.value..]))
    ensures list.Str? && at.None? ==> r == Success(Arr(values + Chars(list.s)))
    ensures r.Failure? <==> !list.Arr? && !list.Str?
    ensures r.Failure? ==> r.error == P.TypeError
  {
    var i := if at.None? then 0 else at.value;
    match list
    case Arr(s) =>
      assert at.None? ==> Slice(s, 0, i) == [] && SliceFrom(s, i) == s && [] + values + s == values + s;
      Success(Arr(Slice(s, 0, i) + values + SliceFrom(s, i)))
    case Str(s) =>
      assert at.None? ==> Slice(Chars(s), 0, i) == [] && SliceFrom(Chars(s), i) == Chars(s) && [] + values + Chars(s) == values + Chars(s);
      Success(Arr(Slice(Chars(s), 0, i) + values + SliceFrom(Chars(s), i)))
    case _ => Failure(P.TypeError)
  }

  /** `applyUpdate(current, update)` of the todo copy. */
  function ApplyUpdate(g: P.IndexGuard, current: Json, u: P.Update): Result<Json, P.Error> {
    match u
    case Set(path, v) => P.UpdateIn(g, current, path, P.SetTo(v))
    case Delete(path, key) => P.UpdateIn(g, current, path, P.DeleteKey(key))
    case Splice(path, at, values) => P.UpdateIn(g, current, path, SpliceAt(at, values))
    case Remove(path, index, count) => P.UpdateIn(g, current, path, P.RemoveRange(index, count))
    case Other(_, _) => Failure(P.UnhandledUpdateType)
  }

  /** Set, Delete, Remove and unknown tags behave exactly as in the client
      library's copy. */
  lemma AgreesExceptSplice(g: P.IndexGuard, current: Json, u: P.Update)
    requires !u.Splice?
    ensures ApplyUpdate(g, current, u) == P.ApplyUpdate(g, current, u)
  {
  }

  /** Splice in the todo copy inserts at a numeric index like the client
      library's, but a null index inserts at the front instead of the end, a
      string node is accepted, and any other non-array throws a TypeError
      rather than "expected array". */
  lemma SpliceInserts(g: P.IndexGuard, current: Json, path: P.Path, at: Option<int>, values: seq<Json>)
    requires P.Walkable(g, path)
    ensures var r := ApplyUpdate(g, current, P.Splice(path, at, values));
      var node := P.Lookup(current, path);
      && (node.Some? ==> (r.Success? <==> node.value.Arr? || node.value.Str?))
      && (node.Some? && !node.value.Arr? && !node.value.Str? ==> r == Failure(P.TypeError))
      && (node.Some? && node.value.Arr? && at.None? ==>
            P.Lookup(r.value, path) == Some(Arr(values + node.value.elems)))
      && (node.Some? && node.value.Arr? && at.Some? && 0 <= at.value <= |node.value.elems| ==>
            var l := node.value.elems;
            P.Lookup(r.value, path) == Some(Arr(l[..at.value] + values + l[at.value..])))
  {
    P.WalkAt(g, current, path, SpliceAt(at, values));
    var node := P.Lookup(current, path);
    if node.Some? {
      assert SpliceAt(at, values)(node.value) == SpliceInto(at, values, node.value);
    }
  }

  /** On the same array and the same null index, the two copies disagree
      whenever both the list and the inserted values are non-empty. */
  lemma NullIndexCopiesDisagree()
    ensures ApplyUpdate(P.InRange, Arr([Num(1)]), P.Splice([], None, [Num(2)])) == Success(Arr([Num(2), Num(1)]))
    ensures P.ApplyUpdate(P.InRange, Arr([Num(1)]), P.Splice([], None, [Num(2)])) == Success(Arr([Num(1), Num(2)]))
  {
    assert SpliceAt(None, [Num(2)])(Arr([Num(1)])) == SpliceInto(None, [Num(2)], Arr([Num(1)]));
    assert P.InsertAt(None, [Num(2)])(Arr([Num(1)])) == P.Insert(None, [Num(2)], Arr([Num(1)]));
    assert [Num(2)] + [Num(1)] == [Num(2), Num(1)] && [Num(1)] + [Num(2)] == [Num(1), Num(2)];
  }
}
