/** The patch engine of the client library (client_js/src/updates.ts):
    `updateIn` walks a path of field names and array indices, rebuilding
    every container on the way with copy-on-write, and `applyUpdate`
    interprets the four tagged patch operations.

    Both copies of `updateIn` in the repository guard numeric steps with
    `key <= value.length` and throw "index out of range", which rejects every
    index that is in range. `IndexGuard` selects either that guard as written
    or the evidently intended one (reject unless 0 <= key < length); the
    session model folds patches with the intended guard. */
module Patch {
  import opened Wrappers
  import opened Json

  /** One step of a patch path: a property name or an array index. */
  datatype Key = Field(name: string) | Index(i: int)

  type Path = seq<Key>

  /** The exceptions a patch can throw. `TypeError` stands for JavaScript's own
      runtime errors: reading a property of null or undefined, destructuring
      them, or calling `slice` on a value that has no such method. */
  datatype Error = ExpectedArray | IndexOutOfRange | UnhandledUpdateType | TypeError

  /** An operation tag that `applyUpdate` has no case for. */
  type UnknownTag = t: int | t < 0 || 3 < t witness 4

  /** A patch operation as received on the wire, `[tag, path, ...args]`:
      tag 0 Set, 1 Delete, 2 Splice (a `None` index is the JSON `null`
      "end" sentinel), 3 Remove. `Other` is any other tag. */
  datatype Update =
    | Set(path: Path, value: Json)
    | Delete(path: Path, key: string)
    | Splice(path: Path, at: Option<int>, values: seq<Json>)
    | Remove(path: Path, index: int, count: int)
    | Other(tag: UnknownTag, path: Path)

  datatype IndexGuard = AsWritten | InRange

  /** Whether a numeric path step `key` into an array of length `len` throws
      "index out of range". */
  predicate Rejects(g: IndexGuard, key: int, len: nat) {
    match g
    case AsWritten => key <= len
    case InRange => key < 0 || key >= len
  }

  type Callback = Json -> Result<Json, Error>

  /** `updateIn(value, path, callback)`. */
  function UpdateIn(g: IndexGuard, value: Json, path: Path, f: Callback): Result<Json, Error>
    decreases |path|
  {
    if path == [] then f(value)
    else match path[0]
      case Index(k) =>
        if !value.Arr? then Failure(ExpectedArray)
        else if Rejects(g, k, |value.elems|) then Failure(IndexOutOfRange)
        else
          var child :- UpdateIn(g, ElementAt(value.elems, k), path[1..], f);
          Success(Arr(Slice(value.elems, 0, k) + [child] + SliceFrom(value.elems, k + 1)))
      case Field(name) =>
        if IsNullish(value) then Failure(TypeError)
        else
          var child :- UpdateIn(g, Prop(value, name), path[1..], f);
          Success(Obj(OwnEntries(value)[name := child]))
  }

  /** The callback of Set: `() => value`. */
  function SetTo(v: Json): Callback {
    (_: Json) => Success(v)
  }

  /** The callback of Delete: `({ [key]: _, ...rest }) => rest`. */
  function DeleteKey(key: string): Callback {
    (node: Json) => Without(node, key)
  }

  /** Destructuring `{ [key]: _, ...rest }` out of `node`: throws on null and
      undefined, otherwise the node's own properties less `key`. */
  function Without(node: Json, key: string): (r: Result<Json, Error>)
    ensures IsNullish(node) <==> r.Failure?
    ensures r.Success? ==> r.value.Obj? && r.value.fields.Keys == OwnEntries(node).Keys - {key}
    ensures r.Success? ==> forall k :: k in r.value.fields ==> r.value.fields[k] == OwnEntries(node)[k]
  {
    if IsNullish(node) then Failure(TypeError) else Success(Obj(OwnEntries(node) - {key}))
  }

  /** The callback of Splice in client_js. */
  function InsertAt(at: Option<int>, values: seq<Json>): Callback {
    (list: Json) => Insert(at, values, list)
  }

  /** An array check, then `[...list.slice(0, i), ...values, ...list.slice(i)]`
      where a null index stands for the list's length. */
  function Insert(at: Option<int>, values: seq<Json>, list: Json): (r: Result<Json, Error>)
    ensures !list.Arr? ==> r == Failure(ExpectedArray)
    ensures list.Arr? && at.None? ==> r == Success(Arr(list.elems + values))
    ensures list.Arr? && at.Some? && 0 <= at.value <= |list.elems| ==>
      r == Success(Arr(list.elems[..at.value] + values + list.elems[at.value..]))
    ensures list.Arr? ==> r.Success?
  {
    if !list.Arr? then Failure(ExpectedArray)
    else
      var i := if at.None? then |list.elems| else at.value;
      assert at.None? ==>
        Slice(list.elems, 0, i) == list.elems && SliceFrom(list.elems, i) == list.elems[|list.elems|..] == [];
      assert at.None? ==> list.elems + values + [] == list.elems + values;
      Success(Arr(Slice(list.elems, 0, i) + values + SliceFrom(list.elems, i)))
  }

  /** The callback of Remove. */
  function RemoveRange(index: int, count: int): Callback {
    (list: Json) => Cut(index, count, list)
  }

  /** `[...list.slice(0, index), ...list.slice(index + count)]`. There is no
      array check: a string has `slice` too and is spread into its characters;
      calling `slice` on anything else throws. */
  function Cut(index: int, count: int, list: Json): (r: Result<Json, Error>)
    ensures list.Arr? && 0 <= index && 0 <= count && index + count <= |list.elems| ==>
      r == Success(Arr(list.elems[..index] + list.elems[index + count..]))
    ensures list.Str? && 0 <= index && 0 <= count && index + count <= |list.s| ==>
      r == Success(Arr(Chars(list.s)[..index] + Chars(list.s)[index + count..]))
    ensures r.Failure? <==> !list.Arr? && !list.Str?
    ensures r.Failure? ==> r.error == TypeError
  {
    match list
    case Arr(s) => Success(Arr(Slice(s, 0, index) + SliceFrom(s, index + count)))
    case Str(s) => Success(Arr(Slice(Chars(s), 0, index) + SliceFrom(Chars(s), index + count)))
    case _ => Failure(TypeError)
  }

  /** `applyUpdate(current, update)`. */
  function ApplyUpdate(g: IndexGuard, current: Json, u: Update): Result<Json, Error> {
    match u
    case Set(path, v) => UpdateIn(g, current, path, SetTo(v))
    case Delete(path, key) => UpdateIn(g, current, path, DeleteKey(key))
    case Splice(path, index, values) => UpdateIn(g, current, path, InsertAt(index, values))
    case Remove(path, index, count) => UpdateIn(g, current, path, RemoveRange(index, count))
    case Other(_, _) => Failure(UnhandledUpdateType)
  }

  /** `updates.reduce(applyUpdate, value)`: the batch applied in order, each
      operation to the result of the one before; the first exception aborts. */
  function ApplyAll(g: IndexGuard, value: Json, updates: seq<Update>): Result<Json, Error>
    decreases |updates|
  {
    if updates == [] then Success(value)
    else
      var next :- ApplyUpdate(g, value, updates[0]);
      ApplyAll(g, next, updates[1..])
  }

  /** The node at `path` as the intended walk reaches it: a field of any value
      other than null or undefined, or an element of an array at an index in
      range. `None` when the walk cannot get there. */
  function Lookup(v: Json, path: Path): Option<Json>
    decreases |path|
  {
    if path == [] then Some(v)
    else match path[0]
      case Field(name) => if IsNullish(v) then None else Lookup(Prop(v, name), path[1..])
      case Index(k) => if v.Arr? && 0 <= k < |v.elems| then Lookup(v.elems[k], path[1..]) else None
  }

  predicate FieldsOnly(path: Path) {
    forall i :: 0 <= i < |path| ==> path[i].Field?
  }

  // ---------------------------------------------------------------------
  // One step of the walk

  /** An empty path hands the root itself to the callback. */
  lemma EmptyPathAppliesToRoot(g: IndexGuard, v: Json, f: Callback)
    ensures UpdateIn(g, v, [], f) == f(v)
  {
  }

  /** A field step reads the field (throwing on null or undefined) and rebuilds
      the mapping with that one key replaced and every other key kept. */
  lemma FieldStepReplacesOnlyThatKey(g: IndexGuard, v: Json, name: string, rest: Path, f: Callback)
    ensures IsNullish(v) ==> UpdateIn(g, v, [Field(name)] + rest, f) == Failure(TypeError)
    ensures !IsNullish(v) ==>
      var inner := UpdateIn(g, Prop(v, name), rest, f);
      var r := UpdateIn(g, v, [Field(name)] + rest, f);
      (inner.Failure? ==> r == Failure(inner.error)) &&
      (inner.Success? ==>
        && r.Success? && r.value.Obj?
        && r.value.fields.Keys == OwnEntries(v).Keys + {name}
        && r.value.fields[name] == inner.value
        && forall k :: k in OwnEntries(v) && k != name ==> r.value.fields[k] == OwnEntries(v)[k])
  {
    var p := [Field(name)] + rest;
    assert p[0] == Field(name) && p[1..] == rest;
  }

  /** A numeric step throws "expected array" on anything but an array, and
      with the guard as written throws "index out of range" for every index up
      to and including the length: every index that is in range. */
  lemma AsWrittenIndexStepRejects(v: Json, k: int, rest: Path, f: Callback)
    ensures !v.Arr? ==> UpdateIn(AsWritten, v, [Index(k)] + rest, f) == Failure(ExpectedArray)
    ensures v.Arr? && k <= |v.elems| ==> UpdateIn(AsWritten, v, [Index(k)] + rest, f) == Failure(IndexOutOfRange)
  {
    var p := [Index(k)] + rest;
    assert p[0] == Index(k) && p[1..] == rest;
  }

  /** A numeric step past the guard as written (`key > length`) keeps every
      original element and appends one child, computed from `undefined`. */
  lemma AsWrittenIndexStepAppends(s: seq<Json>, k: int, rest: Path, f: Callback)
    requires k > |s|
    ensures var inner := UpdateIn(AsWritten, Undefined, rest, f);
      var r := UpdateIn(AsWritten, Arr(s), [Index(k)] + rest, f);
      (inner.Failure? ==> r == Failure(inner.error)) &&
      (inner.Success? ==> r == Success(Arr(s + [inner.value])))
  {
    var p := [Index(k)] + rest;
    assert p[0] == Index(k) && p[1..] == rest;
    assert Slice(s, 0, k) == s && SliceFrom(s, k + 1) == [] && ElementAt(s, k) == Undefined;
    var inner := UpdateIn(AsWritten, Undefined, rest, f);
    if inner.Success? {
      assert Slice(s, 0, k) + [inner.value] + SliceFrom(s, k + 1) == s + [inner.value];
    }
  }

  /** With the intended guard, a numeric step replaces exactly the element at
      an in-range index and rejects every other index. */
  lemma InRangeIndexStepReplacesElement(s: seq<Json>, k: int, rest: Path, f: Callback)
    ensures !(0 <= k < |s|) ==> UpdateIn(InRange, Arr(s), [Index(k)] + rest, f) == Failure(IndexOutOfRange)
    ensures 0 <= k < |s| ==>
      var inner := UpdateIn(InRange, s[k], rest, f);
      var r := UpdateIn(InRange, Arr(s), [Index(k)] + rest, f);
      (inner.Failure? ==> r == Failure(inner.error)) &&
      (inner.Success? ==> r == Success(Arr(s[k := inner.value])))
  {
    var p := [Index(k)] + rest;
    assert p[0] == Index(k) && p[1..] == rest;
    if 0 <= k < |s| {
      var inner := UpdateIn(InRange, s[k], rest, f);
      if inner.Success? {
        assert s[..k] + [inner.value] + s[k + 1..] == s[k := inner.value];
      }
    }
  }

  // ---------------------------------------------------------------------
  // The whole walk

  /** The walk with the intended guard succeeds exactly when the node at the
      path exists and the callback accepts it, and the result then holds the
      callback's value at that path. */
  lemma {:induction false} UpdateInAt(v: Json, path: Path, f: Callback)
    ensures UpdateIn(InRange, v, path, f).Success? <==>
      Lookup(v, path).Some? && f(Lookup(v, path).value).Success?
    ensures UpdateIn(InRange, v, path, f).Success? ==>
      Lookup(UpdateIn(InRange, v, path, f).value, path) == Some(f(Lookup(v, path).value).value)
    ensures Lookup(v, path).Some? && f(Lookup(v, path).value).Failure? ==>
      UpdateIn(InRange, v, path, f) == Failure(f(Lookup(v, path).value).error)
    decreases |path|
  {
    if path != [] {
      var rest := path[1..];
      match path[0]
      case Field(name) =>
        if !IsNullish(v) {
          UpdateInAt(Prop(v, name), rest, f);
          var inner := UpdateIn(InRange, Prop(v, name), rest, f);
          if inner.Success? {
            var r := Obj(OwnEntries(v)[name := inner.value]);
            assert Prop(r, name) == inner.value;
          }
        }
      case Index(k) =>
        if v.Arr? && 0 <= k < |v.elems| {
          var s := v.elems;
          UpdateInAt(s[k], rest, f);
          var inner := UpdateIn(InRange, s[k], rest, f);
          if inner.Success? {
            var elems := Slice(s, 0, k) + [inner.value] + SliceFrom(s, k + 1);
            assert elems[k] == inner.value;
          }
        }
    }
  }

  /** The guard only matters for numeric steps: on a path of field names the
      code as written and the intended code agree. */
  lemma {:induction false} GuardIrrelevantForFieldPaths(v: Json, path: Path, f: Callback)
    requires FieldsOnly(path)
    ensures UpdateIn(AsWritten, v, path, f) == UpdateIn(InRange, v, path, f)
    decreases |path|
  {
    if path != [] {
      assert path[0].Field?;
      if !IsNullish(v) {
        GuardIrrelevantForFieldPaths(Prop(v, path[0].name), path[1..], f);
      }
    }
  }

  /** The bug, concretely: setting element 0 of a one-element array throws
      with the guard as written, while the intended walk replaces it. */
  lemma AsWrittenRejectsFirstElement()
    ensures ApplyUpdate(AsWritten, Arr([Num(1)]), Set([Index(0)], Num(2))) == Failure(IndexOutOfRange)
    ensures ApplyUpdate(InRange, Arr([Num(1)]), Set([Index(0)], Num(2))) == Success(Arr([Num(2)]))
  {
    AsWrittenIndexStepRejects(Arr([Num(1)]), 0, [], SetTo(Num(2)));
    assert [Index(0)] + [] == [Index(0)];
    InRangeIndexStepReplacesElement([Num(1)], 0, [], SetTo(Num(2)));
    assert UpdateIn(InRange, Num(1), [], SetTo(Num(2))) == Success(Num(2));
    assert [Num(1)][0 := Num(2)] == [Num(2)];
  }

  // ---------------------------------------------------------------------
  // The four operations

  /** Where the per-operation lemmas hold: with the intended guard on every
      path, and with the guard as written on paths of field names. */
  predicate Walkable(g: IndexGuard, path: Path) {
    g == InRange || FieldsOnly(path)
  }

  lemma WalkAt(g: IndexGuard, v: Json, path: Path, f: Callback)
    requires Walkable(g, path)
    ensures UpdateIn(g, v, path, f) == UpdateIn(InRange, v, path, f)
    ensures UpdateIn(g, v, path, f).Success? <==>
      Lookup(v, path).Some? && f(Lookup(v, path).value).Success?
    ensures UpdateIn(g, v, path, f).Success? ==>
      Lookup(UpdateIn(g, v, path, f).value, path) == Some(f(Lookup(v, path).value).value)
    ensures Lookup(v, path).Some? && f(Lookup(v, path).value).Failure? ==>
      UpdateIn(g, v, path, f) == Failure(f(Lookup(v, path).value).error)
  {
    if g == AsWritten {
      GuardIrrelevantForFieldPaths(v, path, f);
    }
    UpdateInAt(v, path, f);
  }

  /** Set (tag 0) succeeds exactly when the path leads to a node, and then
      that node is the given value. */
  lemma SetReplacesNode(g: IndexGuard, current: Json, path: Path, v: Json)
    requires Walkable(g, path)
    ensures ApplyUpdate(g, current, Set(path, v)).Success? <==> Lookup(current, path).Some?
    ensures ApplyUpdate(g, current, Set(path, v)).Success? ==>
      Lookup(ApplyUpdate(g, current, Set(path, v)).value, path) == Some(v)
  {
    WalkAt(g, current, path, SetTo(v));
  }

  /** Delete (tag 1) succeeds exactly when the node at the path is neither null
      nor undefined, and then leaves there a mapping with exactly the named key
      removed: every other own property keeps its value. */
  lemma DeleteRemovesKey(g: IndexGuard, current: Json, path: Path, key: string)
    requires Walkable(g, path)
    ensures var r := ApplyUpdate(g, current, Delete(path, key));
      var node := Lookup(current, path);
      && (r.Success? <==> node.Some? && !IsNullish(node.value))
      && (node.Some? && IsNullish(node.value) ==> r == Failure(TypeError))
      && (r.Success? ==>
            exists m :: Lookup(r.value, path) == Some(Obj(m))
              && m.Keys == OwnEntries(node.value).Keys - {key}
              && forall k :: k in m ==> m[k] == OwnEntries(node.value)[k])
  {
    WalkAt(g, current, path, DeleteKey(key));
    var node := Lookup(current, path);
    if node.Some? {
      assert DeleteKey(key)(node.value) == Without(node.value, key);
    }
  }

  /** Splice (tag 2) throws "expected array" unless the node at the path is an
      array; otherwise it inserts the values at the index (a null index means
      the end), keeping the existing elements in order. */
  lemma SpliceInserts(g: IndexGuard, current: Json, path: Path, at: Option<int>, values: seq<Json>)
    requires Walkable(g, path)
    ensures var r := ApplyUpdate(g, current, Splice(path, at, values));
      var node := Lookup(current, path);
      && (node.Some? && !node.value.Arr? ==> r == Failure(ExpectedArray))
      && (node.Some? && node.value.Arr? ==> r.Success?)
      && (node.Some? && node.value.Arr? && at.None? ==>
            Lookup(r.value, path) == Some(Arr(node.value.elems + values)))
      && (node.Some? && node.value.Arr? && at.Some? && 0 <= at.value <= |node.value.elems| ==>
            var l := node.value.elems;
            Lookup(r.value, path) == Some(Arr(l[..at.value] + values + l[at.value..])))
  {
    WalkAt(g, current, path, InsertAt(at, values));
    var node := Lookup(current, path);
    if node.Some? {
      assert InsertAt(at, values)(node.value) == Insert(at, values, node.value);
    }
  }

  /** Remove (tag 3) on an array with `0 <= index <= index + count <= length`
      leaves the elements before `index` followed by those after the removed
      `count`, so the array shrinks by `count`. */
  lemma RemoveDeletesRange(g: IndexGuard, current: Json, path: Path, index: int, count: int)
    requires Walkable(g, path)
    ensures var r := ApplyUpdate(g, current, Remove(path, index, count));
      var node := Lookup(current, path);
      node.Some? && node.value.Arr? && 0 <= index && 0 <= count && index + count <= |node.value.elems| ==>
        var l := node.value.elems;
        && r.Success?
        && Lookup(r.value, path) == Some(Arr(l[..index] + l[index + count..]))
        && |l[..index] + l[index + count..]| == |l| - count
  {
    WalkAt(g, current, path, RemoveRange(index, count));
    var node := Lookup(current, path);
    if node.Some? {
      assert RemoveRange(index, count)(node.value) == Cut(index, count, node.value);
    }
  }

  /** Any tag other than 0-3 throws "unhandled update type" before the path is
      looked at. */
  lemma OtherTagFails(g: IndexGuard, current: Json, tag: UnknownTag, path: Path)
    ensures ApplyUpdate(g, current, Other(tag, path)) == Failure(UnhandledUpdateType)
  {
  }

  /** A batch split in two is the first part applied, then the second part
      applied to its result: operations are applied strictly in order. */
  lemma {:induction false} ApplyAllAppend(g: IndexGuard, v: Json, first: seq<Update>, second: seq<Update>)
    ensures ApplyAll(g, v, first + second) ==
      match ApplyAll(g, v, first)
      case Success(mid) => ApplyAll(g, mid, second)
      case Failure(e) => Failure(e)
    decreases |first|
  {
    if first == [] {
      assert first + second == second;
    } else {
      assert (first + second)[0] == first[0] && (first + second)[1..] == first[1..] + second;
      var next := ApplyUpdate(g, v, first[0]);
      if next.Success? {
        ApplyAllAppend(g, next.value, first[1..], second);
      }
    }
  }
}
