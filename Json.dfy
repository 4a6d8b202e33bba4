/** The JSON-like values the topic engine stores and patches, with the few
    pieces of JavaScript semantics the patch code relies on: reading a
    property (`v[key]`), copying own properties into a new object
    (`{...v}`) and `Array.prototype.slice`. */
module Json {
  import Decimal

  /** `Undefined` is JavaScript's `undefined`: a missing property, an element
      past the end of an array, or a topic whose value has not arrived yet.
      Numbers are modelled as integers. */
  datatype Json =
    | Undefined
    | Null
    | Bool(b: bool)
    | Num(n: int)
    | Str(s: string)
    | Arr(elems: seq<Json>)
    | Obj(fields: map<string, Json>)

  /** `null` and `undefined` are the two values whose properties cannot be read. */
  predicate IsNullish(v: Json) {
    v.Undefined? || v.Null?
  }

  /** The properties an array or string exposes by index: "0", "1", ... */
  function IndexEntries(s: seq<Json>): (m: map<string, Json>)
    ensures forall i :: 0 <= i < |s| ==> Decimal.NatToString(i) in m
    decreases |s|
  {
    if s == [] then map[]
    else IndexEntries(s[..|s| - 1])[Decimal.NatToString(|s| - 1) := s[|s| - 1]]
  }

  /** A string seen as the sequence of its one-character strings, as `[...s]` gives. */
  function Chars(s: string): (r: seq<Json>)
    ensures |r| == |s|
    ensures forall i :: 0 <= i < |s| ==> r[i] == Str([s[i]])
  {
    seq(|s|, i requires 0 <= i < |s| => Str([s[i]]))
  }

  /** The own enumerable properties that an object spread `{...v}` copies:
      an object's fields, the indices of an array or a string, and nothing
      for `null`, `undefined`, booleans and numbers. */
  function OwnEntries(v: Json): map<string, Json> {
    match v
    case Obj(m) => m
    case Arr(s) => IndexEntries(s)
    case Str(s) => IndexEntries(Chars(s))
    case _ => map[]
  }

  /** The property read `v[key]` for a value that is neither `null` nor
      `undefined` (reading a property of those throws a TypeError). Inherited
      members of the prototype other than `length` are not modelled. */
  function Prop(v: Json, key: string): (r: Json)
    requires !IsNullish(v)
    ensures v.Obj? ==> r == (if key in v.fields then v.fields[key] else Undefined)
  {
    var own := OwnEntries(v);
    if key in own then own[key]
    else if key == "length" && v.Arr? then Num(|v.elems|)
    else if key == "length" && v.Str? then Num(|v.s|)
    else Undefined
  }

  /** The element read `a[k]` of an array at an integer index. */
  function ElementAt(s: seq<Json>, k: int): (r: Json)
    ensures 0 <= k < |s| ==> r == s[k]
    ensures !(0 <= k < |s|) ==> r == Undefined
  {
    if 0 <= k < |s| then s[k] else Undefined
  }

  /** How `slice` turns an integer argument into a position: a negative
      argument counts from the end, and both ends are clamped to [0, len]. */
  function RelativeIndex(k: int, len: nat): (p: nat)
    ensures p <= len
    ensures 0 <= k <= len ==> p == k
    ensures k > len ==> p == len
    ensures k < 0 ==> p == if len + k < 0 then 0 else len + k
  {
    if k < 0 then (if len + k < 0 then 0 else len + k)
    else if k > len then len
    else k
  }

  /** `s.slice(start)`. */
  function SliceFrom<T>(s: seq<T>, start: int): (r: seq<T>)
    ensures 0 <= start <= |s| ==> r == s[start..]
    ensures start > |s| ==> r == []
  {
    s[RelativeIndex(start, |s|)..]
  }

  /** `s.slice(start, end)`. */
  function Slice<T>(s: seq<T>, start: int, end: int): (r: seq<T>)
    ensures 0 <= start <= end <= |s| ==> r == s[start..end]
    ensures start == 0 && end > |s| ==> r == s
  {
    var a, b := RelativeIndex(start, |s|), RelativeIndex(end, |s|);
    if a < b then s[a..b] else []
  }
}
