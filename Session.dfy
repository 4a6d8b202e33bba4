/** What the two socket classes share: the connection states, listener
    identities, the log of callback invocations, and the array idioms they use
    on listener lists. */
module Session {
  import opened Wrappers
  import opened Json

  datatype SocketState = Connecting | Connected | Disconnected

  /** The first element of an inbound frame that the dispatcher has no case
      for: both sockets handle tags 0 to 3. */
  type UnknownMessageTag = t: int | t < 0 || 3 < t witness 4

  /** A topic listener `{ onUpdate, onError }`. Every `subscribe` call builds a
      new object, so its identity is a fresh number; `hasOnError` records
      whether the optional error callback was given. */
  datatype Listener = Listener(id: nat, hasOnError: bool)

  /** One callback invocation. `Rejected` with no reason is the rejection of a
      pending call when the connection is lost. */
  datatype Event =
    | StateChanged(stateListener: nat, state: SocketState)
    | Updated(listener: nat, value: Json)
    | Errored(listener: nat, error: Json)
    | Resolved(request: int, result: Json)
    | Rejected(request: int, reason: Option<Json>)

  /** `listeners.forEach((listener) => listener(state))`. */
  function StateTo(listeners: seq<nat>, state: SocketState): (r: seq<Event>)
    ensures |r| == |listeners|
    ensures forall i :: 0 <= i < |r| ==> r[i] == StateChanged(listeners[i], state)
  {
    seq(|listeners|, i requires 0 <= i < |listeners| => StateChanged(listeners[i], state))
  }

  /** `listeners.forEach((l) => l.onUpdate(value))`. */
  function UpdatesTo(listeners: seq<Listener>, value: Json): (r: seq<Event>)
    ensures |r| == |listeners|
    ensures forall i :: 0 <= i < |r| ==> r[i] == Updated(listeners[i].id, value)
  {
    seq(|listeners|, i requires 0 <= i < |listeners| => Updated(listeners[i].id, value))
  }

  /** `listeners.forEach(({ onError }) => onError && onError(error))`: the
      listeners that have an error callback, in order. */
  function ErrorsTo(listeners: seq<Listener>, error: Json): (r: seq<Event>)
    ensures |r| <= |listeners|
    ensures forall l :: l in listeners && l.hasOnError ==> Errored(l.id, error) in r
    ensures forall e :: e in r ==>
      e.Errored? && e.error == error && exists l :: l in listeners && l.hasOnError && l.id == e.listener
    decreases |listeners|
  {
    if listeners == [] then []
    else
      var rest := ErrorsTo(listeners[1..], error);
      assert forall l :: l in listeners[1..] ==> l in listeners;
      if listeners[0].hasOnError then [Errored(listeners[0].id, error)] + rest else rest
  }

  /** Telling a list in two parts tells the first part, then the second. */
  lemma {:induction false} ErrorsToAppend(a: seq<Listener>, b: seq<Listener>, error: Json)
    ensures ErrorsTo(a + b, error) == ErrorsTo(a, error) + ErrorsTo(b, error)
    decreases |a|
  {
    if a == [] {
      assert a + b == b;
    } else {
      var head: seq<Event> := if a[0].hasOnError then [Errored(a[0].id, error)] else [];
      assert (a + b)[0] == a[0] && (a + b)[1..] == a[1..] + b;
      assert ErrorsTo(a + b, error) == head + ErrorsTo(a[1..] + b, error);
      assert ErrorsTo(a, error) == head + ErrorsTo(a[1..], error);
      ErrorsToAppend(a[1..], b, error);
      assert head + (ErrorsTo(a[1..], error) + ErrorsTo(b, error)) == (head + ErrorsTo(a[1..], error)) + ErrorsTo(b, error);
    }
  }

  /** `onError && onError(error)` for one listener: called once if given,
      skipped otherwise. Together with `ErrorsToAppend` this fixes the
      sequence: one call per listener with an error callback, in list order. */
  lemma ErrorsToOne(l: Listener, error: Json)
    ensures ErrorsTo([l], error) == if l.hasOnError then [Errored(l.id, error)] else []
  {
    assert [l][1..] == [];
  }

  /** `s.indexOf(x)`: the first position of `x`, or -1. */
  function IndexOf<T(==)>(s: seq<T>, x: T): (i: int)
    ensures i == -1 <==> x !in s
    ensures 0 <= i ==> i < |s| && s[i] == x && x !in s[..i]
    ensures -1 <= i
    decreases |s|
  {
    if s == [] then -1
    else if s[0] == x then 0
    else
      var j := IndexOf(s[1..], x);
      assert s[1..] == s[..|s|][1..];
      if j == -1 then -1 else (assert s[..j + 1] == [s[0]] + s[1..][..j]; j + 1)
  }

  /** `s.splice(start, 1)`: `start` is placed like a `slice` argument (a
      negative one counts from the end, both ends are clamped), then at most
      one element is removed there. */
  function SpliceOne<T>(s: seq<T>, start: int): (r: seq<T>)
    ensures 0 <= start < |s| ==> r == s[..start] + s[start + 1..]
    ensures -|s| <= start < 0 ==> r == s[..|s| + start] + s[|s| + start + 1..]
    ensures start < -|s| && |s| > 0 ==> r == s[1..]
    ensures start >= |s| ==> r == s
  {
    var p := RelativeIndex(start, |s|);
    Slice(s, 0, p) + SliceFrom(s, p + 1)
  }

  /** Removing a listener the way the unsubscribe closure does: its first
      occurrence if present, otherwise the last listener. */
  lemma RemovingListener<T>(s: seq<T>, x: T)
    requires |s| > 0
    ensures x in s ==> exists i :: 0 <= i < |s| && s[i] == x && x !in s[..i] && SpliceOne(s, IndexOf(s, x)) == s[..i] + s[i + 1..]
    ensures x !in s ==> SpliceOne(s, IndexOf(s, x)) == s[..|s| - 1]
  {
    if x in s {
      var i := IndexOf(s, x);
      assert s[i] == x && x !in s[..i];
    }
  }

  /** The rejections of pending calls on disconnect. Both sockets visit the
      request table by integer key, which JavaScript enumerates in ascending
      order; these are the ids of `ids` in [lo, hi), each rejected with no
      reason. */
  function RejectionsFrom(ids: set<int>, lo: int, hi: int): seq<Event>
    decreases hi - lo
  {
    if hi <= lo then []
    else RejectionsFrom(ids, lo, hi - 1) + (if hi - 1 in ids then [Rejected(hi - 1, None)] else [])
  }

  /** Each pending call in the range is rejected exactly once, with no reason,
      in ascending order of channel id, and nothing else is in the sequence. */
  lemma {:induction false} RejectionsOnce(ids: set<int>, lo: int, hi: int)
    ensures forall e :: e in RejectionsFrom(ids, lo, hi) ==>
      e.Rejected? && e.reason.None? && e.request in ids && lo <= e.request < hi
    ensures forall id :: id in ids && lo <= id < hi ==> Rejected(id, None) in RejectionsFrom(ids, lo, hi)
    ensures forall i, j :: 0 <= i < j < |RejectionsFrom(ids, lo, hi)| ==>
      RejectionsFrom(ids, lo, hi)[i].request < RejectionsFrom(ids, lo, hi)[j].request
    decreases hi - lo
  {
    if lo < hi {
      RejectionsOnce(ids, lo, hi - 1);
      var front := RejectionsFrom(ids, lo, hi - 1);
      var last: seq<Event> := if hi - 1 in ids then [Rejected(hi - 1, None)] else [];
      assert RejectionsFrom(ids, lo, hi) == front + last;
      forall i, j | 0 <= i < j < |front + last|
        ensures (front + last)[i].request < (front + last)[j].request
      {
        if j >= |front| {
          assert (front + last)[i] in front;
        }
      }
    }
  }
}
