# Topical client core in Dafny

Topical is a publish/subscribe client. One WebSocket carries many logical
*topics* and request/response *calls*, each tagged with a channel id. A topic
keeps a locally cached JSON value. A `reset` frame replaces that value and
`updates` frames patch it. When the connection drops, the client rejects
pending calls, forgets its channel ids and reconnects after 500 ms. It then
subscribes every topic again with fresh ids.

This project models that core:

- **Patch engines.** There are two copies: `client_js/src/updates.ts` (module
  `Patch`) and `examples/todo/src/topical/updates.ts` (module `TodoPatch`).
  Updates are applied to a JSON value. The model follows JavaScript
  semantics for property reads, object spread, `slice` and `null`/`undefined`
  (module `Json`), except that strings count characters rather than UTF-16
  code units (see "Left out").
- **The client socket.** This is the class `Socket` of
  `client_js/src/socket.ts` (module `ClientSocket`). It is an imperative
  Dafny class whose fields are the source's fields. Two things stand in for
  the transport:
  - `sent` logs the frames written to the WebSocket.
  - `events` logs every callback invocation.

  The registry invariant, `Registry`, is kept by every method. It says that
  topics and subscriptions point at each other, and that ids are unique and
  never reused across the request table and the subscription table.
- **The older socket of the todo example.** This is
  `examples/todo/src/topical/socket.ts` (module `TodoSocket`). It has its own
  pure path-based `applyUpdate`. The connection test is the transport's
  `readyState`.
- **`useTopic` helpers.** `subscriptionReady` and `identityKey` of
  `client_react/src/useTopic.ts` are in module `TopicIdentity`. They use a
  full model of `encodeURIComponent`, including UTF-8 percent-encoding, in
  module `UriComponent`.
- **`buildGrid`.** This is the grid builder of the game-of-life example
  (module `LifeGrid`). The copies in `Grid.tsx` and `Game.tsx` are the same
  text, so one method models both, and they agree on every input.

The modules shared by several of these are:

- `Wrappers`: Option and Result.
- `Decimal`: the decimal text of integers.
- `Text`: `join` and splitting.
- `Json`: the JavaScript value semantics listed above.
- `Session`: listener events, `indexOf`/`splice`, and the ascending-id
  rejection of pending calls.

Where the code and its design notes disagree, the model follows the code:

- `notify` rejects with "not connected" instead of silently dropping.
  - client_js/src/socket.ts:90-91
  - examples/todo/src/topical/socket.ts:97-98
- A call whose topic has an undefined segment still uses up a channel id,
  because the id is allocated before `validateTopic` runs
  (client_js/src/socket.ts:81-82).
- `close()` is not terminal if it is called while the reconnect timer is
  pending (see Findings).

## Model

| member | source | states |
|---|---|---|
| Patch.EmptyPathAppliesToRoot | client_js/src/updates.ts:10-11 | an empty path hands the root itself to the callback |
| Patch.FieldStepReplacesOnlyThatKey | client_js/src/updates.ts:26-31 | a string key throws a TypeError on null/undefined; otherwise it rebuilds the object with exactly that key replaced and every other own property kept; a failure below propagates |
| Patch.AsWrittenIndexStepRejects | client_js/src/updates.ts:14-20 | a numeric key on a non-array throws "expected array"; with the guard as written every index up to the length throws "index out of range" |
| Patch.AsWrittenIndexStepAppends | client_js/src/updates.ts:18-25 | with the guard as written, an index past the length keeps every element and appends one child computed from undefined |
| Patch.InRangeIndexStepReplacesElement | client_js/src/updates.ts:14-25 | with the corrected guard an in-range index replaces exactly that element and any other index throws "index out of range" |
| Patch.UpdateInAt | client_js/src/updates.ts:9-33 | the corrected walk succeeds iff the node at the path exists and the callback accepts it; the result then holds the callback's value at the path; a callback error propagates unchanged |
| Patch.GuardIrrelevantForFieldPaths | client_js/src/updates.ts:9-33 | on paths of string keys the code as written and the corrected code agree |
| Patch.AsWrittenRejectsFirstElement | client_js/src/updates.ts:18-20 | setting element 0 of `[1]` throws with the guard as written and gives `[2]` with the corrected guard |
| Patch.WalkAt | client_js/src/updates.ts:9-33 | on a walkable path (corrected guard, or only string keys) the walk reaches the node at the path and replaces it with the callback's value |
| Patch.Insert | client_js/src/updates.ts:52-58 | the splice callback throws "expected array" on a non-array; a null index appends; an in-range index inserts the values there |
| Patch.Cut | client_js/src/updates.ts:62-65 | the remove callback does no array check: on an array with an in-range window it drops exactly `count` elements at `index`; on a string it returns the array of its characters less that window; it fails iff the node is neither an array nor a string, and the failure is a TypeError |
| Patch.SetReplacesNode | client_js/src/updates.ts:38-41 | tag 0 succeeds iff the path leads to a node, and then the node at the path is the new value |
| Patch.DeleteRemovesKey | client_js/src/updates.ts:42-48 | tag 1 succeeds iff the node is neither null nor undefined; the key is then gone and every other own property keeps its value |
| Patch.SpliceInserts | client_js/src/updates.ts:49-59 | tag 2 throws "expected array" on a non-array node; otherwise it inserts the values at the index (null = the end), keeping the existing elements in order |
| Patch.RemoveDeletesRange | client_js/src/updates.ts:60-66 | tag 3 on an in-range window leaves the elements before `index` followed by those after the removed `count` |
| Patch.OtherTagFails | client_js/src/updates.ts:67-68 | any other tag throws "unhandled update type" |
| Patch.ApplyAllAppend | client_js/src/socket.ts:203 | `updates.reduce(applyUpdate, …)` applies a batch strictly in order, and the first throw aborts it |
| TodoPatch.SpliceInto | examples/todo/src/topical/updates.ts:48-52 | the todo splice does no array check: on an array or a string (spread into its characters) an in-range index inserts the values there and null inserts them at the front; anything else throws a TypeError |
| TodoPatch.AgreesExceptSplice | examples/todo/src/topical/updates.ts:35-64 | set, delete, remove and unknown tags behave exactly as in the client library's copy |
| TodoPatch.SpliceInserts | examples/todo/src/topical/updates.ts:46-53 | at the path node, the todo splice succeeds iff the node is an array or a string, and otherwise throws a TypeError; it inserts at a numeric index, and at the front for null |
| TodoPatch.NullIndexCopiesDisagree | examples/todo/src/topical/updates.ts:46-53 | on `[1]` with a null index the todo copy gives `[2, 1]` and the client copy gives `[1, 2]` |
| Session.ErrorsTo | client_js/src/socket.ts:176-178 | a listener receives the error iff it has an error callback, and nothing else is emitted |
| Session.ErrorsToAppend | client_js/src/socket.ts:176-178 | telling a list in two parts emits the first part's calls, then the second's: the calls follow list order |
| Session.ErrorsToOne | client_js/src/socket.ts:177 | one listener is called exactly once when it has an error callback, and skipped otherwise |
| Session.IndexOf | client_js/src/socket.ts:116 | `indexOf` is the first position of the element, or -1 when it is absent |
| Session.SpliceOne | client_js/src/socket.ts:117 | `splice(start, 1)` places `start` like `slice` (a negative start counts from the end, both ends clamped) and removes the one element there: position `start` when in range, position `len + start` for `-len <= start < 0`, the first element below that, nothing past the end |
| Session.RemovingListener | client_js/src/socket.ts:114-125 | the unsubscribe closure removes the listener's first occurrence, or the last listener when the listener is no longer in the list |
| Session.RejectionsOnce | client_js/src/socket.ts:219-221 | on disconnect each pending call is rejected exactly once, with no reason, in ascending id order, and nothing else is emitted |
| ClientSocket.ValidateTopic | client_js/src/socket.ts:22-26 | succeeds iff no segment is undefined, and then yields the segments unchanged |
| ClientSocket.TopicKeyInjective | client_js/src/socket.ts:104 | non-empty topics whose segments hold no `/` get distinct registry keys |
| ClientSocket.TopicKeyCollides | client_js/src/socket.ts:104 | `["a/b"]` and `["a","b"]` share the registry key `a/b` |
| ClientSocket.Socket.constructor | client_js/src/socket.ts:38-51 | a fresh socket is connecting, with empty tables, one transport opened and "connecting" told to no listener |
| ClientSocket.Socket.Open | client_js/src/socket.ts:42-51 | clears `closed`, sets the state to connecting (telling the listeners) and opens one transport |
| ClientSocket.Socket.SetState | client_js/src/socket.ts:128-131 | records the state and tells every listener |
| ClientSocket.Socket.AddListener | client_js/src/socket.ts:61-63 | appends the listener |
| ClientSocket.Socket.RemoveListener | client_js/src/socket.ts:65-70 | removes the first occurrence if present, and otherwise changes nothing |
| ClientSocket.Socket.Close | client_js/src/socket.ts:72-75 | sets `closed` and closes the transport, leaving the state to the close event |
| ClientSocket.Socket.Execute | client_js/src/socket.ts:77-87 | not connected: rejected, with no id used and nothing sent; otherwise it uses one fresh id that is not among the pending calls; an undefined segment then throws with nothing sent; else it sends one call frame and registers the call |
| ClientSocket.Socket.Notify | client_js/src/socket.ts:89-95 | not connected: rejected; an undefined segment throws; otherwise one notify frame, and it never uses an id |
| ClientSocket.Socket.SetupSubscription | client_js/src/socket.ts:133-139 | one fresh id, one subscribe frame carrying the stored segments, and topic and subscription pointing at each other |
| ClientSocket.Socket.Subscribe | client_js/src/socket.ts:97-113 | an undefined segment throws with nothing changed; otherwise a fresh listener is attached (see `Attached`) |
| ClientSocket.Socket.Attach | client_js/src/socket.ts:104-113 | a known key gains the listener and replays the cached value to it alone; a new key gets an entry, subscribed on the wire only when connected |
| ClientSocket.Socket.Unsubscribe | client_js/src/socket.ts:114-125 | removes the listener as `indexOf`/`splice` do; with no listener left, the topic is dropped, and its subscription is dropped and `[3, id]` sent only when it has a channel and the socket is connected |
| ClientSocket.Socket.OpenStep | client_js/src/socket.ts:144-146 | a topic without a channel gets exactly one fresh subscription, and the loop invariant is kept |
| ClientSocket.Socket.SubscribeAll | client_js/src/socket.ts:143-147 | every topic ends with a channel issued during the loop, and the ids' subscribe frames are sent in id order |
| ClientSocket.Socket.HandleSocketOpen | client_js/src/socket.ts:141-148 | the socket is connected and the listeners hear it; every topic (none has a channel after a disconnect) gets exactly one fresh subscription with an id above all earlier ones |
| ClientSocket.Socket.HandleSocketMessage | client_js/src/socket.ts:155-171 | tag 0 has the effect `ErrorHandled` describes, tag 1 `ResultHandled`, tag 2 `ResetHandled`, tag 3 `UpdatesHandled`; any other tag changes nothing; only tag 3 can throw |
| ClientSocket.Socket.HandleError | client_js/src/socket.ts:173-185 | on a subscription, every listener with an error callback is told, then topic and subscription are dropped; otherwise the pending call is rejected with the error and forgotten |
| ClientSocket.Socket.HandleResult | client_js/src/socket.ts:187-190 | the pending call resolves with the result, once, and is forgotten |
| ClientSocket.Socket.HandleTopicReset | client_js/src/socket.ts:192-198 | on a subscription with a truthy key, the cached value is replaced and every listener receives it; otherwise nothing changes |
| ClientSocket.Socket.HandleTopicUpdates | client_js/src/socket.ts:200-207 | the batch is folded with the corrected `applyUpdate`; on success the value is stored and sent to every listener; a throw changes nothing and is returned |
| ClientSocket.Socket.HandleSocketClose | client_js/src/socket.ts:209-229 | disconnected; topics keep listeners and values but lose their channels; subscriptions are emptied; each pending call is rejected once in ascending id order; a reopen is scheduled iff `close()` was not called |
| ClientSocket.Socket.DropChannels | client_js/src/socket.ts:215-217 | every topic loses its channel and keeps everything else |
| ClientSocket.Socket.RejectPending | client_js/src/socket.ts:219-221 | every pending call is rejected with no reason, in ascending id order |
| ClientSocket.Socket.Reopen | client_js/src/socket.ts:225-227 | the timer as written reopens and clears `closed` |
| ClientSocket.Socket.ReopenUnlessClosed | client_js/src/socket.ts:223-228 | the corrected timer leaves a socket closed during the wait closed and disconnected |
| ClientSocket.CloseDuringReconnectWait | client_js/src/socket.ts:223-228 | disconnect, then `close()`, then the timer: as written the socket ends connecting with `closed` false |
| ClientSocket.CloseDuringReconnectWaitFixed | client_js/src/socket.ts:223-228 | the same sequence with the corrected timer ends closed and disconnected |
| TodoSocket.EmptyPathReplaces | examples/todo/src/topical/socket.ts:26-27 | an empty path returns the new value |
| TodoSocket.NullDeletesKey | examples/todo/src/topical/socket.ts:28-31 | null at a one-key path removes exactly that key and keeps every other own property; on null/undefined it throws |
| TodoSocket.RebuildsFirstKey | examples/todo/src/topical/socket.ts:32-37 | any other path rebuilds the object with only the first key replaced by the update below; failures propagate |
| TodoSocket.PathUpdateAt | examples/todo/src/topical/socket.ts:25-39 | an update succeeds iff the path can be walked; afterwards the path reads the new value, or undefined where null deleted it |
| TodoSocket.ApplyPathUpdatesAppend | examples/todo/src/topical/socket.ts:198 | a batch is applied strictly in order, and the first throw aborts it |
| TodoSocket.Socket.constructor | examples/todo/src/topical/socket.ts:50-63 | a fresh socket is connecting, with empty tables and one transport opened |
| TodoSocket.Socket.Open | examples/todo/src/topical/socket.ts:54-63 | clears `closed`, tells the listeners "connecting" and opens one transport |
| TodoSocket.Socket.AddListener | examples/todo/src/topical/socket.ts:69-71 | appends the listener |
| TodoSocket.Socket.RemoveListener | examples/todo/src/topical/socket.ts:73-78 | removes the first occurrence if present, and otherwise changes nothing |
| TodoSocket.Socket.Close | examples/todo/src/topical/socket.ts:80-83 | sets `closed`, closes the transport, and from then on the socket is not connected |
| TodoSocket.Socket.Execute | examples/todo/src/topical/socket.ts:85-94 | not open: rejected, with no id used; otherwise one fresh id, one call frame and a pending call |
| TodoSocket.Socket.Notify | examples/todo/src/topical/socket.ts:96-101 | not open: rejected; otherwise one frame, and it never uses an id |
| TodoSocket.Socket.Subscribe | examples/todo/src/topical/socket.ts:103-117 | a known topic gains the listener and replays its value to it; a new topic gets an entry, subscribed only when open |
| TodoSocket.Socket.Unsubscribe | examples/todo/src/topical/socket.ts:118-129 | as in the client socket; after `close()` the subscription is kept although the topic is dropped |
| TodoSocket.Socket.SetupSubscription | examples/todo/src/topical/socket.ts:132-137 | one fresh id, one subscribe frame, and topic and subscription pointing at each other |
| TodoSocket.Socket.OpenStep | examples/todo/src/topical/socket.ts:142-144 | a topic without a channel gets exactly one fresh subscription |
| TodoSocket.Socket.SubscribeAll | examples/todo/src/topical/socket.ts:141-145 | every topic ends with a channel issued during the loop, with its frames in id order |
| TodoSocket.Socket.HandleSocketOpen | examples/todo/src/topical/socket.ts:139-146 | the listeners hear "connected" and every topic gets exactly one fresh subscription |
| TodoSocket.Socket.HandleSocketMessage | examples/todo/src/topical/socket.ts:153-169 | tag 0 has the effect `ErrorHandled` describes, tag 1 `ResultHandled`, tag 2 `ResetHandled`, tag 3 `UpdatesHandled`; any other tag changes nothing; only tag 3 can throw |
| TodoSocket.Socket.HandleError | examples/todo/src/topical/socket.ts:171-183 | on a subscription, the listeners with error callbacks are told and topic and subscription are dropped; otherwise the call is rejected and forgotten |
| TodoSocket.Socket.HandleResult | examples/todo/src/topical/socket.ts:185-188 | the pending call resolves once and is forgotten |
| TodoSocket.Socket.HandleTopicReset | examples/todo/src/topical/socket.ts:190-194 | the cached value is replaced and every listener receives it |
| TodoSocket.Socket.HandleTopicUpdates | examples/todo/src/topical/socket.ts:196-201 | the batch is folded with the local `applyUpdate`; on success it is stored and sent to every listener; a throw changes nothing |
| TodoSocket.Socket.HandleSocketClose | examples/todo/src/topical/socket.ts:203-221 | disconnected; channels cleared, subscriptions emptied, pending calls rejected once in ascending id order, reopen scheduled iff not closed |
| TodoSocket.Socket.DropChannels | examples/todo/src/topical/socket.ts:209-211 | every topic loses its channel and keeps everything else |
| TodoSocket.Socket.RejectPending | examples/todo/src/topical/socket.ts:213 | every pending call is rejected with no reason, in ascending id order |
| TodoSocket.Socket.Reopen | examples/todo/src/topical/socket.ts:217-219 | the timer as written reopens and clears `closed` |
| TodoSocket.Socket.ReopenUnlessClosed | examples/todo/src/topical/socket.ts:215-219 | the corrected timer leaves a socket closed during the wait closed |
| TodoSocket.DanglingAfterClose | examples/todo/src/topical/socket.ts:119-127 | after `close()`, removing a subscribed topic's last listener sends nothing and leaves a subscription that points at no topic |
| TodoSocket.CloseDuringReconnectWait | examples/todo/src/topical/socket.ts:215-219 | disconnect, `close()`, timer: as written the socket ends connecting with `closed` false |
| TodoSocket.CloseDuringReconnectWaitFixed | examples/todo/src/topical/socket.ts:215-219 | with the corrected timer it ends closed |
| TopicIdentity.SubscriptionReadyMeans | client_react/src/useTopic.ts:6-14 | ready iff every segment and every parameter value is defined, whatever the key order |
| TopicIdentity.SortSorts | client_react/src/useTopic.ts:23 | the sorted keys are in order and are a permutation of the keys |
| TopicIdentity.SortedUnique | client_react/src/useTopic.ts:23 | two sorted permutations of the same keys are equal, so any correct sort gives the same key order |
| TopicIdentity.OrderIndependent | client_react/src/useTopic.ts:17-29 | the key does not depend on the order in which parameters were inserted |
| TopicIdentity.UndefinedSegmentIsEmpty | client_react/src/useTopic.ts:21 | an undefined segment gives the same key as an empty one |
| TopicIdentity.UndefinedValueIsEmpty | client_react/src/useTopic.ts:25 | an undefined parameter value gives the same key as an empty one |
| TopicIdentity.NoParamsEndsInQuestionMark | client_react/src/useTopic.ts:22-28 | with no parameters the key is the topic part followed by `?` |
| TopicIdentity.EmptyTopicCollides | client_react/src/useTopic.ts:21-28 | the empty topic and the topic `[""]` share the key `?` |
| TopicIdentity.PairSplits | client_react/src/useTopic.ts:25 | a `k=v` pair determines both its key and its value |
| TopicIdentity.IdentityKeyInjective | client_react/src/useTopic.ts:17-29 | with non-empty topics and every component defined, equal keys mean equal topics and equal parameters |
| UriComponent.DecodeEncode | client_react/src/useTopic.ts:21 | decoding inverts `encodeURIComponent`, so it loses nothing |
| UriComponent.EncodeInjective | client_react/src/useTopic.ts:21 | distinct strings have distinct encodings |
| UriComponent.EncodeAlphabet | client_react/src/useTopic.ts:21-25 | an encoding holds only unreserved characters, `%` and hex digits, and never `/ ? & =` |
| UriComponent.Utf8RoundTrip | client_react/src/useTopic.ts:21 | the UTF-8 bytes of a character decode back to it |
| LifeGrid.CellKeyInjective | examples/game_of_life/src/components/Grid.tsx:7 | distinct cells have distinct `${x},${y}` keys |
| LifeGrid.AliveIndexMeans | examples/game_of_life/src/components/Game.tsx:7-10 | the reduced index says alive exactly for the listed cells, whatever the duplicates or order (Grid.tsx lines 6-9 are the same text) |
| LifeGrid.ExpectedDependsOnBoardCells | examples/game_of_life/src/components/Grid.tsx:6-17 | duplicates, order and cells outside the board do not change the grid |
| LifeGrid.ExpectedMeans | examples/game_of_life/src/components/Grid.tsx:10-18 | the drawn grid has `max(height, 0)` rows of `max(width, 0)` cells, and `grid[y][x]` is true iff `[x, y]` is listed |
| LifeGrid.LookUp | examples/game_of_life/src/components/Grid.tsx:14 | `!!alive[key]` is true exactly when the cell is listed |
| LifeGrid.BuildRow | examples/game_of_life/src/components/Grid.tsx:12-15 | the inner loop pushes row `y` of the drawn grid |
| LifeGrid.BuildGrid | examples/game_of_life/src/components/Grid.tsx:5-19 | returns the drawn grid that `LifeGrid.ExpectedMeans` describes; Game.tsx lines 6-20 are the same text, so this one method models both copies |

## Left out

- Transport, timing and promises. These are not modelled:
  - the WebSocket itself, the 500 ms timer and the event listeners' wiring;
  - `JSON.stringify`/`JSON.parse`;
  - promise objects.

  Frames are logged as values in `sent`. Callback invocations and promise
  settlements are logged as values in `events`. The timer is the flag
  `reopenPending` plus an explicit `Reopen` step. A listener object's
  identity is a fresh number per `subscribe`.
- Re-entrancy is not modelled: a callback that calls back into the socket.
- `console.log` in `handleSocketError` is not modelled, because it has no
  effect on state.
- `getState` is not modelled, because it only reads a field.
- The order in which `Object.keys` visits topics in `handleSocketOpen` is
  not modelled. The topic table is a map, and the loop takes keys in an
  unspecified order. The proven result is independent of that order, except
  for which topic receives which fresh id.
- Floating point is not modelled. Numbers, channel ids, grid dimensions and
  coordinates are integers, so fractional widths are outside the model.
- Only the JSON values a frame can carry are modelled. Prototype
  properties other than an array's or string's `length` are not
  (for example `"toString" in topics`).
- Reads that crash in the source are preconditions rather than modelled
  errors:
  - the unsubscribe closure on a key that is already gone;
  - a result or error for an unknown id;
  - in the todo socket, a reset or update on an unknown channel, which reads
    `topics[undefined]`.
- `TopicIdentity.Below` compares characters by Unicode scalar value, but
  JavaScript's default `sort` compares UTF-16 code units. The two orders
  differ only between characters above U+FFFF and characters in
  U+E000-U+FFFF. Since the key is only compared for equality, and any fixed
  total order gives the same properties, nothing proved depends on which
  order is used.
- `TopicIdentity.IdentityKeyInjective` requires non-empty topics.
  `EmptyTopicCollides` shows that the empty topic and `[""]` share a key.
- `Json` strings are sequences of Unicode scalar values, but JavaScript
  counts UTF-16 code units in `length`, `s[i]` and `slice`. A string that
  holds characters above U+FFFF therefore has a different `length` and
  different index properties here, and the todo Splice and the Remove
  operation on such a string split it by characters rather than by code
  units (`"😀".slice(0, 1)` is a lone surrogate in JavaScript). Strings in
  the Basic Multilingual Plane behave the same in both.
- `UriComponent` cannot produce the lone-surrogate `URIError`, because a
  Dafny `char` is never a surrogate.
- `ClientSocket.Socket.HandleTopicUpdates` folds the corrected `applyUpdate`
  (the `InRange` guard). The code as written is `Patch.ApplyAll` with
  `AsWritten`, and the lemmas above show how the two differ (Findings).
- The merge operation and the alias frame (tag 4) are not modelled, because
  the code shown has neither. Parameters on the `client_js` socket API are
  not modelled for the same reason.
- The `useTopic` hook body and `useStableIdentity` are outside the core.
  These are React state and effects.

## Findings

| source | as written | input that shows it | evidently intended | confidence | as-written member | corrected member |
|---|---|---|---|---|---|---|
| client_js/src/updates.ts:18-20 | `if (key <= value.length) throw "index out of range"` rejects every valid index and lets only indices past the end through | set `[0]` to 2 on `[1]`: throws | `if (key < 0 \|\| key >= value.length)`: reject only out-of-range indices | high (not executed) | Patch.AsWrittenRejectsFirstElement | Patch.UpdateInAt |
| examples/todo/src/topical/updates.ts:18-20 | the same inverted guard in the todo copy | set `[0]` to 2 on `[1]`: throws | the same corrected guard | high (not executed) | Patch.AsWrittenIndexStepRejects | Patch.InRangeIndexStepReplacesElement |
| client_js/src/socket.ts:223-227 | the reconnect timer calls `open()`, which clears `closed`, so a `close()` made during the 500 ms wait is undone and the socket reconnects | disconnect, `close()`, timer fires: ends connecting with `closed` false | the timer re-checks `closed` and a closed socket stays closed | high (not executed) | ClientSocket.CloseDuringReconnectWait | ClientSocket.CloseDuringReconnectWaitFixed |
| examples/todo/src/topical/socket.ts:215-219 | the same reconnect race in the todo socket | disconnect, `close()`, timer fires: ends connecting with `closed` false | the same re-check | high (not executed) | TodoSocket.CloseDuringReconnectWait | TodoSocket.CloseDuringReconnectWaitFixed |
