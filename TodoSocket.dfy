/** The older socket of the todo example: topics are plain strings (no
    segment validation), the connection test is the transport's ready state,
    and topic updates use a two-field patch `[path, newValue]` of string keys
    instead of the tagged operations. */
module TodoSocket {
  import opened Wrappers
  import opened Json
  import opened Session
  import P = Patch

  // ---------------------------------------------------------------------
  // The local `applyUpdate`
  // ---------------------------------------------------------------------

  /** One update of the todo protocol: a path of property names and the value
      to put there (`null` at a one-key path deletes the key). */
  datatype PathUpdate = PathUpdate(path: seq<string>, newValue: Json)

  /** `applyUpdate(currentValue, [path, newValue])`. An empty path yields the
      new value; `null` at a one-key path is the rest-destructuring
      `const { [key]: _, ...rest } = currentValue`; otherwise the object
      spread `{ ...currentValue, [key]: applyUpdate(currentValue[key], ...) }`.
      Destructuring or reading a property of `null`/`undefined` throws. */
  function ApplyPathUpdate(current: Json, path: seq<string>, newValue: Json): Result<Json, P.Error>
    decreases |path|
  {
    if |path| == 0 then Success(newValue)
    else if newValue.Null? && |path| == 1 then
      if IsNullish(current) then Failure(P.TypeError)
      else Success(Obj(OwnEntries(current) - {path[0]}))
    else if IsNullish(current) then Failure(P.TypeError)
    else
      var child :- ApplyPathUpdate(Prop(current, path[0]), path[1..], newValue);
      Success(Obj(OwnEntries(current)[path[0] := child]))
  }

  /** `updates.reduce(applyUpdate, value)`: the batch in order; the first
      throw aborts it. */
  function ApplyPathUpdates(value: Json, updates: seq<PathUpdate>): Result<Json, P.Error>
    decreases |updates|
  {
    if updates == [] then Success(value)
    else
      var next :- ApplyPathUpdate(value, updates[0].path, updates[0].newValue);
      ApplyPathUpdates(next, updates[1..])
  }

  /** Reading a path the way the update walks it: `Some` when every node
      before the last key can be read from, i.e. none is `null` or
      `undefined`. */
  function Walk(v: Json, path: seq<string>): Option<Json>
    decreases |path|
  {
    if |path| == 0 then Some(v)
    else if IsNullish(v) then None
    else Walk(Prop(v, path[0]), path[1..])
  }

  /** An empty path returns the new value outright, whatever the current one. */
  lemma EmptyPathReplaces(current: Json, newValue: Json)
    ensures ApplyPathUpdate(current, [], newValue) == Success(newValue)
  {
  }

  /** `null` at a one-key path removes exactly that key and keeps every other
      own property; on `null`/`undefined` it throws. */
  lemma NullDeletesKey(current: Json, key: string)
    ensures IsNullish(current) ==> ApplyPathUpdate(current, [key], Null) == Failure(P.TypeError)
    ensures !IsNullish(current) ==>
      var r := ApplyPathUpdate(current, [key], Null);
      && r.Success? && r.value.Obj?
      && key !in r.value.fields
      && forall k :: k != key ==>
           (k in r.value.fields <==> k in OwnEntries(current))
           && (k in OwnEntries(current) ==> r.value.fields[k] == OwnEntries(current)[k])
  {
  }

  /** Any other non-empty path rebuilds an object from the current own
      properties with only the first key replaced, by the update of the child
      along the rest of the path; a failure below propagates. */
  lemma RebuildsFirstKey(current: Json, key: string, rest: seq<string>, newValue: Json)
    requires !(newValue.Null? && rest == [])
    ensures IsNullish(current) ==> ApplyPathUpdate(current, [key] + rest, newValue) == Failure(P.TypeError)
    ensures !IsNullish(current) ==>
      var below := ApplyPathUpdate(Prop(current, key), rest, newValue);
      var r := ApplyPathUpdate(current, [key] + rest, newValue);
      && (below.Failure? ==> r == Failure(below.error))
      && (below.Success? ==>
            && r.Success? && r.value.Obj?
            && r.value.fields == OwnEntries(current)[key := below.value]
            && forall k :: k != key && k in OwnEntries(current) ==> r.value.fields[k] == OwnEntries(current)[k])
  {
    assert ([key] + rest)[0] == key && ([key] + rest)[1..] == rest;
  }

  /** The update succeeds exactly when the path can be walked, and afterwards
      reading the path gives the new value, or `undefined` where a `null`
      deleted the last key. */
  lemma {:induction false} PathUpdateAt(current: Json, path: seq<string>, newValue: Json)
    ensures ApplyPathUpdate(current, path, newValue).Success? <==> Walk(current, path).Some?
    ensures ApplyPathUpdate(current, path, newValue).Success? ==>
      Walk(ApplyPathUpdate(current, path, newValue).value, path)
        == Some(if newValue.Null? && |path| > 0 then Undefined else newValue)
    decreases |path|
  {
    if |path| == 0 {
    } else if newValue.Null? && |path| == 1 {
      if !IsNullish(current) {
        var r := Obj(OwnEntries(current) - {path[0]});
        assert Prop(r, path[0]) == Undefined;
        assert Walk(r, path) == Walk(Undefined, path[1..]);
      }
    } else if !IsNullish(current) {
      PathUpdateAt(Prop(current, path[0]), path[1..], newValue);
      var below := ApplyPathUpdate(Prop(current, path[0]), path[1..], newValue);
      if below.Success? {
        var r := Obj(OwnEntries(current)[path[0] := below.value]);
        assert Prop(r, path[0]) == below.value;
        assert Walk(r, path) == Walk(below.value, path[1..]);
      }
    }
  }

  /** Folding a concatenation is folding the parts in turn. */
  lemma {:induction false} ApplyPathUpdatesAppend(v: Json, first: seq<PathUpdate>, second: seq<PathUpdate>)
    ensures ApplyPathUpdates(v, first + second) ==
      match ApplyPathUpdates(v, first)
      case Success(w) => ApplyPathUpdates(w, second)
      case Failure(e) => Failure(e)
    decreases |first|
  {
    if first != [] {
      assert (first + second)[0] == first[0] && (first + second)[1..] == first[1..] + second;
      var next := ApplyPathUpdate(v, first[0].path, first[0].newValue);
      if next.Success? {
        ApplyPathUpdatesAppend(next.value, first[1..], second);
      }
    } else {
      assert first + second == second;
    }
  }

  // ---------------------------------------------------------------------
  // The socket
  // ---------------------------------------------------------------------

  /** `WebSocket.readyState`; `isConnected()` is `readyState == OPEN`. */
  datatype ReadyState = CONNECTING | OPEN | CLOSING | CLOSED

  datatype Topic = Topic(listeners: seq<Listener>, channelId: Option<int>, value: Json)

  /** The frames the client sends: `[0, topic, action, args]`,
      `[1, id, topic, action, args]`, `[2, id, topic]`, `[3, id]`. */
  datatype Frame =
    | NotifyFrame(topic: string, action: string, args: seq<Json>)
    | CallFrame(channelId: int, topic: string, action: string, args: seq<Json>)
    | SubscribeFrame(channelId: int, topic: string)
    | UnsubscribeFrame(channelId: int)

  datatype Outbound = Connect | Send(frame: Frame) | Disconnect

  /** An inbound frame after `JSON.parse`, by its tag 0..3; any other tag is
      ignored by the dispatcher. */
  datatype Message =
    | ErrorMessage(id: int, error: Json)
    | ResultMessage(id: int, result: Json)
    | ResetMessage(id: int, value: Json)
    | UpdatesMessage(id: int, updates: seq<PathUpdate>)
    | OtherMessage(tag: UnknownMessageTag)

  /** What `subscribe` hands back: the topic and the listener object its
      closure removes. */
  datatype Subscription = Subscription(topic: string, listener: Listener)

  /** The registry invariant of the todo socket's tables. A topic's channel
      is always registered back to it; while the transport is open every
      subscription points at a topic holding that channel. Once `close()`
      has started the handshake, removing a topic's last listener deletes
      the topic but keeps its subscription, so a subscription may then
      dangle. Before the transport opens and after it closes, no channel,
      subscription or call is live. */
  ghost predicate Registry(topics: map<string, Topic>, subscriptions: map<int, string>, requests: set<int>, last: int,
                           ready: ReadyState)
  {
    && last >= 0
    && (forall id :: id in subscriptions ==> 1 <= id <= last)
    && (forall k :: k in topics ==> |topics[k].listeners| > 0)
    && (forall k :: k in topics && topics[k].channelId.Some? ==>
          topics[k].channelId.value in subscriptions && subscriptions[topics[k].channelId.value] == k)
    && (forall id :: id in requests ==> 1 <= id <= last && id !in subscriptions)
    && (ready == OPEN ==> forall id :: id in subscriptions ==>
          subscriptions[id] in topics && topics[subscriptions[id]].channelId == Some(id))
    && (ready == CONNECTING || ready == CLOSED ==> subscriptions == map[] && requests == {})
  }

  lemma RegistryLink(topics: map<string, Topic>, subscriptions: map<int, string>, requests: set<int>, last: int,
                     key: string)
    requires Registry(topics, subscriptions, requests, last, OPEN)
    requires key in topics && topics[key].channelId.None?
    ensures Registry(topics[key := topics[key].(channelId := Some(last + 1))], subscriptions[last + 1 := key], requests,
                     last + 1, OPEN)
  {
    var topics', subscriptions' := topics[key := topics[key].(channelId := Some(last + 1))], subscriptions[last + 1 := key];
    forall k | k in topics' && topics'[k].channelId.Some?
      ensures topics'[k].channelId.value in subscriptions' && subscriptions'[topics'[k].channelId.value] == k
    {
      if k != key {
        assert topics'[k] == topics[k];
      }
    }
  }

  lemma RegistryAdd(topics: map<string, Topic>, subscriptions: map<int, string>, requests: set<int>, last: int,
                    ready: ReadyState, key: string, t: Topic)
    requires Registry(topics, subscriptions, requests, last, ready)
    requires key !in topics && t.channelId.None? && |t.listeners| > 0
    ensures Registry(topics[key := t], subscriptions, requests, last, ready)
  {
  }

  lemma RegistryRetopic(topics: map<string, Topic>, subscriptions: map<int, string>, requests: set<int>, last: int,
                        ready: ReadyState, key: string, t: Topic)
    requires Registry(topics, subscriptions, requests, last, ready)
    requires key in topics && t.channelId == topics[key].channelId && |t.listeners| > 0
    ensures Registry(topics[key := t], subscriptions, requests, last, ready)
  {
  }

  /** Dropping a topic keeps the registry when its subscription goes with it,
      or when the transport is no longer open. */
  lemma RegistryDrop(topics: map<string, Topic>, subscriptions: map<int, string>, requests: set<int>, last: int,
                     ready: ReadyState, key: string, subscriptions': map<int, string>)
    requires Registry(topics, subscriptions, requests, last, ready)
    requires key in topics
    requires subscriptions' == subscriptions || (topics[key].channelId.Some? && subscriptions' == subscriptions - {topics[key].channelId.value})
    requires subscriptions' == subscriptions && topics[key].channelId.Some? ==> ready != OPEN
    ensures Registry(topics - {key}, subscriptions', requests, last, ready)
  {
  }

  /** Dropping a topic that a subscription points at, together with that
      subscription. */
  lemma RegistryDropSubscribed(topics: map<string, Topic>, subscriptions: map<int, string>, requests: set<int>, last: int,
                               ready: ReadyState, id: int)
    requires Registry(topics, subscriptions, requests, last, ready)
    requires id in subscriptions && subscriptions[id] in topics
    ensures Registry(topics - {subscriptions[id]}, subscriptions - {id}, requests, last, ready)
  {
    var key := subscriptions[id];
    forall k | k in topics - {key} && topics[k].channelId.Some?
      ensures topics[k].channelId.value != id
    {
    }
  }

  lemma RegistryCall(topics: map<string, Topic>, subscriptions: map<int, string>, requests: set<int>, last: int)
    requires Registry(topics, subscriptions, requests, last, OPEN)
    ensures Registry(topics, subscriptions, requests + {last + 1}, last + 1, OPEN)
    ensures last + 1 !in requests
  {
  }

  lemma RegistrySettle(topics: map<string, Topic>, subscriptions: map<int, string>, requests: set<int>, last: int,
                       ready: ReadyState, id: int)
    requires Registry(topics, subscriptions, requests, last, ready)
    ensures Registry(topics, subscriptions, requests - {id}, last, ready)
  {
  }

  lemma RegistryClosing(topics: map<string, Topic>, subscriptions: map<int, string>, requests: set<int>, last: int,
                        ready: ReadyState)
    requires Registry(topics, subscriptions, requests, last, ready) && ready != CLOSED
    ensures Registry(topics, subscriptions, requests, last, CLOSING)
  {
  }

  lemma RegistryOpened(topics: map<string, Topic>, subscriptions: map<int, string>, requests: set<int>, last: int)
    requires Registry(topics, subscriptions, requests, last, CONNECTING)
    ensures Registry(topics, subscriptions, requests, last, OPEN)
    ensures forall k :: k in topics ==> topics[k].channelId.None?
  {
  }

  lemma RegistryDisconnected(topics: map<string, Topic>, last: int)
    requires last >= 0
    requires forall k :: k in topics ==> |topics[k].listeners| > 0 && topics[k].channelId.None?
    ensures Registry(topics, map[], {}, last, CLOSED)
    ensures Registry(topics, map[], {}, last, CONNECTING)
  {
  }

  /** The value part of the subscribe loop's invariant in the "open" handler
      (see `Socket.SubscribedSince`). */
  ghost predicate Progress(topics: map<string, Topic>, subscriptions: map<int, string>, sent: seq<Outbound>, last: int,
                           pending: set<string>, last0: int, sent0: seq<Outbound>, topics0: map<string, Topic>)
  {
    && topics.Keys == topics0.Keys && pending <= topics.Keys
    && (forall k :: k in topics ==> topics[k] == topics0[k].(channelId := topics[k].channelId))
    && (forall k :: k in pending ==> topics[k].channelId.None?)
    && (forall k :: k in topics && k !in pending ==>
          topics[k].channelId.Some? && last0 < topics[k].channelId.value <= last)
    && last0 <= last
    && |sent| == |sent0| + (last - last0) && sent[..|sent0|] == sent0
    && (forall id :: last0 < id <= last ==>
          && id in subscriptions
          && sent[|sent0| + (id - last0 - 1)] == Send(SubscribeFrame(id, subscriptions[id])))
  }

  lemma ProgressStep(topics: map<string, Topic>, subscriptions: map<int, string>, sent: seq<Outbound>, last: int,
                     pending: set<string>, last0: int, sent0: seq<Outbound>, topics0: map<string, Topic>, key: string,
                     topics': map<string, Topic>, subscriptions': map<int, string>, sent': seq<Outbound>)
    requires Progress(topics, subscriptions, sent, last, pending, last0, sent0, topics0) && key in pending
    requires topics' == topics[key := topics[key].(channelId := Some(last + 1))]
    requires subscriptions' == subscriptions[last + 1 := key]
    requires sent' == sent + [Send(SubscribeFrame(last + 1, key))]
    ensures Progress(topics', subscriptions', sent', last + 1, pending - {key}, last0, sent0, topics0)
  {
    assert sent'[..|sent0|] == sent[..|sent0|];
    forall k | k in topics' && k !in pending - {key}
      ensures topics'[k].channelId.Some? && last0 < topics'[k].channelId.value <= last + 1
    {
      if k != key {
        assert topics'[k] == topics[k];
      }
    }
    forall id | last0 < id <= last + 1
      ensures id in subscriptions'
      ensures sent'[|sent0| + (id - last0 - 1)] == Send(SubscribeFrame(id, subscriptions'[id]))
    {
      if id <= last {
        assert subscriptions'[id] == subscriptions[id];
        assert sent'[|sent0| + (id - last0 - 1)] == sent[|sent0| + (id - last0 - 1)];
      }
    }
  }

  /** A rejected promise ("not connected"). */
  datatype Failure = NotConnected

  class Socket {
    var closed: bool
    /** The ready state of the current transport. */
    var ready: ReadyState
    var lastChannelId: int
    var topics: map<string, Topic>
    var requests: set<int>
    var subscriptions: map<int, string>
    var stateListeners: seq<nat>
    /** Everything done to the transport, oldest first. */
    var sent: seq<Outbound>
    /** Every callback invocation, oldest first. */
    var events: seq<Event>
    /** How many listener objects have been created. */
    var listenerCount: nat
    /** Whether the 500 ms reconnect timer is pending. */
    var reopenPending: bool

    ghost predicate Valid()
      reads this
    {
      && Registry(topics, subscriptions, requests, lastChannelId, ready)
      && (reopenPending ==> ready == CLOSED)
    }

    predicate IsConnected()
      reads this
    {
      ready == OPEN
    }

    /** `new Socket(url)`: the fields start empty, then `open()` runs. */
    constructor ()
      ensures Valid()
      ensures closed == false && ready == CONNECTING && lastChannelId == 0
      ensures topics == map[] && requests == {} && subscriptions == map[]
      ensures stateListeners == [] && sent == [Connect] && events == []
      ensures listenerCount == 0 && reopenPending == false
    {
      closed := false;
      ready := CLOSED;
      lastChannelId := 0;
      topics := map[];
      requests := {};
      subscriptions := map[];
      stateListeners := [];
      sent := [];
      events := [];
      listenerCount := 0;
      reopenPending := false;
      new;
      Open();
    }

    /** `open()`: clears `closed`, tells the state listeners "connecting" and
        opens a new transport. */
    method Open()
      requires Valid() && ready == CLOSED && !reopenPending
      modifies this`closed, this`events, this`ready, this`sent
      ensures Valid()
      ensures closed == false && ready == CONNECTING
      ensures events == old(events) + StateTo(stateListeners, Session.Connecting)
      ensures sent == old(sent) + [Connect]
    {
      closed := false;
      events := events + StateTo(stateListeners, Session.Connecting);
      ready := CONNECTING;
      sent := sent + [Connect];
    }

    method AddListener(l: nat)
      requires Valid()
      modifies this`stateListeners
      ensures Valid()
      ensures stateListeners == old(stateListeners) + [l]
    {
      stateListeners := stateListeners + [l];
    }

    /** Removes the first occurrence of `l`, if any. */
    method RemoveListener(l: nat)
      requires Valid()
      modifies this`stateListeners
      ensures Valid()
      ensures l !in old(stateListeners) ==> stateListeners == old(stateListeners)
      ensures l in old(stateListeners) ==>
        var i := IndexOf(old(stateListeners), l);
        stateListeners == old(stateListeners)[..i] + old(stateListeners)[i + 1..]
    {
      var index := IndexOf(stateListeners, l);
      if index >= 0 {
        stateListeners := SpliceOne(stateListeners, index);
      }
    }

    /** `close()`: marks the socket closed and starts the closing handshake;
        from then on the socket no longer counts as connected. */
    method Close()
      requires Valid()
      modifies this`closed, this`sent, this`ready
      ensures Valid()
      ensures closed && sent == old(sent) + [Disconnect]
      ensures old(ready) == CLOSED ==> ready == CLOSED
      ensures old(ready) != CLOSED ==> ready == CLOSING
    {
      closed := true;
      if ready != CLOSED {
        RegistryClosing(topics, subscriptions, requests, lastChannelId, ready);
        ready := CLOSING;
      }
      sent := sent + [Disconnect];
    }

    /** `execute(topic, action, ...args)`: rejected with nothing sent and no id
        used unless connected; otherwise one fresh id, one call frame and a
        pending request. */
    method Execute(topic: string, action: string, args: seq<Json>) returns (r: Result<int, Failure>)
      requires Valid()
      modifies this`lastChannelId, this`sent, this`requests
      ensures Valid()
      ensures !IsConnected() ==>
        r == Failure(NotConnected) && lastChannelId == old(lastChannelId) && sent == old(sent) && requests == old(requests)
      ensures IsConnected() ==>
        && lastChannelId == old(lastChannelId) + 1
        && r == Success(lastChannelId)
        && sent == old(sent) + [Send(CallFrame(lastChannelId, topic, action, args))]
        && lastChannelId !in old(requests)
        && requests == old(requests) + {lastChannelId}
    {
      if !IsConnected() {
        return Failure(NotConnected);
      }
      RegistryCall(topics, subscriptions, requests, lastChannelId);
      lastChannelId := lastChannelId + 1;
      var channelId := lastChannelId;
      sent := sent + [Send(CallFrame(channelId, topic, action, args))];
      requests := requests + {channelId};
      r := Success(channelId);
    }

    /** `notify(topic, action, ...args)`: rejected unless connected; otherwise
        one frame. Never uses an id. */
    method Notify(topic: string, action: string, args: seq<Json>) returns (r: Result<(), Failure>)
      requires Valid()
      modifies this`sent
      ensures Valid()
      ensures !IsConnected() ==> r == Failure(NotConnected) && sent == old(sent)
      ensures IsConnected() ==> r == Success(()) && sent == old(sent) + [Send(NotifyFrame(topic, action, args))]
    {
      if !IsConnected() {
        return Failure(NotConnected);
      }
      sent := sent + [Send(NotifyFrame(topic, action, args))];
      r := Success(());
    }

    /** `setupSubscription(topic)`: one fresh id, one subscribe frame, and the
        topic and the subscription table pointing at each other. */
    method SetupSubscription(topic: string)
      requires Valid() && IsConnected()
      requires topic in topics && topics[topic].channelId.None?
      modifies this`lastChannelId, this`sent, this`topics, this`subscriptions
      ensures Valid()
      ensures lastChannelId == old(lastChannelId) + 1
      ensures sent == old(sent) + [Send(SubscribeFrame(lastChannelId, topic))]
      ensures topics == old(topics)[topic := old(topics)[topic].(channelId := Some(lastChannelId))]
      ensures subscriptions == old(subscriptions)[lastChannelId := topic]
    {
      RegistryLink(topics, subscriptions, requests, lastChannelId, topic);
      lastChannelId := lastChannelId + 1;
      var channelId := lastChannelId;
      sent := sent + [Send(SubscribeFrame(channelId, topic))];
      topics := topics[topic := topics[topic].(channelId := Some(channelId))];
      subscriptions := subscriptions[channelId := topic];
    }

    /** What subscribing listener `l` to `topic` did, relative to the state
        before: a known topic gains the listener, no frame is sent, and the
        cached value is replayed to that listener alone; a new topic gets an
        entry with no value, subscribed on the wire only when connected. */
    twostate predicate Attached(topic: string, l: Listener)
      reads this
    {
      && (topic in old(topics) ==>
            && topics == old(topics)[topic := old(topics)[topic].(listeners := old(topics)[topic].listeners + [l])]
            && events == old(events) + [Updated(l.id, old(topics)[topic].value)]
            && subscriptions == old(subscriptions) && sent == old(sent) && lastChannelId == old(lastChannelId))
      && (topic !in old(topics) && old(ready) != OPEN ==>
            && topics == old(topics)[topic := Topic([l], None, Undefined)]
            && subscriptions == old(subscriptions) && sent == old(sent) && lastChannelId == old(lastChannelId)
            && events == old(events))
      && (topic !in old(topics) && old(ready) == OPEN ==>
            && lastChannelId == old(lastChannelId) + 1
            && topics == old(topics)[topic := Topic([l], Some(lastChannelId), Undefined)]
            && subscriptions == old(subscriptions)[lastChannelId := topic]
            && sent == old(sent) + [Send(SubscribeFrame(lastChannelId, topic))]
            && events == old(events))
    }

    /** `subscribe(topic, onUpdate, onError?)`. */
    method Subscribe(topic: string, hasOnError: bool) returns (s: Subscription)
      requires Valid()
      modifies this`listenerCount, this`topics, this`subscriptions, this`sent, this`events, this`lastChannelId
      ensures Valid()
      ensures listenerCount == old(listenerCount) + 1
      ensures s == Subscription(topic, Listener(old(listenerCount), hasOnError))
      ensures Attached(topic, s.listener)
    {
      var listener := Listener(listenerCount, hasOnError);
      listenerCount := listenerCount + 1;
      if topic in topics {
        var t := topics[topic];
        RegistryRetopic(topics, subscriptions, requests, lastChannelId, ready, topic, t.(listeners := t.listeners + [listener]));
        topics := topics[topic := t.(listeners := t.listeners + [listener])];
        events := events + [Updated(listener.id, t.value)];
      } else {
        var created := Topic([listener], None, Undefined);
        RegistryAdd(topics, subscriptions, requests, lastChannelId, ready, topic, created);
        topics := topics[topic := created];
        if IsConnected() {
          SetupSubscription(topic);
          assert topics == old(topics)[topic := created.(channelId := Some(lastChannelId))];
        }
      }
      s := Subscription(topic, listener);
    }

    /** The closure returned by `subscribe`. Its topic must still be
        registered (the source destructures `this.topics[topic]` unguarded).
        `indexOf` is not checked, so a listener no longer in the list removes
        the LAST listener. When no listener is left the topic is dropped; the
        unsubscribe frame is sent and the subscription dropped only if the
        topic has a channel and the transport is open. */
    method Unsubscribe(s: Subscription)
      requires Valid() && s.topic in topics
      modifies this`topics, this`subscriptions, this`sent
      ensures Valid()
      ensures var t := old(topics)[s.topic];
        var remaining := SpliceOne(t.listeners, IndexOf(t.listeners, s.listener));
        && (|remaining| > 0 ==>
              topics == old(topics)[s.topic := t.(listeners := remaining)]
              && subscriptions == old(subscriptions) && sent == old(sent))
        && (|remaining| == 0 ==> topics == old(topics) - {s.topic})
        && (|remaining| == 0 && t.channelId.Some? && IsConnected() ==>
              && sent == old(sent) + [Send(UnsubscribeFrame(t.channelId.value))]
              && subscriptions == old(subscriptions) - {t.channelId.value})
        && (|remaining| == 0 && !(t.channelId.Some? && IsConnected()) ==>
              subscriptions == old(subscriptions) && sent == old(sent))
    {
      var t := topics[s.topic];
      var index := IndexOf(t.listeners, s.listener);
      var listeners := SpliceOne(t.listeners, index);
      if |listeners| == 0 {
        if t.channelId.Some? && IsConnected() {
          RegistryDrop(topics, subscriptions, requests, lastChannelId, ready, s.topic, subscriptions - {t.channelId.value});
          sent := sent + [Send(UnsubscribeFrame(t.channelId.value))];
          subscriptions := subscriptions - {t.channelId.value};
        } else {
          RegistryDrop(topics, subscriptions, requests, lastChannelId, ready, s.topic, subscriptions);
        }
        topics := topics - {s.topic};
      } else {
        RegistryRetopic(topics, subscriptions, requests, lastChannelId, ready, s.topic, t.(listeners := listeners));
        topics := topics[s.topic := t.(listeners := listeners)];
      }
    }

    /** The subscriptions made since the counter stood at `last0`, the
        transport log at `sent0` and the topic table at `topics0`: the
        registry holds and the transport is open; only channels changed in
        the topic table; the topics in `pending` still have no channel and
        every other topic has one issued after `last0`; every id issued
        since is a subscription, and its subscribe frame was sent in id order
        after `sent0`. */
    ghost predicate SubscribedSince(pending: set<string>, last0: int, sent0: seq<Outbound>, topics0: map<string, Topic>)
      reads this
    {
      && Valid() && ready == OPEN
      && Progress(topics, subscriptions, sent, lastChannelId, pending, last0, sent0, topics0)
    }

    /** One turn of the subscribe loop. */
    method OpenStep(topic: string, ghost pending: set<string>, ghost last0: int, ghost sent0: seq<Outbound>,
                    ghost topics0: map<string, Topic>)
      requires topic in pending && SubscribedSince(pending, last0, sent0, topics0)
      modifies this`lastChannelId, this`sent, this`topics, this`subscriptions
      ensures SubscribedSince(pending - {topic}, last0, sent0, topics0)
    {
      if topics[topic].channelId.None? {
        SetupSubscription(topic);
        ProgressStep(old(topics), old(subscriptions), old(sent), old(lastChannelId), pending, last0, sent0, topics0, topic,
                     topics, subscriptions, sent);
      }
    }

    /** `Object.keys(this.topics).forEach(...)`. */
    method SubscribeAll()
      requires SubscribedSince(topics.Keys, lastChannelId, sent, topics)
      modifies this`lastChannelId, this`sent, this`topics, this`subscriptions
      ensures SubscribedSince({}, old(lastChannelId), old(sent), old(topics))
    {
      var keys := topics.Keys;
      while keys != {}
        invariant SubscribedSince(keys, old(lastChannelId), old(sent), old(topics))
        decreases keys
      {
        var topic :| topic in keys;
        OpenStep(topic, keys, old(lastChannelId), old(sent), old(topics));
        keys := keys - {topic};
      }
    }

    /** The transport's "open" event: the transport is open, the state
        listeners hear "connected", and every topic (none has a channel yet)
        gets exactly one fresh subscription. */
    method HandleSocketOpen()
      requires Valid() && ready == CONNECTING
      modifies this`ready, this`events, this`lastChannelId, this`sent, this`topics, this`subscriptions
      ensures Valid() && ready == OPEN
      ensures events == old(events) + StateTo(stateListeners, Connected)
      ensures SubscribedSince({}, old(lastChannelId), old(sent), old(topics))
    {
      RegistryOpened(topics, subscriptions, requests, lastChannelId);
      ready := OPEN;
      events := events + StateTo(stateListeners, Connected);
      SubscribeAll();
    }

    /** `Object.values(this.topics).forEach((topic) => topic.channelId = undefined)`. */
    method DropChannels()
      modifies this`topics
      ensures topics.Keys == old(topics).Keys
      ensures forall k :: k in topics ==> topics[k] == old(topics)[k].(channelId := None)
    {
      var keys := topics.Keys;
      while keys != {}
        invariant topics.Keys == old(topics).Keys && keys <= topics.Keys
        invariant forall k :: k in topics && k !in keys ==> topics[k] == old(topics)[k].(channelId := None)
        invariant forall k :: k in keys ==> topics[k] == old(topics)[k]
        decreases keys
      {
        var topic :| topic in keys;
        topics := topics[topic := topics[topic].(channelId := None)];
        keys := keys - {topic};
      }
    }

    /** `Object.values(this.requests).forEach(({ onError }) => onError())`:
        every pending call is rejected with no reason, in ascending id order. */
    method RejectPending()
      requires lastChannelId >= 0
      modifies this`events
      ensures events == old(events) + RejectionsFrom(requests, 1, lastChannelId + 1)
    {
      var id := 1;
      while id <= lastChannelId
        invariant 1 <= id <= lastChannelId + 1
        invariant events == old(events) + RejectionsFrom(requests, 1, id)
      {
        if id in requests {
          events := events + [Rejected(id, None)];
        }
        id := id + 1;
      }
    }

    /** The transport's "close" event (from connecting, open or closing): the
        transport is closed; the state listeners hear "disconnected"; every
        topic keeps its listeners and cached value but loses its channel; the
        subscription table empties; each pending call is rejected once with
        no reason and the request table empties; a reopen is scheduled unless
        `close()` was called. The channel counter is not reset. */
    method HandleSocketClose()
      requires Valid() && ready != CLOSED
      modifies this`ready, this`events, this`topics, this`subscriptions, this`requests, this`reopenPending
      ensures Valid() && ready == CLOSED
      ensures topics.Keys == old(topics).Keys
      ensures forall k :: k in topics ==> topics[k] == old(topics)[k].(channelId := None)
      ensures subscriptions == map[] && requests == {}
      ensures events == old(events) + StateTo(stateListeners, Disconnected) + RejectionsFrom(old(requests), 1, lastChannelId + 1)
      ensures reopenPending == !closed
    {
      ready := CLOSED;
      events := events + StateTo(stateListeners, Disconnected);
      DropChannels();
      subscriptions := map[];
      RejectPending();
      requests := {};
      RegistryDisconnected(topics, lastChannelId);
      if !closed {
        reopenPending := true;
      }
    }

    /** The reconnect timer firing, as written: `this.socket = this.open()`.
        `open()` clears `closed`, so a `close()` made while the timer was
        pending is undone and the socket connects again. */
    method Reopen()
      requires Valid() && reopenPending
      modifies this`reopenPending, this`closed, this`events, this`ready, this`sent
      ensures Valid() && !reopenPending
      ensures closed == false && ready == CONNECTING
      ensures events == old(events) + StateTo(stateListeners, Session.Connecting)
      ensures sent == old(sent) + [Connect]
    {
      reopenPending := false;
      Open();
    }

    /** The reconnect timer as evidently intended: a `close()` made while it
        was pending stays in force. */
    method ReopenUnlessClosed()
      requires Valid() && reopenPending
      modifies this`reopenPending, this`closed, this`events, this`ready, this`sent
      ensures Valid() && !reopenPending
      ensures closed == old(closed)
      ensures old(closed) ==> ready == CLOSED && sent == old(sent) && events == old(events)
      ensures !old(closed) ==>
        && ready == CONNECTING
        && events == old(events) + StateTo(stateListeners, Session.Connecting)
        && sent == old(sent) + [Connect]
    {
      reopenPending := false;
      if !closed {
        Open();
      }
    }

    /** The effect of an error frame on `channelId`, relative to the state
        before: on a subscription, the error listeners of its topic are told
        and the topic and the subscription are dropped; otherwise the pending
        call is rejected with the error and forgotten. */
    twostate predicate ErrorHandled(channelId: int, error: Json)
      reads this
    {
      && (channelId in old(subscriptions) ==>
            var topic := old(subscriptions)[channelId];
            && topic in old(topics)
            && events == old(events) + ErrorsTo(old(topics)[topic].listeners, error)
            && topics == old(topics) - {topic}
            && subscriptions == old(subscriptions) - {channelId}
            && requests == old(requests))
      && (channelId !in old(subscriptions) ==>
            && events == old(events) + [Rejected(channelId, Some(error))]
            && requests == old(requests) - {channelId}
            && topics == old(topics) && subscriptions == old(subscriptions))
    }

    /** An error frame. On a subscribed channel every listener with an error
        callback is told, then the topic and its subscription are dropped (the
        topic must still be registered: the source reads its listeners
        unguarded). Otherwise the channel must be a pending call, which is
        rejected with the error and forgotten. */
    method HandleError(channelId: int, error: Json)
      requires Valid()
      requires channelId in subscriptions ==> subscriptions[channelId] in topics
      requires channelId in subscriptions || channelId in requests
      modifies this`events, this`topics, this`subscriptions, this`requests
      ensures Valid()
      ensures ErrorHandled(channelId, error)
    {
      if channelId in subscriptions {
        var topic := subscriptions[channelId];
        RegistryDropSubscribed(topics, subscriptions, requests, lastChannelId, ready, channelId);
        events := events + ErrorsTo(topics[topic].listeners, error);
        topics := topics - {topic};
        subscriptions := subscriptions - {channelId};
      } else {
        RegistrySettle(topics, subscriptions, requests, lastChannelId, ready, channelId);
        events := events + [Rejected(channelId, Some(error))];
        requests := requests - {channelId};
      }
    }

    /** The effect of a result frame: the pending call resolves once with
        the result and is forgotten. */
    twostate predicate ResultHandled(channelId: int, result: Json)
      reads this
    {
      && events == old(events) + [Resolved(channelId, result)]
      && requests == old(requests) - {channelId} && channelId !in requests
    }

    /** A result frame settles its pending call exactly once. */
    method HandleResult(channelId: int, result: Json)
      requires Valid() && channelId in requests
      modifies this`events, this`requests
      ensures Valid()
      ensures ResultHandled(channelId, result)
    {
      RegistrySettle(topics, subscriptions, requests, lastChannelId, ready, channelId);
      events := events + [Resolved(channelId, result)];
      requests := requests - {channelId};
    }

    /** The effect of a reset frame on a subscribed channel: the topic's
        cached value is replaced and handed to each of its listeners in order. */
    twostate predicate ResetHandled(channelId: int, value: Json)
      reads this
    {
      && channelId in old(subscriptions) && old(subscriptions)[channelId] in old(topics)
      && var topic := old(subscriptions)[channelId];
      && topics == old(topics)[topic := old(topics)[topic].(value := value)]
      && events == old(events) + UpdatesTo(old(topics)[topic].listeners, value)
    }

    /** A reset frame replaces the cached value of the subscribed topic and
        hands it to every listener. There is no guard: the channel must be a
        subscription whose topic is still registered. */
    method HandleTopicReset(channelId: int, value: Json)
      requires Valid() && channelId in subscriptions && subscriptions[channelId] in topics
      modifies this`events, this`topics
      ensures Valid()
      ensures ResetHandled(channelId, value)
    {
      var topic := subscriptions[channelId];
      RegistryRetopic(topics, subscriptions, requests, lastChannelId, ready, topic, topics[topic].(value := value));
      topics := topics[topic := topics[topic].(value := value)];
      events := events + UpdatesTo(topics[topic].listeners, value);
    }

    /** The effect of an update frame on a subscribed channel: the batch is
        folded over the cached value; on success the result is stored and
        handed to each listener, and a throw changes nothing. */
    twostate predicate UpdatesHandled(channelId: int, updates: seq<PathUpdate>, new thrown: Option<P.Error>)
      reads this
    {
      && channelId in old(subscriptions) && old(subscriptions)[channelId] in old(topics)
      && var topic := old(subscriptions)[channelId];
      && var result := ApplyPathUpdates(old(topics)[topic].value, updates);
      && (result.Failure? ==> thrown == Some(result.error) && topics == old(topics) && events == old(events))
      && (result.Success? ==>
            && thrown == None
            && topics == old(topics)[topic := old(topics)[topic].(value := result.value)]
            && events == old(events) + UpdatesTo(old(topics)[topic].listeners, result.value))
    }

    /** An update frame folds the batch over the cached value with the local
        `applyUpdate`, stores the result and hands it to every listener; a
        throw aborts the handler with nothing changed. Same precondition as a
        reset. */
    method HandleTopicUpdates(channelId: int, updates: seq<PathUpdate>) returns (thrown: Option<P.Error>)
      requires Valid() && channelId in subscriptions && subscriptions[channelId] in topics
      modifies this`events, this`topics
      ensures Valid()
      ensures UpdatesHandled(channelId, updates, thrown)
    {
      var topic := subscriptions[channelId];
      var result := ApplyPathUpdates(topics[topic].value, updates);
      if result.Failure? {
        return Some(result.error);
      }
      RegistryRetopic(topics, subscriptions, requests, lastChannelId, ready, topic, topics[topic].(value := result.value));
      topics := topics[topic := topics[topic].(value := result.value)];
      events := events + UpdatesTo(topics[topic].listeners, result.value);
      thrown := None;
    }

    /** Inbound frames whose handler does not crash. */
    predicate Deliverable(m: Message)
      reads this
    {
      match m
      case ErrorMessage(id, _) =>
        (id in subscriptions ==> subscriptions[id] in topics) && (id in subscriptions || id in requests)
      case ResultMessage(id, _) => id in requests
      case ResetMessage(id, _) => id in subscriptions && subscriptions[id] in topics
      case UpdatesMessage(id, _) => id in subscriptions && subscriptions[id] in topics
      case OtherMessage(_) => true
    }

    /** The transport's "message" event: dispatch on the tag; other tags are
        ignored. */
    method HandleSocketMessage(m: Message) returns (thrown: Option<P.Error>)
      requires Valid() && Deliverable(m)
      modifies this`events, this`topics, this`subscriptions, this`requests
      ensures Valid()
      ensures m.ErrorMessage? ==> ErrorHandled(m.id, m.error)
      ensures m.ResultMessage? ==> ResultHandled(m.id, m.result)
      ensures m.ResetMessage? ==> ResetHandled(m.id, m.value)
      ensures m.UpdatesMessage? ==> UpdatesHandled(m.id, m.updates, thrown)
      ensures !m.UpdatesMessage? ==> thrown == None
      ensures m.OtherMessage? ==>
        events == old(events) && topics == old(topics) && subscriptions == old(subscriptions) && requests == old(requests)
    {
      thrown := None;
      match m
      case ErrorMessage(id, error) => HandleError(id, error);
      case ResultMessage(id, result) => HandleResult(id, result);
      case ResetMessage(id, value) => HandleTopicReset(id, value);
      case UpdatesMessage(id, updates) => thrown := HandleTopicUpdates(id, updates);
      case OtherMessage(_) =>
    }
  }

  /** After `close()` the transport is closing and the socket no longer
      counts as connected, so removing a subscribed topic's last listener
      sends nothing and leaves its subscription behind, pointing at no
      topic. The entry is unreachable: a closing transport delivers no more
      messages, and the close event then empties the subscription table. */
  method DanglingAfterClose() returns (dangling: bool, sentByUnsubscribe: seq<Outbound>)
    ensures dangling && sentByUnsubscribe == []
  {
    var s := new Socket();
    var sub := s.Subscribe("todos", false);
    s.HandleSocketOpen();
    var channelId := s.topics["todos"].channelId.value;
    s.Close();
    var before := |s.sent|;
    s.Unsubscribe(sub);
    dangling := channelId in s.subscriptions && s.subscriptions[channelId] !in s.topics;
    sentByUnsubscribe := s.sent[before..];
  }

  /** The reconnect race on the code as written. */
  method CloseDuringReconnectWait() returns (closedAfter: bool, readyAfter: ReadyState)
    ensures !closedAfter && readyAfter == CONNECTING
  {
    var s := new Socket();
    s.HandleSocketClose();
    s.Close();
    s.Reopen();
    closedAfter, readyAfter := s.closed, s.ready;
  }

  /** The same race with the intended timer. */
  method CloseDuringReconnectWaitFixed() returns (closedAfter: bool, readyAfter: ReadyState)
    ensures closedAfter && readyAfter == CLOSED
  {
    var s := new Socket();
    s.HandleSocketClose();
    s.Close();
    s.ReopenUnlessClosed();
    closedAfter, readyAfter := s.closed, s.ready;
  }
}
