/** The session engine of the client library (client_js/src/socket.ts): one
    connection multiplexing calls, notifications and topic subscriptions by
    channel id, with a cache of each topic's value kept current by reset and
    patch frames.

    The WebSocket is an append-only log of what the engine does to it
    (`sent`); the events the transport raises (open, close, message) are
    methods the caller invokes, and so is the reconnect timer. Callbacks are
    not run: each invocation is appended to `events`. */
module ClientSocket {
  import opened Wrappers
  import opened Json
  import opened Session
  import P = Patch
  import Text

  /** Outbound frames `[0, topic, action, args]`, `[1, channelId, topic,
      action, args]`, `[2, channelId, topic]` and `[3, channelId]`. */
  datatype Frame =
    | NotifyFrame(topic: seq<string>, action: string, args: seq<Json>)
    | CallFrame(channelId: int, topic: seq<string>, action: string, args: seq<Json>)
    | SubscribeFrame(channelId: int, topic: seq<string>)
    | UnsubscribeFrame(channelId: int)

  /** What the engine does to its transport: open a new WebSocket, send a
      frame, or close it. */
  datatype Outbound = Connect | Send(frame: Frame) | Disconnect

  /** Inbound frames, dispatched on their first element. */
  datatype Message =
    | ErrorMessage(channelId: int, error: Json)
    | ResultMessage(channelId: int, result: Json)
    | ResetMessage(channelId: int, value: Json)
    | UpdatesMessage(channelId: int, updates: seq<P.Update>)
    | OtherMessage(tag: UnknownMessageTag)

  /** A topic entry: its listeners, its segments as given, the channel it is
      subscribed on (if any) and its cached value (`Undefined` until a reset). */
  datatype Topic = Topic(listeners: seq<Listener>, topic: seq<string>, channelId: Option<int>, value: Json)

  /** A rejected promise ("not connected") or a thrown error ("topic component
      is undefined"). */
  datatype Failure = NotConnected | UndefinedComponent

  /** What the closure returned by `subscribe` captures. */
  datatype Subscription = Subscription(key: string, listener: Listener)

  /** `validateTopic`: the segments, if none is undefined. */
  function ValidateTopic(parts: seq<Option<string>>): (r: Option<seq<string>>)
    ensures r.Some? <==> forall i :: 0 <= i < |parts| ==> parts[i].Some?
    ensures r.Some? ==> |r.value| == |parts| && forall i :: 0 <= i < |parts| ==> r.value[i] == parts[i].value
    decreases |parts|
  {
    if parts == [] then Some([])
    else if parts[0].None? then None
    else match ValidateTopic(parts[1..])
      case None => None
      case Some(rest) => Some([parts[0].value] + rest)
  }

  /** The registry key of a topic: `topic.join("/")`. */
  function TopicKey(parts: seq<string>): string {
    Text.Join(parts, '/')
  }

  /** Non-empty topics whose segments hold no `/` have distinct keys, so they
      get distinct registry entries. */
  lemma TopicKeyInjective(parts1: seq<string>, parts2: seq<string>)
    requires |parts1| > 0 && |parts2| > 0
    requires Text.Free(parts1, '/') && Text.Free(parts2, '/')
    requires TopicKey(parts1) == TopicKey(parts2)
    ensures parts1 == parts2
  {
    Text.JoinInjective(parts1, parts2, '/');
  }

  /** A segment containing `/` shares its key with the split topic: both
      subscribers land on one registry entry, which keeps the segments of
      whichever subscribed first. */
  lemma TopicKeyCollides()
    ensures TopicKey(["a/b"]) == TopicKey(["a", "b"]) == "a/b"
  {
    assert TopicKey(["a", "b"]) == "a" + "/" + TopicKey(["b"]);
  }

  /** JavaScript truthiness of an optional channel id. */
  predicate Truthy(channelId: Option<int>) {
    channelId.Some? && channelId.value != 0
  }

  /** `if (key)` on a looked-up registry key: undefined and "" are falsy. */
  predicate Subscribed(subscriptions: map<int, string>, channelId: int) {
    channelId in subscriptions && subscriptions[channelId] != ""
  }

  /** The registry invariant of the socket's tables, over values. */
  ghost predicate Registry(topics: map<string, Topic>, subscriptions: map<int, string>, requests: set<int>, last: int)
  {
    && last >= 0
    && (forall id :: id in subscriptions ==>
          1 <= id <= last && subscriptions[id] in topics && topics[subscriptions[id]].channelId == Some(id))
    && (forall k :: k in topics ==> |topics[k].listeners| > 0)
    && (forall k :: k in topics && topics[k].channelId.Some? ==>
          topics[k].channelId.value in subscriptions && subscriptions[topics[k].channelId.value] == k)
    && (forall id :: id in requests ==> 1 <= id <= last && id !in subscriptions)
  }

  /** Linking a topic without a channel to the next id keeps the registry. */
  lemma RegistryLink(topics: map<string, Topic>, subscriptions: map<int, string>, requests: set<int>, last: int, key: string)
    requires Registry(topics, subscriptions, requests, last)
    requires key in topics && topics[key].channelId.None?
    ensures Registry(topics[key := topics[key].(channelId := Some(last + 1))], subscriptions[last + 1 := key], requests, last + 1)
  {
    var topics', subscriptions' := topics[key := topics[key].(channelId := Some(last + 1))], subscriptions[last + 1 := key];
    forall k | k in topics' && topics'[k].channelId.Some?
      ensures topics'[k].channelId.value in subscriptions' && subscriptions'[topics'[k].channelId.value] == k
    {
      if k != key {
        assert topics'[k] == topics[k];
      }
    }
  }

  /** A new topic without a channel, with one listener, keeps the registry. */
  lemma RegistryAdd(topics: map<string, Topic>, subscriptions: map<int, string>, requests: set<int>, last: int, key: string, t: Topic)
    requires Registry(topics, subscriptions, requests, last)
    requires key !in topics && t.channelId.None? && |t.listeners| > 0
    ensures Registry(topics[key := t], subscriptions, requests, last)
  {
  }

  /** Replacing a topic's listeners by a non-empty list, or its value, keeps
      the registry. */
  lemma RegistryRetopic(topics: map<string, Topic>, subscriptions: map<int, string>, requests: set<int>, last: int, key: string, t: Topic)
    requires Registry(topics, subscriptions, requests, last)
    requires key in topics && t.channelId == topics[key].channelId && |t.listeners| > 0
    ensures Registry(topics[key := t], subscriptions, requests, last)
  {
  }

  /** Dropping a topic together with its subscription keeps the registry. */
  lemma RegistryDrop(topics: map<string, Topic>, subscriptions: map<int, string>, requests: set<int>, last: int, key: string)
    requires Registry(topics, subscriptions, requests, last)
    requires key in topics
    ensures var id := topics[key].channelId;
      Registry(topics - {key}, if id.Some? then subscriptions - {id.value} else subscriptions, requests, last)
  {
  }

  /** Taking the next id for a call keeps the registry, whether or not the
      call is recorded. */
  lemma RegistryCall(topics: map<string, Topic>, subscriptions: map<int, string>, requests: set<int>, last: int)
    requires Registry(topics, subscriptions, requests, last)
    ensures Registry(topics, subscriptions, requests, last + 1)
    ensures Registry(topics, subscriptions, requests + {last + 1}, last + 1)
    ensures last + 1 !in requests
  {
  }

  /** With every channel gone, empty tables satisfy the registry. */
  lemma RegistryDisconnected(topics: map<string, Topic>, last: int)
    requires last >= 0
    requires forall k :: k in topics ==> |topics[k].listeners| > 0 && topics[k].channelId.None?
    ensures Registry(topics, map[], {}, last)
  {
  }

  /** With no subscription, no topic has a channel. */
  lemma RegistryUnlinked(topics: map<string, Topic>, subscriptions: map<int, string>, requests: set<int>, last: int)
    requires Registry(topics, subscriptions, requests, last) && subscriptions == map[]
    ensures forall k :: k in topics ==> topics[k].channelId.None?
  {
  }

  /** Settling a call keeps the registry. */
  lemma RegistrySettle(topics: map<string, Topic>, subscriptions: map<int, string>, requests: set<int>, last: int, id: int)
    requires Registry(topics, subscriptions, requests, last)
    ensures Registry(topics, subscriptions, requests - {id}, last)
  {
  }

  /** The value part of the subscribe loop's invariant (see
      `Socket.SubscribedSince`). */
  ghost predicate Progress(topics: map<string, Topic>, subscriptions: map<int, string>, sent: seq<Outbound>, last: int,
                           pending: set<string>, last0: int, sent0: seq<Outbound>, topics0: map<string, Topic>)
  {
    && topics.Keys == topics0.Keys && pending <= topics.Keys
    && (forall k :: k in topics ==> topics[k] == topics0[k].(channelId := topics[k].channelId))
    && (forall k :: k in pending ==> topics[k].channelId.None?)
    && (forall k :: k in topics && k !in pending ==>
          topics[k].channelId.Some? && last0 < topics[k].channelId.value <= last)
    && last0 <= last
    && |sent| == |sent0| + (last - last0) && sent[..|sent0|] == sent0
    && (forall id :: last0 < id <= last ==>
          && id in subscriptions && subscriptions[id] in topics0
          && sent[|sent0| + (id - last0 - 1)] == Send(SubscribeFrame(id, topics0[subscriptions[id]].topic)))
  }

  /** Subscribing one pending topic advances the loop's invariant. */
  lemma ProgressStep(topics: map<string, Topic>, subscriptions: map<int, string>, sent: seq<Outbound>, last: int,
                     pending: set<string>, last0: int, sent0: seq<Outbound>, topics0: map<string, Topic>, key: string,
                     topics': map<string, Topic>, subscriptions': map<int, string>, sent': seq<Outbound>)
    requires Progress(topics, subscriptions, sent, last, pending, last0, sent0, topics0) && key in pending
    requires topics' == topics[key := topics[key].(channelId := Some(last + 1))]
    requires subscriptions' == subscriptions[last + 1 := key]
    requires sent' == sent + [Send(SubscribeFrame(last + 1, topics[key].topic))]
    ensures Progress(topics', subscriptions', sent', last + 1, pending - {key}, last0, sent0, topics0)
  {
    assert sent'[..|sent0|] == sent[..|sent0|];
    forall k | k in topics' && k !in pending - {key}
      ensures topics'[k].channelId.Some? && last0 < topics'[k].channelId.value <= last + 1
    {
      if k != key {
        assert topics'[k] == topics[k];
      }
    }
    forall id | last0 < id <= last + 1
      ensures id in subscriptions' && subscriptions'[id] in topics0
      ensures sent'[|sent0| + (id - last0 - 1)] == Send(SubscribeFrame(id, topics0[subscriptions'[id]].topic))
    {
      if id <= last {
        assert subscriptions'[id] == subscriptions[id];
        assert sent'[|sent0| + (id - last0 - 1)] == sent[|sent0| + (id - last0 - 1)];
      }
    }
  }

  class Socket {
    var closed: bool
    var state: SocketState
    var lastChannelId: int
    var topics: map<string, Topic>
    var requests: set<int>
    var subscriptions: map<int, string>
    var stateListeners: seq<nat>
    /** Everything done to the transport, oldest first. */
    var sent: seq<Outbound>
    /** Every callback invocation, oldest first. */
    var events: seq<Event>
    /** How many listener objects have been created. */
    var listenerCount: nat
    /** Whether the 500 ms reconnect timer is pending. */
    var reopenPending: bool

    /** Every live channel id was issued by the counter, a subscription and its
        topic point at each other, calls and subscriptions never share an id,
        a topic never has an empty listener list, and nothing is live on the
        wire unless connected. */
    ghost predicate Valid()
      reads this
    {
      && Registry(topics, subscriptions, requests, lastChannelId)
      && (state != Connected ==> subscriptions == map[] && requests == {})
      && (reopenPending ==> state == Disconnected)
    }

    predicate IsConnected()
      reads this
    {
      state == Connected
    }

    /** `new Socket(url)`: the fields start empty and disconnected, then
        `open()` runs. */
    constructor ()
      ensures Valid()
      ensures closed == false && state == Connecting && lastChannelId == 0
      ensures topics == map[] && requests == {} && subscriptions == map[]
      ensures stateListeners == [] && sent == [Connect] && events == []
      ensures listenerCount == 0 && reopenPending == false
    {
      closed := false;
      state := Disconnected;
      lastChannelId := 0;
      topics := map[];
      requests := {};
      subscriptions := map[];
      stateListeners := [];
      sent := [];
      events := [];
      listenerCount := 0;
      reopenPending := false;
      new;
      Open();
    }

    /** `open()`: clears `closed`, announces "connecting" and opens a new
        WebSocket. */
    method Open()
      requires Valid() && state == Disconnected && !reopenPending
      modifies this
      ensures Valid()
      ensures closed == false && state == Connecting
      ensures events == old(events) + StateTo(stateListeners, Connecting)
      ensures sent == old(sent) + [Connect]
      ensures unchanged(this`lastChannelId, this`topics, this`requests, this`subscriptions)
      ensures unchanged(this`stateListeners, this`listenerCount, this`reopenPending)
    {
      closed := false;
      SetState(Connecting);
      sent := sent + [Connect];
    }

    /** `setState`: record the state and tell every state listener. */
    method SetState(s: SocketState)
      modifies this`state, this`events
      ensures state == s
      ensures events == old(events) + StateTo(stateListeners, s)
    {
      state := s;
      events := events + StateTo(stateListeners, s);
    }

    method AddListener(l: nat)
      requires Valid()
      modifies this`stateListeners
      ensures Valid()
      ensures stateListeners == old(stateListeners) + [l]
    {
      stateListeners := stateListeners + [l];
    }

    /** Removes the first occurrence of `l`, if any (here the -1 of `indexOf`
        is checked before splicing). */
    method RemoveListener(l: nat)
      requires Valid()
      modifies this`stateListeners
      ensures Valid()
      ensures l !in old(stateListeners) ==> stateListeners == old(stateListeners)
      ensures l in old(stateListeners) ==>
        var i := IndexOf(old(stateListeners), l);
        stateListeners == old(stateListeners)[..i] + old(stateListeners)[i + 1..]
    {
      var index := IndexOf(stateListeners, l);
      if index >= 0 {
        stateListeners := SpliceOne(stateListeners, index);
      }
    }

    /** `close()`: marks the socket closed and closes the transport; the state
        changes only when the transport reports the close. */
    method Close()
      requires Valid()
      modifies this`closed, this`sent
      ensures Valid()
      ensures closed && sent == old(sent) + [Disconnect]
    {
      closed := true;
      sent := sent + [Disconnect];
    }

    /** `execute(topic, action, ...args)`. Not connected: rejected, nothing
        sent, no id used. Connected: an id is taken BEFORE the topic is
        validated, so an undefined segment throws but still uses up an id.
        Otherwise the call is sent and a pending request recorded. */
    method Execute(topic: seq<Option<string>>, action: string, args: seq<Json>) returns (r: Result<int, Failure>)
      requires Valid()
      modifies this`lastChannelId, this`sent, this`requests
      ensures Valid()
      ensures !old(IsConnected()) ==>
        r == Failure(NotConnected) && lastChannelId == old(lastChannelId) && sent == old(sent) && requests == old(requests)
      ensures old(IsConnected()) ==> lastChannelId == old(lastChannelId) + 1
      ensures old(IsConnected()) && ValidateTopic(topic).None? ==>
        r == Failure(UndefinedComponent) && sent == old(sent) && requests == old(requests)
      ensures old(IsConnected()) && ValidateTopic(topic).Some? ==>
        && r == Success(lastChannelId)
        && sent == old(sent) + [Send(CallFrame(lastChannelId, ValidateTopic(topic).value, action, args))]
        && requests == old(requests) + {lastChannelId}
        && lastChannelId !in old(requests)
    {
      if !IsConnected() {
        return Failure(NotConnected);
      }
      RegistryCall(topics, subscriptions, requests, lastChannelId);
      lastChannelId := lastChannelId + 1;
      var channelId := lastChannelId;
      var parts := ValidateTopic(topic);
      if parts.None? {
        return Failure(UndefinedComponent);
      }
      sent := sent + [Send(CallFrame(channelId, parts.value, action, args))];
      requests := requests + {channelId};
      r := Success(channelId);
    }

    /** `notify(topic, action, ...args)`: rejected when not connected; throws on
        an undefined segment; otherwise sends one frame. Never uses an id. */
    method Notify(topic: seq<Option<string>>, action: string, args: seq<Json>) returns (r: Result<(), Failure>)
      requires Valid()
      modifies this`sent
      ensures Valid()
      ensures !IsConnected() ==> r == Failure(NotConnected) && sent == old(sent)
      ensures IsConnected() && ValidateTopic(topic).None? ==> r == Failure(UndefinedComponent) && sent == old(sent)
      ensures IsConnected() && ValidateTopic(topic).Some? ==>
        r == Success(()) && sent == old(sent) + [Send(NotifyFrame(ValidateTopic(topic).value, action, args))]
    {
      if !IsConnected() {
        return Failure(NotConnected);
      }
      var parts := ValidateTopic(topic);
      if parts.None? {
        return Failure(UndefinedComponent);
      }
      sent := sent + [Send(NotifyFrame(parts.value, action, args))];
      r := Success(());
    }

    /** `setupSubscription(key)`: one fresh id, one subscribe frame, and the
        topic and the subscription table pointing at each other. */
    method SetupSubscription(key: string)
      requires Valid() && IsConnected()
      requires key in topics && topics[key].channelId.None?
      modifies this`lastChannelId, this`sent, this`topics, this`subscriptions
      ensures Valid()
      ensures lastChannelId == old(lastChannelId) + 1
      ensures sent == old(sent) + [Send(SubscribeFrame(lastChannelId, old(topics)[key].topic))]
      ensures topics == old(topics)[key := old(topics)[key].(channelId := Some(lastChannelId))]
      ensures subscriptions == old(subscriptions)[lastChannelId := key]
    {
      RegistryLink(topics, subscriptions, requests, lastChannelId, key);
      lastChannelId := lastChannelId + 1;
      var channelId := lastChannelId;
      var topic := topics[key].topic;
      sent := sent + [Send(SubscribeFrame(channelId, topic))];
      topics := topics[key := topics[key].(channelId := Some(channelId))];
      subscriptions := subscriptions[channelId := key];
    }

    /** `subscribe(topic, onUpdate, onError?)`. An undefined segment throws
        before the registry is touched (the listener object is created
        first). Otherwise the listener is attached under the joined key. */
    method Subscribe(topic: seq<Option<string>>, hasOnError: bool) returns (r: Result<Subscription, Failure>)
      requires Valid()
      modifies this`listenerCount, this`topics, this`subscriptions, this`sent, this`events, this`lastChannelId
      ensures Valid()
      ensures listenerCount == old(listenerCount) + 1
      ensures ValidateTopic(topic).None? ==>
        && r == Failure(UndefinedComponent)
        && unchanged(this`topics, this`subscriptions, this`sent, this`events, this`lastChannelId)
      ensures ValidateTopic(topic).Some? ==>
        r == Success(Subscription(TopicKey(ValidateTopic(topic).value), Listener(old(listenerCount), hasOnError)))
      ensures ValidateTopic(topic).Some? ==>
        Attached(TopicKey(ValidateTopic(topic).value), ValidateTopic(topic).value, Listener(old(listenerCount), hasOnError))
    {
      var listener := Listener(listenerCount, hasOnError);
      listenerCount := listenerCount + 1;
      var parts := ValidateTopic(topic);
      if parts.None? {
        return Failure(UndefinedComponent);
      }
      var key := TopicKey(parts.value);
      Attach(key, parts.value, listener);
      r := Success(Subscription(key, listener));
    }

    /** What attaching listener `l` under `key` did, relative to the state
        before: a known key gains the listener, no frame is sent, and the
        cached value (possibly undefined) is replayed to that listener alone;
        a new key gets a topic entry with no value, subscribed on the wire
        only when connected. */
    twostate predicate Attached(key: string, parts: seq<string>, l: Listener)
      reads this
    {
      && (key in old(topics) ==>
            && topics == old(topics)[key := old(topics)[key].(listeners := old(topics)[key].listeners + [l])]
            && events == old(events) + [Updated(l.id, old(topics)[key].value)]
            && subscriptions == old(subscriptions) && sent == old(sent) && lastChannelId == old(lastChannelId))
      && (key !in old(topics) && old(state) != Connected ==>
            && topics == old(topics)[key := Topic([l], parts, None, Undefined)]
            && subscriptions == old(subscriptions) && sent == old(sent) && lastChannelId == old(lastChannelId)
            && events == old(events))
      && (key !in old(topics) && old(state) == Connected ==>
            && lastChannelId == old(lastChannelId) + 1
            && topics == old(topics)[key := Topic([l], parts, Some(lastChannelId), Undefined)]
            && subscriptions == old(subscriptions)[lastChannelId := key]
            && sent == old(sent) + [Send(SubscribeFrame(lastChannelId, parts))]
            && events == old(events))
    }

    /** The body of `subscribe` after validation. */
    method Attach(key: string, parts: seq<string>, l: Listener)
      requires Valid()
      modifies this`topics, this`subscriptions, this`sent, this`events, this`lastChannelId
      ensures Valid()
      ensures Attached(key, parts, l)
    {
      if key in topics {
        var t := topics[key];
        RegistryRetopic(topics, subscriptions, requests, lastChannelId, key, t.(listeners := t.listeners + [l]));
        topics := topics[key := t.(listeners := t.listeners + [l])];
        events := events + [Updated(l.id, t.value)];
      } else {
        var created := Topic([l], parts, None, Undefined);
        RegistryAdd(topics, subscriptions, requests, lastChannelId, key, created);
        topics := topics[key := created];
        if IsConnected() {
          SetupSubscription(key);
          assert topics == old(topics)[key := created.(channelId := Some(lastChannelId))];
        }
      }
    }

    /** The closure returned by `subscribe`. Its topic must still be registered:
        the source reads `this.topics[key]` unguarded. The listener is removed
        by `indexOf`/`splice(index, 1)`, so a listener no longer in the list
        removes the LAST listener instead. When no listener is left, the topic
        is dropped, and only if it has a channel and the socket is connected
        is an unsubscribe frame sent and the subscription dropped. */
    method Unsubscribe(s: Subscription)
      requires Valid() && s.key in topics
      modifies this`topics, this`subscriptions, this`sent
      ensures Valid()
      ensures var t := old(topics)[s.key];
        var remaining := SpliceOne(t.listeners, IndexOf(t.listeners, s.listener));
        && (|remaining| > 0 ==>
              topics == old(topics)[s.key := t.(listeners := remaining)]
              && unchanged(this`subscriptions, this`sent))
        && (|remaining| == 0 ==> topics == old(topics) - {s.key})
        && (|remaining| == 0 && Truthy(t.channelId) && IsConnected() ==>
              && sent == old(sent) + [Send(UnsubscribeFrame(t.channelId.value))]
              && subscriptions == old(subscriptions) - {t.channelId.value})
        && (|remaining| == 0 && !(Truthy(t.channelId) && IsConnected()) ==> unchanged(this`subscriptions, this`sent))
    {
      var t := topics[s.key];
      var index := IndexOf(t.listeners, s.listener);
      var listeners := SpliceOne(t.listeners, index);
      if |listeners| == 0 {
        RegistryDrop(topics, subscriptions, requests, lastChannelId, s.key);
        if Truthy(t.channelId) && IsConnected() {
          sent := sent + [Send(UnsubscribeFrame(t.channelId.value))];
          subscriptions := subscriptions - {t.channelId.value};
        }
        topics := topics - {s.key};
      } else {
        RegistryRetopic(topics, subscriptions, requests, lastChannelId, s.key, t.(listeners := listeners));
        topics := topics[s.key := t.(listeners := listeners)];
      }
    }
  
    /** The subscriptions made since the counter stood at `last0`, the
        transport log at `sent0` and the topic table at `topics0`: the
        registry holds and the socket is connected; only channels changed in
        the topic table; the topics in `pending` still have no channel and
        every other topic has one issued after `last0`; every id issued
        since is a subscription, and its subscribe frame, carrying its
        topic's segments, was sent in id order after `sent0`. */
    ghost predicate SubscribedSince(pending: set<string>, last0: int, sent0: seq<Outbound>, topics0: map<string, Topic>)
      reads this
    {
      && Valid() && state == Connected
      && Progress(topics, subscriptions, sent, lastChannelId, pending, last0, sent0, topics0)
    }

    /** One turn of the subscribe loop: the visited key, which has no
        channel yet, is subscribed. */
    method OpenStep(key: string, ghost pending: set<string>, ghost last0: int, ghost sent0: seq<Outbound>, ghost topics0: map<string, Topic>)
      requires key in pending && SubscribedSince(pending, last0, sent0, topics0)
      modifies this`lastChannelId, this`sent, this`topics, this`subscriptions
      ensures SubscribedSince(pending - {key}, last0, sent0, topics0)
    {
      if !Truthy(topics[key].channelId) {
        SetupSubscription(key);
        ProgressStep(old(topics), old(subscriptions), old(sent), old(lastChannelId), pending, last0, sent0, topics0, key,
                     topics, subscriptions, sent);
      }
    }

    /** The transport's "open" event: the state becomes connected and every
        topic (none has a channel yet) gets exactly one fresh subscription,
        with ids following the counter and one subscribe frame each. */
    method HandleSocketOpen()
      requires Valid() && state == Connecting
      modifies this`state, this`events, this`lastChannelId, this`sent, this`topics, this`subscriptions
      ensures Valid() && state == Connected
      ensures events == old(events) + StateTo(stateListeners, Connected)
      ensures SubscribedSince({}, old(lastChannelId), old(sent), old(topics))
    {
      RegistryUnlinked(topics, subscriptions, requests, lastChannelId);
      SetState(Connected);
      SubscribeAll();
    }

    /** `Object.keys(this.topics).forEach(...)`: visits every key once and
        subscribes the topics that have no channel. */
    method SubscribeAll()
      requires SubscribedSince(topics.Keys, lastChannelId, sent, topics)
      modifies this`lastChannelId, this`sent, this`topics, this`subscriptions
      ensures SubscribedSince({}, old(lastChannelId), old(sent), old(topics))
    {
      var keys := topics.Keys;
      while keys != {}
        invariant SubscribedSince(keys, old(lastChannelId), old(sent), old(topics))
        decreases keys
      {
        var key :| key in keys;
        OpenStep(key, keys, old(lastChannelId), old(sent), old(topics));
        keys := keys - {key};
      }
    }

    /** The transport's "close" event: disconnected; every topic keeps its
        listeners and cached value but loses its channel; the subscription
        table empties; each pending call is rejected once with no reason and
        the request table empties; a reopen is scheduled unless `close()` was
        called. The channel counter is not reset. */
    method HandleSocketClose()
      requires Valid() && state != Disconnected
      modifies this`state, this`events, this`topics, this`subscriptions, this`requests, this`reopenPending
      ensures Valid() && state == Disconnected
      ensures topics.Keys == old(topics).Keys
      ensures forall k :: k in topics ==> topics[k] == old(topics)[k].(channelId := None)
      ensures subscriptions == map[] && requests == {}
      ensures events == old(events) + StateTo(stateListeners, Disconnected) + RejectionsFrom(old(requests), 1, lastChannelId + 1)
      ensures reopenPending == !closed
    {
      SetState(Disconnected);
      DropChannels();
      subscriptions := map[];
      RejectPending();
      requests := {};
      RegistryDisconnected(topics, lastChannelId);
      if !closed {
        reopenPending := true;
      }
    }

    /** `for (const key in this.topics) this.topics[key].channelId = undefined`. */
    method DropChannels()
      modifies this`topics
      ensures topics.Keys == old(topics).Keys
      ensures forall k :: k in topics ==> topics[k] == old(topics)[k].(channelId := None)
    {
      var keys := topics.Keys;
      while keys != {}
        invariant topics.Keys == old(topics).Keys && keys <= topics.Keys
        invariant forall k :: k in topics && k !in keys ==> topics[k] == old(topics)[k].(channelId := None)
        invariant forall k :: k in keys ==> topics[k] == old(topics)[k]
        decreases keys
      {
        var key :| key in keys;
        topics := topics[key := topics[key].(channelId := None)];
        keys := keys - {key};
      }
    }

    /** `for (const id in this.requests)`: every pending call is rejected with
        no reason, in ascending id order. */
    method RejectPending()
      requires lastChannelId >= 0
      modifies this`events
      ensures events == old(events) + RejectionsFrom(requests, 1, lastChannelId + 1)
    {
      var id := 1;
      while id <= lastChannelId
        invariant 1 <= id <= lastChannelId + 1
        invariant events == old(events) + RejectionsFrom(requests, 1, id)
      {
        if id in requests {
          events := events + [Rejected(id, None)];
        }
        id := id + 1;
      }
    }

    /** The reconnect timer firing, as written: `this.socket = this.open()`.
        `open()` clears `closed`, so a `close()` made while the timer was
        pending is undone and the socket connects again. */
    method Reopen()
      requires Valid() && reopenPending
      modifies this
      ensures Valid() && !reopenPending
      ensures closed == false && state == Connecting
      ensures events == old(events) + StateTo(stateListeners, Connecting)
      ensures sent == old(sent) + [Connect]
      ensures unchanged(this`lastChannelId, this`topics, this`requests, this`subscriptions, this`stateListeners, this`listenerCount)
    {
      reopenPending := false;
      Open();
    }

    /** The reconnect timer as evidently intended: a `close()` made while it
        was pending stays in force and nothing is reopened. */
    method ReopenUnlessClosed()
      requires Valid() && reopenPending
      modifies this
      ensures Valid() && !reopenPending
      ensures old(closed) ==> closed && state == Disconnected && sent == old(sent) && events == old(events)
      ensures !old(closed) ==>
        && state == Connecting
        && events == old(events) + StateTo(stateListeners, Connecting)
        && sent == old(sent) + [Connect]
      ensures closed == old(closed)
      ensures unchanged(this`lastChannelId, this`topics, this`requests, this`subscriptions, this`stateListeners, this`listenerCount)
    {
      reopenPending := false;
      if !closed {
        Open();
      }
    }

    /** The effect of an error frame on `channelId`, relative to the state
        before: on a subscription, the error listeners of its topic are told
        and the topic and the subscription are dropped; otherwise the pending
        call is rejected with the error and forgotten. */
    twostate predicate ErrorHandled(channelId: int, error: Json)
      reads this
    {
      && (channelId in old(subscriptions) ==>
            var key := old(subscriptions)[channelId];
            && key in old(topics)
            && events == old(events) + ErrorsTo(old(topics)[key].listeners, error)
            && topics == old(topics) - {key}
            && subscriptions == old(subscriptions) - {channelId}
            && requests == old(requests))
      && (channelId !in old(subscriptions) ==>
            && events == old(events) + [Rejected(channelId, Some(error))]
            && requests == old(requests) - {channelId}
            && topics == old(topics) && subscriptions == old(subscriptions))
    }

    /** An error frame. On a subscribed channel every listener with an error
        callback is told, then the topic and its subscription are dropped;
        otherwise the channel must be a pending call (the source looks it up
        unguarded), which is rejected with the error and forgotten. */
    method HandleError(channelId: int, error: Json)
      requires Valid() && (channelId in subscriptions || channelId in requests)
      modifies this`events, this`topics, this`subscriptions, this`requests
      ensures Valid()
      ensures ErrorHandled(channelId, error)
    {
      if channelId in subscriptions {
        var key := subscriptions[channelId];
        RegistryDrop(topics, subscriptions, requests, lastChannelId, key);
        events := events + ErrorsTo(topics[key].listeners, error);
        topics := topics - {key};
        subscriptions := subscriptions - {channelId};
      } else {
        RegistrySettle(topics, subscriptions, requests, lastChannelId, channelId);
        events := events + [Rejected(channelId, Some(error))];
        requests := requests - {channelId};
      }
    }

    /** The effect of a result frame: the pending call resolves once with
        the result and is forgotten. */
    twostate predicate ResultHandled(channelId: int, result: Json)
      reads this
    {
      && events == old(events) + [Resolved(channelId, result)]
      && requests == old(requests) - {channelId} && channelId !in requests
    }

    /** A result frame settles its pending call exactly once. */
    method HandleResult(channelId: int, result: Json)
      requires Valid() && channelId in requests
      modifies this`events, this`requests
      ensures Valid()
      ensures ResultHandled(channelId, result)
    {
      RegistrySettle(topics, subscriptions, requests, lastChannelId, channelId);
      events := events + [Resolved(channelId, result)];
      requests := requests - {channelId};
    }

    /** The effect of a reset frame: on a subscribed channel the topic's
        cached value is replaced and handed to each of its listeners in order;
        otherwise nothing changes. */
    twostate predicate ResetHandled(channelId: int, value: Json)
      reads this
    {
      && (Subscribed(old(subscriptions), channelId) ==>
            var key := old(subscriptions)[channelId];
            && key in old(topics)
            && topics == old(topics)[key := old(topics)[key].(value := value)]
            && events == old(events) + UpdatesTo(old(topics)[key].listeners, value))
      && (!Subscribed(old(subscriptions), channelId) ==> topics == old(topics) && events == old(events))
    }

    /** A reset frame replaces the cached value of the subscribed topic and
        hands it to every listener; on an unknown channel (or the falsy key
        "") nothing happens. */
    method HandleTopicReset(channelId: int, value: Json)
      requires Valid()
      modifies this`events, this`topics
      ensures Valid()
      ensures ResetHandled(channelId, value)
    {
      if Subscribed(subscriptions, channelId) {
        var key := subscriptions[channelId];
        RegistryRetopic(topics, subscriptions, requests, lastChannelId, key, topics[key].(value := value));
        topics := topics[key := topics[key].(value := value)];
        events := events + UpdatesTo(topics[key].listeners, value);
      }
    }

    /** The effect of an update frame: on a subscribed channel the batch is
        folded over the cached value; on success the result is stored and
        handed to each listener, and a throw changes nothing. On an unknown
        channel nothing changes and nothing is thrown. */
    twostate predicate UpdatesHandled(channelId: int, updates: seq<P.Update>, new thrown: Option<P.Error>)
      reads this
    {
      && (!Subscribed(old(subscriptions), channelId) ==>
            thrown == None && topics == old(topics) && events == old(events))
      && (Subscribed(old(subscriptions), channelId) ==>
            var key := old(subscriptions)[channelId];
            && key in old(topics)
            && var result := P.ApplyAll(P.InRange, old(topics)[key].value, updates);
            && (result.Failure? ==> thrown == Some(result.error) && topics == old(topics) && events == old(events))
            && (result.Success? ==>
                  && thrown == None
                  && topics == old(topics)[key := old(topics)[key].(value := result.value)]
                  && events == old(events) + UpdatesTo(old(topics)[key].listeners, result.value)))
    }

    /** An update frame folds the batch, in order, over the cached value of the
        subscribed topic, stores the result and hands it to every listener. A
        patch that throws aborts the handler with nothing changed; on an
        unknown channel nothing happens. */
    method HandleTopicUpdates(channelId: int, updates: seq<P.Update>) returns (thrown: Option<P.Error>)
      requires Valid()
      modifies this`events, this`topics
      ensures Valid()
      ensures UpdatesHandled(channelId, updates, thrown)
    {
      thrown := None;
      if Subscribed(subscriptions, channelId) {
        var key := subscriptions[channelId];
        var result := P.ApplyAll(P.InRange, topics[key].value, updates);
        if result.Failure? {
          return Some(result.error);
        }
        RegistryRetopic(topics, subscriptions, requests, lastChannelId, key, topics[key].(value := result.value));
        topics := topics[key := topics[key].(value := result.value)];
        events := events + UpdatesTo(topics[key].listeners, result.value);
      }
    }

    /** Inbound frames whose handler does not crash: errors and results must
        name a subscription or a pending call. */
    predicate Deliverable(m: Message)
      reads this
    {
      match m
      case ErrorMessage(id, _) => id in subscriptions || id in requests
      case ResultMessage(id, _) => id in requests
      case _ => true
    }

    /** The transport's "message" event: dispatch on the tag; other tags are
        ignored. */
    method HandleSocketMessage(m: Message) returns (thrown: Option<P.Error>)
      requires Valid() && Deliverable(m)
      modifies this`events, this`topics, this`subscriptions, this`requests
      ensures Valid()
      ensures m.ErrorMessage? ==> ErrorHandled(m.channelId, m.error)
      ensures m.ResultMessage? ==> ResultHandled(m.channelId, m.result)
      ensures m.ResetMessage? ==> ResetHandled(m.channelId, m.value)
      ensures m.UpdatesMessage? ==> UpdatesHandled(m.channelId, m.updates, thrown)
      ensures !m.UpdatesMessage? ==> thrown == None
      ensures m.OtherMessage? ==>
        unchanged(this`events, this`topics, this`subscriptions, this`requests)
      ensures m.ResetMessage? || m.UpdatesMessage? ==> unchanged(this`subscriptions, this`requests)
    {
      thrown := None;
      match m
      case ErrorMessage(id, error) => HandleError(id, error);
      case ResultMessage(id, result) => HandleResult(id, result);
      case ResetMessage(id, value) => HandleTopicReset(id, value);
      case UpdatesMessage(id, updates) => thrown := HandleTopicUpdates(id, updates);
      case OtherMessage(_) =>
    }
  }

  /** The reconnect race, on the code as written: the connection fails, the
      user calls `close()` while the reconnect timer is pending, and the timer
      still reopens the socket with `closed` cleared. */
  method CloseDuringReconnectWait() returns (closedAfter: bool, stateAfter: SocketState)
    ensures !closedAfter && stateAfter == Connecting
  {
    var s := new Socket();
    s.HandleSocketClose();
    s.Close();
    s.Reopen();
    closedAfter, stateAfter := s.closed, s.state;
  }

  /** The same race with the intended timer: the socket stays closed and
      disconnected. */
  method CloseDuringReconnectWaitFixed() returns (closedAfter: bool, stateAfter: SocketState)
    ensures closedAfter && stateAfter == Disconnected
  {
    var s := new Socket();
    s.HandleSocketClose();
    s.Close();
    s.ReopenUnlessClosed();
    closedAfter, stateAfter := s.closed, s.state;
  }
}
