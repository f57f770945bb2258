/**
 * A hyperspace room (partykit/hyperspace.ts). The room id is a hashed page
 * URL. Rooms of other pages subscribe to it over HTTP; each subscription is
 * its own storage key `hashedUrl-<id>` holding the time it was made. On every
 * connect and close the room tells its own clients and every subscriber of
 * the last 24 hours how many connections it has.
 */
module Hyperspace {
  import opened Common
  import opened Js
  import Rooms

  /** The storage-key prefix of a subscription. */
  const PREFIX := "hashedUrl-"

  /** 24 hours, in milliseconds: a subscription older than this is expired. */
  const SUBSCRIPTION_TTL := 24 * 60 * 60 * 1000

  /** What a client sends: `init` with the page's links, `exit` (the parsed message, relayed as is), or anything else. */
  datatype ClientMessage = Init(hashedUrls: seq<string>) | Exit(data: string) | OtherMessage

  /** What the room sends to its clients: `here`, a relayed `connections`, a relayed `exit`. */
  datatype ServerMessage =
    | Here(count: int)
    | ConnectionsMsg(hashedUrl: string, connections: int)
    | ExitMsg(data: string)

  /** The JSON body of a POST between rooms. */
  datatype PeerRequest =
    | SubscribeReq(hashedUrl: string)
    | ConnectionsReq(hashedUrl: string, connections: int)
    | OtherType

  /** What a room answers to a subscribe: its count if above zero, else `{type: "success"}`. */
  datatype PeerReply = ConnectionsReply(hashedUrl: string, connections: int) | SuccessReply

  datatype Request = Get | Post(body: PeerRequest) | OtherMethod

  datatype ResponseBody =
    | Debug(subscribers: map<string, int>, connections: int, hashedUrl: string)
    | Reply(reply: PeerReply)
    | Text(text: string)

  datatype Response = Response(status: int, body: ResponseBody)

  /** A broadcast (to all but `without`), a send to one connection, or a POST to the room of another page. */
  datatype Out =
    | Broadcast(msg: ServerMessage, without: seq<string>)
    | Send(to: string, msg: ServerMessage)
    | ToPeer(peerId: string, request: PeerRequest)

  /** A subscription key with its prefix removed. */
  function Strip(key: string): string
    requires StartsWith(key, PREFIX)
  {
    key[|PREFIX|..]
  }

  /** Two subscription keys with the same stripped id are the same key. */
  lemma StripInjective(k1: string, k2: string)
    requires StartsWith(k1, PREFIX) && StartsWith(k2, PREFIX)
    requires Strip(k1) == Strip(k2)
    ensures k1 == k2
  {
    assert k1 == k1[..|PREFIX|] + Strip(k1);
    assert k2 == k2[..|PREFIX|] + Strip(k2);
  }

  /** The subscriber ids among `keys` whose subscription is at most 24 hours old at `now`. */
  ghost function LiveIn(storage: map<string, int>, keys: set<string>, now: int): set<string> {
    set k | k in keys && k in storage && StartsWith(k, PREFIX) && now - storage[k] <= SUBSCRIPTION_TTL :: Strip(k)
  }

  /** The subscriber ids among `keys` whose subscription is older than 24 hours at `now`. */
  ghost function ExpiredIn(storage: map<string, int>, keys: set<string>, now: int): set<string> {
    set k | k in keys && k in storage && StartsWith(k, PREFIX) && now - storage[k] > SUBSCRIPTION_TTL :: Strip(k)
  }

  /** One POST of `request` to each of `peerIds`, in order. */
  function Notices(peerIds: seq<string>, request: PeerRequest): (out: seq<Out>)
    ensures |out| == |peerIds|
    ensures forall i :: 0 <= i < |out| ==> out[i] == ToPeer(peerIds[i], request)
  {
    seq(|peerIds|, i requires 0 <= i < |peerIds| => ToPeer(peerIds[i], request))
  }

  /**
   * A subscriber is notified exactly when its `hashedUrl-` key is stored and
   * at most 24 hours old; a subscription exactly 24 hours old still is.
   */
  lemma LiveIff(storage: map<string, int>, now: int, h: string)
    ensures h in LiveIn(storage, storage.Keys, now) <==>
      PREFIX + h in storage && now - storage[PREFIX + h] <= SUBSCRIPTION_TTL
  {
    var k := PREFIX + h;
    assert StartsWith(k, PREFIX) && Strip(k) == h;
    if h in LiveIn(storage, storage.Keys, now) {
      var k' :| k' in storage && StartsWith(k', PREFIX) && now - storage[k'] <= SUBSCRIPTION_TTL && Strip(k') == h;
      StripInjective(k', k);
    }
  }

  /** The `hashedUrl-` entries, as the GET debug view lists them. */
  function Subscribers(storage: map<string, int>): (subs: map<string, int>)
    ensures forall k :: k in subs <==> k in storage && StartsWith(k, PREFIX)
    ensures forall k :: k in subs ==> subs[k] == storage[k]
  {
    map k | k in storage && StartsWith(k, PREFIX) :: storage[k]
  }

  /**
   * What an `init` sends: for each link, a subscribe POST to that page's
   * room, followed by the room's count to the connection when the room
   * answered with one. `replies[i]` is what the i-th POST was answered.
   */
  function InitOutputs(hashedUrls: seq<string>, selfId: string, connection: string, replies: seq<PeerReply>)
    : seq<Out>
    requires |replies| == |hashedUrls|
  {
    if hashedUrls == [] then []
    else
      SubscribeOutputs(hashedUrls[0], selfId, connection, replies[0])
      + InitOutputs(hashedUrls[1..], selfId, connection, replies[1..])
  }

  /** What one `subscribe` sends: the POST, then the count if the reply carried one. */
  function SubscribeOutputs(hashedUrl: string, selfId: string, connection: string, reply: PeerReply): seq<Out> {
    [ToPeer(hashedUrl, SubscribeReq(selfId))]
      + (if reply.ConnectionsReply? then [Send(connection, ConnectionsMsg(reply.hashedUrl, reply.connections))] else [])
  }

  /**
   * An `init` POSTs exactly one subscribe per link, in link order, and
   * sends counts to the initiating connection only.
   */
  lemma {:induction false} InitOutputsShape(hashedUrls: seq<string>, selfId: string, connection: string, replies: seq<PeerReply>)
    requires |replies| == |hashedUrls|
    ensures var out := InitOutputs(hashedUrls, selfId, connection, replies);
      && Requested(out) == hashedUrls
      && (forall o :: o in out && o.ToPeer? ==> o.request == SubscribeReq(selfId))
      && (forall o :: o in out && !o.ToPeer? ==> o.Send? && o.to == connection && o.msg.ConnectionsMsg?)
  {
    if hashedUrls != [] {
      var head := SubscribeOutputs(hashedUrls[0], selfId, connection, replies[0]);
      var rest := InitOutputs(hashedUrls[1..], selfId, connection, replies[1..]);
      InitOutputsShape(hashedUrls[1..], selfId, connection, replies[1..]);
      RequestedAppend(head, rest);
      assert Requested(head) == [hashedUrls[0]] by {
        assert head[1..] == [] || Requested(head[1..]) == [];
      }
      assert [hashedUrls[0]] + hashedUrls[1..] == hashedUrls;
    }
  }

  /** The peers POSTed to, in order. */
  function Requested(out: seq<Out>): seq<string> {
    if out == [] then []
    else (if out[0].ToPeer? then [out[0].peerId] else []) + Requested(out[1..])
  }

  lemma {:induction false} RequestedAppend(a: seq<Out>, b: seq<Out>)
    ensures Requested(a + b) == Requested(a) + Requested(b)
  {
    if a != [] {
      assert (a + b)[1..] == a[1..] + b;
      RequestedAppend(a[1..], b);
    } else {
      assert a + b == b;
    }
  }

  /** The hyperspace room of one hashed URL. */
  class Connections {
    const id: string
    /** Storage: key -> time stored (ms); the subscription keys carry the prefix. */
    var storage: map<string, int>
    /** The runtime's current connections to this room. */
    var connectionIds: seq<string>
    var outbox: seq<Out>

    constructor (id: string, connectionIds: seq<string>)
      ensures this.id == id && this.connectionIds == connectionIds
      ensures storage == map[] && outbox == []
    {
      this.id := id;
      this.connectionIds := connectionIds;
      storage, outbox := map[], [];
    }

    /** `connectionsCount` */
    function ConnectionsCount(): (n: nat)
      reads this
      ensures n == |connectionIds|
    {
      |connectionIds|
    }

    /**
     * `publish`: `here` goes to every client; then, over a snapshot of
     * storage, each subscription at most 24 hours old gets one `connections`
     * POST and each older one is "expired" by deleting the key without its
     * prefix. `notified` is the order in which the runtime listed the
     * subscribers.
     */
    method Publish(now: int) returns (notified: seq<string>)
      modifies this`storage, this`outbox
      ensures storage == old(storage) - ExpiredIn(old(storage), old(storage).Keys, now)
      ensures NoDup(notified)
      ensures forall h :: h in notified <==> h in LiveIn(old(storage), old(storage).Keys, now)
      ensures outbox == old(outbox) + [Broadcast(Here(|connectionIds|), [])]
        + Notices(notified, ConnectionsReq(id, |connectionIds|))
    {
      var connections := ConnectionsCount();
      outbox := outbox + [Broadcast(Here(connections), [])];
      var subscribers := storage;
      var msg := ConnectionsReq(id, connections);
      ghost var base := outbox;
      var todo := subscribers.Keys;
      notified := [];
      while todo != {}
        invariant todo <= subscribers.Keys
        invariant storage == subscribers - ExpiredIn(subscribers, subscribers.Keys - todo, now)
        invariant NoDup(notified)
        invariant forall h :: h in notified <==> h in LiveIn(subscribers, subscribers.Keys - todo, now)
        invariant outbox == base + Notices(notified, msg)
        decreases todo
      {
        var storageKey :| storageKey in todo;
        ghost var done := subscribers.Keys - todo;
        SweepStep(subscribers, done, storageKey, now);
        if StartsWith(storageKey, PREFIX) {
          var hashedUrl := Strip(storageKey);
          if now - subscribers[storageKey] > SUBSCRIPTION_TTL {
            storage := storage - {hashedUrl};
          } else {
            NoDupSnoc(notified, hashedUrl);
            assert Notices(notified + [hashedUrl], msg) == Notices(notified, msg) + [ToPeer(hashedUrl, msg)];
            outbox := outbox + [ToPeer(hashedUrl, msg)];
            notified := notified + [hashedUrl];
          }
        }
        todo := todo - {storageKey};
        assert subscribers.Keys - todo == done + {storageKey};
      }
    }

    /** `onConnect`: the count changed, so publish. */
    method OnConnect(now: int) returns (notified: seq<string>)
      modifies this`storage, this`outbox
      ensures NoDup(notified)
      ensures storage == old(storage) - ExpiredIn(old(storage), old(storage).Keys, now)
      ensures forall h :: h in notified <==> h in LiveIn(old(storage), old(storage).Keys, now)
      ensures outbox == old(outbox) + [Broadcast(Here(|connectionIds|), [])]
        + Notices(notified, ConnectionsReq(id, |connectionIds|))
    {
      notified := Publish(now);
    }

    /** `onClose`: the count changed, so publish. */
    method OnClose(now: int) returns (notified: seq<string>)
      modifies this`storage, this`outbox
      ensures NoDup(notified)
      ensures storage == old(storage) - ExpiredIn(old(storage), old(storage).Keys, now)
      ensures forall h :: h in notified <==> h in LiveIn(old(storage), old(storage).Keys, now)
      ensures outbox == old(outbox) + [Broadcast(Here(|connectionIds|), [])]
        + Notices(notified, ConnectionsReq(id, |connectionIds|))
    {
      notified := Publish(now);
    }

    /**
     * `onMessage`. An `init` subscribes this room to each linked page's room
     * in turn (`replies[i]` is what the i-th of them answers) and passes a count on
     * to the connection whenever one comes back. An `exit` goes to every
     * connection except its sender.
     */
    method OnMessage(msg: ClientMessage, connection: string, replies: seq<PeerReply>)
      requires msg.Init? ==> |replies| == |msg.hashedUrls|
      modifies this`outbox
      ensures msg.Init? ==> outbox == old(outbox) + InitOutputs(msg.hashedUrls, id, connection, replies)
      ensures msg.Exit? ==> outbox == old(outbox) + [Broadcast(ExitMsg(msg.data), [connection])]
      ensures msg.OtherMessage? ==> outbox == old(outbox)
    {
      if msg.Init? {
        var i := 0;
        while i < |msg.hashedUrls|
          invariant 0 <= i <= |msg.hashedUrls|
          invariant outbox + InitOutputs(msg.hashedUrls[i..], id, connection, replies[i..])
            == old(outbox) + InitOutputs(msg.hashedUrls, id, connection, replies)
        {
          ghost var before := outbox;
          Subscribe(msg.hashedUrls[i], connection, replies[i]);
          assert msg.hashedUrls[i..][1..] == msg.hashedUrls[i + 1..];
          assert replies[i..][1..] == replies[i + 1..];
          assert InitOutputs(msg.hashedUrls[i..], id, connection, replies[i..])
            == SubscribeOutputs(msg.hashedUrls[i], id, connection, replies[i])
               + InitOutputs(msg.hashedUrls[i + 1..], id, connection, replies[i + 1..]);
          assert outbox == before + SubscribeOutputs(msg.hashedUrls[i], id, connection, replies[i]);
          i := i + 1;
        }
        assert msg.hashedUrls[i..] == [];
      } else if msg.Exit? {
        outbox := outbox + [Broadcast(ExitMsg(msg.data), [connection])];
      }
    }

    /** `subscribe`: POSTs a subscribe to the room `hashedUrl`; a count in its reply goes to the connection. */
    method Subscribe(hashedUrl: string, connection: string, reply: PeerReply)
      modifies this`outbox
      ensures outbox == old(outbox) + SubscribeOutputs(hashedUrl, id, connection, reply)
    {
      outbox := outbox + [ToPeer(hashedUrl, SubscribeReq(id))];
      if reply.ConnectionsReply? {
        outbox := outbox + [Send(connection, ConnectionsMsg(reply.hashedUrl, reply.connections))];
      }
    }

    /**
     * `onRequest`. GET: the debug view. POST `subscribe`: stores the
     * subscriber's key with the current time and answers the count if it is
     * above zero. POST `connections`: relays the count to every client.
     * Another POST type: 400. Another method: 501.
     */
    method OnRequest(req: Request, now: int) returns (response: Response)
      modifies this`storage, this`outbox
      ensures req.Get? ==>
        && response == Response(200, Debug(Subscribers(old(storage)), |connectionIds|, id))
        && storage == old(storage) && outbox == old(outbox)
      ensures req.Post? && req.body.SubscribeReq? ==>
        && storage == old(storage)[PREFIX + req.body.hashedUrl := now]
        && outbox == old(outbox)
        && response == Response(200, Reply(
             if |connectionIds| > 0 then ConnectionsReply(id, |connectionIds|) else SuccessReply))
      ensures req.Post? && req.body.ConnectionsReq? ==>
        && storage == old(storage)
        && outbox == old(outbox) + [Broadcast(ConnectionsMsg(req.body.hashedUrl, req.body.connections), [])]
        && response == Response(200, Reply(SuccessReply))
      ensures req.Post? && req.body.OtherType? ==>
        response == Response(400, Text("invalid message type")) && storage == old(storage) && outbox == old(outbox)
      ensures req.OtherMethod? ==>
        response == Response(501, Text("Method not implemented")) && storage == old(storage) && outbox == old(outbox)
    {
      if req.Get? {
        return Response(200, Debug(Subscribers(storage), ConnectionsCount(), id));
      } else if req.Post? {
        var msg := req.body;
        if msg.SubscribeReq? {
          storage := storage[PREFIX + msg.hashedUrl := now];
          var connections := ConnectionsCount();
          if connections > 0 {
            return Response(200, Reply(ConnectionsReply(id, ConnectionsCount())));
          } else {
            return Response(200, Reply(SuccessReply));
          }
        } else if msg.ConnectionsReq? {
          outbox := outbox + [Broadcast(ConnectionsMsg(msg.hashedUrl, msg.connections), [])];
          return Response(200, Reply(SuccessReply));
        } else {
          return Response(400, Text("invalid message type"));
        }
      }
      return Response(501, Text("Method not implemented"));
    }
  }

  /**
   * One key of the sweep: a stale subscription key adds its id to the
   * expired ones, a fresh one adds a new id to the live ones, and any other
   * key changes neither.
   */
  lemma SweepStep(subscribers: map<string, int>, done: set<string>, key: string, now: int)
    requires key in subscribers && key !in done
    ensures StartsWith(key, PREFIX) && now - subscribers[key] > SUBSCRIPTION_TTL ==>
      && ExpiredIn(subscribers, done + {key}, now) == ExpiredIn(subscribers, done, now) + {Strip(key)}
      && LiveIn(subscribers, done + {key}, now) == LiveIn(subscribers, done, now)
    ensures StartsWith(key, PREFIX) && now - subscribers[key] <= SUBSCRIPTION_TTL ==>
      && ExpiredIn(subscribers, done + {key}, now) == ExpiredIn(subscribers, done, now)
      && LiveIn(subscribers, done + {key}, now) == LiveIn(subscribers, done, now) + {Strip(key)}
      && Strip(key) !in LiveIn(subscribers, done, now)
    ensures !StartsWith(key, PREFIX) ==>
      && ExpiredIn(subscribers, done + {key}, now) == ExpiredIn(subscribers, done, now)
      && LiveIn(subscribers, done + {key}, now) == LiveIn(subscribers, done, now)
  {
    if StartsWith(key, PREFIX) && now - subscribers[key] <= SUBSCRIPTION_TTL {
      if Strip(key) in LiveIn(subscribers, done, now) {
        var k :| k in done && k in subscribers && StartsWith(k, PREFIX)
          && now - subscribers[k] <= SUBSCRIPTION_TTL && Strip(k) == Strip(key);
        StripInjective(k, key);
      }
    }
  }

  lemma NoDupSnoc(xs: seq<string>, x: string)
    requires NoDup(xs) && x !in xs
    ensures NoDup(xs + [x])
  {
    forall i, j | 0 <= i < j < |xs + [x]| ensures (xs + [x])[i] != (xs + [x])[j] {
      assert (xs + [x])[i] == xs[i];
    }
  }

  /** Re-subscribing only moves the timestamp: the set of stored keys stays the same. */
  lemma ResubscribeKeepsKeys(storage: map<string, int>, hashedUrl: string, now: int)
    requires PREFIX + hashedUrl in storage
    ensures storage[PREFIX + hashedUrl := now].Keys == storage.Keys
    ensures |storage[PREFIX + hashedUrl := now]| == |storage|
  {
    assert storage[PREFIX + hashedUrl := now].Keys == storage.Keys;
  }

  /**
   * The expiry deletes the id without its prefix, so an expired subscription
   * stays stored with its old time (unless a subscription for the prefixed
   * id itself was also expired) and every later publish skips it again.
   */
  lemma ExpiredSubscriptionStays(storage: map<string, int>, now: int, later: int, h: string)
    requires PREFIX + h in storage && now - storage[PREFIX + h] > SUBSCRIPTION_TTL
    requires PREFIX + (PREFIX + h) !in storage
    requires now <= later
    ensures var after := storage - ExpiredIn(storage, storage.Keys, now);
      && PREFIX + h in after && after[PREFIX + h] == storage[PREFIX + h]
      && h !in LiveIn(after, after.Keys, later)
  {
    var after := storage - ExpiredIn(storage, storage.Keys, now);
    if PREFIX + h in ExpiredIn(storage, storage.Keys, now) {
      var k :| k in storage && StartsWith(k, PREFIX) && now - storage[k] > SUBSCRIPTION_TTL && Strip(k) == PREFIX + h;
      assert k == PREFIX + (PREFIX + h) by {
        assert StartsWith(PREFIX + (PREFIX + h), PREFIX);
        assert Strip(PREFIX + (PREFIX + h)) == PREFIX + h;
        StripInjective(k, PREFIX + (PREFIX + h));
      }
    }
    LiveIff(after, later, h);
  }

  // ---------------------------------------------------------------------------
  // serializable (this file's version: a Map becomes a plain object)

  /** The property name `obj[key]` uses: a string key as is, any other key as `keyOf` renders it. */
  function PropertyKey(key: Json, keyOf: Json -> string): string {
    if key.JStr? then key.s else keyOf(key)
  }

  /**
   * `serializable` of partykit/hyperspace.ts: as in partykit/rooms.ts, except
   * that a Map becomes a plain object whose property `serializable(k)` holds
   * `serializable(v)`. `keyOf` is JavaScript's conversion of a non-string key
   * to a property name. `None` is the TypeError `Object.entries(null)` throws.
   */
  function Serializable(value: JsValue, keyOf: Json -> string): Option<Json>
    decreases value, 1
  {
    match value
    case Str(s) => Some(JStr(s))
    case Num(n) => Some(JNum(n))
    case Bool(b) => Some(JBool(b))
    case Date(t) => Some(JDate(t))
    case Arr(items) =>
      (match SerializableAll(items, keyOf) case Some(xs) => Some(JArr(xs)) case None => None)
    case MapV(entries) =>
      (match SerializableEntries(entries, [], keyOf) case Some(fs) => Some(JObj(fs)) case None => None)
    case SetV(members) =>
      (match SerializableAll(members, keyOf) case Some(xs) => Some(JArr(xs)) case None => None)
    case Obj(props) =>
      (match SerializableProps(props, [], keyOf) case Some(fs) => Some(JObj(fs)) case None => None)
    case Null => None
    case Other => Some(JNull)
  }

  function SerializableAll(items: seq<JsValue>, keyOf: Json -> string): Option<seq<Json>>
    decreases items, 0
  {
    if items == [] then Some([])
    else match Serializable(items[0], keyOf)
      case None => None
      case Some(x) =>
        match SerializableAll(items[1..], keyOf)
        case None => None
        case Some(xs) => Some([x] + xs)
  }

  /** `obj[serializable(k)] = serializable(v)` for each entry in order. */
  function SerializableEntries(entries: seq<Entry>, acc: seq<Field>, keyOf: Json -> string): Option<seq<Field>>
    decreases entries, 0
  {
    if entries == [] then Some(acc)
    else match SerializableEntry(entries[0], keyOf)
      case None => None
      case Some(f) => SerializableEntries(entries[1..], Assign(acc, f.name, f.value), keyOf)
  }

  function SerializableEntry(entry: Entry, keyOf: Json -> string): Option<Field>
    decreases entry, 2
  {
    match Serializable(entry.key, keyOf)
    case None => None
    case Some(k) =>
      match Serializable(entry.value, keyOf)
      case None => None
      case Some(v) => Some(Field(PropertyKey(k, keyOf), v))
  }

  function SerializableProps(props: seq<Prop>, acc: seq<Field>, keyOf: Json -> string): Option<seq<Field>>
    decreases props, 0
  {
    if props == [] then Some(acc)
    else match Serializable(props[0].value, keyOf)
      case None => None
      case Some(v) => SerializableProps(props[1..], Assign(acc, props[0].name, v), keyOf)
  }

  /** On values without a Map the two versions of `serializable` agree, errors included. */
  lemma {:induction false} AgreesWithRooms(value: JsValue, keyOf: Json -> string)
    requires MapFree(value)
    ensures Serializable(value, keyOf) == Rooms.Serializable(value)
    decreases value, 1
  {
    match value
    case Arr(items) => AllAgreeWithRooms(items, keyOf);
    case SetV(members) => AllAgreeWithRooms(members, keyOf);
    case Obj(props) => PropsAgreeWithRooms(props, [], keyOf);
    case _ =>
  }

  lemma {:induction false} AllAgreeWithRooms(items: seq<JsValue>, keyOf: Json -> string)
    requires MapFreeAll(items)
    ensures SerializableAll(items, keyOf) == Rooms.SerializableAll(items)
    decreases items, 0
  {
    if items != [] {
      AgreesWithRooms(items[0], keyOf);
      AllAgreeWithRooms(items[1..], keyOf);
    }
  }

  lemma {:induction false} PropsAgreeWithRooms(props: seq<Prop>, acc: seq<Field>, keyOf: Json -> string)
    requires MapFreeProps(props)
    ensures SerializableProps(props, acc, keyOf) == Rooms.SerializableProps(props, acc)
    decreases props, 0
  {
    if props != [] {
      AgreesWithRooms(props[0].value, keyOf);
      match Serializable(props[0].value, keyOf)
      case None =>
      case Some(v) => PropsAgreeWithRooms(props[1..], Assign(acc, props[0].name, v), keyOf);
    }
  }

  /** The Map with string keys and JSON values read back from the given object. */
  function EntriesOf(fields: seq<Field>): (entries: seq<Entry>)
    ensures |entries| == |fields|
    ensures forall i :: 0 <= i < |fields| ==> entries[i] == Entry(Str(fields[i].name), Embed(fields[i].value))
  {
    if fields == [] then [] else [Entry(Str(fields[0].name), Embed(fields[0].value))] + EntriesOf(fields[1..])
  }

  /**
   * A Map from distinct strings to JSON values (no null inside) becomes the
   * plain object with the same properties in the same order.
   */
  lemma {:induction false} MapBecomesObject(fields: seq<Field>, keyOf: Json -> string)
    requires PlainFields(fields) && UniqueNames(fields)
    ensures Serializable(MapV(EntriesOf(fields)), keyOf) == Some(JObj(fields))
  {
    var entries := EntriesOf(fields);
    EntriesBecomeFields(fields, [], keyOf);
    assert [] + fields == fields;
    assert SerializableEntries(entries, [], keyOf) == Some(fields);
  }

  lemma EntryBecomesField(f: Field, keyOf: Json -> string)
    requires Plain(f.value)
    ensures SerializableEntry(Entry(Str(f.name), Embed(f.value)), keyOf) == Some(f)
  {
    EmbedMapFree(f.value);
    AgreesWithRooms(Embed(f.value), keyOf);
    Rooms.SerializableRoundTrip(f.value);
    assert Serializable(Str(f.name), keyOf) == Some(JStr(f.name));
  }

  lemma {:induction false} EntriesBecomeFields(fields: seq<Field>, acc: seq<Field>, keyOf: Json -> string)
    requires PlainFields(fields) && UniqueNames(acc + fields)
    ensures SerializableEntries(EntriesOf(fields), acc, keyOf) == Some(acc + fields)
    decreases fields
  {
    if fields != [] {
      var f := fields[0];
      var acc' := acc + [f];
      ShiftFirst(acc, fields);
      var entries := EntriesOf(fields);
      assert entries[1..] == EntriesOf(fields[1..]);
      assert entries[0] == Entry(Str(f.name), Embed(f.value));
      EntryBecomesField(f, keyOf);
      Rooms.FreshName(acc, fields);
      EntriesBecomeFields(fields[1..], acc', keyOf);
      assert SerializableEntries(entries, acc, keyOf) == SerializableEntries(entries[1..], acc', keyOf);
    } else {
      assert acc + fields == acc;
    }
  }
}
