/**
 * The singleton announcer (partykit/rooms.ts). Every page room reports its
 * connection count here; browsers subscribe to the rooms they link to and are
 * sent the counts of those rooms, first as a snapshot, then incrementally.
 */
module Rooms {
  import opened Common
  import opened Js

  /** Only the room with this id answers requests. */
  const SINGLETON_ROOM_ID := "announcer"

  /** websocket id -> hashed urls, or hashed url -> websocket ids */
  type Index = map<string, set<string>>

  /** room id -> connection count (`RoomConnections`) */
  type RoomConnections = map<string, int>

  // ---------------------------------------------------------------------------
  // The two-way subscription index

  /** The two directions agree: `r` is in the forward set of `ws` exactly when `ws` is in the reverse set of `r`. */
  ghost predicate Agree(fwd: Index, rev: Index) {
    forall ws, r :: (ws in fwd && r in fwd[ws]) <==> (r in rev && ws in rev[r])
  }

  /** No reverse set is stored empty. */
  ghost predicate NoEmptyReverse(rev: Index) {
    forall r :: r in rev ==> rev[r] != {}
  }

  /**
   * The reverse index once `ws` is taken out of the reverse set of every room
   * in `rooms`; with `dropEmpty`, a set left empty is deleted.
   */
  function Detach(rev: Index, ws: string, rooms: set<string>, dropEmpty: bool): Index
    requires rooms <= rev.Keys
  {
    map r | r in rev && !(dropEmpty && r in rooms && rev[r] - {ws} == {}) ::
      if r in rooms then rev[r] - {ws} else rev[r]
  }

  /** The reverse index once `ws` is added to the reverse set of every room in `rooms`, creating missing sets. */
  function Attach(rev: Index, ws: string, rooms: set<string>): Index {
    map r | r in rev.Keys + rooms ::
      (if r in rev then rev[r] else {}) + (if r in rooms then {ws} else {})
  }

  /**
   * Both maps after `set(ws, hashedUrls)`: `None` removes `ws` from the
   * forward map and from its reverse sets (which stay, even when empty);
   * `Some(rooms)` detaches `ws` from its old rooms (deleting sets it empties)
   * and attaches it to `rooms`. Every old room must have a reverse set: the
   * source dereferences it with `!`.
   */
  function Interest(fwd: Index, rev: Index, ws: string, hashedUrls: Option<set<string>>): (Index, Index)
    requires ws in fwd ==> fwd[ws] <= rev.Keys
  {
    match hashedUrls
    case None =>
      if ws in fwd then (fwd - {ws}, Detach(rev, ws, fwd[ws], false)) else (fwd, rev)
    case Some(rooms) =>
      var detached := if ws in fwd then Detach(rev, ws, fwd[ws], true) else rev;
      (fwd[ws := rooms], Attach(detached, ws, rooms))
  }

  /** Under agreement, every room a websocket follows has a reverse set. */
  lemma AgreeCovers(fwd: Index, rev: Index, ws: string)
    requires Agree(fwd, rev)
    ensures ws in fwd ==> fwd[ws] <= rev.Keys
  {
  }

  /** `set` keeps the two directions in agreement. */
  lemma InterestKeepsAgreement(fwd: Index, rev: Index, ws: string, hashedUrls: Option<set<string>>)
    requires Agree(fwd, rev)
    ensures Agree(Interest(fwd, rev, ws, hashedUrls).0, Interest(fwd, rev, ws, hashedUrls).1)
  {
    var (f, v) := Interest(fwd, rev, ws, hashedUrls);
    forall w, r ensures (w in f && r in f[w]) <==> (r in v && w in v[r]) {
      if w != ws {
        InterestLeavesOthers(fwd, rev, ws, hashedUrls, w);
      } else if hashedUrls.Some? {
        InterestInstalls(fwd, rev, ws, hashedUrls.value);
      }
    }
  }

  /** After `set(ws, rooms)`, `ws` follows exactly `rooms`, in both directions. */
  lemma InterestInstalls(fwd: Index, rev: Index, ws: string, rooms: set<string>)
    requires Agree(fwd, rev)
    ensures var (f, v) := Interest(fwd, rev, ws, Some(rooms));
      && ws in f && f[ws] == rooms
      && forall r :: (r in v && ws in v[r]) <==> r in rooms
  {
  }

  /** After `set(ws, null)`, `ws` follows nothing, in either direction. */
  lemma InterestRemoves(fwd: Index, rev: Index, ws: string)
    requires Agree(fwd, rev)
    ensures var (f, v) := Interest(fwd, rev, ws, None);
      && ws !in f
      && forall r :: r in v ==> ws !in v[r]
  {
  }

  /** `set` leaves every other websocket's interest as it was, in both directions. */
  lemma InterestLeavesOthers(fwd: Index, rev: Index, ws: string, hashedUrls: Option<set<string>>, other: string)
    requires Agree(fwd, rev)
    requires other != ws
    ensures var (f, v) := Interest(fwd, rev, ws, hashedUrls);
      && (other in f <==> other in fwd)
      && (other in f ==> f[other] == fwd[other])
      && forall r :: (r in v && other in v[r]) <==> (r in rev && other in rev[r])
  {
  }

  /**
   * Replacing an interest set deletes a reverse set it empties, so the index
   * never holds an empty reverse set if it did not before.
   */
  lemma ReplaceDropsEmptied(fwd: Index, rev: Index, ws: string, rooms: set<string>)
    requires Agree(fwd, rev)
    ensures var (f, v) := Interest(fwd, rev, ws, Some(rooms));
      && (forall r :: ws in fwd && r in fwd[ws] && r !in rooms && rev[r] == {ws} ==> r !in v)
      && (NoEmptyReverse(rev) ==> NoEmptyReverse(v))
  {
  }

  /** Removal with `null` does not delete the reverse sets it empties: they stay as empty sets. */
  lemma RemovalKeepsEmptied(fwd: Index, rev: Index, ws: string, r: string)
    requires Agree(fwd, rev)
    requires ws in fwd && r in fwd[ws] && rev[r] == {ws}
    ensures var (f, v) := Interest(fwd, rev, ws, None);
      r in v && v[r] == {} && !NoEmptyReverse(v)
  {
  }

  /** Removing a websocket the forward map does not hold changes neither map. */
  lemma RemoveAbsentIsNoop(fwd: Index, rev: Index, ws: string)
    requires ws !in fwd
    ensures Interest(fwd, rev, ws, None) == (fwd, rev)
  {
  }

  lemma DetachStep(rev0: Index, ws: string, rooms: set<string>, done: set<string>, h: string, dropEmpty: bool)
    requires rooms <= rev0.Keys && done <= rooms && h in rooms && h !in done
    ensures h in Detach(rev0, ws, done, dropEmpty) && Detach(rev0, ws, done, dropEmpty)[h] == rev0[h]
    ensures var cur := Detach(rev0, ws, done, dropEmpty);
      var next := cur[h := cur[h] - {ws}];
      Detach(rev0, ws, done + {h}, dropEmpty) == if dropEmpty && next[h] == {} then next - {h} else next
  {
    var cur := Detach(rev0, ws, done, dropEmpty);
    var next := cur[h := cur[h] - {ws}];
    var want := if dropEmpty && next[h] == {} then next - {h} else next;
    var got := Detach(rev0, ws, done + {h}, dropEmpty);
    assert got.Keys == want.Keys;
    forall r | r in got ensures got[r] == want[r] {
    }
  }

  lemma AttachNothing(rev: Index, ws: string)
    ensures Attach(rev, ws, {}) == rev
  {
    assert Attach(rev, ws, {}).Keys == rev.Keys;
    forall r | r in rev ensures Attach(rev, ws, {})[r] == rev[r] {
    }
  }

  lemma AttachStep(rev1: Index, ws: string, done: set<string>, h: string)
    ensures var cur := Attach(rev1, ws, done);
      var base := if h in cur then cur else cur[h := {}];
      Attach(rev1, ws, done + {h}) == base[h := base[h] + {ws}]
  {
    var cur := Attach(rev1, ws, done);
    var base := if h in cur then cur else cur[h := {}];
    var want := base[h := base[h] + {ws}];
    var got := Attach(rev1, ws, done + {h});
    assert got.Keys == want.Keys;
    forall r | r in got ensures got[r] == want[r] {
    }
  }

  // ---------------------------------------------------------------------------
  // The count table and the messages

  /** No room is stored with count 0. */
  ghost predicate NoZeroCounts(rc: RoomConnections) {
    forall r :: r in rc ==> rc[r] != 0
  }

  /** A POST count report applied to the table: 0 deletes the room, anything else is stored. */
  function Report(rc: RoomConnections, roomId: string, connections: int): (r: RoomConnections)
    ensures roomId in r <==> connections != 0
    ensures roomId in r ==> r[roomId] == connections
    ensures forall k :: k != roomId ==> (k in r <==> k in rc) && (k in r ==> r[k] == rc[k])
    ensures NoZeroCounts(rc) ==> NoZeroCounts(r)
  {
    if connections == 0 then rc - {roomId} else rc[roomId := connections]
  }

  /** The initial update sent to a subscriber: the table restricted to the rooms it asked for. */
  function Snapshot(rc: RoomConnections, roomIds: seq<string>): (s: RoomConnections)
    ensures forall r :: r in s <==> r in rc && r in roomIds
    ensures forall r :: r in s ==> s[r] == rc[r]
    ensures NoZeroCounts(rc) ==> NoZeroCounts(s)
  {
    map r | r in rc && r in roomIds :: rc[r]
  }

  datatype Subtype = Initial | Incremental

  /** `UpdateMessage` */
  datatype UpdateMessage = Update(subtype: Subtype, updates: RoomConnections)

  /** One `websocket.send` */
  datatype Sent = Send(to: string, msg: UpdateMessage)

  /** A websocket message from a browser. */
  datatype ClientMessage = Subscribe(roomIds: seq<string>) | OtherMessage

  /** An HTTP request; a POST carries a room's count report. */
  datatype Request = Post(roomId: string, connections: int) | Get | OtherMethod

  /** The GET debug view lists the storage entries that exist. */
  datatype Body =
    | Text(text: string)
    | Dump(hashedUrlToWs: Option<Index>, roomConnections: Option<RoomConnections>, wsToHashedUrls: Option<Index>)

  datatype Response = Response(status: int, body: Body)

  /** The sends of the fan-out: one per connection, in connection order, for each connection that is a subscriber. */
  function FanOut(connections: seq<string>, subscribers: set<string>, msg: UpdateMessage): (out: seq<Sent>)
    ensures |out| <= |connections|
    ensures forall s :: s in out ==> s.msg == msg && s.to in subscribers && s.to in connections
    ensures forall c :: c in connections && c in subscribers ==> Send(c, msg) in out
  {
    if connections == [] then []
    else
      (if connections[0] in subscribers then [Send(connections[0], msg)] else [])
      + FanOut(connections[1..], subscribers, msg)
  }

  /** The connections the sends of `out` go to, in order. */
  function Recipients(out: seq<Sent>): (r: seq<string>)
    ensures |r| == |out|
    ensures forall i :: 0 <= i < |out| ==> r[i] == out[i].to
  {
    seq(|out|, i requires 0 <= i < |out| => out[i].to)
  }

  /** `sub` is `s` with some elements left out, the rest kept in order. */
  predicate IsSubsequence(sub: seq<string>, s: seq<string>)
  {
    if sub == [] then true
    else if s == [] then false
    else (sub[0] == s[0] && IsSubsequence(sub[1..], s[1..])) || IsSubsequence(sub, s[1..])
  }

  lemma RecipientsConcat(a: seq<Sent>, b: seq<Sent>)
    ensures Recipients(a + b) == Recipients(a) + Recipients(b)
  {
  }

  /** One fan-out step: the first connection's send, if any, comes before the rest's. */
  lemma FanOutRecipientsCons(connections: seq<string>, subscribers: set<string>, msg: UpdateMessage)
    requires connections != []
    ensures Recipients(FanOut(connections, subscribers, msg))
         == (if connections[0] in subscribers then [connections[0]] else [])
            + Recipients(FanOut(connections[1..], subscribers, msg))
  {
    var head := if connections[0] in subscribers then [Send(connections[0], msg)] else [];
    RecipientsConcat(head, FanOut(connections[1..], subscribers, msg));
  }

  /** The fan-out sends once per occurrence of a subscribed connection and to no other connection. */
  lemma {:induction false} FanOutOnce(connections: seq<string>, subscribers: set<string>, msg: UpdateMessage)
    ensures forall c :: multiset(Recipients(FanOut(connections, subscribers, msg)))[c]
                        == (if c in subscribers then multiset(connections)[c] else 0)
  {
    if connections != [] {
      var c0 := connections[0];
      FanOutOnce(connections[1..], subscribers, msg);
      FanOutRecipientsCons(connections, subscribers, msg);
      assert connections == [c0] + connections[1..];
      assert multiset(connections) == multiset([c0]) + multiset(connections[1..]);
    }
  }

  /** The fan-out keeps the connections' order. */
  lemma {:induction false} FanOutInOrder(connections: seq<string>, subscribers: set<string>, msg: UpdateMessage)
    ensures IsSubsequence(Recipients(FanOut(connections, subscribers, msg)), connections)
  {
    if connections != [] {
      var r := Recipients(FanOut(connections, subscribers, msg));
      var rest := Recipients(FanOut(connections[1..], subscribers, msg));
      FanOutInOrder(connections[1..], subscribers, msg);
      FanOutRecipientsCons(connections, subscribers, msg);
      if connections[0] in subscribers {
        assert r[1..] == rest;
      } else {
        assert r == rest;
      }
    }
  }

  /** The connection ids the forward map does not hold. */
  function Unsubscribed(wsIds: seq<string>, fwd: Index): (r: seq<string>)
    ensures forall w :: w in r <==> w in wsIds && w !in fwd
  {
    if wsIds == [] then []
    else
      (if wsIds[0] !in fwd then [wsIds[0]] else []) + Unsubscribed(wsIds[1..], fwd)
  }

  // ---------------------------------------------------------------------------
  // The actor

  /** An instance of `Subscriptions`: the index loaded from the announcer's storage. */
  class Subscriptions {
    var wsToHashedUrls: Index
    var hashedUrlToWs: Index
    const room: Announcer

    /** `Subscriptions.load`: a missing entry reads as an empty map. */
    constructor Load(room: Announcer)
      ensures this.room == room
      ensures wsToHashedUrls == room.wsToHashedUrls.GetOr(map[])
      ensures hashedUrlToWs == room.hashedUrlToWs.GetOr(map[])
    {
      this.room := room;
      wsToHashedUrls := room.wsToHashedUrls.GetOr(map[]);
      hashedUrlToWs := room.hashedUrlToWs.GetOr(map[]);
    }

    /** `set(ws, hashedUrls)`, then `persist`. */
    method Set(ws: string, hashedUrls: Option<set<string>>)
      requires Agree(wsToHashedUrls, hashedUrlToWs)
      modifies this`wsToHashedUrls, this`hashedUrlToWs, room`wsToHashedUrls, room`hashedUrlToWs
      ensures (wsToHashedUrls, hashedUrlToWs) == Interest(old(wsToHashedUrls), old(hashedUrlToWs), ws, hashedUrls)
      ensures Agree(wsToHashedUrls, hashedUrlToWs)
      ensures room.wsToHashedUrls == Some(wsToHashedUrls) && room.hashedUrlToWs == Some(hashedUrlToWs)
    {
      AgreeCovers(wsToHashedUrls, hashedUrlToWs, ws);
      InterestKeepsAgreement(wsToHashedUrls, hashedUrlToWs, ws, hashedUrls);
      if hashedUrls.None? {
        if ws in wsToHashedUrls {
          DetachFrom(ws, wsToHashedUrls[ws], false);
          wsToHashedUrls := wsToHashedUrls - {ws};
        }
      } else {
        if ws in wsToHashedUrls {
          DetachFrom(ws, wsToHashedUrls[ws], true);
        }
        wsToHashedUrls := wsToHashedUrls[ws := hashedUrls.value];
        AttachTo(ws, hashedUrls.value);
      }
      room.wsToHashedUrls := Some(wsToHashedUrls);
      room.hashedUrlToWs := Some(hashedUrlToWs);
    }

    /**
     * The removal loops of `set`: `ws` leaves the reverse set of each of
     * `rooms`; with `dropEmpty` (the replacing branch), a set it leaves
     * empty is deleted.
     */
    method DetachFrom(ws: string, rooms: set<string>, dropEmpty: bool)
      requires rooms <= hashedUrlToWs.Keys
      modifies this`hashedUrlToWs
      ensures hashedUrlToWs == Detach(old(hashedUrlToWs), ws, rooms, dropEmpty)
    {
      ghost var rev0 := hashedUrlToWs;
      var todo := rooms;
      while todo != {}
        invariant todo <= rooms
        invariant hashedUrlToWs == Detach(rev0, ws, rooms - todo, dropEmpty)
        decreases todo
      {
        var h :| h in todo;
        DetachStep(rev0, ws, rooms, rooms - todo, h, dropEmpty);
        hashedUrlToWs := hashedUrlToWs[h := hashedUrlToWs[h] - {ws}];
        if dropEmpty && hashedUrlToWs[h] == {} {
          hashedUrlToWs := hashedUrlToWs - {h};
        }
        assert rooms - (todo - {h}) == (rooms - todo) + {h};
        todo := todo - {h};
      }
      assert rooms - todo == rooms;
    }

    /** The adding loop of `set`: `ws` joins the reverse set of each of `rooms`, created when missing. */
    method AttachTo(ws: string, rooms: set<string>)
      modifies this`hashedUrlToWs
      ensures hashedUrlToWs == Attach(old(hashedUrlToWs), ws, rooms)
    {
      ghost var rev1 := hashedUrlToWs;
      var todo := rooms;
      AttachNothing(rev1, ws);
      while todo != {}
        invariant todo <= rooms
        invariant hashedUrlToWs == Attach(rev1, ws, rooms - todo)
        decreases todo
      {
        var h :| h in todo;
        AttachStep(rev1, ws, rooms - todo, h);
        if h !in hashedUrlToWs {
          hashedUrlToWs := hashedUrlToWs[h := {}];
        }
        hashedUrlToWs := hashedUrlToWs[h := hashedUrlToWs[h] + {ws}];
        assert rooms - (todo - {h}) == (rooms - todo) + {h};
        todo := todo - {h};
      }
      assert rooms - todo == rooms;
    }

    /** `lookup(hashedUrl)`: the websockets subscribed to a room, empty when it has no reverse set. */
    function Lookup(hashedUrl: string): (subscribers: set<string>)
      reads this
      ensures hashedUrl !in hashedUrlToWs ==> subscribers == {}
      ensures Agree(wsToHashedUrls, hashedUrlToWs) ==>
        forall ws :: ws in subscribers <==> ws in wsToHashedUrls && hashedUrl in wsToHashedUrls[ws]
    {
      if hashedUrl in hashedUrlToWs then hashedUrlToWs[hashedUrl] else {}
    }
  }

  /** The announcer room: its storage entries, its live connections and everything it has sent. */
  class Announcer {
    const id: string
    var wsToHashedUrls: Option<Index>
    var hashedUrlToWs: Option<Index>
    var roomConnections: Option<RoomConnections>
    /** Ids of the open websockets, as the runtime reports them. */
    var connections: seq<string>
    var outbox: seq<Sent>

    /** The forward map as loaded. */
    function Fwd(): Index reads this { wsToHashedUrls.GetOr(map[]) }

    /** The reverse map as loaded. */
    function Rev(): Index reads this { hashedUrlToWs.GetOr(map[]) }

    /** The count table as loaded. */
    function Counts(): RoomConnections reads this { roomConnections.GetOr(map[]) }

    /** What every handler keeps: the stored index agrees with itself and the table holds no zero. */
    ghost predicate Valid() reads this {
      Agree(Fwd(), Rev()) && NoZeroCounts(Counts())
    }

    /** A room with empty storage. */
    constructor (id: string, connections: seq<string>)
      ensures Valid()
      ensures this.id == id && this.connections == connections
      ensures wsToHashedUrls == None && hashedUrlToWs == None && roomConnections == None && outbox == []
    {
      this.id := id;
      this.connections := connections;
      wsToHashedUrls, hashedUrlToWs, roomConnections := None, None, None;
      outbox := [];
    }

    /** `onMessage`: a subscribe replaces the sender's interest and sends it the snapshot of those rooms. */
    method OnMessage(msg: ClientMessage, websocket: string)
      requires Valid()
      modifies this
      ensures Valid()
      ensures connections == old(connections) && roomConnections == old(roomConnections)
      ensures msg.OtherMessage? ==>
        wsToHashedUrls == old(wsToHashedUrls) && hashedUrlToWs == old(hashedUrlToWs) && outbox == old(outbox)
      ensures msg.Subscribe? ==>
        && (Fwd(), Rev()) == Interest(old(Fwd()), old(Rev()), websocket, Some(set r | r in msg.roomIds))
        && wsToHashedUrls == Some(Fwd()) && hashedUrlToWs == Some(Rev())
        && outbox == old(outbox) + [Send(websocket, Update(Initial, Snapshot(Counts(), msg.roomIds)))]
    {
      if msg.Subscribe? {
        var subscriptions := new Subscriptions.Load(this);
        subscriptions.Set(websocket, Some(set r | r in msg.roomIds));
        var rc := roomConnections.GetOr(map[]);
        var subscribedRc := Snapshot(rc, msg.roomIds);
        outbox := outbox + [Send(websocket, Update(Initial, subscribedRc))];
      }
    }

    /**
     * `onClose`: removes the closing websocket, then calls `set(id, null)`
     * for every open websocket the forward map does not hold.
     */
    method OnClose(websocket: string)
      requires Valid()
      modifies this
      ensures Valid()
      ensures (Fwd(), Rev()) == Interest(old(Fwd()), old(Rev()), websocket, None)
      ensures wsToHashedUrls == Some(Fwd()) && hashedUrlToWs == Some(Rev())
      ensures connections == old(connections) && roomConnections == old(roomConnections) && outbox == old(outbox)
    {
      var subscriptions := new Subscriptions.Load(this);
      subscriptions.Set(websocket, None);
      ghost var fwd1, rev1 := subscriptions.wsToHashedUrls, subscriptions.hashedUrlToWs;
      var wsIdsToRemove := Unsubscribed(connections, subscriptions.wsToHashedUrls);
      var i := 0;
      while i < |wsIdsToRemove|
        invariant 0 <= i <= |wsIdsToRemove|
        invariant subscriptions.room == this
        invariant subscriptions.wsToHashedUrls == fwd1 && subscriptions.hashedUrlToWs == rev1
        invariant wsToHashedUrls == Some(fwd1) && hashedUrlToWs == Some(rev1)
        invariant Agree(fwd1, rev1)
        invariant connections == old(connections) && roomConnections == old(roomConnections) && outbox == old(outbox)
      {
        assert wsIdsToRemove[i] in wsIdsToRemove;
        RemoveAbsentIsNoop(fwd1, rev1, wsIdsToRemove[i]);
        subscriptions.Set(wsIdsToRemove[i], None);
        i := i + 1;
      }
    }

    /**
     * `onRequest`: only the announcer answers; a POST stores the reported
     * count and sends it to the subscribed websockets; GET dumps storage.
     */
    method OnRequest(request: Request) returns (response: Response)
      requires Valid()
      modifies this
      ensures Valid()
      ensures wsToHashedUrls == old(wsToHashedUrls) && hashedUrlToWs == old(hashedUrlToWs)
      ensures connections == old(connections)
      ensures id != SINGLETON_ROOM_ID ==>
        response.status == 404 && roomConnections == old(roomConnections) && outbox == old(outbox)
      ensures id == SINGLETON_ROOM_ID && request.Post? ==>
        && response == Response(200, Text("OK"))
        && roomConnections == Some(Report(old(Counts()), request.roomId, request.connections))
        && outbox == old(outbox) + FanOut(connections, SubscribersOf(request.roomId),
                                          Update(Incremental, map[request.roomId := request.connections]))
      ensures id == SINGLETON_ROOM_ID && request.Get? ==>
        && response == Response(200, Dump(hashedUrlToWs, roomConnections, wsToHashedUrls))
        && roomConnections == old(roomConnections) && outbox == old(outbox)
      ensures id == SINGLETON_ROOM_ID && request.OtherMethod? ==>
        response.status == 400 && roomConnections == old(roomConnections) && outbox == old(outbox)
    {
      if id != SINGLETON_ROOM_ID {
        return Response(404, Text("Not found"));
      }
      if request.Post? {
        var roomId, count := request.roomId, request.connections;
        var rc := roomConnections.GetOr(map[]);
        if count == 0 {
          rc := rc - {roomId};
        } else {
          rc := rc[roomId := count];
        }
        roomConnections := Some(rc);
        var updateMsg := Update(Incremental, map[roomId := count]);
        var subscriptions := new Subscriptions.Load(this);
        var subscribers := subscriptions.Lookup(roomId);
        assert subscribers == SubscribersOf(roomId);
        SendToSubscribers(subscribers, updateMsg);
        return Response(200, Text("OK"));
      }

      // This is for debugging
      if request.Get? {
        return Response(200, Dump(hashedUrlToWs, roomConnections, wsToHashedUrls));
      }

      response := Response(400, Text("Unknown method"));
    }

    /** The fan-out loop of `onRequest`: each open connection that is a subscriber is sent `msg`, in connection order. */
    method SendToSubscribers(subscribers: set<string>, msg: UpdateMessage)
      modifies this`outbox
      ensures outbox == old(outbox) + FanOut(connections, subscribers, msg)
    {
      ghost var outbox0 := outbox;
      var i := 0;
      while i < |connections|
        invariant 0 <= i <= |connections|
        invariant outbox == outbox0 + FanOut(connections[..i], subscribers, msg)
      {
        FanOutAppend(connections[..i], connections[i], subscribers, msg);
        assert connections[..i + 1] == connections[..i] + [connections[i]];
        if connections[i] in subscribers {
          outbox := outbox + [Send(connections[i], msg)];
        }
        i := i + 1;
      }
      assert connections[..i] == connections;
    }

    /** The websockets `lookup` returns for a room, read from storage. */
    function SubscribersOf(roomId: string): set<string> reads this {
      if roomId in Rev() then Rev()[roomId] else {}
    }
  }

  lemma {:induction false} FanOutAppend(connections: seq<string>, c: string, subscribers: set<string>, msg: UpdateMessage)
    ensures FanOut(connections + [c], subscribers, msg)
         == FanOut(connections, subscribers, msg) + (if c in subscribers then [Send(c, msg)] else [])
  {
    if connections != [] {
      var head := if connections[0] in subscribers then [Send(connections[0], msg)] else [];
      var tail := if c in subscribers then [Send(c, msg)] else [];
      assert (connections + [c])[0] == connections[0];
      assert (connections + [c])[1..] == connections[1..] + [c];
      FanOutAppend(connections[1..], c, subscribers, msg);
      ConcatAssoc(head, FanOut(connections[1..], subscribers, msg), tail);
    }
  }

  // ---------------------------------------------------------------------------
  // serializable

  /**
   * `serializable`: strings, numbers, booleans and dates pass through;
   * arrays and sets become arrays; a Map becomes an array of `[key, value]`
   * arrays; a plain object is rebuilt property by property; anything else is
   * `null`. `None` is the TypeError `Object.entries(null)` throws.
   */
  function Serializable(value: JsValue): Option<Json>
    decreases value, 1
  {
    match value
    case Str(s) => Some(JStr(s))
    case Num(n) => Some(JNum(n))
    case Bool(b) => Some(JBool(b))
    case Date(t) => Some(JDate(t))
    case Arr(items) =>
      (match SerializableAll(items) case Some(xs) => Some(JArr(xs)) case None => None)
    case MapV(entries) =>
      (match SerializableEntries(entries) case Some(xs) => Some(JArr(xs)) case None => None)
    case SetV(members) =>
      (match SerializableAll(members) case Some(xs) => Some(JArr(xs)) case None => None)
    case Obj(props) =>
      (match SerializableProps(props, []) case Some(fs) => Some(JObj(fs)) case None => None)
    case Null => None
    case Other => Some(JNull)
  }

  function SerializableAll(items: seq<JsValue>): Option<seq<Json>>
    decreases items, 0
  {
    if items == [] then Some([])
    else match Serializable(items[0])
      case None => None
      case Some(x) =>
        match SerializableAll(items[1..])
        case None => None
        case Some(xs) => Some([x] + xs)
  }

  function SerializableEntries(entries: seq<Entry>): Option<seq<Json>>
    decreases entries, 0
  {
    if entries == [] then Some([])
    else match SerializableEntry(entries[0])
      case None => None
      case Some(x) =>
        match SerializableEntries(entries[1..])
        case None => None
        case Some(xs) => Some([x] + xs)
  }

  /** `[serializable(k), serializable(v)]` */
  function SerializableEntry(entry: Entry): Option<Json>
    decreases entry, 2
  {
    match Serializable(entry.key)
    case None => None
    case Some(k) =>
      match Serializable(entry.value)
      case None => None
      case Some(v) => Some(JArr([k, v]))
  }

  /** `for (const [k, v] of Object.entries(value)) obj[k] = serializable(v)` */
  function SerializableProps(props: seq<Prop>, acc: seq<Field>): Option<seq<Field>>
    decreases props, 0
  {
    if props == [] then Some(acc)
    else match Serializable(props[0].value)
      case None => None
      case Some(v) => SerializableProps(props[1..], Assign(acc, props[0].name, v))
  }

  /** A Map of n entries becomes an array of n two-element arrays. */
  lemma {:induction false} SerializableMapShape(entries: seq<Entry>)
    ensures Serializable(MapV(entries)).Some? ==>
      && Serializable(MapV(entries)).value.JArr?
      && |Serializable(MapV(entries)).value.items| == |entries|
      && forall x :: x in Serializable(MapV(entries)).value.items ==> x.JArr? && |x.items| == 2
  {
    EntriesShape(entries);
  }

  lemma {:induction false} EntriesShape(entries: seq<Entry>)
    ensures SerializableEntries(entries).Some? ==>
      && |SerializableEntries(entries).value| == |entries|
      && forall x :: x in SerializableEntries(entries).value ==> x.JArr? && |x.items| == 2
  {
    if entries != [] {
      EntriesShape(entries[1..]);
    }
  }

  /**
   * A value that is already JSON (no null inside, no repeated property name)
   * comes back unchanged.
   */
  lemma {:induction false} SerializableRoundTrip(j: Json)
    requires Plain(j)
    ensures Serializable(Embed(j)) == Some(j)
    decreases j, 1
  {
    match j
    case JArr(items) => SerializableAllRoundTrip(items);
    case JObj(fields) =>
      SerializablePropsRoundTrip(fields, []);
      assert [] + fields == fields;
    case _ =>
  }

  lemma {:induction false} SerializableAllRoundTrip(items: seq<Json>)
    requires PlainAll(items)
    ensures SerializableAll(EmbedAll(items)) == Some(items)
    decreases items, 0
  {
    if items != [] {
      SerializableRoundTrip(items[0]);
      SerializableAllRoundTrip(items[1..]);
      assert EmbedAll(items)[1..] == EmbedAll(items[1..]);
      assert [items[0]] + items[1..] == items;
    }
  }

  lemma {:induction false} SerializablePropsRoundTrip(fields: seq<Field>, acc: seq<Field>)
    requires PlainFields(fields) && UniqueNames(acc + fields)
    ensures SerializableProps(EmbedFields(fields), acc) == Some(acc + fields)
    decreases fields, 0
  {
    if fields != [] {
      var f := fields[0];
      var props := EmbedFields(fields);
      assert props[0] == Prop(f.name, Embed(f.value));
      assert props[1..] == EmbedFields(fields[1..]);
      SerializableRoundTrip(f.value);
      FreshName(acc, fields);
      var acc' := acc + [f];
      ShiftFirst(acc, fields);
      SerializablePropsRoundTrip(fields[1..], acc');
      assert SerializableProps(props, acc) == SerializableProps(props[1..], acc');
    } else {
      assert acc + fields == acc;
    }
  }

  /** The next property of a duplicate-free object is not among those already built, so `Assign` appends it. */
  lemma FreshName(acc: seq<Field>, fields: seq<Field>)
    requires fields != [] && UniqueNames(acc + fields)
    ensures Assign(acc, fields[0].name, fields[0].value) == acc + [fields[0]]
  {
    var all := acc + fields;
    assert all[|acc|] == fields[0];
    forall i | 0 <= i < |acc| ensures Names(acc)[i] != fields[0].name {
      assert all[i] == acc[i];
    }
  }
}
