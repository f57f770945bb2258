/**
 * A tracker room (partykit/tracker.ts): the same protocol as the hyperspace
 * room, but the subscribers are kept as one stored set that never expires,
 * and a subscribe is always answered with the current count.
 */
module Tracker {
  import opened Common
  import opened Hyperspace

  /** The tracker room of one hashed URL. */
  class Connections {
    const id: string
    /** The stored `subscriptions` set, if any. */
    var subscriptions: Option<set<string>>
    /** The runtime's current connections to this room. */
    var connectionIds: seq<string>
    var outbox: seq<Out>

    constructor (id: string, connectionIds: seq<string>)
      ensures this.id == id && this.connectionIds == connectionIds
      ensures subscriptions == None && outbox == []
    {
      this.id := id;
      this.connectionIds := connectionIds;
      subscriptions, outbox := None, [];
    }

    /** `connectionsCount` */
    function ConnectionsCount(): (n: nat)
      reads this
      ensures n == |connectionIds|
    {
      |connectionIds|
    }

    /**
     * `publish`: `here` goes to every client; then, if a subscription set is
     * stored, each member gets exactly one `connections` POST with this
     * room's id and count. `notified` is the order in which the set listed
     * its members.
     */
    method Publish() returns (notified: seq<string>)
      modifies this`outbox
      ensures NoDup(notified)
      ensures subscriptions.None? ==> notified == []
      ensures subscriptions.Some? ==> forall h :: h in notified <==> h in subscriptions.value
      ensures outbox == old(outbox) + [Broadcast(Here(|connectionIds|), [])]
        + Notices(notified, ConnectionsReq(id, |connectionIds|))
    {
      var connections := ConnectionsCount();
      outbox := outbox + [Broadcast(Here(connections), [])];
      notified := [];
      if subscriptions.None? {
        assert Notices(notified, ConnectionsReq(id, connections)) == [];
        return;
      }
      var msg := ConnectionsReq(id, connections);
      ghost var base := outbox;
      var todo := subscriptions.value;
      while todo != {}
        invariant todo <= subscriptions.value
        invariant NoDup(notified)
        invariant forall h :: h in notified <==> h in subscriptions.value - todo
        invariant outbox == base + Notices(notified, msg)
        decreases todo
      {
        var hashedUrl :| hashedUrl in todo;
        NoDupSnoc(notified, hashedUrl);
        assert Notices(notified + [hashedUrl], msg) == Notices(notified, msg) + [ToPeer(hashedUrl, msg)];
        outbox := outbox + [ToPeer(hashedUrl, msg)];
        notified := notified + [hashedUrl];
        todo := todo - {hashedUrl};
      }
    }

    /** `onConnect`: the count changed, so publish. */
    method OnConnect() returns (notified: seq<string>)
      modifies this`outbox
      ensures NoDup(notified)
      ensures subscriptions.None? ==> notified == []
      ensures subscriptions.Some? ==> forall h :: h in notified <==> h in subscriptions.value
      ensures outbox == old(outbox) + [Broadcast(Here(|connectionIds|), [])]
        + Notices(notified, ConnectionsReq(id, |connectionIds|))
    {
      notified := Publish();
    }

    /** `onDisconnect`: the count changed, so publish. */
    method OnDisconnect() returns (notified: seq<string>)
      modifies this`outbox
      ensures NoDup(notified)
      ensures subscriptions.None? ==> notified == []
      ensures subscriptions.Some? ==> forall h :: h in notified <==> h in subscriptions.value
      ensures outbox == old(outbox) + [Broadcast(Here(|connectionIds|), [])]
        + Notices(notified, ConnectionsReq(id, |connectionIds|))
    {
      notified := Publish();
    }

    /** `subscribe`: POSTs a subscribe to the room `hashedUrl`; a count in its reply goes to the connection. */
    method Subscribe(hashedUrl: string, connection: string, reply: PeerReply)
      modifies this`outbox
      ensures outbox == old(outbox) + SubscribeOutputs(hashedUrl, id, connection, reply)
    {
      outbox := outbox + [ToPeer(hashedUrl, SubscribeReq(id))];
      if reply.ConnectionsReply? {
        outbox := outbox + [Send(connection, ConnectionsMsg(reply.hashedUrl, reply.connections))];
      }
    }

    /**
     * `onMessage`. An `init` subscribes this room to each linked page's room
     * in turn (`replies[i]` is what the i-th of them answers) and passes a count on
     * to the connection whenever one comes back. An `exit` goes to every
     * connection except its sender.
     */
    method OnMessage(msg: ClientMessage, connection: string, replies: seq<PeerReply>)
      requires msg.Init? ==> |replies| == |msg.hashedUrls|
      modifies this`outbox
      ensures msg.Init? ==> outbox == old(outbox) + InitOutputs(msg.hashedUrls, id, connection, replies)
      ensures msg.Exit? ==> outbox == old(outbox) + [Broadcast(ExitMsg(msg.data), [connection])]
      ensures msg.OtherMessage? ==> outbox == old(outbox)
    {
      if msg.Init? {
        var i := 0;
        while i < |msg.hashedUrls|
          invariant 0 <= i <= |msg.hashedUrls|
          invariant outbox + InitOutputs(msg.hashedUrls[i..], id, connection, replies[i..])
            == old(outbox) + InitOutputs(msg.hashedUrls, id, connection, replies)
        {
          ghost var before := outbox;
          Subscribe(msg.hashedUrls[i], connection, replies[i]);
          assert msg.hashedUrls[i..][1..] == msg.hashedUrls[i + 1..];
          assert replies[i..][1..] == replies[i + 1..];
          assert InitOutputs(msg.hashedUrls[i..], id, connection, replies[i..])
            == SubscribeOutputs(msg.hashedUrls[i], id, connection, replies[i])
               + InitOutputs(msg.hashedUrls[i + 1..], id, connection, replies[i + 1..]);
          assert outbox == before + SubscribeOutputs(msg.hashedUrls[i], id, connection, replies[i]);
          i := i + 1;
        }
        assert msg.hashedUrls[i..] == [];
      } else if msg.Exit? {
        outbox := outbox + [Broadcast(ExitMsg(msg.data), [connection])];
      }
    }

    /**
     * `onRequest`. POST `subscribe`: adds the subscriber to the stored set
     * (creating it if missing) and always answers the current count, zero
     * included. POST `connections`: relays the count to every client.
     * Another POST type: 400. Any other method: 501.
     */
    method OnRequest(req: Request) returns (response: Response)
      modifies this`subscriptions, this`outbox
      ensures req.Post? && req.body.SubscribeReq? ==>
        && subscriptions == Some(old(subscriptions).GetOr({}) + {req.body.hashedUrl})
        && outbox == old(outbox)
        && response == Response(200, Reply(ConnectionsReply(id, |connectionIds|)))
      ensures req.Post? && req.body.ConnectionsReq? ==>
        && subscriptions == old(subscriptions)
        && outbox == old(outbox) + [Broadcast(ConnectionsMsg(req.body.hashedUrl, req.body.connections), [])]
        && response == Response(200, Text("ok"))
      ensures req.Post? && req.body.OtherType? ==>
        && response == Response(400, Text("invalid message type"))
        && subscriptions == old(subscriptions) && outbox == old(outbox)
      ensures !req.Post? ==>
        && response == Response(501, Text("Method not implemented"))
        && subscriptions == old(subscriptions) && outbox == old(outbox)
    {
      if req.Post? {
        var msg := req.body;
        if msg.SubscribeReq? {
          var subs := subscriptions.GetOr({});
          subs := subs + {msg.hashedUrl};
          subscriptions := Some(subs);
          return Response(200, Reply(ConnectionsReply(id, ConnectionsCount())));
        } else if msg.ConnectionsReq? {
          outbox := outbox + [Broadcast(ConnectionsMsg(msg.hashedUrl, msg.connections), [])];
          return Response(200, Text("ok"));
        } else {
          return Response(400, Text("invalid message type"));
        }
      }
      return Response(501, Text("Method not implemented"));
    }
  }

  /** Subscribing an id the stored set already holds leaves the set as it was: entries are never duplicated or dropped. */
  lemma ResubscribeKeepsSet(subscriptions: Option<set<string>>, hashedUrl: string)
    requires subscriptions.Some? && hashedUrl in subscriptions.value
    ensures Some(subscriptions.GetOr({}) + {hashedUrl}) == subscriptions
  {
    assert subscriptions.GetOr({}) == subscriptions.value;
    assert subscriptions.value + {hashedUrl} == subscriptions.value;
  }
}
