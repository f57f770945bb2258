/**
 * A page room (partykit/page.ts). It reports its own connection count to the
 * global counter, subscribes to the counts of the pages it links to, and
 * keeps the counter's answers in a cached `connections` summary that an
 * alarm purges once the page has no connections.
 */
module Page {
  import opened Common
  import Counter

  /** `GLOBAL_COUNTER_ID` */
  const GLOBAL_COUNTER_ID := "all-pages"

  /** One hour, in milliseconds. */
  const CLEANUP_ALARM_DELAY := 1000 * 60 * 60

  /** What a client sends: `subscribe` with its links, `exit` (kept as its raw text), or anything else. */
  datatype ClientMessage = Subscribe(links: seq<string>) | Exit(data: string) | OtherMessage

  /** What the page sends to its clients. */
  datatype ServerMessage =
    | UpdateMsg(connections: map<string, int>)
    | Here(count: int)
    | Raw(data: string)

  /** A broadcast (to every connection but those in `without`), a send to one connection, or a POST to the counter. */
  datatype Out =
    | Broadcast(msg: ServerMessage, without: seq<string>)
    | Send(to: string, msg: ServerMessage)
    | ToCounter(counterId: string, request: Counter.PageRequest)

  datatype Request = Post(body: Counter.PageRequest) | OtherMethod

  datatype Response = Response(status: int, text: string)

  /** The page room of page `id`. */
  class PageConnectionsServer {
    const id: string
    /** The stored `connections` summary, if any. */
    var connections: Option<map<string, int>>
    var alarm: Option<int>
    /** The runtime's current connections to this room. */
    var connectionIds: seq<string>
    var outbox: seq<Out>

    /** A stored summary always has a cleanup alarm pending. */
    ghost predicate Valid() reads this {
      connections.Some? ==> alarm.Some?
    }

    constructor (id: string, connectionIds: seq<string>)
      ensures Valid()
      ensures this.id == id && this.connectionIds == connectionIds
      ensures connections == None && alarm == None && outbox == []
    {
      this.id := id;
      this.connectionIds := connectionIds;
      connections, alarm, outbox := None, None, [];
    }

    /** `saveLinkConnections`: stores the summary and moves the alarm to an hour from now. */
    method SaveLinkConnections(linkConnections: map<string, int>, now: int)
      modifies this`connections, this`alarm
      ensures Valid()
      ensures connections == Some(linkConnections)
      ensures alarm == Some(now + CLEANUP_ALARM_DELAY)
    {
      connections := Some(linkConnections);
      alarm := Some(now + CLEANUP_ALARM_DELAY);
    }

    /**
     * `handleConnectionsUpdateMessage`: without a stored summary nothing
     * happens; with one, only the updated page's count changes, the summary
     * is saved again and broadcast to every connection.
     */
    method HandleConnectionsUpdateMessage(pageId: string, connectionCount: int, now: int)
      requires Valid()
      modifies this`connections, this`alarm, this`outbox
      ensures Valid()
      ensures old(connections).None? ==>
        connections == old(connections) && alarm == old(alarm) && outbox == old(outbox)
      ensures old(connections).Some? ==>
        && connections == Some(old(connections).value[pageId := connectionCount])
        && alarm == Some(now + CLEANUP_ALARM_DELAY)
        && outbox == old(outbox) + [Broadcast(UpdateMsg(connections.value), [])]
    {
      if connections.Some? {
        var summary := connections.value;
        summary := summary[pageId := connectionCount];
        SaveLinkConnections(summary, now);
        outbox := outbox + [Broadcast(UpdateMsg(summary), [])];
      }
    }

    /** `onRequest`: a POSTed `update` is applied, but the answer is always 400. */
    method OnRequest(req: Request, now: int) returns (response: Response)
      requires Valid()
      modifies this`connections, this`alarm, this`outbox
      ensures Valid()
      ensures response == Response(400, "Bad request")
      ensures !(req.Post? && req.body.Update?) ==>
        connections == old(connections) && alarm == old(alarm) && outbox == old(outbox)
      ensures req.Post? && req.body.Update? && old(connections).None? ==>
        connections == old(connections) && alarm == old(alarm) && outbox == old(outbox)
      ensures req.Post? && req.body.Update? && old(connections).Some? ==>
        && connections == Some(old(connections).value[req.body.id := req.body.connectionCount])
        && alarm == Some(now + CLEANUP_ALARM_DELAY)
        && outbox == old(outbox) + [Broadcast(UpdateMsg(connections.value), [])]
    {
      if req.Post? && req.body.Update? {
        HandleConnectionsUpdateMessage(req.body.id, req.body.connectionCount, now);
      }
      response := Response(400, "Bad request");
    }

    /** `onConnect`: the new count (the new connection included) goes to every client and to the counter. */
    method OnConnect()
      modifies this`outbox
      ensures outbox == old(outbox) + [
        Broadcast(Here(|connectionIds|), []),
        ToCounter(GLOBAL_COUNTER_ID, Counter.Update(id, |connectionIds|))]
    {
      var count := |connectionIds|;
      outbox := outbox + [Broadcast(Here(count), [])];
      SendConnectionCountUpdateToCounter(count);
    }

    /**
     * `onClose`: the closing connection is still listed, so the count
     * reported to clients and to the counter is one less than the list.
     */
    method OnClose()
      modifies this`outbox
      ensures outbox == old(outbox) + [
        Broadcast(Here(|connectionIds| - 1), []),
        ToCounter(GLOBAL_COUNTER_ID, Counter.Update(id, |connectionIds| - 1))]
    {
      var count := |connectionIds| - 1;
      outbox := outbox + [Broadcast(Here(count), [])];
      SendConnectionCountUpdateToCounter(count);
    }

    /**
     * `onMessage`. A `subscribe` asks the counter for the links' counts;
     * `counterReply` is its answer, which replaces the stored summary and is
     * sent to the sender alone. An `exit` is relayed verbatim to everyone but
     * the sender.
     */
    method OnMessage(msg: ClientMessage, sender: string, counterReply: map<string, int>, now: int)
      requires Valid()
      modifies this`connections, this`alarm, this`outbox
      ensures Valid()
      ensures msg.Subscribe? ==>
        && connections == Some(counterReply)
        && alarm == Some(now + CLEANUP_ALARM_DELAY)
        && outbox == old(outbox) + [
          ToCounter(GLOBAL_COUNTER_ID, Counter.Subscribe(id, msg.links)),
          Send(sender, UpdateMsg(counterReply))]
      ensures msg.Exit? ==>
        && connections == old(connections) && alarm == old(alarm)
        && outbox == old(outbox) + [Broadcast(Raw(msg.data), [sender])]
      ensures msg.OtherMessage? ==>
        connections == old(connections) && alarm == old(alarm) && outbox == old(outbox)
    {
      if msg.Subscribe? {
        var linkConnections := SubscribeToConnectionEventsFromCounter(msg.links, counterReply, now);
        outbox := outbox + [Send(sender, UpdateMsg(linkConnections))];
      } else if msg.Exit? {
        outbox := outbox + [Broadcast(Raw(msg.data), [sender])];
      }
    }

    /** `subscribeToConnectionEventsFromCounter`: posts the subscription, saves and returns the reply. */
    method SubscribeToConnectionEventsFromCounter(links: seq<string>, counterReply: map<string, int>, now: int)
      returns (linkConnections: map<string, int>)
      modifies this`connections, this`alarm, this`outbox
      ensures Valid()
      ensures linkConnections == counterReply
      ensures connections == Some(counterReply) && alarm == Some(now + CLEANUP_ALARM_DELAY)
      ensures outbox == old(outbox) + [ToCounter(GLOBAL_COUNTER_ID, Counter.Subscribe(id, links))]
    {
      outbox := outbox + [ToCounter(GLOBAL_COUNTER_ID, Counter.Subscribe(id, links))];
      linkConnections := counterReply;
      SaveLinkConnections(linkConnections, now);
    }

    /** `sendConnectionCountUpdateToCounter`: POSTs this page's count to the global counter. */
    method SendConnectionCountUpdateToCounter(connectionCount: int)
      modifies this`outbox
      ensures outbox == old(outbox) + [ToCounter(GLOBAL_COUNTER_ID, Counter.Update(id, connectionCount))]
    {
      outbox := outbox + [ToCounter(GLOBAL_COUNTER_ID, Counter.Update(id, connectionCount))];
    }

    /**
     * `onAlarm`: the runtime has cleared the fired alarm. With no connections
     * the summary is deleted; otherwise the alarm is set again.
     */
    method OnAlarm(now: int)
      requires Valid()
      modifies this`connections, this`alarm
      ensures Valid()
      ensures |connectionIds| == 0 ==> connections == None && alarm == None
      ensures |connectionIds| != 0 ==>
        connections == old(connections) && alarm == Some(now + CLEANUP_ALARM_DELAY)
    {
      alarm := None;
      if |connectionIds| == 0 {
        connections := None;
      } else {
        alarm := Some(now + CLEANUP_ALARM_DELAY);
      }
    }
  }
}
