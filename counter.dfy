/**
 * The global page counter (partykit/counter.ts). It keeps one `PageState`
 * per page: the page's connection count and the pages subscribed to it.
 * Page rooms post their counts here and subscribe to other pages; every
 * count update is forwarded to the subscribed pages. An alarm sweeps pages
 * whose count is zero.
 */
module Counter {
  import opened Common

  /** One hour, in milliseconds. */
  const CLEANUP_ALARM_DELAY := 1000 * 60 * 60

  /** `PageState` */
  datatype PageState = PageState(id: string, connectionCount: int, subscriberIds: seq<string>)

  /** The body of a POST from a page room; `UnknownAction` is any other `action`. */
  datatype PageRequest =
    | Update(id: string, connectionCount: int)
    | Subscribe(subscriberId: string, subscribeToRoomIds: seq<string>)
    | UnknownAction

  datatype Request = Post(body: PageRequest) | OtherMethod

  /** `PageConnectionsSummary` (page id -> count), `{success: true}`, or the 400 text. */
  datatype Body = Summary(counts: map<string, int>) | Success | BadRequest

  datatype Response = Response(status: int, body: Body)

  /** One POST to the page room `pageId` carrying `update`. */
  datatype Fetch = Fetch(pageId: string, update: PageRequest)

  /** The state of a page the counter has not stored. */
  function FreshPage(pageId: string): PageState {
    PageState(pageId, 0, [])
  }

  /** The updater of `addSubscriber`: the subscriber goes first, its older occurrence is filtered out. */
  function WithSubscriber(state: PageState, subscriberId: string): (r: PageState)
    ensures r.id == state.id && r.connectionCount == state.connectionCount
    ensures |r.subscriberIds| > 0 && r.subscriberIds[0] == subscriberId
    ensures subscriberId !in r.subscriberIds[1..]
    ensures forall s :: s in r.subscriberIds <==> s in state.subscriberIds || s == subscriberId
  {
    PageState(state.id, state.connectionCount, [subscriberId] + Without(state.subscriberIds, subscriberId))
  }

  /** Subscribing keeps a duplicate-free subscriber list duplicate-free. */
  lemma {:induction false} WithSubscriberNoDup(state: PageState, subscriberId: string)
    requires NoDup(state.subscriberIds)
    ensures NoDup(WithSubscriber(state, subscriberId).subscriberIds)
  {
    var r := WithSubscriber(state, subscriberId).subscriberIds;
    WithoutNoDup(state.subscriberIds, subscriberId);
    forall i, j | 0 <= i < j < |r| ensures r[i] != r[j] {
      assert r[j] == r[1..][j - 1];
      if i > 0 {
        assert r[i] == r[1..][i - 1];
      }
    }
  }

  /**
   * The other subscribers keep their relative order: in a duplicate-free list
   * the subscriber's old position is simply cut out.
   */
  lemma {:induction false} WithSubscriberKeepsOrder(state: PageState, k: nat)
    requires NoDup(state.subscriberIds) && k < |state.subscriberIds|
    ensures WithSubscriber(state, state.subscriberIds[k]).subscriberIds
         == [state.subscriberIds[k]] + state.subscriberIds[..k] + state.subscriberIds[k + 1..]
  {
    WithoutCutsOut(state.subscriberIds, k);
  }

  lemma {:induction false} WithoutCutsOut(xs: seq<string>, k: nat)
    requires NoDup(xs) && k < |xs|
    ensures Without(xs, xs[k]) == xs[..k] + xs[k + 1..]
  {
    if k == 0 {
      assert xs[k] !in xs[1..] by {
        forall j | 0 <= j < |xs[1..]| ensures xs[1..][j] != xs[0] {
          assert xs[1..][j] == xs[j + 1];
        }
      }
      WithoutAbsent(xs[1..], xs[0]);
    } else {
      var tail := xs[1..];
      assert NoDup(tail) by {
        forall i, j | 0 <= i < j < |tail| ensures tail[i] != tail[j] {
          assert tail[i] == xs[i + 1] && tail[j] == xs[j + 1];
        }
      }
      assert tail[k - 1] == xs[k];
      WithoutCutsOut(tail, k - 1);
      assert xs[0] != xs[k];
      assert xs[..k] == [xs[0]] + tail[..k - 1];
      assert xs[k + 1..] == tail[k..];
    }
  }

  /** Subscribing twice is the same as subscribing once: the list never grows a duplicate. */
  lemma ResubscribeIsIdempotent(state: PageState, subscriberId: string)
    ensures WithSubscriber(WithSubscriber(state, subscriberId), subscriberId) == WithSubscriber(state, subscriberId)
  {
    var once := WithSubscriber(state, subscriberId);
    WithoutAbsent(once.subscriberIds[1..], subscriberId);
    assert once.subscriberIds == [subscriberId] + once.subscriberIds[1..];
  }

  /** The updater of a count update: only the count changes. */
  function WithCount(state: PageState, connectionCount: int): (r: PageState)
    ensures r.id == state.id && r.subscriberIds == state.subscriberIds
    ensures r.connectionCount == connectionCount
  {
    state.(connectionCount := connectionCount)
  }

  /**
   * The `reduce` of `handleSubscribeRequest`: `acc[room.id] = room.connectionCount`
   * for each room in order, so the last room with a given id wins.
   */
  function Tally(rooms: seq<PageState>): map<string, int> {
    if rooms == [] then map[]
    else Tally(rooms[..|rooms| - 1])[rooms[|rooms| - 1].id := rooms[|rooms| - 1].connectionCount]
  }

  /** The summary has a key exactly for each id among the rooms. */
  lemma {:induction false} TallyKeys(rooms: seq<PageState>)
    ensures forall k :: k in Tally(rooms) <==> exists i :: 0 <= i < |rooms| && rooms[i].id == k
  {
    if rooms != [] {
      var n := |rooms| - 1;
      var init := rooms[..n];
      TallyKeys(init);
      assert Tally(rooms) == Tally(init)[rooms[n].id := rooms[n].connectionCount];
      forall k ensures k in Tally(rooms) <==> exists i :: 0 <= i < |rooms| && rooms[i].id == k {
        if k != rooms[n].id {
          if k in Tally(rooms) {
            assert k in Tally(init);
            var i :| 0 <= i < n && init[i].id == k;
            assert rooms[i].id == k;
          }
          if exists i :: 0 <= i < |rooms| && rooms[i].id == k {
            var i :| 0 <= i < |rooms| && rooms[i].id == k;
            assert init[i].id == k;
          }
        }
      }
    }
  }

  /** An id's value in the summary is the count of the last room carrying that id. */
  lemma {:induction false} TallyLast(rooms: seq<PageState>, i: nat)
    requires i < |rooms|
    requires forall j :: i < j < |rooms| ==> rooms[j].id != rooms[i].id
    ensures rooms[i].id in Tally(rooms) && Tally(rooms)[rooms[i].id] == rooms[i].connectionCount
  {
    var n := |rooms| - 1;
    if i < n {
      var init := rooms[..n];
      assert init[i] == rooms[i];
      forall j | i < j < |init| ensures init[j].id != init[i].id {
        assert init[j] == rooms[j];
      }
      TallyLast(init, i);
    }
  }

  /** The pages the alarm keeps: those whose count is not zero. */
  function Sweep(pages: map<string, PageState>): (kept: map<string, PageState>)
    ensures forall k :: k in kept <==> k in pages && pages[k].connectionCount != 0
    ensures forall k :: k in kept ==> kept[k] == pages[k]
  {
    map k | k in pages && pages[k].connectionCount != 0 :: pages[k]
  }

  /** The POSTs of a count update: one per subscriber, in list order. */
  function Notify(subscriberIds: seq<string>, update: PageRequest): (out: seq<Fetch>)
    ensures |out| == |subscriberIds|
    ensures forall i :: 0 <= i < |out| ==> out[i] == Fetch(subscriberIds[i], update)
  {
    seq(|subscriberIds|, i requires 0 <= i < |subscriberIds| => Fetch(subscriberIds[i], update))
  }

  /** Each stored page sits under its own id and has a duplicate-free subscriber list. */
  ghost predicate WellKeyed(pages: map<string, PageState>) {
    forall k :: k in pages ==> pages[k].id == k && NoDup(pages[k].subscriberIds)
  }

  /** `getRoomState` on a storage snapshot: the stored state, or a fresh one with count 0 and no subscribers. */
  function PageOf(pages: map<string, PageState>, pageId: string): (state: PageState)
    ensures pageId !in pages ==> state == FreshPage(pageId)
    ensures WellKeyed(pages) ==> state.id == pageId && NoDup(state.subscriberIds)
  {
    if pageId in pages then pages[pageId] else FreshPage(pageId)
  }

  /** The storage after subscribing `subscriberId` to each of `roomIds`. */
  ghost function SubscribeAll(pages: map<string, PageState>, roomIds: seq<string>, subscriberId: string)
    : map<string, PageState>
  {
    map k | k in pages.Keys + (set x | x in roomIds) ::
      if k in roomIds then WithSubscriber(PageOf(pages, k), subscriberId) else pages[k]
  }

  /**
   * What subscribing does to storage: exactly the requested pages gain the
   * subscriber, every other stored page is kept as it was.
   */
  lemma SubscribeAllPages(pages: map<string, PageState>, roomIds: seq<string>, subscriberId: string)
    ensures var r := SubscribeAll(pages, roomIds, subscriberId);
      && (forall k :: k in r <==> k in pages || k in roomIds)
      && (forall k :: k in roomIds ==> r[k] == WithSubscriber(PageOf(pages, k), subscriberId))
      && (forall k :: k in pages && k !in roomIds ==> r[k] == pages[k])
  {
  }

  /** Subscribing page by page: a page requested twice ends up as if requested once. */
  lemma {:induction false} SubscribeAllStep(pages: map<string, PageState>, roomIds: seq<string>, roomId: string, subscriberId: string)
    ensures var before := SubscribeAll(pages, roomIds, subscriberId);
      SubscribeAll(pages, roomIds + [roomId], subscriberId)
        == before[roomId := WithSubscriber(PageOf(before, roomId), subscriberId)]
  {
    var before := SubscribeAll(pages, roomIds, subscriberId);
    var a := SubscribeAll(pages, roomIds + [roomId], subscriberId);
    var b := before[roomId := WithSubscriber(PageOf(before, roomId), subscriberId)];
    if roomId in roomIds {
      ResubscribeIsIdempotent(PageOf(pages, roomId), subscriberId);
    }
    assert a.Keys == b.Keys;
    forall k | k in a ensures a[k] == b[k] {
      if k != roomId && k in roomIds {
        assert a[k] == b[k];
      }
    }
  }

  /** Subscribing page by page, in request order, as the `map` over the requested ids does it. */
  ghost function SubscribeEach(pages: map<string, PageState>, roomIds: seq<string>, subscriberId: string)
    : map<string, PageState>
  {
    if roomIds == [] then pages
    else
      var before := SubscribeEach(pages, roomIds[..|roomIds| - 1], subscriberId);
      var roomId := roomIds[|roomIds| - 1];
      before[roomId := WithSubscriber(PageOf(before, roomId), subscriberId)]
  }

  /** Page-by-page subscribing ends where subscribing the whole request at once does. */
  lemma {:induction false} SubscribeEachIsAll(pages: map<string, PageState>, roomIds: seq<string>, subscriberId: string)
    ensures SubscribeEach(pages, roomIds, subscriberId) == SubscribeAll(pages, roomIds, subscriberId)
  {
    if roomIds != [] {
      var done := roomIds[..|roomIds| - 1];
      var roomId := roomIds[|roomIds| - 1];
      SubscribeEachIsAll(pages, done, subscriberId);
      SubscribeAllStep(pages, done, roomId, subscriberId);
      assert done + [roomId] == roomIds;
    }
  }

  /** The rooms read so far answer the first requested ids, in order, with their counts before subscribing. */
  ghost predicate Reports(rooms: seq<PageState>, roomIds: seq<string>, pages: map<string, PageState>) {
    && |rooms| <= |roomIds|
    && forall j :: 0 <= j < |rooms| ==>
      rooms[j].id == roomIds[j] && rooms[j].connectionCount == PageOf(pages, roomIds[j]).connectionCount
  }

  lemma ReportSnoc(rooms: seq<PageState>, room: PageState, roomIds: seq<string>, pages: map<string, PageState>)
    requires Reports(rooms, roomIds, pages) && |rooms| < |roomIds|
    requires room.id == roomIds[|rooms|] && room.connectionCount == PageOf(pages, room.id).connectionCount
    ensures Reports(rooms + [room], roomIds, pages)
  {
  }

  /** Partway through, every page is still keyed by its id, and the next page still has its count. */
  lemma SubscribeEachSoFar(pages: map<string, PageState>, done: seq<string>, roomId: string, subscriberId: string)
    requires WellKeyed(pages)
    ensures WellKeyed(SubscribeEach(pages, done, subscriberId))
    ensures PageOf(SubscribeEach(pages, done, subscriberId), roomId).connectionCount == PageOf(pages, roomId).connectionCount
  {
    SubscribeEachIsAll(pages, done, subscriberId);
    SubscribeAllWellKeyed(pages, done, subscriberId);
    SubscribeAllKeepsCount(pages, done, subscriberId, roomId);
  }

  /** Subscribing changes no page's count. */
  lemma SubscribeAllKeepsCount(pages: map<string, PageState>, roomIds: seq<string>, subscriberId: string, pageId: string)
    ensures PageOf(SubscribeAll(pages, roomIds, subscriberId), pageId).connectionCount == PageOf(pages, pageId).connectionCount
  {
  }

  /** Subscribing keeps every page under its own id with a duplicate-free list. */
  lemma SubscribeAllWellKeyed(pages: map<string, PageState>, roomIds: seq<string>, subscriberId: string)
    requires WellKeyed(pages)
    ensures WellKeyed(SubscribeAll(pages, roomIds, subscriberId))
  {
    forall k | k in roomIds {
      WithSubscriberNoDup(PageOf(pages, k), subscriberId);
    }
  }

  /** The counter room: its stored pages, its pending alarm and the POSTs it has sent. */
  class CounterServer {
    var storage: map<string, PageState>
    var alarm: Option<int>
    var outbox: seq<Fetch>

    /**
     * Each page is stored under its own id with a duplicate-free subscriber
     * list, and while any page is stored a cleanup alarm is pending.
     */
    ghost predicate Valid() reads this {
      WellKeyed(storage) && (storage != map[] ==> alarm.Some?)
    }

    constructor ()
      ensures Valid() && storage == map[] && alarm == None && outbox == []
    {
      storage, alarm, outbox := map[], None, [];
    }

    /** `getRoomState`: the stored state, or a fresh one with count 0 and no subscribers. */
    function GetRoomState(pageId: string): (state: PageState)
      reads this
      ensures pageId !in storage ==> state == FreshPage(pageId)
      ensures pageId in storage ==> state == storage[pageId]
      ensures Valid() ==> state.id == pageId && NoDup(state.subscriberIds)
    {
      PageOf(storage, pageId)
    }

    /** `updateRoomState`: stores `update(old state)` and sets the alarm only if none is pending. */
    method UpdateRoomState(pageId: string, update: PageState -> PageState, now: int) returns (newState: PageState)
      modifies this
      ensures newState == update(old(GetRoomState(pageId)))
      ensures storage == old(storage)[pageId := newState]
      ensures alarm == if old(alarm).None? then Some(now + CLEANUP_ALARM_DELAY) else old(alarm)
      ensures outbox == old(outbox)
    {
      var oldState := GetRoomState(pageId);
      newState := update(oldState);
      storage := storage[pageId := newState];
      if alarm.None? {
        alarm := Some(now + CLEANUP_ALARM_DELAY);
      }
    }

    /** `addSubscriber` */
    method AddSubscriber(roomId: string, subscriberId: string, now: int) returns (state: PageState)
      modifies this
      ensures state == WithSubscriber(PageOf(old(storage), roomId), subscriberId)
      ensures storage == old(storage)[roomId := state]
      ensures alarm == if old(alarm).None? then Some(now + CLEANUP_ALARM_DELAY) else old(alarm)
      ensures outbox == old(outbox)
    {
      state := UpdateRoomState(roomId, s => WithSubscriber(s, subscriberId), now);
    }

    /**
     * `handleSubscribeRequest`: adds the subscriber to every requested page
     * and answers each requested page's count as it was before, zeros included.
     */
    method HandleSubscribeRequest(subscriberId: string, roomIds: seq<string>, now: int)
      returns (summary: map<string, int>)
      requires Valid()
      modifies this
      ensures Valid()
      ensures forall r :: r in summary <==> r in roomIds
      ensures forall r :: r in summary ==> summary[r] == PageOf(old(storage), r).connectionCount
      ensures storage == SubscribeAll(old(storage), roomIds, subscriberId)
      ensures alarm == if roomIds != [] && old(alarm).None? then Some(now + CLEANUP_ALARM_DELAY) else old(alarm)
      ensures outbox == old(outbox)
    {
      ghost var pages0 := storage;
      var rooms := AddSubscriberToEach(roomIds, subscriberId, now);
      SubscribeAllWellKeyed(pages0, roomIds, subscriberId);
      SubscribeAllPages(pages0, roomIds, subscriberId);
      summary := Tally(rooms);
      TallyOfRequested(pages0, roomIds, rooms);
    }

    /**
     * The `map` of `handleSubscribeRequest`: `addSubscriber` for each
     * requested page in turn, collecting the new states.
     */
    method AddSubscriberToEach(roomIds: seq<string>, subscriberId: string, now: int) returns (rooms: seq<PageState>)
      requires WellKeyed(storage)
      modifies this
      ensures |rooms| == |roomIds|
      ensures forall j :: 0 <= j < |roomIds| ==>
        rooms[j].id == roomIds[j] && rooms[j].connectionCount == PageOf(old(storage), roomIds[j]).connectionCount
      ensures storage == SubscribeAll(old(storage), roomIds, subscriberId)
      ensures alarm == if roomIds != [] && old(alarm).None? then Some(now + CLEANUP_ALARM_DELAY) else old(alarm)
      ensures outbox == old(outbox)
    {
      var pages0, alarm0, outbox0 := storage, alarm, outbox;
      rooms := [];
      var i := 0;
      while i < |roomIds|
        invariant 0 <= i <= |roomIds| && |rooms| == i
        invariant Reports(rooms, roomIds, pages0)
        invariant storage == SubscribeEach(pages0, roomIds[..i], subscriberId)
        invariant alarm == if i > 0 && alarm0.None? then Some(now + CLEANUP_ALARM_DELAY) else alarm0
        invariant outbox == outbox0
      {
        var roomId := roomIds[i];
        SubscribeEachSoFar(pages0, roomIds[..i], roomId, subscriberId);
        var room := AddSubscriber(roomId, subscriberId, now);
        assert roomIds[..i + 1][..i] == roomIds[..i];
        assert room.id == roomId && room.connectionCount == PageOf(pages0, roomId).connectionCount;
        ReportSnoc(rooms, room, roomIds, pages0);
        rooms := rooms + [room];
        i := i + 1;
      }
      assert roomIds[..i] == roomIds;
      SubscribeEachIsAll(pages0, roomIds, subscriberId);
    }

    /**
     * `handleConnectionCountUpdateRequest`: stores the new count, keeps the
     * subscriber list and posts the update to exactly the stored subscribers.
     */
    method HandleConnectionCountUpdateRequest(id: string, connectionCount: int, now: int)
      returns (response: Response)
      requires Valid()
      modifies this
      ensures Valid()
      ensures response == Response(200, Success)
      ensures storage == old(storage)[id := WithCount(old(GetRoomState(id)), connectionCount)]
      ensures alarm == if old(alarm).None? then Some(now + CLEANUP_ALARM_DELAY) else old(alarm)
      ensures outbox == old(outbox) + Notify(old(GetRoomState(id)).subscriberIds, Update(id, connectionCount))
    {
      var roomState := UpdateRoomState(id, s => WithCount(s, connectionCount), now);
      var update := Update(roomState.id, roomState.connectionCount);
      var i := 0;
      while i < |roomState.subscriberIds|
        invariant 0 <= i <= |roomState.subscriberIds|
        invariant outbox == old(outbox) + Notify(roomState.subscriberIds[..i], update)
        invariant storage == old(storage)[id := roomState] && alarm.Some?
        invariant alarm == if old(alarm).None? then Some(now + CLEANUP_ALARM_DELAY) else old(alarm)
      {
        outbox := outbox + [Fetch(roomState.subscriberIds[i], update)];
        assert roomState.subscriberIds[..i + 1] == roomState.subscriberIds[..i] + [roomState.subscriberIds[i]];
        i := i + 1;
      }
      assert roomState.subscriberIds[..i] == roomState.subscriberIds;
      response := Response(200, Success);
    }

    /**
     * `onAlarm`: the runtime has cleared the fired alarm; every page with
     * count zero is deleted, and the alarm is set again only if pages remain.
     */
    method OnAlarm(now: int)
      requires Valid()
      modifies this
      ensures Valid()
      ensures storage == Sweep(old(storage))
      ensures forall k :: k in storage ==> storage[k].connectionCount != 0
      ensures alarm.Some? <==> storage != map[]
      ensures alarm.Some? ==> alarm.value == now + CLEANUP_ALARM_DELAY
      ensures outbox == old(outbox)
    {
      alarm := None;
      var allPages := storage;
      var todo := allPages.Keys;
      while todo != {}
        invariant todo <= allPages.Keys
        invariant storage == map k | k in allPages && !(k !in todo && allPages[k].connectionCount == 0) :: allPages[k]
        invariant alarm == None && outbox == old(outbox)
        decreases todo
      {
        var pageId :| pageId in todo;
        if allPages[pageId].connectionCount == 0 {
          storage := storage - {pageId};
        }
        todo := todo - {pageId};
      }
      assert storage == Sweep(allPages);
      if |storage| > 0 {
        alarm := Some(now + CLEANUP_ALARM_DELAY);
      } else {
        assert storage == map[];
      }
    }

    /** `onRequest`: POST `subscribe` or `update` is handled; everything else is 400. */
    method OnRequest(req: Request, now: int) returns (response: Response)
      requires Valid()
      modifies this
      ensures Valid()
      ensures (req.OtherMethod? || req.body.UnknownAction?) ==>
        response == Response(400, BadRequest) && storage == old(storage) && alarm == old(alarm) && outbox == old(outbox)
      ensures req.Post? && req.body.Subscribe? ==>
        && response.status == 200 && response.body.Summary?
        && (forall r :: r in response.body.counts <==> r in req.body.subscribeToRoomIds)
        && (forall r :: r in response.body.counts ==> response.body.counts[r] == PageOf(old(storage), r).connectionCount)
        && storage == SubscribeAll(old(storage), req.body.subscribeToRoomIds, req.body.subscriberId)
        && alarm == (if req.body.subscribeToRoomIds != [] && old(alarm).None? then Some(now + CLEANUP_ALARM_DELAY) else old(alarm))
        && outbox == old(outbox)
      ensures req.Post? && req.body.Update? ==>
        && response == Response(200, Success)
        && storage == old(storage)[req.body.id := WithCount(old(GetRoomState(req.body.id)), req.body.connectionCount)]
        && alarm == (if old(alarm).None? then Some(now + CLEANUP_ALARM_DELAY) else old(alarm))
        && outbox == old(outbox) + Notify(old(GetRoomState(req.body.id)).subscriberIds, Update(req.body.id, req.body.connectionCount))
    {
      if req.Post? {
        var request := req.body;
        if request.Subscribe? {
          var summary := HandleSubscribeRequest(request.subscriberId, request.subscribeToRoomIds, now);
          return Response(200, Summary(summary));
        }
        if request.Update? {
          response := HandleConnectionCountUpdateRequest(request.id, request.connectionCount, now);
          return;
        }
      }
      response := Response(400, BadRequest);
    }
  }

  /** The summary of the rooms read for `roomIds` has exactly those ids, each with its count. */
  lemma TallyOfRequested(pages: map<string, PageState>, roomIds: seq<string>, rooms: seq<PageState>)
    requires |rooms| == |roomIds|
    requires forall j :: 0 <= j < |rooms| ==>
      rooms[j].id == roomIds[j] && rooms[j].connectionCount == PageOf(pages, roomIds[j]).connectionCount
    ensures forall r :: r in Tally(rooms) <==> r in roomIds
    ensures forall r :: r in Tally(rooms) ==> Tally(rooms)[r] == PageOf(pages, r).connectionCount
  {
    var summary := Tally(rooms);
    TallyKeys(rooms);
    forall r | r in summary ensures summary[r] == PageOf(pages, r).connectionCount {
      var i :| 0 <= i < |rooms| && rooms[i].id == r;
      LastWithId(rooms, i);
    }
    forall r | r in roomIds ensures r in summary {
      var i :| 0 <= i < |roomIds| && roomIds[i] == r;
      assert rooms[i].id == r;
    }
  }

  /** The summary value of a page id is the count of the last room with that id. */
  lemma LastWithId(rooms: seq<PageState>, i: nat)
    requires i < |rooms|
    ensures rooms[i].id in Tally(rooms)
    ensures exists j ::
      && i <= j < |rooms| && rooms[j].id == rooms[i].id
      && (forall k :: j < k < |rooms| ==> rooms[k].id != rooms[i].id)
      && Tally(rooms)[rooms[i].id] == rooms[j].connectionCount
  {
    var j := i;
    while exists k :: j < k < |rooms| && rooms[k].id == rooms[i].id
      invariant i <= j < |rooms| && rooms[j].id == rooms[i].id
      decreases |rooms| - j
    {
      var later :| j < later < |rooms| && rooms[later].id == rooms[i].id;
      j := later;
    }
    TallyLast(rooms, j);
  }
}
