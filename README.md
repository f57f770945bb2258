# PartyKit presence and interest, modelled in Dafny

This project models how the PartyKit servers keep track of presence and interest. Each server is a single-writer actor. A handler reads a small keyed store, changes it, and emits messages. The model covers four variants of that idea, one Dafny module per source file. It also covers the DOM-path builder that the browser component uses to name the link a visitor followed.

- `Rooms` (`partykit/rooms.ts`): the singleton announcer.
  - `Subscriptions` is a two-way index: websocket id to room ids, and room id to websocket ids.
  - The `RoomConnections` count table never stores a zero.
  - A subscriber gets a snapshot restricted to the rooms it asked for.
  - Each POST count report fans out only to the websockets that follow that room.
  - `serializable` renders the debug dump.
- `Counter` and `Page` (`partykit/counter.ts`, `partykit/page.ts`): the global counter and the per-page rooms.
  - The counter keeps one `PageState` per page.
  - `addSubscriber` moves the subscriber to the front of a duplicate-free list.
  - An alarm sweeps pages whose count is zero.
  - A page room caches the counts of the pages it links to, and purges the cache when idle.
- `Hyperspace` and `Tracker` (`partykit/hyperspace.ts`, `partykit/tracker.ts`): two mesh variants in which each page's room subscribes to the rooms of the pages it links to.
  - Hyperspace keeps each subscription as a `hashedUrl-` storage key stamped with a time, and stops notifying a subscriber after 24 hours.
  - The tracker keeps one stored set whose entries never expire.
- `Selections` (`partykit/selections.ts`): a Map from connection id to selection. It is updated in place per connection and copied into a plain object for every sync.
- `DomPath` (`getDomPath` in `src/components/disco-hyperlink/disco-hyperlink.tsx`): walks up from an element and emits one `tag`, `tag#id` or `tag:nth-of-type(n)` segment per element, joined with `" > "`.

Shared vocabulary lives in `Common` (an `Option`, duplicate-free lists, `startsWith`, `filter`). `Js` holds JavaScript values, JSON values and JavaScript property assignment.

How the servers are represented:
- Each server is a `class`. Its fields are its storage entries, its pending alarm (`Option<int>`), the runtime's list of connection ids and an `outbox`.
- The outbox is a sequence holding every broadcast, send and inter-room POST the handler makes, in order.
- Time is an integer number of milliseconds passed in as `now`.
- Replies from other rooms are parameters: `replies` (one per POST, in order) and `counterReply`.
- When a handler loops over a stored set or map, the runtime's iteration order is returned as `notified`. The contract then states which elements it holds.
- The DOM is a sequence of nodes. Each node's parent and previous-sibling links point to earlier nodes, so every walk ends.

Where the code and the design description differ, the model follows the code:
- The design says an expired subscription is removed from the index. Hyperspace's `publish` instead deletes the key *without* its `hashedUrl-` prefix. The stored subscription therefore stays, with its old time, and every later publish skips it again. `Hyperspace.ExpiredSubscriptionStays` proves this.
- The design says a wake-up reschedules at the soonest remaining expiry. The counter and page rooms instead re-arm one hour after the wake-up.
- Rooms' `set(ws, null)` leaves the reverse sets it empties in place. Only the non-null branch deletes them.
- The design says `onClose` also prunes stale websockets. The filter at `partykit/rooms.ts:119-122` instead picks the open connections that the forward map does *not* hold, and `set(id, null)` on those changes nothing. `Rooms.Announcer.OnClose` proves that the sweep leaves both maps as `set(closing, null)` left them.

## Model

| member | source | states |
|---|---|---|
| Common.Without | partykit/counter.ts:151 | `filter(id => id !== s)` keeps exactly the elements other than `s` and never lengthens the list |
| Common.WithoutNoDup | partykit/counter.ts:149-152 | filtering a duplicate-free subscriber list keeps it duplicate-free |
| Common.WithoutAbsent | partykit/counter.ts:151 | filtering out an id the list does not hold returns the list unchanged |
| Common.StartsWith | partykit/hyperspace.ts:127 | `startsWith`: the prefix fits in the string and equals its first characters |
| Js.Assign | partykit/selections.ts:25 | `obj[k] = v`: a new non-integer-like property goes last, and assigning to an existing one keeps the property names and their order |
| Js.AssignReplaces | partykit/selections.ts:25 | assigning to an existing property replaces that property where it stands and changes nothing else |
| Js.AssignKeepsUnique | partykit/selections.ts:25 | on an object with distinct names, assignment keeps the names distinct and the property named `k` then holds `v` |
| Rooms.Interest | partykit/rooms.ts:50-81 | both maps after `set(ws, hashedUrls)`; what they hold is stated by the `Interest…` lemmas below |
| Rooms.Subscriptions.Load | partykit/rooms.ts:34-43 | the instance holds both stored maps, and a missing entry reads as an empty map |
| Rooms.Subscriptions.Set | partykit/rooms.ts:50-81 | starting from agreeing directions, the loops leave both maps equal to `Interest` of the old maps, keep the two directions in agreement, and persist both maps |
| Rooms.AgreeCovers | partykit/rooms.ts:54-55 | under agreement every room a websocket follows has a reverse set, so the `!` dereferences in `set` are safe |
| Rooms.InterestKeepsAgreement | partykit/rooms.ts:50-81 | `set` keeps `r ∈ fwd[ws] ⟺ ws ∈ rev[r]` for every websocket and room |
| Rooms.InterestInstalls | partykit/rooms.ts:70-77 | after `set(ws, S)` the forward entry of `ws` is exactly `S`, and `ws` is in the reverse set of exactly the rooms of `S` |
| Rooms.ReplaceDropsEmptied | partykit/rooms.ts:61-68 | a reverse set that `set(ws, S)` empties is deleted, so an index without empty reverse sets keeps none |
| Rooms.InterestRemoves | partykit/rooms.ts:52-58 | after `set(ws, null)` the forward map does not hold `ws` and no reverse set contains it |
| Rooms.RemovalKeepsEmptied | partykit/rooms.ts:52-58 | `set(ws, null)` leaves a reverse set it empties stored as an empty set |
| Rooms.InterestLeavesOthers | partykit/rooms.ts:50-81 | `set(ws, …)` leaves every other websocket's forward entry and reverse memberships as they were |
| Rooms.RemoveAbsentIsNoop | partykit/rooms.ts:52-58 | `set(ws, null)` for a websocket the forward map does not hold changes neither map |
| Rooms.Subscriptions.DetachFrom | partykit/rooms.ts:54-67 | the removal loops take `ws` out of the reverse set of every old room; the replacing branch also deletes each set it empties (`Detach`) |
| Rooms.Subscriptions.AttachTo | partykit/rooms.ts:72-77 | the adding loop puts `ws` into the reverse set of every new room, creating missing sets (`Attach`) |
| Rooms.Subscriptions.Lookup | partykit/rooms.ts:83-85 | `lookup` of a room with no reverse set is empty; under agreement it returns exactly the websockets whose forward set holds the room |
| Rooms.Report | partykit/rooms.ts:136-143 | a report of 0 deletes the room, any other count is stored, other rooms are untouched, and a table without zeros keeps none |
| Rooms.Snapshot | partykit/rooms.ts:97-101 | the initial update holds exactly the stored rooms that were requested, each with its stored count |
| Rooms.FanOut | partykit/rooms.ts:153-158 | every send carries the update and goes to an open connection that is a subscriber, every such connection gets at least one (`Rooms.FanOutOnce` makes it exactly one per occurrence), and there are no more sends than connections |
| Rooms.FanOutOnce | partykit/rooms.ts:153-158 | each connection receives the update exactly as often as it appears among the open connections if it is a subscriber, and never otherwise |
| Rooms.FanOutInOrder | partykit/rooms.ts:153-158 | the recipients appear in the same order as the open connections |
| Rooms.Unsubscribed | partykit/rooms.ts:119-122 | the ids swept on close are exactly the open connections the forward map does not hold |
| Rooms.Announcer.constructor | partykit/rooms.ts:88 | a room with empty storage satisfies the index and count-table invariants |
| Rooms.Announcer.OnMessage | partykit/rooms.ts:89-111 | a subscribe replaces the sender's interest with the requested rooms, writes both index entries to storage and sends the sender the snapshot of those rooms; any other message changes nothing; both invariants are kept |
| Rooms.Announcer.OnClose | partykit/rooms.ts:113-127 | the index ends as `set(closing, null)` leaves it, with both entries written to storage; the sweep over unsubscribed connections changes nothing; the invariants are kept |
| Rooms.Announcer.OnRequest | partykit/rooms.ts:129-174 | a room other than the announcer answers 404; a POST applies `Report` and sends the incremental update to exactly the subscribed connections; GET dumps the stored entries; any other method answers 400 |
| Rooms.Announcer.SendToSubscribers | partykit/rooms.ts:153-158 | the loop over the open connections sends the update exactly as `FanOut` describes |
| Rooms.SerializableRoundTrip | partykit/rooms.ts:181-208 | `serializable` returns any JSON value without `null` and without repeated property names unchanged |
| Rooms.SerializableAllRoundTrip | partykit/rooms.ts:190-191 | an array of such values comes back element by element |
| Rooms.SerializablePropsRoundTrip | partykit/rooms.ts:199-204 | rebuilding a duplicate-free object property by property yields the same object |
| Rooms.FreshName | partykit/rooms.ts:202 | assigning the next property of a duplicate-free object appends it |
| Rooms.Serializable | partykit/rooms.ts:181-208 | `serializable`, case by case; `Rooms.SerializableRoundTrip` and `Rooms.SerializableMapShape` state what it returns |
| Rooms.SerializableMapShape | partykit/rooms.ts:192-196 | a Map of n entries becomes an array of n two-element arrays |
| Counter.WithSubscriber | partykit/counter.ts:146-154 | after `addSubscriber` the subscriber is first and is not repeated after, the id and count are kept, and the list holds exactly the old subscribers plus the new one |
| Counter.WithSubscriberNoDup | partykit/counter.ts:146-154 | `addSubscriber` keeps the subscriber list duplicate-free |
| Counter.WithSubscriberKeepsOrder | partykit/counter.ts:149-152 | in a duplicate-free list the other subscribers keep their relative order: the subscriber's old position is cut out and it goes first |
| Counter.WithoutCutsOut | partykit/counter.ts:151 | in a duplicate-free list, filtering out the element at position k is removing that position |
| Counter.ResubscribeIsIdempotent | partykit/counter.ts:146-154 | subscribing twice gives the same state as subscribing once |
| Counter.WithCount | partykit/counter.ts:94-97 | a count update sets `connectionCount` and leaves `id` and `subscriberIds` unchanged |
| Counter.PageOf | partykit/counter.ts:119-128 | an unknown page reads as `{id, 0, []}`; in well-keyed storage the state carries its own id and a duplicate-free list |
| Counter.CounterServer.GetRoomState | partykit/counter.ts:119-128 | the stored state, or `{id: pageId, connectionCount: 0, subscriberIds: []}` for an unknown page |
| Counter.CounterServer.UpdateRoomState | partykit/counter.ts:131-143 | stores and returns `update(old state)`, and sets the alarm only when none is pending |
| Counter.CounterServer.AddSubscriber | partykit/counter.ts:146-154 | stores and returns `WithSubscriber` of the old state, with `updateRoomState`'s alarm rule |
| Counter.SubscribeAllPages | partykit/counter.ts:76-80 | subscribing to a list of pages gives exactly the requested pages the subscriber and keeps every other stored page |
| Counter.SubscribeAllStep | partykit/counter.ts:76-80 | subscribing page by page gives the same storage, repeated page ids included |
| Counter.SubscribeAllKeepsCount | partykit/counter.ts:76-80 | subscribing changes no page's count |
| Counter.SubscribeEachIsAll | partykit/counter.ts:76-80 | adding the subscriber page by page, in request order, ends with the same storage as `SubscribeAll` of the whole request |
| Counter.SubscribeEachSoFar | partykit/counter.ts:76-80 | partway through the request every page is still keyed by its id, and the next page still has its count from before the request |
| Counter.ReportSnoc | partykit/counter.ts:76-80 | appending a room that has the next requested id and that page's old count keeps the rooms matching the request |
| Counter.SubscribeAllWellKeyed | partykit/counter.ts:76-80 | subscribing keeps every page under its own id with a duplicate-free list |
| Counter.Tally | partykit/counter.ts:84-87 | the `reduce` into the summary; `Counter.TallyKeys` and `Counter.TallyLast` state what it holds |
| Counter.TallyKeys | partykit/counter.ts:84-87 | the `reduce` has a key exactly for each id among the rooms |
| Counter.TallyLast | partykit/counter.ts:84-87 | when no later room has the same id, the `reduce` maps that id to this room's count |
| Counter.TallyOfRequested | partykit/counter.ts:74-89 | the subscribe response maps exactly the requested ids, each to its count before the request, zeros included |
| Counter.LastWithId | partykit/counter.ts:84-87 | the response value for an id is the count of the last room carrying that id |
| Counter.CounterServer.AddSubscriberToEach | partykit/counter.ts:76-80 | the `map` of `addSubscriber` returns one room per requested id, in order, with that page's count before the request; storage becomes `SubscribeAll`; the alarm is set only if some page was requested and none was pending |
| Counter.CounterServer.HandleSubscribeRequest | partykit/counter.ts:74-89 | keeps the invariant; answers each requested id with its count before the request; storage becomes `SubscribeAll`; the alarm is set only if some page was requested and none was pending |
| Counter.Notify | partykit/counter.ts:106-113 | one POST per stored subscriber, in list order, each carrying the update |
| Counter.CounterServer.HandleConnectionCountUpdateRequest | partykit/counter.ts:92-116 | stores `WithCount` of the old state, notifies exactly the stored subscribers in order, answers `{success: true}` and keeps the invariant |
| Counter.Sweep | partykit/counter.ts:59-64 | the sweep keeps exactly the pages whose count is not zero, unchanged |
| Counter.CounterServer.OnAlarm | partykit/counter.ts:56-71 | storage becomes `Sweep` of the old storage, so no page has count 0; the alarm is re-armed, one hour on, if and only if some page remains |
| Counter.CounterServer.OnRequest | partykit/counter.ts:44-54 | a POST `subscribe` answers each requested id with its count before the request, storage becomes `SubscribeAll` and the alarm is set only if some page was requested and none was pending; a POST `update` stores `WithCount`, POSTs the update to exactly the stored subscribers in order, answers success and sets the alarm only if none was pending; anything else answers 400 and changes nothing |
| Counter.CounterServer.constructor | partykit/counter.ts:37 | empty storage with no alarm satisfies the invariant |
| Page.PageConnectionsServer.constructor | partykit/page.ts:13 | a page room with no cache and no alarm satisfies "a cache has an alarm" |
| Page.PageConnectionsServer.SaveLinkConnections | partykit/page.ts:102-107 | stores the summary and always moves the alarm to now plus one hour |
| Page.PageConnectionsServer.HandleConnectionsUpdateMessage | partykit/page.ts:32-48 | without a cache nothing changes; with one, only the updated page's key takes the new count (0 included), the cache is saved and broadcast to everyone |
| Page.PageConnectionsServer.OnRequest | partykit/page.ts:19-29 | a POST `update` is applied as above, and every request answers 400 |
| Page.PageConnectionsServer.SendConnectionCountUpdateToCounter | partykit/page.ts:127-136 | POSTs `{update, id, count}` to the global counter `all-pages` |
| Page.PageConnectionsServer.OnConnect | partykit/page.ts:50-62 | broadcasts the number of connections and reports it to the counter |
| Page.PageConnectionsServer.OnClose | partykit/page.ts:64-72 | broadcasts and reports the connection list's length minus one |
| Page.PageConnectionsServer.SubscribeToConnectionEventsFromCounter | partykit/page.ts:109-125 | POSTs the subscribe to the counter, saves the counter's reply as the cache, re-arms the alarm and returns the reply |
| Page.PageConnectionsServer.OnMessage | partykit/page.ts:74-91 | a subscribe replaces the cache wholesale with the counter's reply and sends it to the sender only; an exit is relayed verbatim to everyone but the sender; anything else changes nothing |
| Page.PageConnectionsServer.OnAlarm | partykit/page.ts:93-100 | with no connections the cache is deleted and no alarm is pending; otherwise the cache stays and the alarm is re-armed one hour on |
| Hyperspace.StripInjective | partykit/hyperspace.ts:131 | two subscription keys with the same stripped id are the same key |
| Hyperspace.Strip | partykit/hyperspace.ts:131 | `slice("hashedUrl-".length)` on a subscription key; `Hyperspace.StripInjective` states that it loses nothing |
| Hyperspace.LiveIff | partykit/hyperspace.ts:126-140 | a subscriber is notified exactly when its `hashedUrl-` key is stored and its age is at most 24 hours, so exactly 24 hours still counts |
| Hyperspace.Notices | partykit/hyperspace.ts:136-139 | one `connections` POST per subscriber, in order |
| Hyperspace.Connections.ConnectionsCount | partykit/hyperspace.ts:57-60 | the count is the number of the room's connections |
| Hyperspace.SweepStep | partykit/hyperspace.ts:126-140 | one key of the sweep: a stale subscription key adds its id to the deleted ones, a fresh one adds a new id to the notified ones, any other key changes neither |
| Hyperspace.Connections.Publish | partykit/hyperspace.ts:103-142 | broadcasts `here`; POSTs the room's count once to each subscriber at most 24 hours old and to no other id; deletes exactly the stripped ids of older subscriptions |
| Hyperspace.Connections.OnConnect | partykit/hyperspace.ts:75-78 | publishes: broadcasts `here`, POSTs the count exactly once to each subscriber at most 24 hours old, and deletes the stripped ids of older ones |
| Hyperspace.Connections.OnClose | partykit/hyperspace.ts:80-83 | publishes: broadcasts `here`, POSTs the count exactly once to each subscriber at most 24 hours old, and deletes the stripped ids of older ones |
| Hyperspace.ExpiredSubscriptionStays | partykit/hyperspace.ts:132-134 | an expired subscription's prefixed key survives publish with its old time, and every later publish skips it again |
| Hyperspace.InitOutputsShape | partykit/hyperspace.ts:62-68 | an `init` POSTs one subscribe per link, in link order, and sends counts to the initiating connection only |
| Hyperspace.Connections.Subscribe | partykit/hyperspace.ts:85-101 | POSTs a subscribe carrying this room's id, and forwards a `connections` reply to the connection |
| Hyperspace.Connections.OnMessage | partykit/hyperspace.ts:62-73 | `init` subscribes to each link in turn, the i-th reply answering the i-th POST; `exit` is broadcast to everyone but the sender; anything else sends nothing |
| Hyperspace.Subscribers | partykit/hyperspace.ts:148-151 | the debug view lists exactly the `hashedUrl-` keys with their stored values |
| Hyperspace.Connections.OnRequest | partykit/hyperspace.ts:144-201 | GET returns the debug view; a subscribe stores exactly `hashedUrl-<id>` with the current time and answers the count if above zero, else success; `connections` is broadcast to everyone; another POST type answers 400; another method 501 |
| Hyperspace.ResubscribeKeepsKeys | partykit/hyperspace.ts:171-174 | re-subscribing overwrites the timestamp and adds no key |
| Hyperspace.Connections.constructor | partykit/hyperspace.ts:55 | a room with empty storage and no output |
| Hyperspace.AgreesWithRooms | partykit/hyperspace.ts:208-236 | on values without a Map, this file's `serializable` agrees with the rooms version, errors included |
| Hyperspace.AllAgreeWithRooms | partykit/hyperspace.ts:217-218 | the two versions agree on arrays without a Map |
| Hyperspace.PropsAgreeWithRooms | partykit/hyperspace.ts:227-232 | the two versions agree on plain objects without a Map |
| Hyperspace.Serializable | partykit/hyperspace.ts:208-236 | `serializable`, case by case; `Hyperspace.MapBecomesObject` states what a Map becomes |
| Hyperspace.MapBecomesObject | partykit/hyperspace.ts:219-224 | a Map from distinct strings to JSON values becomes the plain object with the same properties in the same order |
| Hyperspace.EntryBecomesField | partykit/hyperspace.ts:222 | a string-keyed entry becomes the property of that name holding the value |
| Hyperspace.EntriesBecomeFields | partykit/hyperspace.ts:220-223 | assigning the entries one by one onto an object that shares no name with them appends them in order |
| Hyperspace.EntriesOf | partykit/hyperspace.ts:221 | the Map entries read back from an object, one per property, in order |
| Tracker.Connections.constructor | partykit/tracker.ts:55 | a room with no stored subscription set and no output |
| Tracker.Connections.ConnectionsCount | partykit/tracker.ts:57-59 | the count is the number of the room's connections |
| Tracker.Connections.Publish | partykit/tracker.ts:103-131 | broadcasts `here`; without a stored set sends no POST; otherwise POSTs the room's id and count exactly once to each member of the set |
| Tracker.Connections.OnConnect | partykit/tracker.ts:77-80 | publishes: broadcasts `here` and POSTs the count exactly once to each member of the stored set, none without a set |
| Tracker.Connections.OnDisconnect | partykit/tracker.ts:82-85 | publishes: broadcasts `here` and POSTs the count exactly once to each member of the stored set, none without a set |
| Tracker.Connections.Subscribe | partykit/tracker.ts:87-101 | POSTs a subscribe carrying this room's id, and forwards a `connections` reply to the connection |
| Tracker.Connections.OnMessage | partykit/tracker.ts:61-75 | `init` subscribes to each link in turn, the i-th reply answering the i-th POST; `exit` is broadcast to everyone but the sender; anything else sends nothing |
| Tracker.Connections.OnRequest | partykit/tracker.ts:133-163 | a subscribe adds the id to the stored set, creating it if missing, and always answers the current count, 0 included; `connections` is broadcast and answered `ok`; another POST type answers 400; a non-POST 501 |
| Tracker.ResubscribeKeepsSet | partykit/tracker.ts:139-143 | adding an id the stored set already holds leaves the set unchanged |
| Selections.AsMapKeys | partykit/selections.ts:4 | the Map's key/value pairs have exactly its keys |
| Selections.MapSet | partykit/selections.ts:41 | `Map.set` appends a new key and keeps the key order for an existing one |
| Selections.MapSetPairs | partykit/selections.ts:41 | after `set` the sender's key holds the new selection and every other pair is unchanged |
| Selections.MapSetNoDup | partykit/selections.ts:41 | `set` keeps the keys distinct |
| Selections.MapDelete | partykit/selections.ts:47 | `delete` removes the given key and keeps the other keys in order |
| Selections.MapDeletePairs | partykit/selections.ts:47 | after `delete` the Map holds exactly the other key/value pairs |
| Selections.DeleteKeepsNoDup | partykit/selections.ts:47 | `delete` keeps the keys distinct |
| Selections.ObjectOfStep | partykit/selections.ts:24-26 | with distinct keys, each `forEach` step assigns a name the object does not yet have, so the property is appended |
| Selections.ObjectOfPrefixNames | partykit/selections.ts:24-26 | after the first i steps the object's names are the Map's first i keys |
| Selections.ObjectOfNames | partykit/selections.ts:21-28 | with distinct keys, the object has exactly the Map's keys, distinct and in Map order |
| Selections.ObjectHasPairs | partykit/selections.ts:21-28 | with distinct keys, the object's properties are exactly the Map's key/value pairs |
| Selections.SelectionsServer.constructor | partykit/selections.ts:17 | an empty Map satisfies "keys are distinct" |
| Selections.SelectionsServer.GetSelections | partykit/selections.ts:21-28 | the `forEach` loop builds an object with exactly the Map's keys, in Map order, and exactly its key/value pairs |
| Selections.SelectionsServer.OnConnect | partykit/selections.ts:30-36 | the new connection alone is sent the full current selections |
| Selections.SelectionsServer.OnMessage | partykit/selections.ts:38-53 | `update` sets the sender's entry and `remove` deletes it; each then syncs everyone but the sender; any other message changes nothing |
| Selections.SelectionsServer.OnClose | partykit/selections.ts:55-60 | deletes only the closing connection's entry and broadcasts the Map to everyone |
| DomPath.LowerChar | src/components/disco-hyperlink/disco-hyperlink.tsx:16 | an ASCII capital letter maps to its lower case and every other character to itself |
| DomPath.ToLower | src/components/disco-hyperlink/disco-hyperlink.tsx:16 | `toLowerCase` lowers each character and keeps the length |
| DomPath.NatToString | src/components/disco-hyperlink/disco-hyperlink.tsx:27 | a count renders as a non-empty string of decimal digits |
| DomPath.NatToStringValue | src/components/disco-hyperlink/disco-hyperlink.tsx:27 | the digits of `${nth}` spell `nth`, without a leading zero |
| DomPath.SameTagBeforeZero | src/components/disco-hyperlink/disco-hyperlink.tsx:24-26 | the count of earlier same-tag siblings is zero exactly when no earlier sibling has the tag |
| DomPath.NthIsOneIff | src/components/disco-hyperlink/disco-hyperlink.tsx:22-27 | `:nth-of-type` is added exactly when an earlier sibling has the element's lower-case tag |
| DomPath.NthOfTypeLoop | src/components/disco-hyperlink/disco-hyperlink.tsx:22-26 | the sibling loop computes 1 plus the number of earlier siblings with the same lower-case tag |
| DomPath.ElementSelector | src/components/disco-hyperlink/disco-hyperlink.tsx:16-28 | an element's segment is `tag#id`, or `tag` with `:nth-of-type(n)` only when n is not 1 |
| DomPath.Segment | src/components/disco-hyperlink/disco-hyperlink.tsx:16-28 | one element's selector; `DomPath.NthIsOneIff` states when `:nth-of-type` is added |
| DomPath.Segments | src/components/disco-hyperlink/disco-hyperlink.tsx:19-29 | one segment per visited element, in the same order |
| DomPath.Ancestry | src/components/disco-hyperlink/disco-hyperlink.tsx:15-31 | the elements the loop visits, each within the arena; `DomPath.AncestryShape` states their shape |
| DomPath.AncestryShape | src/components/disco-hyperlink/disco-hyperlink.tsx:15-31 | the walk is empty exactly for a null or tagless start; it is ordered outermost first and ends at the start; each element is the parent of the next; only the outermost may have an id; it stops at an id or below a null or tagless parent |
| DomPath.AncestryUnfold | src/components/disco-hyperlink/disco-hyperlink.tsx:17-30 | an element with an id is the whole walk; any other tagged element extends its parent's walk |
| DomPath.AncestryStep | src/components/disco-hyperlink/disco-hyperlink.tsx:17-30 | an element with an id ends the walk, any other element continues the walk with its parent, with the visited elements appended |
| DomPath.WalkStep | src/components/disco-hyperlink/disco-hyperlink.tsx:15-31 | one more loop iteration keeps the visited elements the end of the start's walk |
| DomPath.IdEndsWalk | src/components/disco-hyperlink/disco-hyperlink.tsx:17-20 | a start element with an id yields the single segment `tag#id` |
| DomPath.TaglessStartIsEmpty | src/components/disco-hyperlink/disco-hyperlink.tsx:15-32 | a null or tagless start yields the empty string |
| DomPath.Join | src/components/disco-hyperlink/disco-hyperlink.tsx:32 | `parts.join(" > ")`: the parts with the separator between consecutive ones |
| DomPath.GetDomPath | src/components/disco-hyperlink/disco-hyperlink.tsx:13-33 | the result is the segments of the visited elements, outermost first, joined with `" > "` |

## Left out

- Transport and runtime. WebSocket `send` and `broadcast`, inter-room `fetch`, storage calls, `setAlarm` and `getAlarm` appear only as outbox entries, fields and an `Option<int>` alarm. Encoding into JSON text, HTTP headers and `Response` objects are not modelled. A response is a status with a tagged body.
- Parsing. Incoming messages are already-decoded tagged unions. A message whose `type` is unknown is one `Other…` constructor. Malformed JSON, which would throw, is not modelled.
- Time. ISO date strings and `new Date()` are an integer `now` in milliseconds.
- Concurrency. `Promise.all` in `partykit/counter.ts` and the un-awaited calls in `partykit/page.ts` (lines 24 and 71) run one after another, in list order. An awaited reply from another room is a parameter (`replies`, `counterReply`).
- The runtime clears an alarm before calling `onAlarm`, so both `OnAlarm` methods begin from "no alarm pending". `storage.list()` and Set iteration order are the runtime's: they appear only as the `notified` out-parameter and as the order of the `Set` loops.
- `onClose` in `partykit/page.ts` runs while the closing connection is still listed. That is why its count is the list's length minus one.
- `Rooms.Announcer.OnRequest`: the GET debug view returns the three stored entries as they are. It does not pass them through `serializable`; `Rooms.SerializableRoundTrip` states what `serializable` does separately.
- `Hyperspace.Connections.OnRequest`: the debug view lists the subscriber entries as a map, not through this file's `serializable`; `Hyperspace.MapBecomesObject` states that conversion separately.
- `serializable`. Numbers are integers; dates are an integer time. `undefined`, functions, symbols and bigints are one `Other` value that becomes `null`. The order JavaScript gives to integer-like property names is not modelled: properties keep insertion order. How a non-string Map key becomes a property name is the parameter `keyOf`.
- Js.Assign: a new property always goes last. JavaScript orders integer-like names such as `"7"` before the other names, and the model does not. This matters where a client-chosen connection id is assigned, as in `Selections.SelectionsServer.GetSelections`.
- `Hyperspace.ExpiredSubscriptionStays` assumes that no key `hashedUrl-hashedUrl-<id>` is stored. If one were stored and had expired, its stripped delete would remove the `hashedUrl-<id>` key after all.
- `Selections.SelectionsServer.OnClose` broadcasts the Map itself. How `JSON.stringify` renders a Map is not modelled; it is kept as the Map's entries.
- `DomPath.ToLower` lowers ASCII letters only. Other Unicode case mappings of `toLowerCase` are not modelled. The DOM is reduced to each element's tag name, id, previous element sibling and parent.
- The `object-hash` URL hashing, `partykit/room.ts` (which forwards counts to the announcer), `partykit/room-types.ts` (type declarations, reused as datatypes) and the UI components are not part of this model.
