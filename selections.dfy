/**
 * The selections room (partykit/selections.ts). It keeps, per connection,
 * that connection's serialized text selection in a JavaScript Map, and after
 * each change sends everyone else the whole set as a plain object.
 */
module Selections {
  import opened Common
  import opened Js

  /** One entry of the `selections` Map: connection id -> serialized selection. */
  datatype Selection = Selection(connectionId: string, selection: string)

  /** The Map's keys, in insertion order. */
  function Keys(entries: seq<Selection>): (keys: seq<string>)
    ensures |keys| == |entries|
    ensures forall i :: 0 <= i < |entries| ==> keys[i] == entries[i].connectionId
  {
    seq(|entries|, i requires 0 <= i < |entries| => entries[i].connectionId)
  }

  /** The key/value pairs the Map holds. */
  function AsMap(entries: seq<Selection>): map<string, string> {
    if entries == [] then map[]
    else AsMap(entries[1..])[entries[0].connectionId := entries[0].selection]
  }

  /** Every key of the Map's list is in its key/value pairs, and nothing else is. */
  lemma {:induction false} AsMapKeys(entries: seq<Selection>)
    ensures forall k :: k in AsMap(entries) <==> k in Keys(entries)
  {
    if entries != [] {
      AsMapKeys(entries[1..]);
      assert Keys(entries) == [entries[0].connectionId] + Keys(entries[1..]);
    }
  }

  /**
   * `Map.prototype.set`: an existing key keeps its place and takes the new
   * value, a new key goes last.
   */
  function MapSet(entries: seq<Selection>, key: string, value: string): (r: seq<Selection>)
    ensures key !in Keys(entries) ==> r == entries + [Selection(key, value)]
    ensures key in Keys(entries) ==> Keys(r) == Keys(entries)
  {
    if entries == [] then [Selection(key, value)]
    else if entries[0].connectionId == key then
      assert Keys(entries)[1..] == Keys(entries[1..]);
      [Selection(key, value)] + entries[1..]
    else
      var rest := MapSet(entries[1..], key, value);
      var r := [entries[0]] + rest;
      assert r[1..] == rest;
      assert Keys(entries)[1..] == Keys(entries[1..]);
      r
  }

  /** After `set`, the Map holds the new value under the key and nothing else changed. */
  lemma {:induction false} MapSetPairs(entries: seq<Selection>, key: string, value: string)
    ensures AsMap(MapSet(entries, key, value)) == AsMap(entries)[key := value]
  {
    if entries != [] && entries[0].connectionId != key {
      var e := entries[0];
      var rest := MapSet(entries[1..], key, value);
      MapSetPairs(entries[1..], key, value);
      var r := MapSet(entries, key, value);
      assert r == [e] + rest;
      assert r[1..] == rest;
      assert AsMap(r) == AsMap(rest)[e.connectionId := e.selection];
      var lhs := AsMap(rest)[e.connectionId := e.selection];
      var rhs := AsMap(entries)[key := value];
      assert lhs.Keys == rhs.Keys;
      forall k | k in lhs ensures lhs[k] == rhs[k] {
      }
    }
  }

  /** `set` keeps the Map's keys distinct. */
  lemma MapSetNoDup(entries: seq<Selection>, key: string, value: string)
    requires NoDup(Keys(entries))
    ensures NoDup(Keys(MapSet(entries, key, value)))
  {
    var r := MapSet(entries, key, value);
    if key !in Keys(entries) {
      assert Keys(r) == Keys(entries) + [key] by {
        assert forall i :: 0 <= i < |entries| ==> r[i] == entries[i];
      }
    }
  }

  /** `Map.prototype.delete`: the key goes, the other entries keep their order. */
  function MapDelete(entries: seq<Selection>, key: string): (r: seq<Selection>)
    ensures Keys(r) == Without(Keys(entries), key)
  {
    if entries == [] then []
    else
      var rest := MapDelete(entries[1..], key);
      assert Keys(entries)[1..] == Keys(entries[1..]);
      if entries[0].connectionId == key then rest
      else
        var r := [entries[0]] + rest;
        assert r[1..] == rest;
        r
  }

  /** After `delete`, the Map holds the other pairs and nothing under the key. */
  lemma {:induction false} MapDeletePairs(entries: seq<Selection>, key: string)
    ensures AsMap(MapDelete(entries, key)) == AsMap(entries) - {key}
  {
    if entries != [] {
      var e := entries[0];
      var rest := MapDelete(entries[1..], key);
      MapDeletePairs(entries[1..], key);
      if e.connectionId != key {
        var r := [e] + rest;
        assert r[1..] == rest;
        assert AsMap(r) == AsMap(rest)[e.connectionId := e.selection];
      }
    }
  }

  /** The plain object `getSelections` builds: one string property per entry, in Map order. */
  function ObjectOf(entries: seq<Selection>): (fields: seq<Field>)
    ensures |fields| == |entries|
    ensures forall i :: 0 <= i < |entries| ==> fields[i] == Field(entries[i].connectionId, JStr(entries[i].selection))
  {
    seq(|entries|, i requires 0 <= i < |entries| => Field(entries[i].connectionId, JStr(entries[i].selection)))
  }

  /** What a client sends: `update` with its selection, `remove`, or anything else. */
  datatype InboundMessage = Update(selection: string) | Remove | OtherMessage

  /**
   * A `sync` message: with the plain object of selections, or (on close)
   * with the Map itself, whose JSON rendering is not modelled.
   */
  datatype OutboundMessage = Sync(selections: Json) | SyncMap(entries: seq<Selection>)

  datatype Out = Broadcast(msg: OutboundMessage, without: seq<string>) | Send(to: string, msg: OutboundMessage)

  /** The selections room. */
  class SelectionsServer {
    /** The `selections` Map, as its entries in insertion order. */
    var selections: seq<Selection>
    var outbox: seq<Out>

    /** A Map never holds a key twice. */
    ghost predicate Valid() reads this {
      NoDup(Keys(selections))
    }

    constructor ()
      ensures Valid() && selections == [] && outbox == []
    {
      selections, outbox := [], [];
    }

    /**
     * `getSelections`: copies the Map into a plain object with `forEach`.
     * The object has exactly the Map's keys, in Map order, each with its
     * selection.
     */
    method GetSelections() returns (obj: seq<Field>)
      requires Valid()
      ensures UniqueNames(obj) && Names(obj) == Keys(selections)
      ensures obj == ObjectOf(selections)
      ensures forall k, v :: Field(k, JStr(v)) in obj <==> k in AsMap(selections) && AsMap(selections)[k] == v
    {
      obj := [];
      var i := 0;
      while i < |selections|
        invariant 0 <= i <= |selections|
        invariant obj == ObjectOf(selections[..i])
      {
        var entry := selections[i];
        ObjectOfStep(selections, i);
        obj := Assign(obj, entry.connectionId, JStr(entry.selection));
        i := i + 1;
      }
      assert selections[..i] == selections;
      ObjectOfNames(selections);
      ObjectHasPairs(selections);
    }

    /** `onConnect`: the new connection alone gets the current selections. */
    method OnConnect(connection: string)
      requires Valid()
      modifies this`outbox
      ensures outbox == old(outbox) + [Send(connection, Sync(JObj(ObjectOf(selections))))]
    {
      var obj := GetSelections();
      outbox := outbox + [Send(connection, Sync(JObj(obj)))];
    }

    /**
     * `onMessage`: `update` sets the sender's selection, `remove` deletes
     * it; either way everyone but the sender gets the new selections.
     */
    method OnMessage(msg: InboundMessage, websocket: string)
      requires Valid()
      modifies this
      ensures Valid()
      ensures msg.Update? ==> selections == MapSet(old(selections), websocket, msg.selection)
      ensures msg.Remove? ==> selections == MapDelete(old(selections), websocket)
      ensures msg.OtherMessage? ==> selections == old(selections) && outbox == old(outbox)
      ensures !msg.OtherMessage? ==>
        outbox == old(outbox) + [Broadcast(Sync(JObj(ObjectOf(selections))), [websocket])]
    {
      if msg.Update? {
        MapSetNoDup(selections, websocket, msg.selection);
        selections := MapSet(selections, websocket, msg.selection);
        var obj := GetSelections();
        outbox := outbox + [Broadcast(Sync(JObj(obj)), [websocket])];
      } else if msg.Remove? {
        DeleteKeepsNoDup(selections, websocket);
        selections := MapDelete(selections, websocket);
        var obj := GetSelections();
        outbox := outbox + [Broadcast(Sync(JObj(obj)), [websocket])];
      }
    }

    /** `onClose`: deletes the closing connection's selection and broadcasts the Map to everyone. */
    method OnClose(connection: string)
      requires Valid()
      modifies this
      ensures Valid()
      ensures selections == MapDelete(old(selections), connection)
      ensures outbox == old(outbox) + [Broadcast(SyncMap(selections), [])]
    {
      DeleteKeepsNoDup(selections, connection);
      selections := MapDelete(selections, connection);
      outbox := outbox + [Broadcast(SyncMap(selections), [])];
    }
  }

  /** Each `forEach` step assigns a name not yet in the object, so the next property is appended. */
  lemma ObjectOfStep(entries: seq<Selection>, i: nat)
    requires NoDup(Keys(entries)) && i < |entries|
    ensures Assign(ObjectOf(entries[..i]), entries[i].connectionId, JStr(entries[i].selection))
         == ObjectOf(entries[..i + 1])
  {
    ObjectOfSnoc(entries, i);
    KeyNotBefore(entries, i);
    ObjectOfPrefixNames(entries, i);
  }

  lemma ObjectOfSnoc(entries: seq<Selection>, i: nat)
    requires i < |entries|
    ensures ObjectOf(entries[..i + 1]) == ObjectOf(entries[..i]) + [Field(entries[i].connectionId, JStr(entries[i].selection))]
  {
  }

  lemma KeyNotBefore(entries: seq<Selection>, i: nat)
    requires NoDup(Keys(entries)) && i < |entries|
    ensures entries[i].connectionId !in Keys(entries)[..i]
  {
  }

  lemma ObjectOfPrefixNames(entries: seq<Selection>, i: nat)
    requires i <= |entries|
    ensures Names(ObjectOf(entries[..i])) == Keys(entries)[..i]
  {
  }

  /** With distinct keys, the object has exactly the Map's keys, distinct and in Map order. */
  lemma ObjectOfNames(entries: seq<Selection>)
    requires NoDup(Keys(entries))
    ensures UniqueNames(ObjectOf(entries)) && Names(ObjectOf(entries)) == Keys(entries)
  {
    var obj := ObjectOf(entries);
    assert Names(obj) == Keys(entries);
    forall a, b | 0 <= a < b < |obj| ensures obj[a].name != obj[b].name {
      assert obj[a].name == Keys(entries)[a] && obj[b].name == Keys(entries)[b];
    }
  }

  /** Deleting from a Map keeps its keys distinct. */
  lemma DeleteKeepsNoDup(entries: seq<Selection>, key: string)
    requires NoDup(Keys(entries))
    ensures NoDup(Keys(MapDelete(entries, key)))
  {
    WithoutNoDup(Keys(entries), key);
  }

  /** With distinct keys, the object's string properties are exactly the Map's key/value pairs. */
  lemma {:induction false} ObjectHasPairs(entries: seq<Selection>)
    requires NoDup(Keys(entries))
    ensures forall k, v :: Field(k, JStr(v)) in ObjectOf(entries) <==> k in AsMap(entries) && AsMap(entries)[k] == v
  {
    if entries != [] {
      var e := entries[0];
      assert Keys(entries)[1..] == Keys(entries[1..]);
      assert NoDup(Keys(entries[1..])) by {
        forall i, j | 0 <= i < j < |entries[1..]| ensures Keys(entries[1..])[i] != Keys(entries[1..])[j] {
          assert Keys(entries)[i + 1] == Keys(entries[1..])[i];
          assert Keys(entries)[j + 1] == Keys(entries[1..])[j];
        }
      }
      ObjectHasPairs(entries[1..]);
      assert ObjectOf(entries) == [Field(e.connectionId, JStr(e.selection))] + ObjectOf(entries[1..]);
      forall k, v ensures Field(k, JStr(v)) in ObjectOf(entries[1..]) ==> k != e.connectionId {
        if Field(k, JStr(v)) in ObjectOf(entries[1..]) {
          var i :| 0 <= i < |entries[1..]| && ObjectOf(entries[1..])[i] == Field(k, JStr(v));
          assert Keys(entries)[i + 1] == k;
        }
      }
    }
  }
}
