/**
 * JavaScript values as storage hands them to the servers' debug views, and
 * the JSON-ready values `serializable` turns them into.
 */
module Js {
  import opened Common

  /** A JavaScript value. Numbers are integers here; `Other` stands for undefined, functions, symbols and bigints. */
  datatype JsValue =
    | Str(s: string)
    | Num(n: int)
    | Bool(b: bool)
    | Date(time: int)
    | Arr(items: seq<JsValue>)
    | MapV(entries: seq<Entry>)
    | SetV(members: seq<JsValue>)
    | Obj(props: seq<Prop>)
    | Null
    | Other

  /** One `[key, value]` pair of a `Map`, in insertion order. */
  datatype Entry = Entry(key: JsValue, value: JsValue)

  /** One own enumerable property of a plain object, as `Object.entries` lists it. */
  datatype Prop = Prop(name: string, value: JsValue)

  /** A value `JSON.stringify` renders faithfully: no `Map`, no `Set`. */
  datatype Json =
    | JStr(s: string)
    | JNum(n: int)
    | JBool(b: bool)
    | JDate(time: int)
    | JArr(items: seq<Json>)
    | JObj(fields: seq<Field>)
    | JNull

  /** One property of a JSON object, in property order. */
  datatype Field = Field(name: string, value: Json)

  /** The property names of an object, in order. */
  function Names(fields: seq<Field>): (names: seq<string>)
    ensures |names| == |fields|
    ensures forall i :: 0 <= i < |fields| ==> names[i] == fields[i].name
  {
    seq(|fields|, i requires 0 <= i < |fields| => fields[i].name)
  }

  /**
   * `obj[name] = value` on a plain object: a property that exists keeps its
   * place and takes the new value, a new property goes last.
   */
  function Assign(fields: seq<Field>, name: string, value: Json): (r: seq<Field>)
    ensures name !in Names(fields) ==> r == fields + [Field(name, value)]
    ensures name in Names(fields) ==> Names(r) == Names(fields)
  {
    if fields == [] then [Field(name, value)]
    else
      NamesCons(fields[0], fields[1..]);
      assert [fields[0]] + fields[1..] == fields;
      if fields[0].name == name then
        NamesCons(Field(name, value), fields[1..]);
        [Field(name, value)] + fields[1..]
      else
        var rest := Assign(fields[1..], name, value);
        NamesCons(fields[0], rest);
        assert name !in Names(fields[1..]) ==> [fields[0]] + rest == fields + [Field(name, value)];
        [fields[0]] + rest
  }

  /** The names of an object with a first property. */
  lemma NamesCons(f: Field, fields: seq<Field>)
    ensures Names([f] + fields) == [f.name] + Names(fields)
  {
  }

  /** Assigning to the first property with that name replaces it where it stands. */
  lemma {:induction false} AssignReplaces(fields: seq<Field>, name: string, value: Json, k: nat)
    requires k < |fields| && fields[k].name == name
    requires forall j :: 0 <= j < k ==> fields[j].name != name
    ensures Assign(fields, name, value) == fields[k := Field(name, value)]
  {
    var f := Field(name, value);
    if k == 0 {
      assert Assign(fields, name, value) == [f] + fields[1..];
    } else {
      var rest := fields[1..];
      forall j | 0 <= j < k - 1 ensures rest[j].name != name {
        assert rest[j] == fields[j + 1];
      }
      AssignReplaces(rest, name, value, k - 1);
      assert Assign(fields, name, value) == [fields[0]] + Assign(rest, name, value);
      ConsUpdate(fields, k, f);
    }
  }

  /** Assignment keeps the names of an object distinct, and the property it names then holds the value. */
  lemma AssignKeepsUnique(fields: seq<Field>, name: string, value: Json)
    requires UniqueNames(fields)
    ensures UniqueNames(Assign(fields, name, value))
    ensures forall i :: 0 <= i < |Assign(fields, name, value)| && Assign(fields, name, value)[i].name == name ==>
      Assign(fields, name, value)[i].value == value
  {
    var r := Assign(fields, name, value);
    if name in Names(fields) {
      var k :| 0 <= k < |fields| && Names(fields)[k] == name;
      AssignReplaces(fields, name, value, k);
    } else {
      assert r == fields + [Field(name, value)];
      assert forall i :: 0 <= i < |fields| ==> fields[i].name == Names(fields)[i];
    }
  }

  /** The JavaScript value a JSON value is when read back: objects become plain objects, arrays arrays. */
  function Embed(j: Json): JsValue
    decreases j, 1
  {
    match j
    case JStr(s) => Str(s)
    case JNum(n) => Num(n)
    case JBool(b) => Bool(b)
    case JDate(t) => Date(t)
    case JArr(items) => Arr(EmbedAll(items))
    case JObj(fields) => Obj(EmbedFields(fields))
    case JNull => Null
  }

  function EmbedAll(items: seq<Json>): (r: seq<JsValue>)
    decreases items, 0
    ensures |r| == |items|
  {
    if items == [] then [] else [Embed(items[0])] + EmbedAll(items[1..])
  }

  function EmbedFields(fields: seq<Field>): (r: seq<Prop>)
    decreases fields, 0
    ensures |r| == |fields|
  {
    if fields == [] then [] else [Prop(fields[0].name, Embed(fields[0].value))] + EmbedFields(fields[1..])
  }

  /** No property name occurs twice in an object. */
  ghost predicate UniqueNames(fields: seq<Field>) {
    forall i, j :: 0 <= i < j < |fields| ==> fields[i].name != fields[j].name
  }

  /** A JSON value with no `null` inside and no object with a repeated property name. */
  ghost predicate Plain(j: Json)
    decreases j, 1
  {
    match j
    case JNull => false
    case JArr(items) => PlainAll(items)
    case JObj(fields) => UniqueNames(fields) && PlainFields(fields)
    case _ => true
  }

  ghost predicate PlainAll(items: seq<Json>)
    decreases items, 0
  {
    items == [] || (Plain(items[0]) && PlainAll(items[1..]))
  }

  ghost predicate PlainFields(fields: seq<Field>)
    decreases fields, 0
  {
    fields == [] || (Plain(fields[0].value) && PlainFields(fields[1..]))
  }

  /** A JavaScript value with no `Map` anywhere inside. */
  ghost predicate MapFree(v: JsValue)
    decreases v, 1
  {
    match v
    case MapV(_) => false
    case Arr(items) => MapFreeAll(items)
    case SetV(members) => MapFreeAll(members)
    case Obj(props) => MapFreeProps(props)
    case _ => true
  }

  ghost predicate MapFreeAll(items: seq<JsValue>)
    decreases items, 0
  {
    items == [] || (MapFree(items[0]) && MapFreeAll(items[1..]))
  }

  ghost predicate MapFreeProps(props: seq<Prop>)
    decreases props, 0
  {
    props == [] || (MapFree(props[0].value) && MapFreeProps(props[1..]))
  }

  /** A JSON value read back into JavaScript holds no `Map`. */
  lemma {:induction false} EmbedMapFree(j: Json)
    ensures MapFree(Embed(j))
    decreases j, 1
  {
    match j
    case JArr(items) => EmbedAllMapFree(items);
    case JObj(fields) => EmbedFieldsMapFree(fields);
    case _ =>
  }

  lemma {:induction false} EmbedAllMapFree(items: seq<Json>)
    ensures MapFreeAll(EmbedAll(items))
    decreases items, 0
  {
    if items != [] {
      EmbedMapFree(items[0]);
      EmbedAllMapFree(items[1..]);
      assert EmbedAll(items)[1..] == EmbedAll(items[1..]);
    }
  }

  lemma {:induction false} EmbedFieldsMapFree(fields: seq<Field>)
    ensures MapFreeProps(EmbedFields(fields))
    decreases fields, 0
  {
    if fields != [] {
      EmbedMapFree(fields[0].value);
      EmbedFieldsMapFree(fields[1..]);
      assert EmbedFields(fields)[1..] == EmbedFields(fields[1..]);
    }
  }
}
