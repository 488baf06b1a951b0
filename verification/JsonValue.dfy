/** JSON values as Python's `json` builds them, and addressing inside them. */
module JsonValue {
  import opened Wrappers

  datatype Json =
    | Null
    | Bool(b: bool)
    | Int(n: int)
    | Float(r: real)
    | Str(s: string)
    | Arr(items: seq<Json>)
    | Obj(fields: map<string, Json>)
  {
    predicate Container() {
      Arr? || Obj?
    }
  }

  type JsonObject = map<string, Json>

  datatype Hop = Key(key: string) | Index(index: nat)

  function Child(v: Json, hop: Hop): Option<Json> {
    match (v, hop)
    case (Arr(items), Index(i)) => if i < |items| then Some(items[i]) else None
    case (Obj(fields), Key(k)) => if k in fields then Some(fields[k]) else None
    case _ => None
  }

  function NodeAt(v: Json, path: seq<Hop>): Option<Json>
    decreases |path|
  {
    if path == [] then Some(v)
    else
      match Child(v, path[0])
      case None => None
      case Some(c) => NodeAt(c, path[1..])
  }

  lemma {:induction false} NodeAtSnoc(v: Json, path: seq<Hop>, node: Json, hop: Hop)
    requires NodeAt(v, path) == Some(node)
    ensures NodeAt(v, path + [hop]) == Child(node, hop)
    decreases |path|
  {
    if path == [] {
      assert [hop][1..] == [];
    } else {
      assert (path + [hop])[1..] == path[1..] + [hop];
      NodeAtSnoc(Child(v, path[0]).value, path[1..], node, hop);
    }
  }

  // The number of nodes of a tree: what an explicit-stack walk uses up.

  ghost function Weight(v: Json): nat
    decreases v, 1
  {
    match v
    case Arr(items) => 1 + WeightOfItems(v, items)
    case Obj(fields) => 1 + WeightOfFields(v, fields)
    case _ => 1
  }

  ghost function WeightOfItems(owner: Json, items: seq<Json>): nat
    requires forall i | 0 <= i < |items| :: items[i] < owner
    decreases owner, 0, |items|
  {
    if items == [] then 0 else WeightOfItems(owner, items[..|items| - 1]) + Weight(items[|items| - 1])
  }

  ghost function WeightOfFields(owner: Json, fields: JsonObject): nat
    requires forall k | k in fields :: fields[k] < owner
    decreases owner, 0, |fields|
  {
    if fields == map[] then 0
    else
      var k :| k in fields;
      Weight(fields[k]) + WeightOfFields(owner, fields - {k})
  }

  lemma {:induction false} FieldWeight(owner: Json, fields: JsonObject, k: string)
    requires (forall j | j in fields :: fields[j] < owner) && k in fields
    ensures WeightOfFields(owner, fields) == Weight(fields[k]) + WeightOfFields(owner, fields - {k})
    decreases |fields|
  {
    var p :| p in fields && WeightOfFields(owner, fields) == Weight(fields[p]) + WeightOfFields(owner, fields - {p});
    if p != k {
      FieldWeight(owner, fields - {p}, k);
      FieldWeight(owner, fields - {k}, p);
      assert fields - {p} - {k} == fields - {k} - {p};
    }
  }
}
