/** JSON values, JSON-schema nodes, and the few JavaScript coercions the transforms rely on. */
module Json {
  import opened Wrappers
  import opened Numerals

  datatype Value =
    | Null
    | Bool(b: bool)
    | Num(n: int)
    | Str(s: string)
    | Arr(items: seq<Value>)
    | Obj(fields: map<string, Value>)

  type Fields = map<string, Value>

  /** Decimal text of a natural number. */
  function Dec(n: nat): string {
    Numeral(n, 10)
  }

  /** JavaScript truthiness. */
  predicate Truthy(v: Value) {
    match v
    case Null => false
    case Bool(b) => b
    case Num(n) => n != 0
    case Str(s) => s != ""
    case Arr(_) => true
    case Obj(_) => true
  }

  /** The four falsy values. */
  lemma FalsyValues(v: Value)
    ensures !Truthy(v) <==> v == Null || v == Bool(false) || v == Num(0) || v == Str("")
  {
  }

  /** `${v}` */
  function Text(v: Value): string
    decreases v, 1
  {
    match v
    case Null => "null"
    case Bool(b) => if b then "true" else "false"
    case Num(n) => if n < 0 then "-" + Dec(-n) else Dec(n)
    case Str(s) => s
    case Arr(items) => JoinText(items)
    case Obj(_) => "[object Object]"
  }

  /** `items.join(',')`, in which `null` prints as nothing. */
  function JoinText(items: seq<Value>): string
    decreases items, 0
  {
    if items == [] then ""
    else
      var first := if items[0].Null? then "" else Text(items[0]);
      if |items| == 1 then first else first + "," + JoinText(items[1..])
  }

  /** `typeof v === 'object'` */
  predicate TypeofObject(v: Value) {
    v.Null? || v.Arr? || v.Obj?
  }

  /** The own property `key` of an object or array; arrays own their indices and `length`. */
  function Own(v: Value, key: string): Option<Value> {
    match v
    case Obj(fields) => if key in fields then Some(fields[key]) else None
    case Arr(items) =>
      if key == "length" then Some(Num(|items|))
      else if key != "" && IsNumeral(key, 10) && NumeralValue(key, 10) < |items| && Dec(NumeralValue(key, 10)) == key
      then Some(items[NumeralValue(key, 10)])
      else None
    case _ => None
  }

  /** `Object.keys(v).length === 0` for an object or array. */
  predicate HasNoKeys(v: Value) {
    match v
    case Obj(fields) => fields == map[]
    case Arr(items) => items == []
    case _ => true
  }

  /** The property `key` of an object, if it has it. */
  function Field(fields: Fields, key: string): Option<Value> {
    if key in fields then Some(fields[key]) else None
  }

  /** `{ ...v }`: the own enumerable properties of an object or array. */
  function Spread(v: Value): Fields {
    match v
    case Obj(fields) => fields
    case Arr(items) => SpreadItems(items)
    case _ => map[]
  }

  function SpreadItems(items: seq<Value>): Fields {
    if items == [] then map[]
    else
      var last := |items| - 1;
      SpreadItems(items[..last])[Dec(last) := items[last]]
  }

  /**
   A JSON-schema node. `kind` is the keyword `type`; `properties` lists the declared
   properties in `Object.keys` order.
   */
  datatype Schema = Schema(
    id: Option<string>,
    schemaUri: Option<string>,
    format: Option<string>,
    kind: Option<string>,
    properties: Option<seq<Property>>,
    items: Option<Schema>,
    rest: map<string, Value>)

  datatype Property = Property(key: string, schema: Schema)

  const EMPTY_SCHEMA := Schema(None, None, None, None, None, None, map[])

  predicate IsFile(s: Schema) {
    s.format == Some("file")
  }

  /** The schema under `items`; a missing one counts as `{}`. */
  function ItemSchema(s: Schema): Schema {
    match s.items
    case Some(t) => t
    case None => EMPTY_SCHEMA
  }

  /** Sibling property names are distinct, as the keys of a JavaScript object always are. */
  ghost predicate UniqueKeys(s: Schema, depth: int)
    decreases depth
  {
    depth < 0 ||
    ((s.properties.Some? ==>
        (forall i, j :: 0 <= i < j < |s.properties.value| ==> s.properties.value[i].key != s.properties.value[j].key) &&
        (forall i :: 0 <= i < |s.properties.value| ==> UniqueKeys(s.properties.value[i].schema, depth - 1))) &&
     UniqueKeys(ItemSchema(s), depth - 1))
  }
}
