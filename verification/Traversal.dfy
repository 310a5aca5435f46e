/**
 The walk that both document transforms make over a schema and a value: which file
 leaves it visits, in what order, and how it rebuilds the value around replaced leaves.
 A value is identified with its leaves and the projection onto the declared keys.
 */
module Traversal {
  import opened Wrappers
  import opened Sequences
  import opened Json

  /** What the walk does at one node. */
  datatype Step = Keep | Leaf | Fields(props: seq<Property>) | Elements

  function StepAt(s: Schema, v: Value, depth: int): Step {
    if depth < 0 then Keep
    else if IsFile(s) then Leaf
    else if s.kind == Some("object") && TypeofObject(v) then
      if s.properties.None? then Keep else Fields(s.properties.value)
    else if s.kind == Some("array") && v.Arr? then Elements
    else Keep
  }

  /** The walk raises no TypeError: no property is asked of `null`, no element lacks a schema. */
  predicate Safe(s: Schema, v: Value, depth: int)
    decreases depth, 1
  {
    match StepAt(s, v, depth)
    case Keep => true
    case Leaf => true
    case Fields(props) => (props == [] || !v.Null?) && SafeFields(props, v, depth)
    case Elements => SafeItems(s, v.items, depth)
  }

  predicate SafeFields(props: seq<Property>, v: Value, depth: int)
    requires depth >= 0
    decreases depth, 0, |props|
  {
    props == [] ||
    (SafeFields(Init(props), v, depth) &&
     var p := Last(props);
     (Own(v, p.key).Some? ==> Safe(p.schema, Own(v, p.key).value, depth - 1)))
  }

  predicate SafeItems(s: Schema, items: seq<Value>, depth: int)
    requires depth >= 0
    decreases depth, 0, |items|
  {
    items == [] ||
    (SafeItems(s, Init(items), depth) &&
     (s.items.Some? || depth == 0) &&
     Safe(ItemSchema(s), Last(items), depth - 1))
  }

  /** The values at the file leaves, in visiting order. */
  function Leaves(s: Schema, v: Value, depth: int): seq<Value>
    decreases depth, 1
  {
    match StepAt(s, v, depth)
    case Keep => []
    case Leaf => [v]
    case Fields(props) => FieldLeaves(props, v, depth)
    case Elements => ItemLeaves(s, v.items, depth)
  }

  function FieldLeaves(props: seq<Property>, v: Value, depth: int): seq<Value>
    requires depth >= 0
    decreases depth, 0, |props|
  {
    if props == [] then []
    else
      var p := Last(props);
      FieldLeaves(Init(props), v, depth) +
      match Own(v, p.key)
      case None => []
      case Some(x) => Leaves(p.schema, x, depth - 1)
  }

  function ItemLeaves(s: Schema, items: seq<Value>, depth: int): seq<Value>
    requires depth >= 0
    decreases depth, 0, |items|
  {
    if items == [] then []
    else ItemLeaves(s, Init(items), depth) + Leaves(ItemSchema(s), Last(items), depth - 1)
  }

  /** The value rebuilt with `ws` at its file leaves; undeclared keys are dropped. */
  function Plug(s: Schema, v: Value, depth: int, ws: seq<Value>): Value
    requires |ws| == |Leaves(s, v, depth)|
    decreases depth, 1
  {
    match StepAt(s, v, depth)
    case Keep => v
    case Leaf => ws[0]
    case Fields(props) => Obj(PlugFields(props, v, depth, ws))
    case Elements => Arr(PlugItems(s, v.items, depth, ws))
  }

  function PlugFields(props: seq<Property>, v: Value, depth: int, ws: seq<Value>): map<string, Value>
    requires depth >= 0
    requires |ws| == |FieldLeaves(props, v, depth)|
    decreases depth, 0, |props|
  {
    if props == [] then map[]
    else
      var p := Last(props);
      var n := |FieldLeaves(Init(props), v, depth)|;
      var front := PlugFields(Init(props), v, depth, ws[..n]);
      match Own(v, p.key)
      case None => front
      case Some(x) => front[p.key := Plug(p.schema, x, depth - 1, ws[n..])]
  }

  function PlugItems(s: Schema, items: seq<Value>, depth: int, ws: seq<Value>): (r: seq<Value>)
    requires depth >= 0
    requires |ws| == |ItemLeaves(s, items, depth)|
    ensures |r| == |items|
    decreases depth, 0, |items|
  {
    if items == [] then []
    else
      var n := |ItemLeaves(s, Init(items), depth)|;
      PlugItems(s, Init(items), depth, ws[..n]) + [Plug(ItemSchema(s), Last(items), depth - 1, ws[n..])]
  }

  /** The value with its own leaves: only the keys its schema declares survive. */
  function Project(s: Schema, v: Value, depth: int): Value {
    Plug(s, v, depth, Leaves(s, v, depth))
  }

  // A rebuilt value has the leaves it was given, and rebuilding again overwrites them

  ghost predicate Named(props: seq<Property>, key: string) {
    exists i :: 0 <= i < |props| && props[i].key == key
  }

  lemma NamedFront(props: seq<Property>, key: string)
    requires props != []
    ensures Named(props, key) <==> Named(Init(props), key) || Last(props).key == key
  {
    if i :| 0 <= i < |props| - 1 && Init(props)[i].key == key {
      assert props[i].key == key;
    }
    assert props[|props| - 1] == Last(props);
  }

  ghost predicate UniquePropertyKeys(props: seq<Property>) {
    forall i, j :: 0 <= i < j < |props| ==> props[i].key != props[j].key
  }

  ghost predicate UniqueKeysBelow(props: seq<Property>, depth: int) {
    forall i :: 0 <= i < |props| ==> UniqueKeys(props[i].schema, depth)
  }

  lemma {:induction false} PlugFieldsKeys(props: seq<Property>, v: Value, depth: int, ws: seq<Value>)
    requires depth >= 0
    requires |ws| == |FieldLeaves(props, v, depth)|
    ensures forall k :: k in PlugFields(props, v, depth, ws) ==> exists i :: 0 <= i < |props| && props[i].key == k
  {
    if props != [] {
      var n := |FieldLeaves(Init(props), v, depth)|;
      PlugFieldsKeys(Init(props), v, depth, ws[..n]);
      assert props[|props| - 1] == Last(props);
      forall k | k in PlugFields(Init(props), v, depth, ws[..n])
        ensures exists i :: 0 <= i < |props| && props[i].key == k
      {
        var i :| 0 <= i < |Init(props)| && Init(props)[i].key == k;
        assert props[i].key == k;
      }
    }
  }

  lemma {:induction false} LeavesOfPlug(s: Schema, v: Value, depth: int, ws: seq<Value>)
    requires UniqueKeys(s, depth)
    requires |ws| == |Leaves(s, v, depth)|
    ensures Leaves(s, Plug(s, v, depth, ws), depth) == ws
    ensures Safe(s, v, depth) ==> Safe(s, Plug(s, v, depth, ws), depth)
    decreases depth, 1
  {
    match StepAt(s, v, depth)
    case Keep =>
    case Leaf =>
    case Fields(props) =>
      var m := PlugFields(props, v, depth, ws);
      assert StepAt(s, Obj(m), depth) == Fields(props);
      LeavesOfPlugFields(props, v, depth, ws, m);
    case Elements =>
      assert StepAt(s, Arr(PlugItems(s, v.items, depth, ws)), depth) == Elements;
      LeavesOfPlugItems(s, v.items, depth, ws);
  }

  /** `m` agrees with the rebuilt properties: it is the finished object, of which they may be a part. */
  ghost predicate Extends(m: map<string, Value>, props: seq<Property>, part: map<string, Value>) {
    forall i :: 0 <= i < |props| ==> Own(Obj(m), props[i].key) == Own(Obj(part), props[i].key)
  }

  lemma ExtendsFront(m: map<string, Value>, props: seq<Property>, v: Value, depth: int, ws: seq<Value>)
    requires props != [] && depth >= 0 && UniquePropertyKeys(props)
    requires |ws| == |FieldLeaves(props, v, depth)|
    requires Extends(m, props, PlugFields(props, v, depth, ws))
    ensures var n := |FieldLeaves(Init(props), v, depth)|;
      n <= |ws| && Extends(m, Init(props), PlugFields(Init(props), v, depth, ws[..n])) &&
      (Own(v, Last(props).key).Some? ==> n + |Leaves(Last(props).schema, Own(v, Last(props).key).value, depth - 1)| == |ws|) &&
      Own(Obj(m), Last(props).key) ==
        if Own(v, Last(props).key).None? then None
        else Some(Plug(Last(props).schema, Own(v, Last(props).key).value, depth - 1, ws[n..]))
  {
    var front := Init(props);
    var n := |FieldLeaves(front, v, depth)|;
    PlugFieldsKeys(front, v, depth, ws[..n]);
    forall i | 0 <= i < |front|
      ensures Own(Obj(m), front[i].key) == Own(Obj(PlugFields(front, v, depth, ws[..n])), front[i].key)
    {
      assert props[i] == front[i];
    }
    assert props[|front|] == Last(props);
  }

  lemma {:induction false} LeavesOfPlugFields(props: seq<Property>, v: Value, depth: int, ws: seq<Value>, m: map<string, Value>)
    requires depth >= 0 && UniquePropertyKeys(props) && UniqueKeysBelow(props, depth - 1)
    requires |ws| == |FieldLeaves(props, v, depth)|
    requires Extends(m, props, PlugFields(props, v, depth, ws))
    ensures FieldLeaves(props, Obj(m), depth) == ws
    ensures SafeFields(props, v, depth) ==> SafeFields(props, Obj(m), depth)
    decreases depth, 0, |props|
  {
    if props != [] {
      var p := Last(props);
      var n := |FieldLeaves(Init(props), v, depth)|;
      ExtendsFront(m, props, v, depth, ws);
      LeavesOfPlugFields(Init(props), v, depth, ws[..n], m);
      if Own(v, p.key).Some? {
        LeavesOfPlug(p.schema, Own(v, p.key).value, depth - 1, ws[n..]);
      }
      assert ws == ws[..n] + ws[n..];
    }
  }

  lemma {:induction false} LeavesOfPlugItems(s: Schema, items: seq<Value>, depth: int, ws: seq<Value>)
    requires depth >= 0 && UniqueKeys(ItemSchema(s), depth - 1)
    requires |ws| == |ItemLeaves(s, items, depth)|
    ensures ItemLeaves(s, PlugItems(s, items, depth, ws), depth) == ws
    ensures SafeItems(s, items, depth) ==> SafeItems(s, PlugItems(s, items, depth, ws), depth)
    decreases depth, 0, |items|
  {
    if items != [] {
      var front := Init(items);
      var n := |ItemLeaves(s, front, depth)|;
      LeavesOfPlugItems(s, front, depth, ws[..n]);
      LeavesOfPlug(ItemSchema(s), Last(items), depth - 1, ws[n..]);
      assert Init(PlugItems(s, items, depth, ws)) == PlugItems(s, front, depth, ws[..n]);
      assert ws == ws[..n] + ws[n..];
    }
  }

  lemma {:induction false} PlugOfPlug(s: Schema, v: Value, depth: int, ws: seq<Value>, us: seq<Value>)
    requires UniqueKeys(s, depth)
    requires |us| == |ws| == |Leaves(s, v, depth)|
    ensures Leaves(s, Plug(s, v, depth, ws), depth) == ws
    ensures Plug(s, Plug(s, v, depth, ws), depth, us) == Plug(s, v, depth, us)
    decreases depth, 1
  {
    LeavesOfPlug(s, v, depth, ws);
    match StepAt(s, v, depth)
    case Keep =>
    case Leaf =>
    case Fields(props) =>
      var m := PlugFields(props, v, depth, ws);
      assert StepAt(s, Obj(m), depth) == Fields(props);
      PlugFieldsOfPlug(props, v, depth, ws, us, m);
    case Elements =>
      assert StepAt(s, Arr(PlugItems(s, v.items, depth, ws)), depth) == Elements;
      PlugItemsOfPlug(s, v.items, depth, ws, us);
  }

  lemma {:induction false} PlugFieldsOfPlug(props: seq<Property>, v: Value, depth: int, ws: seq<Value>,
        us: seq<Value>, m: map<string, Value>)
    requires depth >= 0 && UniquePropertyKeys(props) && UniqueKeysBelow(props, depth - 1)
    requires |us| == |ws| == |FieldLeaves(props, v, depth)|
    requires Extends(m, props, PlugFields(props, v, depth, ws))
    ensures FieldLeaves(props, Obj(m), depth) == ws
    ensures PlugFields(props, Obj(m), depth, us) == PlugFields(props, v, depth, us)
    decreases depth, 0, |props|
  {
    LeavesOfPlugFields(props, v, depth, ws, m);
    if props != [] {
      var p := Last(props);
      var n := |FieldLeaves(Init(props), v, depth)|;
      ExtendsFront(m, props, v, depth, ws);
      PlugFieldsOfPlug(Init(props), v, depth, ws[..n], us[..n], m);
      if Own(v, p.key).Some? {
        PlugOfPlug(p.schema, Own(v, p.key).value, depth - 1, ws[n..], us[n..]);
      }
    }
  }

  lemma {:induction false} PlugItemsOfPlug(s: Schema, items: seq<Value>, depth: int, ws: seq<Value>, us: seq<Value>)
    requires depth >= 0 && UniqueKeys(ItemSchema(s), depth - 1)
    requires |us| == |ws| == |ItemLeaves(s, items, depth)|
    ensures ItemLeaves(s, PlugItems(s, items, depth, ws), depth) == ws
    ensures PlugItems(s, PlugItems(s, items, depth, ws), depth, us) == PlugItems(s, items, depth, us)
    decreases depth, 0, |items|
  {
    LeavesOfPlugItems(s, items, depth, ws);
    if items != [] {
      var front := Init(items);
      var n := |ItemLeaves(s, front, depth)|;
      var r := PlugItems(s, items, depth, ws);
      PlugItemsOfPlug(s, front, depth, ws[..n], us[..n]);
      PlugOfPlug(ItemSchema(s), Last(items), depth - 1, ws[n..], us[n..]);
      assert Init(r) == PlugItems(s, front, depth, ws[..n]);
    }
  }

  /** Two rebuilt values are equal only when their leaves are. */
  lemma PlugInjective(s: Schema, v: Value, depth: int, us: seq<Value>, ws: seq<Value>)
    requires UniqueKeys(s, depth)
    requires |us| == |ws| == |Leaves(s, v, depth)|
    ensures Plug(s, v, depth, us) == Plug(s, v, depth, ws) <==> us == ws
  {
    LeavesOfPlug(s, v, depth, us);
    LeavesOfPlug(s, v, depth, ws);
  }
}
