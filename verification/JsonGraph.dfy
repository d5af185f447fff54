/**
 * `copyJson` and `isJsonValue` on object graphs, shared and cyclic ones included.
 *
 * `Represents` says which JSON tree an object graph stands for, without walking it and without an ancestor set: a
 * cyclic graph stands for none. Copying succeeds exactly on the graphs that stand for a tree and gives that tree;
 * checking accepts exactly those.
 */
module JsonGraph {

  datatype Option<+T> = None | Some(value: T)

  type Ref = nat

  datatype Value =
    | Null
    | Bool(b: bool)
    | Text(s: string)
    | Number(n: real)
    | NonFinite
    | Undefined
    | Other                       // a function, symbol or bigint
    | Object(r: Ref)

  datatype Key = Index(i: nat) | Name(name: string) | Symbol(id: nat)

  datatype Property = Data(value: Value, enumerable: bool) | Accessor(enumerable: bool)

  datatype Prototype = ObjectPrototype | NoPrototype | OtherPrototype

  /**
   * An array's own properties but `length`, an object's in the order of its keys. An object's keys are names and
   * symbols.
   */
  datatype Node =
    | ArrayNode(plain: bool, length: nat, properties: map<Key, Property>)
    | ObjectNode(prototype: Prototype, members: seq<(Key, Property)>)

  type Heap = map<Ref, Node>

  datatype Json =
    | JNull
    | JBool(b: bool)
    | JText(s: string)
    | JNumber(n: real)
    | JArray(items: seq<Json>)
    | JObject(prototype: Prototype, fields: seq<Field>)

  datatype Field = Field(name: string, value: Json)

  /** An enumerable property that holds a value. */
  predicate Plain(p: Property) {
    p.Data? && p.enumerable
  }

  /** The array is dense and holds nothing else: as many properties as its length, one at every index. */
  predicate Dense(n: Node)
    requires n.ArrayNode?
  {
    && n.plain && |n.properties| == n.length
    && forall i | 0 <= i < n.length :: Index(i) in n.properties && Plain(n.properties[Index(i)])
  }

  /** `v` stands for the tree `j`; with `omit`, properties that hold undefined are left out. */
  predicate Represents(h: Heap, v: Value, j: Json, omit: bool)
    decreases j
  {
    match (v, j)
    case (Null, JNull) => true
    case (Bool(b), JBool(c)) => b == c
    case (Text(s), JText(t)) => s == t
    case (Number(m), JNumber(n)) => m == n
    case (Object(r), JArray(items)) =>
      && r in h && h[r].ArrayNode? && Dense(h[r]) && |items| == h[r].length
      && forall i | 0 <= i < |items| :: Represents(h, h[r].properties[Index(i)].value, items[i], omit)
    case (Object(r), JObject(prototype, fields)) =>
      && r in h && h[r].ObjectNode? && h[r].prototype == prototype != OtherPrototype
      && RepresentsFields(h, h[r].members, fields, omit)
    case _ => false
  }

  predicate RepresentsFields(h: Heap, properties: seq<(Key, Property)>, fields: seq<Field>, omit: bool)
    decreases fields, |properties|
  {
    if properties == [] then fields == [] else
      var (key, p) := properties[0];
      && key.Name? && Plain(p)
      && if omit && p.value.Undefined? then RepresentsFields(h, properties[1..], fields, omit)
         else
           && fields != [] && fields[0].name == key.name
           && Represents(h, p.value, fields[0].value, omit)
           && RepresentsFields(h, properties[1..], fields[1..], omit)
  }

  /** A graph stands for one tree at most. */
  lemma {:induction false} RepresentsUnique(h: Heap, v: Value, j: Json, k: Json, omit: bool)
    requires Represents(h, v, j, omit) && Represents(h, v, k, omit)
    ensures j == k
    decreases j
  {
    if j.JArray? {
      forall i | 0 <= i < |j.items| ensures j.items[i] == k.items[i] {
        RepresentsUnique(h, h[v.r].properties[Index(i)].value, j.items[i], k.items[i], omit);
      }
    } else if j.JObject? {
      FieldsUnique(h, h[v.r].members, j.fields, k.fields, omit);
    }
  }

  lemma {:induction false} FieldsUnique(h: Heap, properties: seq<(Key, Property)>, a: seq<Field>, b: seq<Field>,
                                        omit: bool)
    requires RepresentsFields(h, properties, a, omit) && RepresentsFields(h, properties, b, omit)
    ensures a == b
    decreases a, |properties|
  {
    if properties != [] {
      var p := properties[0].1;
      if omit && p.value.Undefined? {
        FieldsUnique(h, properties[1..], a, b, omit);
      } else {
        RepresentsUnique(h, p.value, a[0].value, b[0].value, omit);
        FieldsUnique(h, properties[1..], a[1..], b[1..], omit);
      }
    }
  }

  function Size(j: Json): nat
    decreases j
  {
    match j
    case JArray(items) => 1 + SizeItems(items)
    case JObject(_, fields) => 1 + SizeFields(fields)
    case _ => 1
  }

  function SizeItems(items: seq<Json>): (n: nat)
    ensures forall i | 0 <= i < |items| :: Size(items[i]) <= n
    decreases items
  {
    if items == [] then 0 else
      var rest := SizeItems(items[1..]);
      assert forall i | 0 < i < |items| :: items[i] == items[1..][i - 1];
      Size(items[0]) + rest
  }

  function SizeFields(fields: seq<Field>): nat
    decreases fields
  {
    if fields == [] then 0 else Size(fields[0].value) + SizeFields(fields[1..])
  }

  ghost predicate HasTree(h: Heap, v: Value, omit: bool) {
    exists j :: Represents(h, v, j, omit)
  }

  /** The trees of the ancestors, if they have any, are larger than that of `v`: so `v` is none of them. */
  ghost predicate Beneath(h: Heap, v: Value, ancestors: set<Ref>, omit: bool) {
    forall j, r, k | Represents(h, v, j, omit) && r in ancestors && Represents(h, Object(r), k, omit) ::
      Size(j) < Size(k)
  }

  /** A child of an object with a tree is below the object, and has a tree. */
  lemma ChildBelow(h: Heap, r: Ref, j: Json, c: Value, k: Json, ancestors: set<Ref>, omit: bool)
    requires Represents(h, Object(r), j, omit) && Represents(h, c, k, omit) && Size(k) < Size(j)
    requires Beneath(h, Object(r), ancestors, omit)
    ensures HasTree(h, c, omit) && Beneath(h, c, ancestors + {r}, omit)
  {
    hide Represents, Size;
    assert HasTree(h, c, omit);
    forall k', a, m | Represents(h, c, k', omit) && a in ancestors + {r} && Represents(h, Object(a), m, omit)
      ensures Size(k') < Size(m)
    {
      RepresentsUnique(h, c, k, k', omit);
      if a == r {
        RepresentsUnique(h, Object(r), j, m, omit);
      } else {
        BelowSizes(h, Object(r), j, a, m, ancestors, omit);
      }
    }
  }

  lemma NotBelowItself(h: Heap, r: Ref, ancestors: set<Ref>, omit: bool)
    requires r in ancestors && HasTree(h, Object(r), omit)
    ensures !Beneath(h, Object(r), ancestors, omit)
  {
    hide Represents, Size;
    var j :| Represents(h, Object(r), j, omit);
    if Beneath(h, Object(r), ancestors, omit) {
      BelowSizes(h, Object(r), j, r, j, ancestors, omit);
    }
  }

  lemma BelowSizes(h: Heap, v: Value, j: Json, r: Ref, k: Json, ancestors: set<Ref>, omit: bool)
    requires Beneath(h, v, ancestors, omit) && r in ancestors
    requires Represents(h, v, j, omit) && Represents(h, Object(r), k, omit)
    ensures Size(j) < Size(k)
  {
    hide Represents, Size;
  }

  /** Every property of an object with a tree is a plain named one; those kept are nested in the tree. */
  lemma {:induction false} FieldOf(h: Heap, properties: seq<(Key, Property)>, fields: seq<Field>, i: nat, omit: bool)
    returns (k: Json)
    requires RepresentsFields(h, properties, fields, omit) && i < |properties|
    ensures properties[i].0.Name? && Plain(properties[i].1)
    ensures !(omit && properties[i].1.value.Undefined?) ==>
              Represents(h, properties[i].1.value, k, omit) && Size(k) <= SizeFields(fields)
    decreases i
  {
    hide Represents, Size;
    k := JNull;
    var left := omit && properties[0].1.value.Undefined?;
    if i > 0 {
      k := FieldOf(h, properties[1..], if left then fields else fields[1..], i - 1, omit);
    } else if !left {
      k := fields[0].value;
    }
  }

  lemma {:induction false} FieldsMore(h: Heap, properties: seq<(Key, Property)>, fields: seq<Field>,
                                      next: (Key, Property), field: Option<Field>, omit: bool)
    requires RepresentsFields(h, properties, fields, omit) && next.0.Name? && Plain(next.1)
    requires field.None? <==> omit && next.1.value.Undefined?
    requires field.Some? ==> field.value.name == next.0.name && Represents(h, next.1.value, field.value.value, omit)
    ensures RepresentsFields(h, properties + [next], fields + (if field.Some? then [field.value] else []), omit)
    decreases |properties|
  {
    hide Represents;
    var more := fields + if field.Some? then [field.value] else [];
    if properties != [] {
      assert (properties + [next])[1..] == properties[1..] + [next];
      if omit && properties[0].1.value.Undefined? {
        FieldsMore(h, properties[1..], fields, next, field, omit);
      } else {
        FieldsMore(h, properties[1..], fields[1..], next, field, omit);
        assert more[1..] == fields[1..] + if field.Some? then [field.value] else [];
      }
    }
  }

  predicate Known(h: Heap, v: Value) {
    v.Object? ==> v.r in h
  }

  /** Every object a value of the graph refers to is in the heap, and every key of an object is a name or a symbol. */
  predicate Closed(h: Heap) {
    forall r | r in h ::
      match h[r]
      case ArrayNode(_, _, properties) =>
        forall k | k in properties && properties[k].Data? :: Known(h, properties[k].value)
      case ObjectNode(_, properties) =>
        forall i | 0 <= i < |properties| ::
          !properties[i].0.Index? && (properties[i].1.Data? ==> Known(h, properties[i].1.value))
  }

  // ---------------------------------------------------------------- the tree a copy is

  function Indices(n: nat): set<Key> {
    if n == 0 then {} else Indices(n - 1) + {Index(n - 1)}
  }

  lemma {:induction false} InIndices(n: nat)
    ensures |Indices(n)| == n && forall k :: k in Indices(n) <==> k.Index? && k.i < n
  {
    if n > 0 {
      InIndices(n - 1);
    }
  }

  /** How many objects and arrays a tree has */
  function Nodes(j: Json): nat
    decreases j
  {
    match j
    case JArray(items) => 1 + NodesItems(items)
    case JObject(_, fields) => 1 + NodesFields(fields)
    case _ => 0
  }

  function NodesItems(items: seq<Json>): nat
    decreases items
  {
    if items == [] then 0 else NodesItems(items[..|items| - 1]) + Nodes(items[|items| - 1])
  }

  function NodesFields(fields: seq<Field>): nat
    decreases fields
  {
    if fields == [] then 0 else NodesFields(fields[..|fields| - 1]) + Nodes(fields[|fields| - 1].value)
  }

  /**
   * `v` is the tree `j`, laid out from `at` on: its nodes are the `Nodes(j)` ones there, each after the one that holds
   * it, and the parts of a node follow one another.
   */
  predicate IsTree(h: Heap, v: Value, j: Json, at: nat)
    decreases j
  {
    match (v, j)
    case (Null, JNull) => true
    case (Bool(b), JBool(c)) => b == c
    case (Text(s), JText(t)) => s == t
    case (Number(m), JNumber(n)) => m == n
    case (Object(r), JArray(items)) =>
      && r == at && at in h && h[at].ArrayNode? && h[at].plain && h[at].length == |items|
      && Filled(h, at, h[at].properties, items)
    case (Object(r), JObject(prototype, fields)) =>
      && r == at && at in h && h[at].ObjectNode? && h[at].prototype == prototype != OtherPrototype
      && Named(h, at, h[at].members, fields)
    case _ => false
  }

  /** An array at `at` holds the trees `items`, or the first of its elements do. */
  predicate Filled(h: Heap, at: nat, properties: map<Key, Property>, items: seq<Json>)
    decreases items, 1
  {
    properties.Keys == Indices(|items|) && forall i | 0 <= i < |items| :: Item(h, at, properties, items, i)
  }

  predicate Item(h: Heap, at: nat, properties: map<Key, Property>, items: seq<Json>, i: nat)
    requires i < |items|
    decreases items, 0
  {
    && Index(i) in properties && Plain(properties[Index(i)])
    && IsTree(h, properties[Index(i)].value, items[i], at + 1 + NodesItems(items[..i]))
  }

  /** An object at `at` holds the trees `fields`, or the first of its members do. */
  predicate Named(h: Heap, at: nat, members: seq<(Key, Property)>, fields: seq<Field>)
    decreases fields, 1
  {
    |members| == |fields| && forall i | 0 <= i < |fields| :: Member(h, at, members, fields, i)
  }

  predicate Member(h: Heap, at: nat, members: seq<(Key, Property)>, fields: seq<Field>, i: nat)
    requires i < |fields| && |members| == |fields|
    decreases fields, 0
  {
    && members[i].0 == Name(fields[i].name) && Plain(members[i].1)
    && IsTree(h, members[i].1.value, fields[i].value, at + 1 + NodesFields(fields[..i]))
  }

  lemma {:induction false} ItemsBefore(items: seq<Json>, i: nat)
    requires i < |items|
    ensures NodesItems(items[..i]) + Nodes(items[i]) == NodesItems(items[..i + 1]) <= NodesItems(items)
  {
    hide Nodes;
    var n := |items| - 1;
    assert items[..i + 1][..i] == items[..i];
    if i < n {
      ItemsBefore(items[..n], i);
      assert items[..n][..i + 1] == items[..i + 1];
    } else {
      assert items[..n + 1] == items;
    }
  }

  lemma {:induction false} FieldsBefore(fields: seq<Field>, i: nat)
    requires i < |fields|
    ensures NodesFields(fields[..i]) + Nodes(fields[i].value) == NodesFields(fields[..i + 1]) <= NodesFields(fields)
  {
    hide Nodes;
    var n := |fields| - 1;
    assert fields[..i + 1][..i] == fields[..i];
    if i < n {
      FieldsBefore(fields[..n], i);
      assert fields[..n][..i + 1] == fields[..i + 1];
    } else {
      assert fields[..n + 1] == fields;
    }
  }

  /** `after` holds what `before` held between two addresses. */
  ghost predicate Kept(before: Heap, after: Heap, from: nat, to: nat) {
    forall r | r in before && from <= r < to :: r in after && after[r] == before[r]
  }

  /** A tree looks at its own nodes only. */
  lemma {:induction false} TreeKept(before: Heap, after: Heap, v: Value, j: Json, at: nat)
    requires IsTree(before, v, j, at) && Kept(before, after, at, at + Nodes(j))
    ensures IsTree(after, v, j, at)
    decreases j
  {
    hide Filled, Named;
    if j.JArray? {
      FilledKept(before, after, at, before[at].properties, j.items);
    } else if j.JObject? {
      NamedKept(before, after, at, before[at].members, j.fields);
    }
  }

  lemma {:induction false} FilledKept(before: Heap, after: Heap, at: nat, properties: map<Key, Property>,
                                      items: seq<Json>)
    requires Filled(before, at, properties, items) && Kept(before, after, at + 1, at + 1 + NodesItems(items))
    ensures Filled(after, at, properties, items)
    decreases items
  {
    hide IsTree, NodesItems, Nodes;
    forall i | 0 <= i < |items| ensures Item(after, at, properties, items, i) {
      assert Item(before, at, properties, items, i);
      ItemsBefore(items, i);
      TreeKept(before, after, properties[Index(i)].value, items[i], at + 1 + NodesItems(items[..i]));
    }
  }

  lemma {:induction false} NamedKept(before: Heap, after: Heap, at: nat, members: seq<(Key, Property)>,
                                     fields: seq<Field>)
    requires Named(before, at, members, fields) && Kept(before, after, at + 1, at + 1 + NodesFields(fields))
    ensures Named(after, at, members, fields)
    decreases fields
  {
    hide IsTree, NodesFields, Nodes;
    forall i | 0 <= i < |fields| ensures Member(after, at, members, fields, i) {
      assert Member(before, at, members, fields, i);
      FieldsBefore(fields, i);
      TreeKept(before, after, members[i].1.value, fields[i].value, at + 1 + NodesFields(fields[..i]));
    }
  }

  /** It stands for `j`, as strict JSON. */
  lemma {:induction false} TreeRepresents(h: Heap, v: Value, j: Json, at: nat)
    requires IsTree(h, v, j, at)
    ensures Represents(h, v, j, false)
    decreases j, 1
  {
    if j.JArray? {
      FilledRepresents(h, at, h[at].properties, j.items);
      InIndices(|j.items|);
    } else if j.JObject? {
      MembersRepresent(h, at, h[at].members, j.fields);
    }
  }

  predicate IsItem(properties: map<Key, Property>, i: nat) {
    Index(i) in properties && Plain(properties[Index(i)])
  }

  lemma {:induction false} FilledRepresents(h: Heap, at: nat, properties: map<Key, Property>, items: seq<Json>)
    requires Filled(h, at, properties, items)
    ensures |properties| == |items|
    ensures forall i | 0 <= i < |items| ::
              IsItem(properties, i) && Represents(h, properties[Index(i)].value, items[i], false)
    decreases items, 0
  {
    hide Represents, IsTree;
    InIndices(|items|);
    assert |properties| == |properties.Keys|;
    forall i | 0 <= i < |items|
      ensures IsItem(properties, i) && Represents(h, properties[Index(i)].value, items[i], false)
    {
      assert Item(h, at, properties, items, i);
      TreeRepresents(h, properties[Index(i)].value, items[i], at + 1 + NodesItems(items[..i]));
    }
  }

  lemma {:induction false} MembersRepresent(h: Heap, at: nat, members: seq<(Key, Property)>, fields: seq<Field>)
    requires Named(h, at, members, fields)
    ensures RepresentsFields(h, members, fields, false)
    decreases fields, 0
  {
    hide Represents, IsTree;
    forall i | 0 <= i < |fields|
      ensures IsMember(members[i], fields[i].name) && Represents(h, members[i].1.value, fields[i].value, false)
    {
      assert Member(h, at, members, fields, i);
      TreeRepresents(h, members[i].1.value, fields[i].value, at + 1 + NodesFields(fields[..i]));
    }
    AllRepresent(h, members, fields);
  }

  predicate IsMember(member: (Key, Property), name: string) {
    member.0 == Name(name) && Plain(member.1)
  }

  lemma {:induction false} AllRepresent(h: Heap, members: seq<(Key, Property)>, fields: seq<Field>)
    requires |members| == |fields|
    requires forall i | 0 <= i < |fields| ::
               IsMember(members[i], fields[i].name) && Represents(h, members[i].1.value, fields[i].value, false)
    ensures RepresentsFields(h, members, fields, false)
  {
    hide Represents;
    if members != [] {
      AllRepresent(h, members[1..], fields[1..]);
    }
  }

  lemma FilledMore(before: Heap, after: Heap, at: nat, properties: map<Key, Property>, items: seq<Json>, v: Value,
                   j: Json)
    requires Filled(before, at, properties, items) && Kept(before, after, at + 1, at + 1 + NodesItems(items))
    requires IsTree(after, v, j, at + 1 + NodesItems(items))
    ensures Filled(after, at, properties[Index(|items|) := Data(v, true)], items + [j])
    ensures NodesItems(items + [j]) == NodesItems(items) + Nodes(j)
  {
    hide Item, IsTree, Nodes;
    var all := items + [j];
    var more := properties[Index(|items|) := Data(v, true)];
    FilledKept(before, after, at, properties, items);
    assert all[..|items|] == items;
    forall i | 0 <= i < |all| ensures Item(after, at, more, all, i) {
      if i < |items| {
        ItemStill(after, at, properties, items, i, v, j);
      } else {
        ItemLast(after, at, properties, items, v, j);
      }
    }
    assert more.Keys == properties.Keys + {Index(|items|)};
  }

  lemma ItemStill(h: Heap, at: nat, properties: map<Key, Property>, items: seq<Json>, i: nat, v: Value, j: Json)
    requires i < |items| && Item(h, at, properties, items, i)
    ensures Item(h, at, properties[Index(|items|) := Data(v, true)], items + [j], i)
  {
    hide IsTree, NodesItems;
    assert (items + [j])[..i] == items[..i];
  }

  lemma ItemLast(h: Heap, at: nat, properties: map<Key, Property>, items: seq<Json>, v: Value, j: Json)
    requires IsTree(h, v, j, at + 1 + NodesItems(items))
    ensures Item(h, at, properties[Index(|items|) := Data(v, true)], items + [j], |items|)
  {
    hide IsTree, NodesItems;
    assert (items + [j])[..|items|] == items;
  }

  lemma NamedMore(before: Heap, after: Heap, at: nat, members: seq<(Key, Property)>, fields: seq<Field>, v: Value,
                  f: Field)
    requires Named(before, at, members, fields) && Kept(before, after, at + 1, at + 1 + NodesFields(fields))
    requires IsTree(after, v, f.value, at + 1 + NodesFields(fields))
    ensures Named(after, at, members + [(Name(f.name), Data(v, true))], fields + [f])
    ensures NodesFields(fields + [f]) == NodesFields(fields) + Nodes(f.value)
  {
    hide IsTree, Nodes;
    var all := fields + [f];
    var more := members + [(Name(f.name), Data(v, true))];
    NamedKept(before, after, at, members, fields);
    assert all[..|fields|] == fields;
    forall i | 0 <= i < |fields| ensures Member(after, at, more, all, i) {
      assert Member(after, at, members, fields, i) && all[..i] == fields[..i];
    }
    assert Member(after, at, more, all, |fields|);
  }

  // ---------------------------------------------------------------- a tree shares nothing

  /** The value of an element or a member */
  function Slot(n: Node, i: nat): Value {
    match n
    case ArrayNode(_, _, properties) =>
      if Index(i) in properties && properties[Index(i)].Data? then properties[Index(i)].value else Undefined
    case ObjectNode(_, members) => if i < |members| && members[i].1.Data? then members[i].1.value else Undefined
  }

  function Values(fields: seq<Field>): seq<Json> {
    seq(|fields|, i requires 0 <= i < |fields| => fields[i].value)
  }

  function Parts(j: Json): seq<Json> {
    if j.JArray? then j.items else if j.JObject? then Values(j.fields) else []
  }

  /** Where the `i`-th part of a tree at `at` begins */
  function PartAt(j: Json, at: nat, i: nat): nat
    requires i <= |Parts(j)|
  {
    at + 1 + NodesItems(Parts(j)[..i])
  }

  lemma {:induction false} NodesOfValues(fields: seq<Field>)
    ensures NodesFields(fields) == NodesItems(Values(fields))
  {
    hide Nodes;
    if fields != [] {
      var n := |fields| - 1;
      NodesOfValues(fields[..n]);
      assert Values(fields)[..n] == Values(fields[..n]);
    }
  }

  lemma NodesOfParts(j: Json)
    requires j.JArray? || j.JObject?
    ensures Nodes(j) == 1 + NodesItems(Parts(j))
  {
    hide NodesItems, NodesFields;
    if j.JObject? {
      NodesOfValues(j.fields);
    }
  }

  lemma PartIsTree(h: Heap, v: Value, j: Json, at: nat, i: nat)
    requires IsTree(h, v, j, at) && i < |Parts(j)|
    ensures at in h && IsTree(h, Slot(h[at], i), Parts(j)[i], PartAt(j, at, i))
  {
    hide NodesItems, NodesFields;
    if j.JArray? {
      assert Item(h, at, h[at].properties, j.items, i);
    } else {
      assert Member(h, at, h[at].members, j.fields, i);
      NodesOfValues(j.fields[..i]);
      assert Values(j.fields)[..i] == Values(j.fields[..i]);
    }
  }

  lemma SlotIsPart(h: Heap, v: Value, j: Json, at: nat, i: nat)
    requires IsTree(h, v, j, at) && v.Object? && Slot(h[at], i).Object?
    ensures i < |Parts(j)|
  {
    if j.JArray? {
      InIndices(|j.items|);
    }
  }

  lemma PartInside(j: Json, at: nat, i: nat)
    requires i < |Parts(j)|
    ensures at < PartAt(j, at, i) && PartAt(j, at, i) + Nodes(Parts(j)[i]) <= at + Nodes(j)
  {
    hide NodesItems, Nodes;
    NodesOfParts(j);
    ItemsBefore(Parts(j), i);
  }

  lemma PartsApart(j: Json, at: nat, i: nat, k: nat)
    requires i < k < |Parts(j)|
    ensures PartAt(j, at, i) + Nodes(Parts(j)[i]) <= PartAt(j, at, k)
  {
    hide NodesItems, Nodes;
    assert Parts(j)[..k][..i] == Parts(j)[..i];
    ItemsBefore(Parts(j)[..k], i);
  }

  /** The part a node other than the root belongs to */
  lemma {:induction false} PartOf(items: seq<Json>, x: nat) returns (i: nat)
    requires x < NodesItems(items)
    ensures i < |items| && NodesItems(items[..i]) <= x < NodesItems(items[..i]) + Nodes(items[i])
  {
    hide Nodes;
    var n := |items| - 1;
    if x < NodesItems(items[..n]) {
      i := PartOf(items[..n], x);
      assert items[..n][..i] == items[..i];
    } else {
      i := n;
    }
  }

  lemma RootAt(h: Heap, v: Value, j: Json, at: nat)
    requires IsTree(h, v, j, at)
    ensures v.Object? <==> j.JArray? || j.JObject?
    ensures v.Object? ==> v.r == at && at in h && Nodes(j) > 0
    ensures !v.Object? ==> Nodes(j) == 0
  {
  }

  /** A node of a tree holds only nodes of the tree that come after it. */
  lemma {:induction false} HoldsLater(h: Heap, v: Value, j: Json, at: nat, r: Ref, i: nat)
    requires IsTree(h, v, j, at) && at <= r < at + Nodes(j) && r in h && Slot(h[r], i).Object?
    ensures r < Slot(h[r], i).r < at + Nodes(j)
    decreases Nodes(j)
  {
    hide IsTree, Nodes, Slot, Parts, PartAt;
    RootAt(h, v, j, at);
    if r == at {
      SlotIsPart(h, v, j, at, i);
      PartIsTree(h, v, j, at, i);
      RootAt(h, Slot(h[at], i), Parts(j)[i], PartAt(j, at, i));
      PartInside(j, at, i);
    } else {
      var m := PartWith(j, at, r);
      PartIsTree(h, v, j, at, m);
      PartInside(j, at, m);
      HoldsLater(h, Slot(h[at], m), Parts(j)[m], PartAt(j, at, m), r, i);
    }
  }

  lemma PartWith(j: Json, at: nat, r: Ref) returns (m: nat)
    requires (j.JArray? || j.JObject?) && at < r < at + Nodes(j)
    ensures m < |Parts(j)| && PartAt(j, at, m) <= r < PartAt(j, at, m) + Nodes(Parts(j)[m])
  {
    hide Nodes, NodesItems, Parts;
    NodesOfParts(j);
    m := PartOf(Parts(j), r - at - 1);
  }

  /** A part of the root is held by nothing else. */
  lemma RootHolds(h: Heap, v: Value, j: Json, at: nat, i: nat, s: Ref, k: nat)
    requires IsTree(h, v, j, at) && at in h && Slot(h[at], i).Object?
    requires at <= s < at + Nodes(j) && s in h && Slot(h[s], k) == Slot(h[at], i)
    ensures s == at && k == i
  {
    hide IsTree, Nodes, Slot, Parts, PartAt;
    RootAt(h, v, j, at);
    SlotIsPart(h, v, j, at, i);
    PartIsTree(h, v, j, at, i);
    RootAt(h, Slot(h[at], i), Parts(j)[i], PartAt(j, at, i));
    if s == at {
      SlotIsPart(h, v, j, at, k);
      PartIsTree(h, v, j, at, k);
      RootAt(h, Slot(h[at], k), Parts(j)[k], PartAt(j, at, k));
      if i < k {
        PartsApart(j, at, i, k);
      } else if k < i {
        PartsApart(j, at, k, i);
      }
    } else {
      var m := PartWith(j, at, s);
      PartIsTree(h, v, j, at, m);
      HoldsLater(h, Slot(h[at], m), Parts(j)[m], PartAt(j, at, m), s, k);
      if i < m {
        PartsApart(j, at, i, m);
      } else if m < i {
        PartsApart(j, at, m, i);
      }
    }
  }

  /** No two places of a tree hold one object. */
  lemma {:induction false} HeldOnce(h: Heap, v: Value, j: Json, at: nat, r: Ref, i: nat, s: Ref, k: nat)
    requires IsTree(h, v, j, at) && at <= r < at + Nodes(j) && at <= s < at + Nodes(j) && r in h && s in h
    requires Slot(h[r], i).Object? && Slot(h[r], i) == Slot(h[s], k)
    ensures r == s && i == k
    decreases Nodes(j)
  {
    hide IsTree, Nodes, Slot, Parts, PartAt;
    RootAt(h, v, j, at);
    if r == at {
      RootHolds(h, v, j, at, i, s, k);
    } else if s == at {
      RootHolds(h, v, j, at, k, r, i);
    } else {
      var m := PartWith(j, at, r);
      var n := PartWith(j, at, s);
      PartIsTree(h, v, j, at, m);
      PartIsTree(h, v, j, at, n);
      PartInside(j, at, m);
      HoldsLater(h, Slot(h[at], m), Parts(j)[m], PartAt(j, at, m), r, i);
      HoldsLater(h, Slot(h[at], n), Parts(j)[n], PartAt(j, at, n), s, k);
      if m < n {
        PartsApart(j, at, m, n);
      } else if n < m {
        PartsApart(j, at, n, m);
      } else {
        HeldOnce(h, Slot(h[at], m), Parts(j)[m], PartAt(j, at, m), r, i, s, k);
      }
    }
  }

  /**
   * The nodes between `start` and `end` are what `v` leads to, without sharing: `v` is the first of them, they hold
   * only later ones, and no two places hold the same one.
   */
  ghost predicate AliasFree(h: Heap, v: Value, start: nat, end: nat) {
    && (if v.Object? then v.r == start < end else start == end)
    && (forall r, i | r in h && start <= r < end && Slot(h[r], i).Object? :: r < Slot(h[r], i).r < end)
    && (forall r, i, s, k | r in h && s in h && start <= r < end && start <= s < end && Slot(h[r], i).Object?
                            && Slot(h[s], k) == Slot(h[r], i) :: r == s && i == k)
  }

  lemma TreeAliasFree(h: Heap, v: Value, j: Json, at: nat)
    requires IsTree(h, v, j, at)
    ensures AliasFree(h, v, at, at + Nodes(j))
  {
    hide IsTree, Nodes, Slot;
    RootAt(h, v, j, at);
    forall r, i | r in h && at <= r < at + Nodes(j) && Slot(h[r], i).Object?
      ensures r < Slot(h[r], i).r < at + Nodes(j)
    {
      HoldsLater(h, v, j, at, r, i);
    }
    forall r, i, s, k | r in h && s in h && at <= r < at + Nodes(j) && at <= s < at + Nodes(j)
                        && Slot(h[r], i).Object? && Slot(h[s], k) == Slot(h[r], i)
      ensures r == s && i == k
    {
      HeldOnce(h, v, j, at, r, i, s, k);
    }
  }

  // ---------------------------------------------------------------- copying

  class JsonCopier {
    const h: Heap
    const omit: bool
    /** Where the copies begin */
    const free: nat
    /** The objects whose copy is not finished. */
    var ancestors: set<Ref>
    /** The graph and what was copied so far; nothing is there from `next` on. */
    var heap: Heap
    var next: nat

    ghost predicate Valid()
      reads this
    {
      Closed(h) && ancestors <= h.Keys && Below(h, free) && free <= next && Below(heap, next) && Kept(h, heap, 0, free)
    }

    /** Nothing that was there is touched. */
    twostate predicate Onward()
      reads this
    {
      ancestors == old(ancestors) && old(next) <= next && Kept(old(heap), heap, 0, old(next))
    }

    constructor (h: Heap, omit: bool, free: nat)
      requires Closed(h) && Below(h, free)
      ensures Valid() && this.h == h && this.omit == omit && this.free == free
      ensures ancestors == {} && heap == h && next == free
    {
      this.h, this.omit, this.free, ancestors, heap, next := h, omit, free, {}, h, free;
    }

    /** Copy the graph at `v`, which stands for `j`; `None` where the source throws. */
    method Copy(v: Value) returns (r: Option<Value>, ghost j: Json)
      requires Valid() && Known(h, v)
      modifies this
      ensures Valid() && Onward()
      ensures r.Some? ==> Represents(h, v, j, omit)
      ensures r.Some? ==> IsTree(heap, r.value, j, old(next)) && next == old(next) + Nodes(j)
      ensures HasTree(h, v, omit) && Beneath(h, v, old(ancestors), omit) ==> r.Some?
      decreases h.Keys - ancestors, 1
    {
      hide Filled, Named, Beneath, Closed;
      j := JNull;
      match v {
        case Null => r := Some(v);
        case Text(s) => r, j := Some(v), JText(s);
        case Bool(b) => r, j := Some(v), JBool(b);
        case Number(n) => r, j := Some(v), JNumber(n);
        case Object(o) =>
          hide Represents, IsTree, Nodes, HasTree;
          if o in ancestors {
            if HasTree(h, v, omit) {
              NotBelowItself(h, o, ancestors, omit);
            }
            return None, j;
          }
          assert ancestors + {o} - {o} == ancestors;
          ancestors := ancestors + {o};
          if h[o].ArrayNode? {
            r, j := CopyArray(o);
          } else {
            r, j := CopyObject(o);
          }
          ancestors := ancestors - {o};
        case _ => r := None;
      }
    }

    /** A new node */
    method Allocate(n: Node) returns (at: Ref)
      requires Valid()
      modifies this`heap, this`next
      ensures Valid() && Onward() && at == old(next) && next == at + 1 && heap == old(heap)[at := n]
    {
      hide Closed;
      at := next;
      heap := heap[at := n];
      next := next + 1;
    }

    /** The array at `at` holds the trees `items` so far. */
    ghost predicate ArrayAt(at: Ref, length: nat, items: seq<Json>)
      reads this
    {
      && free <= at && at in heap && heap[at].ArrayNode? && heap[at].plain && heap[at].length == length
      && Filled(heap, at, heap[at].properties, items) && next == at + 1 + NodesItems(items)
    }

    method CopyArray(o: Ref) returns (r: Option<Value>, ghost j: Json)
      requires Valid() && o in ancestors && h[o].ArrayNode?
      modifies this
      ensures Valid() && Onward()
      ensures r.Some? ==> Represents(h, Object(o), j, omit)
      ensures r.Some? ==> IsTree(heap, r.value, j, old(next)) && next == old(next) + Nodes(j)
      ensures HasTree(h, Object(o), omit) && Beneath(h, Object(o), old(ancestors) - {o}, omit) ==> r.Some?
      decreases h.Keys - ancestors, 3
    {
      j := JNull;
      var n := h[o];
      hide Filled, Named, Beneath, Closed, JsonCopier.Valid, HasTree;
      if !n.plain || |n.properties| != n.length {
        NotDense(h, o, omit);
        return None, j;
      }
      hide Represents, ItemFor, Plain;
      var at := Begin(ArrayNode(true, n.length, map[]));
      ghost var items: seq<Json> := [];
      for i := 0 to n.length
        invariant Valid() && Onward() && |items| == i && at == old(next) < next
        invariant ArrayAt(at, n.length, items)
        invariant forall k | 0 <= k < i :: ItemFor(h, n.properties, k, items[k], omit)
      {
        if Index(i) !in n.properties || !Plain(n.properties[Index(i)]) {
          NotAnItem(h, o, i, omit);
          return None, j;
        }
        var ok;
        ghost var k;
        ok, k := CopyItem(o, i, at, items);
        if !ok {
          return None, j;
        }
        items := items + [k];
      }
      r, j := Some(Object(at)), JArray(items);
      ItemsRepresent(h, o, items, omit);
    }

    lemma SourceClosed()
      requires Valid()
      ensures Closed(h) && ancestors <= h.Keys
    {
    }

    /** A new node without parts */
    method Begin(n: Node) returns (at: Ref)
      requires Valid() && if n.ArrayNode? then n.plain && n.properties == map[] else n.members == []
      modifies this`heap, this`next
      ensures Valid() && Onward() && at == old(next) < next
      ensures n.ArrayNode? ==> ArrayAt(at, n.length, [])
      ensures n.ObjectNode? ==> ObjectAt(at, n.prototype, [])
    {
      at := Allocate(n);
    }

    /** Copy the `i`-th element of `o` into the array at `at`. */
    method CopyItem(o: Ref, i: nat, at: Ref, ghost items: seq<Json>) returns (ok: bool, ghost k: Json)
      requires Valid() && o in ancestors && h[o].ArrayNode? && i < h[o].length && IsItem(h[o].properties, i)
      requires ArrayAt(at, h[o].length, items) && |items| == i
      modifies this
      ensures Valid() && ancestors == old(ancestors) && old(next) <= next && Kept(old(heap), heap, 0, at)
      ensures ok ==> Represents(h, h[o].properties[Index(i)].value, k, omit) && ArrayAt(at, h[o].length, items + [k])
      ensures HasTree(h, Object(o), omit) && Beneath(h, Object(o), ancestors - {o}, omit) ==> ok
      decreases h.Keys - ancestors, 2
    {
      ValueKnown(h, o, i);
      hide Filled, Beneath, Closed, HasTree, IsTree, Represents, Nodes, NodesItems;
      ghost var before := heap;
      var item;
      item, k := Copy(h[o].properties[Index(i)].value);
      if item.None? {
        ItemBelow(h, o, i, ancestors, omit);
        return false, k;
      }
      Fill(before, at, i, items, item.value, k);
      return true, k;
    }

    /** The node at `at` gets its next element. */
    method Fill(ghost before: Heap, at: Ref, i: nat, ghost items: seq<Json>, v: Value, ghost k: Json)
      requires Valid() && free <= at < next && at in before && before[at].ArrayNode? && before[at].plain && i == |items|
      requires Filled(before, at, before[at].properties, items) && Kept(before, heap, 0, at + 1 + NodesItems(items))
      requires IsTree(heap, v, k, at + 1 + NodesItems(items)) && next == at + 1 + NodesItems(items) + Nodes(k)
      modifies this`heap
      ensures Valid() && Kept(old(heap), heap, 0, at) && ArrayAt(at, before[at].length, items + [k])
    {
      hide Filled, Closed, IsTree, Nodes, NodesItems;
      var node := heap[at];
      var filled := node.(properties := node.properties[Index(i) := Data(v, true)]);
      TreeBeside(heap, at, filled, v, k, at + 1 + NodesItems(items));
      heap := heap[at := filled];
      FilledMore(before, heap, at, node.properties, items, v, k);
    }

    /** The object at `at` holds the trees `fields` so far. */
    ghost predicate ObjectAt(at: Ref, prototype: Prototype, fields: seq<Field>)
      reads this
    {
      && free <= at && at in heap && heap[at].ObjectNode? && heap[at].prototype == prototype
      && Named(heap, at, heap[at].members, fields) && next == at + 1 + NodesFields(fields)
    }

    method CopyObject(o: Ref) returns (r: Option<Value>, ghost j: Json)
      requires Valid() && o in ancestors && h[o].ObjectNode?
      modifies this
      ensures Valid() && Onward()
      ensures r.Some? ==> Represents(h, Object(o), j, omit)
      ensures r.Some? ==> IsTree(heap, r.value, j, old(next)) && next == old(next) + Nodes(j)
      ensures HasTree(h, Object(o), omit) && Beneath(h, Object(o), old(ancestors) - {o}, omit) ==> r.Some?
      decreases h.Keys - ancestors, 3
    {
      j := JNull;
      var n := h[o];
      hide Filled, Named, Beneath, Closed, JsonCopier.Valid, HasTree;
      if n.prototype == OtherPrototype {
        return None, j;
      }
      var at := Begin(ObjectNode(n.prototype, []));
      ghost var fields: seq<Field> := [];
      for i := 0 to |n.members|
        invariant Valid() && Onward() && at == old(next) < next
        invariant ObjectAt(at, n.prototype, fields)
        invariant RepresentsFields(h, n.members[..i], fields, omit)
      {
        hide Represents, RepresentsFields;
        var (key, p) := n.members[i];
        assert n.members[..i + 1] == n.members[..i] + [n.members[i]];
        SourceClosed();
        ValueKnown(h, o, i);
        if key.Symbol? || !Plain(p) {
          NotAField(h, o, i, omit);
          return None, j;
        }
        if p.value.Undefined? && omit {
          FieldsMore(h, n.members[..i], fields, n.members[i], None, omit);
          assert fields + [] == fields;
          continue;
        }
        var ok;
        ghost var k;
        ok, k := CopyMember(o, i, at, fields);
        if !ok {
          return None, j;
        }
        FieldsMore(h, n.members[..i], fields, n.members[i], Some(Field(key.name, k)), omit);
        fields := fields + [Field(key.name, k)];
      }
      assert n.members[..|n.members|] == n.members;
      r, j := Some(Object(at)), JObject(n.prototype, fields);
    }

    /** Copy the `i`-th member of `o` into the object at `at`. */
    method CopyMember(o: Ref, i: nat, at: Ref, ghost fields: seq<Field>) returns (ok: bool, ghost k: Json)
      requires Valid() && o in ancestors && h[o].ObjectNode? && i < |h[o].members| && Plain(h[o].members[i].1)
      requires h[o].members[i].0.Name? && !(omit && h[o].members[i].1.value.Undefined?)
      requires ObjectAt(at, h[o].prototype, fields)
      modifies this
      ensures Valid() && ancestors == old(ancestors) && old(next) <= next && Kept(old(heap), heap, 0, at)
      ensures ok ==> Represents(h, h[o].members[i].1.value, k, omit)
      ensures ok ==> ObjectAt(at, h[o].prototype, fields + [Field(h[o].members[i].0.name, k)])
      ensures HasTree(h, Object(o), omit) && Beneath(h, Object(o), ancestors - {o}, omit) ==> ok
      decreases h.Keys - ancestors, 2
    {
      ValueKnown(h, o, i);
      hide Named, Beneath, Closed, HasTree, IsTree, Represents, Nodes, NodesFields;
      ghost var before := heap;
      var value;
      value, k := Copy(h[o].members[i].1.value);
      if value.None? {
        FieldBelow(h, o, i, ancestors, omit);
        return false, k;
      }
      Define(before, at, h[o].members[i].0, fields, value.value, k);
      return true, k;
    }

    /** The node at `at` gets its next member. */
    method Define(ghost before: Heap, at: Ref, key: Key, ghost fields: seq<Field>, v: Value, ghost k: Json)
      requires Valid() && free <= at < next && at in before && before[at].ObjectNode? && key.Name?
      requires Named(before, at, before[at].members, fields) && Kept(before, heap, 0, at + 1 + NodesFields(fields))
      requires IsTree(heap, v, k, at + 1 + NodesFields(fields)) && next == at + 1 + NodesFields(fields) + Nodes(k)
      modifies this`heap
      ensures Valid() && Kept(old(heap), heap, 0, at)
              && ObjectAt(at, before[at].prototype, fields + [Field(key.name, k)])
    {
      hide Named, Closed, IsTree, Nodes, NodesFields;
      var node := heap[at];
      var longer := node.(members := node.members + [(key, Data(v, true))]);
      TreeBeside(heap, at, longer, v, k, at + 1 + NodesFields(fields));
      heap := heap[at := longer];
      NamedMore(before, heap, at, node.members, fields, v, Field(key.name, k));
    }
  }

  /** Nothing is at or after `end`. */
  ghost predicate Below(h: Heap, end: nat) {
    forall r | r in h :: r < end
  }

  lemma ValueKnown(h: Heap, o: Ref, i: nat)
    requires Closed(h) && o in h
    ensures h[o].ArrayNode? && IsItem(h[o].properties, i) ==> Known(h, h[o].properties[Index(i)].value)
    ensures h[o].ObjectNode? && i < |h[o].members| ==> !h[o].members[i].0.Index?
    ensures h[o].ObjectNode? && i < |h[o].members| && Plain(h[o].members[i].1) ==> Known(h, h[o].members[i].1.value)
  {
  }

  lemma NotDense(h: Heap, o: Ref, omit: bool)
    requires o in h && h[o].ArrayNode? && (!h[o].plain || |h[o].properties| != h[o].length)
    ensures !HasTree(h, Object(o), omit)
  {
  }

  lemma NotAnItem(h: Heap, o: Ref, i: nat, omit: bool)
    requires o in h && h[o].ArrayNode? && i < h[o].length && !IsItem(h[o].properties, i)
    ensures !HasTree(h, Object(o), omit)
  {
  }

  lemma ItemsRepresent(h: Heap, o: Ref, items: seq<Json>, omit: bool)
    requires o in h && h[o].ArrayNode? && h[o].plain && |h[o].properties| == h[o].length == |items|
    requires forall k | 0 <= k < |items| :: ItemFor(h, h[o].properties, k, items[k], omit)
    ensures Represents(h, Object(o), JArray(items), omit)
  {
    forall k | 0 <= k < |items|
      ensures IsItem(h[o].properties, k) && Represents(h, h[o].properties[Index(k)].value, items[k], omit)
    {
      assert ItemFor(h, h[o].properties, k, items[k], omit);
    }
  }

  ghost predicate ItemFor(h: Heap, properties: map<Key, Property>, k: nat, item: Json, omit: bool) {
    IsItem(properties, k) && Represents(h, properties[Index(k)].value, item, omit)
  }

  /** A tree does not change with a node before it. */
  lemma TreeBeside(h: Heap, at: nat, n: Node, v: Value, j: Json, start: nat)
    requires IsTree(h, v, j, start) && at < start
    ensures IsTree(h[at := n], v, j, start)
  {
    TreeKept(h, h[at := n], v, j, start);
  }

  lemma NotAField(h: Heap, o: Ref, i: nat, omit: bool)
    requires o in h && h[o].ObjectNode? && i < |h[o].members|
    requires !(h[o].members[i].0.Name? && Plain(h[o].members[i].1))
    ensures !HasTree(h, Object(o), omit)
  {
    if j :| Represents(h, Object(o), j, omit) {
      var k := FieldOf(h, h[o].members, j.fields, i, omit);
    }
  }

  lemma ItemBelow(h: Heap, o: Ref, i: nat, ancestors: set<Ref>, omit: bool)
    requires o in h && o in ancestors && h[o].ArrayNode? && i < h[o].length
    requires Index(i) in h[o].properties && h[o].properties[Index(i)].Data?
    ensures HasTree(h, Object(o), omit) && Beneath(h, Object(o), ancestors - {o}, omit) ==>
              && HasTree(h, h[o].properties[Index(i)].value, omit)
              && Beneath(h, h[o].properties[Index(i)].value, ancestors, omit)
  {
    assert o in ancestors ==> ancestors - {o} + {o} == ancestors;
    if HasTree(h, Object(o), omit) && Beneath(h, Object(o), ancestors - {o}, omit) {
      var j :| Represents(h, Object(o), j, omit);
      ChildBelow(h, o, j, h[o].properties[Index(i)].value, j.items[i], ancestors - {o}, omit);
    }
  }

  lemma FieldBelow(h: Heap, o: Ref, i: nat, ancestors: set<Ref>, omit: bool)
    requires o in h && o in ancestors && h[o].ObjectNode? && i < |h[o].members| && h[o].members[i].1.Data?
    requires !(omit && h[o].members[i].1.value.Undefined?)
    ensures HasTree(h, Object(o), omit) && Beneath(h, Object(o), ancestors - {o}, omit) ==>
              HasTree(h, h[o].members[i].1.value, omit) && Beneath(h, h[o].members[i].1.value, ancestors, omit)
  {
    if HasTree(h, Object(o), omit) && Beneath(h, Object(o), ancestors - {o}, omit) {
      var j :| Represents(h, Object(o), j, omit);
      var k := FieldOf(h, h[o].members, j.fields, i, omit);
      ChildBelow(h, o, j, h[o].members[i].1.value, k, ancestors - {o}, omit);
      assert ancestors - {o} + {o} == ancestors;
    }
  }

  /**
   * `copyJson`; nothing is allocated from `free` on. The copy is made of new nodes only, as a tree, and the graph stays
   * as it was.
   */
  method CopyJson(h: Heap, v: Value, omit: bool, free: nat) returns (r: Option<Value>, after: Heap, ghost j: Json)
    requires Closed(h) && Known(h, v) && Below(h, free)
    ensures r.Some? <==> HasTree(h, v, omit)
    ensures r.Some? ==> Represents(h, v, j, omit) && Represents(after, r.value, j, false)
    ensures r.Some? ==> IsTree(after, r.value, j, free) && AliasFree(after, r.value, free, free + Nodes(j))
    ensures forall r | r in h :: r in after && after[r] == h[r]
  {
    var copier := new JsonCopier(h, omit, free);
    r, j := copier.Copy(v);
    after := copier.heap;
    if r.Some? {
      TreeRepresents(after, r.value, j, free);
      TreeAliasFree(after, r.value, j, free);
    }
  }

  // ---------------------------------------------------------------- checking

  /** A dense array has no other key, so no symbol: the one test that only `check` makes adds nothing. */
  lemma DenseHasNoSymbol(n: Node, k: Key)
    requires n.ArrayNode? && Dense(n) && k in n.properties
    ensures k.Index? && k.i < n.length
  {
    InIndices(n.length);
    if k !in Indices(n.length) {
      var more := Indices(n.length) + {k};
      assert more <= n.properties.Keys;
      SmallerSet(more, n.properties.Keys);
    }
  }

  lemma SmallerSet<T>(a: set<T>, b: set<T>)
    requires a <= b
    ensures |a| <= |b|
  {
    assert b == a + (b - a);
  }

  class JsonChecker {
    const h: Heap
    var ancestors: set<Ref>

    constructor (h: Heap)
      ensures this.h == h && ancestors == {}
    {
      this.h, ancestors := h, {};
    }

    /** Whether the graph at `v` is strict JSON; `j` is the tree it stands for. */
    method Check(v: Value) returns (ok: bool, ghost j: Json)
      requires Closed(h) && Known(h, v) && ancestors <= h.Keys
      modifies this
      ensures ancestors == old(ancestors)
      ensures ok ==> Represents(h, v, j, false)
      ensures HasTree(h, v, false) && Beneath(h, v, old(ancestors), false) ==> ok
      decreases h.Keys - ancestors, 1
    {
      j := JNull;
      match v {
        case Null => ok := true;
        case Text(s) => ok, j := true, JText(s);
        case Bool(b) => ok, j := true, JBool(b);
        case Number(n) => ok, j := true, JNumber(n);
        case Object(o) =>
          if h[o].ArrayNode? {
            ok, j := CheckArray(o);
          } else {
            ok, j := CheckObject(o);
          }
        case _ => ok := false;
      }
    }

    method CheckArray(o: Ref) returns (ok: bool, ghost j: Json)
      requires Closed(h) && o in h && ancestors <= h.Keys && h[o].ArrayNode?
      modifies this
      ensures ancestors == old(ancestors)
      ensures ok ==> Represents(h, Object(o), j, false)
      ensures HasTree(h, Object(o), false) && Beneath(h, Object(o), old(ancestors), false) ==> ok
      decreases h.Keys - ancestors, 0
    {
      j := JNull;
      var n := h[o];
      if !n.plain || |n.properties| != n.length || exists k :: k in n.properties && k.Symbol? {
        NoSymbols(h, o);
        return false, j;
      }
      if o in ancestors {
        if HasTree(h, Object(o), false) {
          NotBelowItself(h, o, ancestors, false);
        }
        return false, j;
      }
      assert ancestors + {o} - {o} == ancestors;
      ancestors := ancestors + {o};
      ghost var items: seq<Json> := [];
      for i := 0 to n.length
        invariant ancestors == old(ancestors) + {o}
        invariant |items| == i
        invariant forall k | 0 <= k < i :: Index(k) in n.properties && Plain(n.properties[Index(k)])
        invariant forall k | 0 <= k < i :: Represents(h, n.properties[Index(k)].value, items[k], false)
      {
        if Index(i) !in n.properties || !Plain(n.properties[Index(i)]) {
          ancestors := ancestors - {o};
          return false, j;
        }
        ghost var item;
        ok, item := Check(n.properties[Index(i)].value);
        if !ok {
          ItemBelow(h, o, i, ancestors, false);
          ancestors := ancestors - {o};
          return false, j;
        }
        items := items + [item];
      }
      ancestors := ancestors - {o};
      return true, JArray(items);
    }

    method CheckObject(o: Ref) returns (ok: bool, ghost j: Json)
      requires Closed(h) && o in h && ancestors <= h.Keys && h[o].ObjectNode?
      modifies this
      ensures ancestors == old(ancestors)
      ensures ok ==> Represents(h, Object(o), j, false)
      ensures HasTree(h, Object(o), false) && Beneath(h, Object(o), old(ancestors), false) ==> ok
      decreases h.Keys - ancestors, 0
    {
      j := JNull;
      var n := h[o];
      if n.prototype == OtherPrototype {
        return false, j;
      }
      if exists i :: 0 <= i < |n.members| && n.members[i].0.Symbol? {
        ghost var i :| 0 <= i < |n.members| && n.members[i].0.Symbol?;
        NotAField(h, o, i, false);
        return false, j;
      }
      if o in ancestors {
        if HasTree(h, Object(o), false) {
          NotBelowItself(h, o, ancestors, false);
        }
        return false, j;
      }
      assert ancestors + {o} - {o} == ancestors;
      ancestors := ancestors + {o};
      ghost var fields: seq<Field> := [];
      for i := 0 to |n.members|
        invariant ancestors == old(ancestors) + {o}
        invariant RepresentsFields(h, n.members[..i], fields, false)
      {
        var p := n.members[i].1;
        assert n.members[..i + 1] == n.members[..i] + [n.members[i]];
        if !Plain(p) {
          NotAField(h, o, i, false);
          ancestors := ancestors - {o};
          return false, j;
        }
        ghost var value;
        ok, value := Check(p.value);
        if !ok {
          FieldBelow(h, o, i, ancestors, false);
          ancestors := ancestors - {o};
          return false, j;
        }
        FieldsMore(h, n.members[..i], fields, n.members[i], Some(Field(n.members[i].0.name, value)), false);
        fields := fields + [Field(n.members[i].0.name, value)];
      }
      assert n.members[..|n.members|] == n.members;
      ancestors := ancestors - {o};
      return true, JObject(n.prototype, fields);
    }
  }

  lemma NoSymbols(h: Heap, o: Ref)
    requires o in h && h[o].ArrayNode?
    requires !h[o].plain || |h[o].properties| != h[o].length || exists k :: k in h[o].properties && k.Symbol?
    ensures !HasTree(h, Object(o), false)
  {
    if Dense(h[o]) {
      var k :| k in h[o].properties && k.Symbol?;
      DenseHasNoSymbol(h[o], k);
    }
  }

  /** `isJsonValue` */
  method IsJsonValue(h: Heap, v: Value) returns (ok: bool)
    requires Closed(h) && Known(h, v)
    ensures ok <==> HasTree(h, v, false)
  {
    var checker := new JsonChecker(h);
    ghost var j;
    ok, j := checker.Check(v);
  }

  /** An object that is its own descendant, along any properties, stands for no tree. */
  lemma {:induction false} CycleHasNoTree(h: Heap, path: seq<Ref>, omit: bool)
    requires |path| > 1 && path[0] == path[|path| - 1]
    requires forall i | 0 <= i < |path| - 1 :: path[i] in h && IsChild(h, path[i], path[i + 1])
    ensures !HasTree(h, Object(path[0]), omit)
  {
    if j :| Represents(h, Object(path[0]), j, omit) {
      var k := Descends(h, path, j, omit);
      RepresentsUnique(h, Object(path[0]), j, k, omit);
    }
  }

  /** `c` is the value of a property of `r`. */
  predicate IsChild(h: Heap, r: Ref, c: Ref)
    requires r in h
  {
    match h[r]
    case ArrayNode(_, _, properties) => exists k :: k in properties && properties[k] == Data(Object(c), true)
    case ObjectNode(_, properties) => exists i :: 0 <= i < |properties| && properties[i].1 == Data(Object(c), true)
  }

  lemma {:induction false} Descends(h: Heap, path: seq<Ref>, j: Json, omit: bool) returns (k: Json)
    requires |path| > 1 && Represents(h, Object(path[0]), j, omit)
    requires forall i | 0 <= i < |path| - 1 :: path[i] in h && IsChild(h, path[i], path[i + 1])
    ensures Represents(h, Object(path[|path| - 1]), k, omit) && Size(k) < Size(j)
    decreases |path|
  {
    var c := path[1];
    assert IsChild(h, path[0], c);
    match h[path[0]] {
      case ArrayNode(_, _, properties) =>
        var key :| key in properties && properties[key] == Data(Object(c), true);
        DenseHasNoSymbol(h[path[0]], key);
        k := j.items[key.i];
      case ObjectNode(_, properties) =>
        var i :| 0 <= i < |properties| && properties[i].1 == Data(Object(c), true);
        k := FieldOf(h, properties, j.fields, i, omit);
    }
    if |path| > 2 {
      k := Descends(h, path[1..], k, omit);
    }
  }

  // ---------------------------------------------------------------- which graphs stand for a tree

  /** A value that is no object, or one whose tree depends on the object only */
  predicate OkValue(v: Value) {
    !v.NonFinite? && !v.Undefined? && !v.Other?
  }

  predicate OkMember(member: (Key, Property), omit: bool) {
    member.0.Name? && Plain(member.1) && ((omit && member.1.value.Undefined?) || OkValue(member.1.value))
  }

  /** What strict JSON asks of one node, whatever its objects lead to */
  predicate OkNode(h: Heap, r: Ref, omit: bool) {
    r in h &&
    match h[r]
    case ArrayNode(_, length, properties) =>
      Dense(h[r]) && forall i | 0 <= i < length :: OkValue(properties[Index(i)].value)
    case ObjectNode(prototype, members) =>
      prototype != OtherPrototype && forall i | 0 <= i < |members| :: OkMember(members[i], omit)
  }

  /** Each object holds the next. */
  ghost predicate IsWalk(h: Heap, walk: seq<Ref>) {
    forall i | 0 <= i < |walk| - 1 :: walk[i] in h && IsChild(h, walk[i], walk[i + 1])
  }

  predicate Distinct(walk: seq<Ref>) {
    forall i, j | 0 <= i < j < |walk| :: walk[i] != walk[j]
  }

  /** Every object `root` leads to is a strict node, and no way from `root` passes an object twice. */
  ghost predicate OkGraph(h: Heap, root: Ref, omit: bool) {
    forall walk | walk != [] && walk[0] == root && IsWalk(h, walk) ::
      OkNode(h, walk[|walk| - 1], omit) && Distinct(walk)
  }

  /** A graph stands for a tree exactly when all that it leads to is strict and nothing leads back to itself. */
  lemma HasTreeIff(h: Heap, v: Value, omit: bool)
    ensures HasTree(h, v, omit) <==> OkValue(v) && (v.Object? ==> OkGraph(h, v.r, omit))
  {
    hide IsWalk, OkNode, OkGraph;
    if HasTree(h, v, omit) && v.Object? {
      TreeIsOk(h, v.r, omit);
    }
    if OkValue(v) {
      match v {
        case Null => assert Represents(h, v, JNull, omit);
        case Bool(b) => assert Represents(h, v, JBool(b), omit);
        case Text(s) => assert Represents(h, v, JText(s), omit);
        case Number(n) => assert Represents(h, v, JNumber(n), omit);
        case Object(r) =>
          if OkGraph(h, r, omit) {
            OneWalk(h, r);
            OkHasTree(h, [r], omit);
          }
      }
    }
  }

  lemma OneWalk(h: Heap, r: Ref)
    ensures IsWalk(h, [r])
  {
  }

  /** A tree's objects have trees. */
  lemma {:induction false} WalkDescends(h: Heap, walk: seq<Ref>, omit: bool)
    requires walk != [] && IsWalk(h, walk) && HasTree(h, Object(walk[0]), omit)
    ensures HasTree(h, Object(walk[|walk| - 1]), omit)
  {
    if |walk| > 1 {
      var j :| Represents(h, Object(walk[0]), j, omit);
      var k := Descends(h, walk, j, omit);
    }
  }

  lemma TreeIsOk(h: Heap, root: Ref, omit: bool)
    requires HasTree(h, Object(root), omit)
    ensures OkGraph(h, root, omit)
  {
    hide HasTree, OkNode;
    forall walk | walk != [] && walk[0] == root && IsWalk(h, walk)
      ensures OkNode(h, walk[|walk| - 1], omit) && Distinct(walk)
    {
      WalkDescends(h, walk, omit);
      TreeNodeOk(h, walk[|walk| - 1], omit);
      forall i, j | 0 <= i < j < |walk| ensures walk[i] != walk[j] {
        WalkDescends(h, walk[..i + 1], omit);
        if walk[i] == walk[j] {
          CycleHasNoTree(h, walk[i..j + 1], omit);
        }
      }
    }
  }

  lemma TreeNodeOk(h: Heap, r: Ref, omit: bool)
    requires HasTree(h, Object(r), omit)
    ensures OkNode(h, r, omit)
  {
    var j :| Represents(h, Object(r), j, omit);
    match h[r]
    case ArrayNode(_, length, properties) =>
      assert forall i | 0 <= i < length :: Represents(h, properties[Index(i)].value, j.items[i], omit);
    case ObjectNode(_, members) =>
      forall i | 0 <= i < |members| ensures OkMember(members[i], omit) {
        var k := FieldOf(h, members, j.fields, i, omit);
      }
  }

  lemma {:induction false} DistinctRefs(walk: seq<Ref>, refs: set<Ref>)
    requires Distinct(walk) && forall r | r in walk :: r in refs
    ensures |walk| <= |refs|
  {
    if walk != [] {
      var n := |walk| - 1;
      DistinctRefs(walk[..n], refs - {walk[n]});
    }
  }

  /** Walk on until nothing new is left: a strict graph without ways back stands for a tree. */
  lemma {:induction false} OkHasTree(h: Heap, walk: seq<Ref>, omit: bool)
    requires walk != [] && IsWalk(h, walk) && OkGraph(h, walk[0], omit)
    ensures HasTree(h, Object(walk[|walk| - 1]), omit)
    decreases |h.Keys| - |walk|, 1
  {
    hide IsWalk, OkGraph, Represents, RepresentsFields, HasTree;
    var r := walk[|walk| - 1];
    WalkOk(h, walk, omit);
    if h[r].ArrayNode? {
      forall i | 0 <= i < h[r].length ensures HasTree(h, h[r].properties[Index(i)].value, omit) {
        var c := h[r].properties[Index(i)].value;
        assert c.Object? ==> IsChild(h, r, c.r);
        ChildHasTree(h, walk, c, omit);
      }
      ArrayHasTree(h, r, omit);
    } else {
      var members := h[r].members;
      forall i | 0 <= i < |members|
        ensures OkMember(members[i], omit)
        ensures (omit && members[i].1.value.Undefined?) || HasTree(h, members[i].1.value, omit)
      {
        var c := members[i].1.value;
        if !(omit && c.Undefined?) {
          assert c.Object? ==> members[i].1 == Data(Object(c.r), true) && IsChild(h, r, c.r);
          ChildHasTree(h, walk, c, omit);
        }
      }
      MembersHaveFields(h, members, omit);
      ObjectHasTree(h, r, omit);
    }
  }

  lemma WalkOk(h: Heap, walk: seq<Ref>, omit: bool)
    requires walk != [] && IsWalk(h, walk) && OkGraph(h, walk[0], omit)
    ensures OkNode(h, walk[|walk| - 1], omit) && |walk| <= |h.Keys|
  {
    forall r | r in walk ensures r in h.Keys {
      var i :| 0 <= i < |walk| && walk[i] == r;
      assert IsWalk(h, walk[..i + 1]);
    }
    DistinctRefs(walk, h.Keys);
  }

  lemma {:induction false} ChildHasTree(h: Heap, walk: seq<Ref>, c: Value, omit: bool)
    requires walk != [] && IsWalk(h, walk) && OkGraph(h, walk[0], omit) && OkValue(c)
    requires walk[|walk| - 1] in h && (c.Object? ==> IsChild(h, walk[|walk| - 1], c.r))
    ensures HasTree(h, c, omit)
    decreases |h.Keys| - |walk|, 0
  {
    match c {
      case Null => assert Represents(h, c, JNull, omit);
      case Bool(b) => assert Represents(h, c, JBool(b), omit);
      case Text(s) => assert Represents(h, c, JText(s), omit);
      case Number(n) => assert Represents(h, c, JNumber(n), omit);
      case Object(r) =>
        hide OkGraph, Represents;
        var longer := walk + [r];
        assert IsWalk(h, longer);
        WalkOk(h, longer, omit);
        OkHasTree(h, longer, omit);
    }
  }

  /** The tree of a graph that has one */
  ghost function TreeOf(h: Heap, v: Value, omit: bool): (j: Json)
    requires HasTree(h, v, omit)
    ensures Represents(h, v, j, omit)
  {
    var j :| Represents(h, v, j, omit);
    j
  }

  lemma ArrayHasTree(h: Heap, r: Ref, omit: bool)
    requires OkNode(h, r, omit) && h[r].ArrayNode?
    requires forall i | 0 <= i < h[r].length :: HasTree(h, h[r].properties[Index(i)].value, omit)
    ensures HasTree(h, Object(r), omit)
  {
    hide HasTree;
    var n := h[r];
    assert Dense(n);
    var items := seq(n.length, i requires 0 <= i < n.length => TreeOf(h, n.properties[Index(i)].value, omit));
    assert Represents(h, Object(r), JArray(items), omit);
    Represented(h, Object(r), JArray(items), omit);
  }

  lemma Represented(h: Heap, v: Value, j: Json, omit: bool)
    requires Represents(h, v, j, omit)
    ensures HasTree(h, v, omit)
  {
  }

  ghost predicate HasFields(h: Heap, members: seq<(Key, Property)>, omit: bool) {
    exists fields :: RepresentsFields(h, members, fields, omit)
  }

  lemma {:induction false} MembersHaveFields(h: Heap, members: seq<(Key, Property)>, omit: bool)
    requires forall i | 0 <= i < |members| ::
               OkMember(members[i], omit)
                 && ((omit && members[i].1.value.Undefined?) || HasTree(h, members[i].1.value, omit))
    ensures HasFields(h, members, omit)
  {
    hide HasTree, Represents;
    if members == [] {
      assert RepresentsFields(h, members, [], omit);
    } else {
      MembersHaveFields(h, members[1..], omit);
      var (key, p) := members[0];
      var rest :| RepresentsFields(h, members[1..], rest, omit);
      assert OkMember(members[0], omit);
      if omit && p.value.Undefined? {
        assert RepresentsFields(h, members, rest, omit);
      } else {
        var fields := [Field(key.name, TreeOf(h, p.value, omit))] + rest;
        assert fields[1..] == rest;
        assert RepresentsFields(h, members, fields, omit);
      }
    }
  }

  lemma ObjectHasTree(h: Heap, r: Ref, omit: bool)
    requires OkNode(h, r, omit) && h[r].ObjectNode? && HasFields(h, h[r].members, omit)
    ensures HasTree(h, Object(r), omit)
  {
    hide RepresentsFields;
    var fields :| RepresentsFields(h, h[r].members, fields, omit);
    assert Represents(h, Object(r), JObject(h[r].prototype, fields), omit);
  }
}
